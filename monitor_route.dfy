/** The system monitor websocket (`/ws/system`): a connection list that
    joins on connect, leaves on disconnect and is broadcast to, and a
    command responder that answers each received text with one frame.
    Websockets are opaque connection ids; whether a send succeeds is a
    parameter. */
module MonitorRoute {
  import opened Wrappers
  import opened Text

  /** An accepted websocket, identified by the server. */
  type ConnId = nat

  const STATUS_TEXT: string := "All systems operational. AI Core: ONLINE. Database: CONNECTED."
  const ECHO_PREFIX: string := "Echo: "
  const UNKNOWN_PREFIX: string := "Unknown command: "

  /** The frames the command loop sends back. */
  datatype Response = Pong | TerminalResponse(content: string)

  /** Python's `s[k:]` for `k >= 0`: empty once `k` reaches the length. */
  function DropPrefix(s: string, k: nat): (r: string)
    ensures |r| == if k < |s| then |s| - k else 0
    ensures forall i :: 0 <= i < |r| ==> r[i] == s[k + i]
  {
    if k < |s| then s[k..] else ""
  }

  /** The if-chain of `websocket_endpoint` on one received text. */
  function Respond(data: string): (r: Response)
    ensures r.Pong? <==> data == "ping"
    ensures data == "status" ==> r == TerminalResponse(STATUS_TEXT)
    ensures data != "ping" && data != "status" && StartsWith(data, "echo") ==>
      r == TerminalResponse(ECHO_PREFIX + DropPrefix(data, 5))
    ensures data != "ping" && data != "status" && !StartsWith(data, "echo") ==>
      r == TerminalResponse(UNKNOWN_PREFIX + data)
  {
    if data == "ping" then Pong
    else if data == "status" then TerminalResponse(STATUS_TEXT)
    else if StartsWith(data, "echo") then TerminalResponse(ECHO_PREFIX + DropPrefix(data, 5))
    else TerminalResponse(UNKNOWN_PREFIX + data)
  }

  /** `echo <text>` echoes `<text>` back exactly. */
  lemma EchoRoundTrip(text: string)
    ensures Respond("echo " + text) == TerminalResponse(ECHO_PREFIX + text)
  {
    var data := "echo " + text;
    assert data[..4] == "echo";
    assert data != "ping" && data != "status" by {
      assert data[0] == 'e';
    }
    assert DropPrefix(data, 5) == text;
  }

  /** A bare `echo`, or `echo` plus one character, echoes nothing. */
  lemma ShortEchoIsEmpty(data: string)
    requires StartsWith(data, "echo") && |data| <= 5
    ensures Respond(data) == TerminalResponse(ECHO_PREFIX)
  {
    assert data[0] == 'e';
    assert ECHO_PREFIX + "" == ECHO_PREFIX;
  }

  /** An unknown command is quoted back in full after the fixed prefix, so
      the reply tells the commands apart. */
  lemma UnknownQuotesCommand(a: string, b: string)
    requires Respond(a).TerminalResponse? && Respond(b).TerminalResponse?
    requires !StartsWith(a, "echo") && !StartsWith(b, "echo") && a != "status" && b != "status"
    requires a != b
    ensures Respond(a) != Respond(b)
  {
    var ca := Respond(a).content;
    var cb := Respond(b).content;
    assert ca[|UNKNOWN_PREFIX|..] == a;
    assert cb[|UNKNOWN_PREFIX|..] == b;
  }

  /** The JSON frame of a response, as `{"type": …, "content": …}`. */
  function Encode(r: Response): (obj: map<string, string>)
    ensures "type" in obj
    ensures "content" in obj <==> r.TerminalResponse?
  {
    match r
    case Pong => map["type" := "pong"]
    case TerminalResponse(content) => map["type" := "terminal_response", "content" := content]
  }

  /** A reader of frames. No client in the system is modelled here; this
      reader exists only to show, through `EncodeRoundTrip`, that distinct
      responses are sent as distinct frames. */
  function Decode(obj: map<string, string>): (r: Option<Response>)
    ensures r.Some? ==> "type" in obj
  {
    if "type" !in obj then None
    else if obj["type"] == "pong" then Some(Pong)
    else if obj["type"] == "terminal_response" && "content" in obj then Some(TerminalResponse(obj["content"]))
    else None
  }

  /** The frames can be told apart: each determines the response it encodes. */
  lemma EncodeRoundTrip(r: Response)
    ensures Decode(Encode(r)) == Some(r)
  {
  }

  /** The receive loop of `websocket_endpoint` up to the disconnect: every
      received text is answered by exactly one frame, in order. */
  method AnswerAll(received: seq<string>) returns (sent: seq<Response>)
    ensures |sent| == |received|
    ensures forall i :: 0 <= i < |received| ==> sent[i] == Respond(received[i])
  {
    sent := [];
    for k := 0 to |received|
      invariant |sent| == k
      invariant forall i :: 0 <= i < k ==> sent[i] == Respond(received[i])
    {
      sent := sent + [Respond(received[k])];
    }
  }

  /** `list.remove(x)`: the list without the first occurrence of `x`. */
  function RemoveFirst(s: seq<ConnId>, x: ConnId): (r: seq<ConnId>)
    ensures x !in s ==> r == s
    ensures x in s ==> |r| == |s| - 1
  {
    if s == [] then []
    else
      assert x in s ==> s[0] == x || x in s[1..];
      if s[0] == x then s[1..] else [s[0]] + RemoveFirst(s[1..], x)
  }

  /** `remove` takes away one copy of `x` and nothing else. */
  lemma {:induction false} RemoveFirstRemovesOne(s: seq<ConnId>, x: ConnId)
    requires x in s
    ensures multiset(RemoveFirst(s, x)) == multiset(s) - multiset{x}
  {
    assert s == [s[0]] + s[1..];
    if s[0] != x {
      RemoveFirstRemovesOne(s[1..], x);
    }
  }

  /** The index of the first occurrence of `x`. */
  function FirstIndex(s: seq<ConnId>, x: ConnId): (i: nat)
    requires x in s
    ensures i < |s| && s[i] == x
    ensures forall j :: 0 <= j < i ==> s[j] != x
  {
    if s[0] == x then 0 else 1 + FirstIndex(s[1..], x)
  }

  /** `remove` cuts out exactly the first occurrence and keeps the others in order. */
  lemma {:induction false} RemoveFirstCutsFirst(s: seq<ConnId>, x: ConnId)
    requires x in s
    ensures RemoveFirst(s, x) == s[..FirstIndex(s, x)] + s[FirstIndex(s, x) + 1..]
  {
    if s[0] == x {
      assert s[..0] == [];
    } else {
      var t := s[1..];
      RemoveFirstCutsFirst(t, x);
      var i := FirstIndex(t, x);
      assert FirstIndex(s, x) == i + 1;
      assert s[..i + 1] == [s[0]] + t[..i];
      assert s[i + 2..] == t[i + 1..];
      assert [s[0]] + (t[..i] + t[i + 1..]) == ([s[0]] + t[..i]) + t[i + 1..];
    }
  }

  /** Joining and then leaving gives the list back when the id was not already there. */
  lemma {:induction false} ConnectThenDisconnect(s: seq<ConnId>, x: ConnId)
    requires x !in s
    ensures RemoveFirst(s + [x], x) == s
  {
    if s != [] {
      assert (s + [x])[1..] == s[1..] + [x];
      ConnectThenDisconnect(s[1..], x);
    } else {
      assert s + [x] == [x];
    }
  }

  /** The connections whose send succeeded, in list order. */
  function Delivered(connections: seq<ConnId>, sendOk: ConnId -> bool): (r: seq<ConnId>)
    ensures |r| <= |connections|
    ensures forall c :: c in r <==> c in connections && sendOk(c)
  {
    if connections == [] then []
    else
      var last := connections[|connections| - 1];
      Delivered(connections[..|connections| - 1], sendOk) + (if sendOk(last) then [last] else [])
  }

  class ConnectionManager {
    var activeConnections: seq<ConnId>

    constructor ()
      ensures activeConnections == []
    {
      activeConnections := [];
    }

    /** `connect`: the accepted websocket joins at the end. */
    method Connect(ws: ConnId)
      modifies this
      ensures activeConnections == old(activeConnections) + [ws]
    {
      activeConnections := activeConnections + [ws];
    }

    /** `disconnect`: the first occurrence of `ws` leaves; when there is none,
        `remove` raises and the list is unchanged. */
    method Disconnect(ws: ConnId) returns (result: Result<(), string>)
      modifies this
      ensures result.Ok? <==> ws in old(activeConnections)
      ensures activeConnections == RemoveFirst(old(activeConnections), ws)
    {
      if ws in activeConnections {
        activeConnections := RemoveFirst(activeConnections, ws);
        result := Ok(());
      } else {
        result := Err("list.remove(x): x not in list");
      }
    }

    /** `broadcast`: a send is tried on every connection in list order; a
        failing send is swallowed and the loop moves on. Returns the
        connections tried and those the message reached. */
    method Broadcast(sendOk: ConnId -> bool) returns (tried: seq<ConnId>, reached: seq<ConnId>)
      ensures tried == activeConnections
      ensures reached == Delivered(activeConnections, sendOk)
    {
      tried, reached := [], [];
      for k := 0 to |activeConnections|
        invariant tried == activeConnections[..k]
        invariant reached == Delivered(activeConnections[..k], sendOk)
      {
        var connection := activeConnections[k];
        assert activeConnections[..k + 1][..k] == activeConnections[..k];
        tried := tried + [connection];
        if sendOk(connection) {
          reached := reached + [connection];
        }
      }
      assert activeConnections[..|activeConnections|] == activeConnections;
    }

    /** One websocket session: it joins, every received text is answered in
        order, and on disconnect it leaves again. A session that joined a
        list without it leaves the list as it found it. */
    method Session(ws: ConnId, received: seq<string>) returns (sent: seq<Response>)
      modifies this
      ensures |sent| == |received|
      ensures forall i :: 0 <= i < |received| ==> sent[i] == Respond(received[i])
      ensures activeConnections == RemoveFirst(old(activeConnections) + [ws], ws)
      ensures ws !in old(activeConnections) ==> activeConnections == old(activeConnections)
    {
      ghost var before := activeConnections;
      Connect(ws);
      sent := AnswerAll(received);
      var _ := Disconnect(ws);
      if ws !in before {
        ConnectThenDisconnect(before, ws);
      }
    }
  }
}
