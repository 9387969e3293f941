/** The chat hook (`useChat`): a message list with a loading flag and an
    error string. Sending appends the user's message at once, then either
    appends the assistant's reply or removes the user's message again by id.
    Message ids and timestamps (`Date.now()`, `new Date()`) and the reply of
    the chat API are parameters. */
module UseChat {
  import opened Wrappers

  datatype Role = User | Assistant

  datatype Message = Message(id: string, role: Role, content: string, createdAt: string)

  /** The part of the chat API's reply the hook reads. */
  datatype ChatResponse = ChatResponse(message: string, createdAt: string)

  const SEND_ERROR: string := "Failed to send message. Please try again."

  predicate HasId(ms: seq<Message>, id: string) {
    exists i :: 0 <= i < |ms| && ms[i].id == id
  }

  /** What one message contributes to the filtered list. */
  function Kept(m: Message, id: string): seq<Message> {
    if m.id != id then [m] else []
  }

  /** `prev.filter(m => m.id !== id)`. */
  function WithoutId(ms: seq<Message>, id: string): (r: seq<Message>)
    ensures |r| <= |ms|
    ensures forall m :: m in r <==> m in ms && m.id != id
  {
    if ms == [] then [] else Kept(ms[0], id) + WithoutId(ms[1..], id)
  }

  /** Removing an id that is not in the list changes nothing. */
  lemma {:induction false} WithoutAbsentId(ms: seq<Message>, id: string)
    requires !HasId(ms, id)
    ensures WithoutId(ms, id) == ms
  {
    if ms != [] {
      WithoutAbsentId(ms[1..], id);
    }
  }

  /** Filtering distributes over concatenation. */
  lemma {:induction false} WithoutIdAppend(a: seq<Message>, b: seq<Message>, id: string)
    ensures WithoutId(a + b, id) == WithoutId(a, id) + WithoutId(b, id)
  {
    if a != [] {
      assert (a + b)[0] == a[0];
      assert (a + b)[1..] == a[1..] + b;
      WithoutIdAppend(a[1..], b, id);
      var h := Kept(a[0], id);
      assert WithoutId(a + b, id) == h + WithoutId(a[1..] + b, id);
      assert h + (WithoutId(a[1..], id) + WithoutId(b, id)) == (h + WithoutId(a[1..], id)) + WithoutId(b, id);
    } else {
      assert a + b == b;
    }
  }

  /** The rollback undoes the optimistic append: when the user message's id is
      fresh, the list is back to what it was before the send. */
  lemma RollbackRestores(before: seq<Message>, user: Message)
    requires !HasId(before, user.id)
    ensures WithoutId(before + [user], user.id) == before
  {
    WithoutIdAppend(before, [user], user.id);
    WithoutAbsentId(before, user.id);
  }

  class ChatState {
    var messages: seq<Message>
    var isLoading: bool
    var error: Option<string>
    /** The user message of the send that is awaiting its reply. */
    var inFlight: Option<Message>

    constructor ()
      ensures messages == [] && !isLoading && error == None && inFlight == None
    {
      messages, isLoading, error, inFlight := [], false, None, None;
    }

    /** The history effect: a fetched history replaces the list; a failed
        fetch is only logged. */
    method LoadHistory(fetched: Result<seq<Message>, string>)
      modifies this
      ensures messages == (if fetched.Ok? then fetched.value else old(messages))
      ensures isLoading == old(isLoading) && error == old(error) && inFlight == old(inFlight)
    {
      if fetched.Ok? {
        messages := fetched.value;
      }
    }

    /** The synchronous start of `sendMessage`: loading on, error cleared, and
        the user message appended at the end. */
    method BeginSend(content: string, id: string, createdAt: string)
      modifies this
      ensures isLoading && error == None
      ensures inFlight == Some(Message(id, User, content, createdAt))
      ensures messages == old(messages) + [Message(id, User, content, createdAt)]
    {
      isLoading := true;
      error := None;
      var userMessage := Message(id, User, content, createdAt);
      messages := messages + [userMessage];
      inFlight := Some(userMessage);
    }

    /** The rest of `sendMessage` once the request settles: on success the
        assistant's reply is appended; on failure the error is set and every
        message with the user message's id is removed; loading is off either way. */
    method FinishSend(reply: Result<ChatResponse, string>, assistantId: string)
      requires inFlight.Some?
      modifies this
      ensures !isLoading && inFlight == None
      ensures reply.Ok? ==>
        error == old(error) &&
        messages == old(messages) + [Message(assistantId, Assistant, reply.value.message, reply.value.createdAt)]
      ensures reply.Err? ==>
        error == Some(SEND_ERROR) && messages == WithoutId(old(messages), old(inFlight).value.id)
    {
      var userMessage := inFlight.value;
      if reply.Ok? {
        var assistantMessage := Message(assistantId, Assistant, reply.value.message, reply.value.createdAt);
        messages := messages + [assistantMessage];
      } else {
        error := Some(SEND_ERROR);
        messages := WithoutId(messages, userMessage.id);
      }
      isLoading := false;
      inFlight := None;
    }

    /** A whole `sendMessage` with nothing else changing the list meanwhile:
        success leaves the user message and the reply at the end; failure
        with a fresh id leaves the list as it was, with the error set. */
    method SendMessage(content: string, id: string, createdAt: string,
                       reply: Result<ChatResponse, string>, assistantId: string)
      modifies this
      ensures !isLoading && inFlight == None
      ensures reply.Ok? ==>
        error == None &&
        messages == old(messages) + [Message(id, User, content, createdAt),
          Message(assistantId, Assistant, reply.value.message, reply.value.createdAt)]
      ensures reply.Err? ==>
        error == Some(SEND_ERROR) &&
        messages == WithoutId(old(messages) + [Message(id, User, content, createdAt)], id)
      ensures reply.Err? && !HasId(old(messages), id) ==> messages == old(messages)
    {
      ghost var before := messages;
      BeginSend(content, id, createdAt);
      FinishSend(reply, assistantId);
      if reply.Err? && !HasId(before, id) {
        RollbackRestores(before, Message(id, User, content, createdAt));
      }
    }

    /** `clearMessages`. */
    method ClearMessages()
      modifies this
      ensures messages == []
      ensures isLoading == old(isLoading) && error == old(error) && inFlight == old(inFlight)
    {
      messages := [];
    }
  }
}
