/** The chat endpoint's key rotation and retry loop, and the message list it
    sends to the model. The model's reply to each attempt is a parameter;
    the conversation and message rows it reads and writes are not part of
    this model (the history is passed in). */
module ChatRoute {
  import opened Wrappers
  import opened Text
  import Tables

  /** An `HTTPException`. */
  datatype HttpError = HttpError(status: nat, detail: string)

  /** `str()` of an `HTTPException`: its status code, ": ", its detail. */
  function ExceptionText(e: HttpError): string {
    Decimal(e.status) + ": " + e.detail
  }

  const PROCESSING_PREFIX: string := "Error processing message: "
  const NO_RESPONSE: string := "Failed to get AI response"
  const EXHAUSTED_PREFIX: string := "All API keys exhausted. Last error: "

  /** The handler's outer `except`: whatever escapes becomes a 500 whose
      detail starts with PROCESSING_PREFIX and ends with the error's text. */
  function Escalated(e: HttpError): (r: HttpError)
    ensures r.status == 500 && StartsWith(r.detail, PROCESSING_PREFIX)
    ensures r.detail[|PROCESSING_PREFIX|..] == ExceptionText(e)
  {
    HttpError(500, PROCESSING_PREFIX + ExceptionText(e))
  }

  /** One call to the model: a 200 response whose
      `choices[0].message.content` is readable (possibly `null`), or a
      raised exception's text (a non-200 status, a transport error, a
      malformed body). */
  datatype Attempt = Answered(content: Option<string>) | Failed(error: string)

  /** The exception text of a non-200 response. */
  function ApiError(status: nat, body: string): string {
    "API error: " + Decimal(status) + " - " + body
  }

  /** The first answered attempt among attempts `from`..`n - 1`. */
  function FirstAnsweredFrom(attempts: seq<Attempt>, from: nat, n: nat): (r: Option<nat>)
    requires from <= n <= |attempts|
    ensures r.Some? ==>
      from <= r.value < n && attempts[r.value].Answered? &&
      forall j :: from <= j < r.value ==> attempts[j].Failed?
    ensures r.None? ==> forall j :: from <= j < n ==> attempts[j].Failed?
    decreases n - from
  {
    if from == n then None
    else if attempts[from].Answered? then Some(from)
    else FirstAnsweredFrom(attempts, from + 1, n)
  }

  /** The attempt at which the loop breaks with an answer, if any. */
  function FirstAnswered(attempts: seq<Attempt>, n: nat): (r: Option<nat>)
    requires n <= |attempts|
    ensures r.Some? ==>
      r.value < n && attempts[r.value].Answered? &&
      forall j :: 0 <= j < r.value ==> attempts[j].Failed?
    ensures r.None? ==> forall j :: 0 <= j < n ==> attempts[j].Failed?
  {
    FirstAnsweredFrom(attempts, 0, n)
  }

  /** How many attempts one request makes with `n` keys. */
  function AttemptCount(attempts: seq<Attempt>, n: nat): (c: nat)
    requires n <= |attempts|
    ensures c <= n
    ensures c < n ==> 0 < c && attempts[c - 1].Answered?
  {
    var first := FirstAnswered(attempts, n);
    if first.Some? then first.value + 1 else n
  }

  /** Attempt `k` is the first answer, and that answer is a non-empty string. */
  predicate TakesAnswer(attempts: seq<Attempt>, k: nat, n: nat)
    requires n <= |attempts|
  {
    k < n && attempts[k].Answered? && (forall j :: 0 <= j < k ==> attempts[j].Failed?) &&
    attempts[k].content.Some? && attempts[k].content.value != ""
  }

  /** The request's result given the attempts' outcomes: the first answer
      when it is a non-empty string; otherwise a 500 built from the first
      error raised inside the handler. */
  function Outcome(attempts: seq<Attempt>, n: nat): (r: Result<string, HttpError>)
    requires n <= |attempts|
    ensures r.Err? ==> r.error.status == 500 && StartsWith(r.error.detail, PROCESSING_PREFIX)
    ensures r.Ok? <==> exists k :: TakesAnswer(attempts, k, n)
    ensures r.Ok? ==> r.value != ""
    ensures n == 0 ==> r == Err(Escalated(HttpError(500, NO_RESPONSE)))
    ensures FirstAnswered(attempts, n).None? && n > 0 ==>
      r == Err(Escalated(HttpError(500, EXHAUSTED_PREFIX + attempts[n - 1].error)))
  {
    var first := FirstAnswered(attempts, n);
    if first.Some? then
      var content := attempts[first.value].content;
      if content.Some? && content.value != "" then
        assert TakesAnswer(attempts, first.value, n);
        Ok(content.value)
      else Err(Escalated(HttpError(500, NO_RESPONSE)))
    else if n == 0 then Err(Escalated(HttpError(500, NO_RESPONSE)))
    else Err(Escalated(HttpError(500, EXHAUSTED_PREFIX + attempts[n - 1].error)))
  }

  /** The key index used by attempt `j` of a request that started at
      `start`: `(start + j) % n`, written without the remainder (see
      `KeyOfAttemptIsMod`). */
  function KeyOfAttempt(start: nat, j: nat, n: nat): (k: nat)
    requires start < n && j < n
    ensures k < n
  {
    if start + j < n then start + j else start + j - n
  }

  /** Where the rotation index ends after one request that started at `start`:
      on the answering key, or `n - 1` steps on when every key failed (there
      is no rotation after the last failure). */
  function FinalIndex(start: nat, attempts: seq<Attempt>, n: nat): (i: nat)
    requires n <= |attempts| && (n == 0 || start < n)
    ensures n > 0 ==> i < n
  {
    if n == 0 then start
    else
      var first := FirstAnswered(attempts, n);
      if first.Some? then KeyOfAttempt(start, first.value, n) else KeyOfAttempt(start, n - 1, n)
  }

  lemma ModOfSmall(x: nat, n: nat)
    requires 0 < n && x < 2 * n
    ensures x % n == if x < n then x else x - n
  {
    if x >= n {
      assert x == (x - n) + n;
      assert (x - n) % n == x - n;
    }
  }

  /** Attempt `j` uses key `(start + j) mod n`: consecutive keys round the ring. */
  lemma KeyOfAttemptIsMod(start: nat, j: nat, n: nat)
    requires start < n && j < n
    ensures KeyOfAttempt(start, j, n) == (start + j) % n
  {
    ModOfSmall(start + j, n);
  }

  /** Distinct attempts of one request use distinct keys, so no key is
      tried twice and, when all fail, every key has been tried once. */
  lemma AttemptKeysDistinct(start: nat, i: nat, j: nat, n: nat)
    requires start < n && i < j < n
    ensures (start + i) % n != (start + j) % n
  {
    KeyOfAttemptIsMod(start, i, n);
    KeyOfAttemptIsMod(start, j, n);
  }

  /** The shared rotation state: the configured keys and the global index. */
  class KeyRing {
    const apiKeys: seq<string>
    var currentKeyIndex: nat

    ghost predicate Valid()
      reads this
    {
      currentKeyIndex == 0 || currentKeyIndex < |apiKeys|
    }

    /** Module load: the index starts at 0. */
    constructor (apiKeys: seq<string>)
      ensures Valid() && this.apiKeys == apiKeys && currentKeyIndex == 0
    {
      this.apiKeys := apiKeys;
      currentKeyIndex := 0;
    }

    /** `get_current_api_key`; with no keys Python raises `ZeroDivisionError`,
        here `None`. */
    function CurrentKey(): (r: Option<string>)
      reads this
      ensures r.Some? <==> |apiKeys| > 0
      ensures r.Some? ==> r.value == apiKeys[currentKeyIndex % |apiKeys|]
    {
      if |apiKeys| > 0 then Some(apiKeys[currentKeyIndex % |apiKeys|]) else None
    }

    /** `try_next_api_key`: one step round the ring. */
    method TryNextApiKey()
      requires |apiKeys| > 0
      modifies this
      ensures currentKeyIndex == (old(currentKeyIndex) + 1) % |apiKeys|
      ensures Valid() && currentKeyIndex < |apiKeys|
    {
      currentKeyIndex := (currentKeyIndex + 1) % |apiKeys|;
    }

    /** The retry loop of `send_message`, given the outcome of every
        attempt it may make: the first answer's content, or the
        HTTPException raised after the last key failed. `used` lists the key
        index of each attempt made. */
    method TryAllKeys(attempts: seq<Attempt>)
      returns (aiResponse: Option<string>, raised: Option<HttpError>, used: seq<nat>)
      requires Valid() && |apiKeys| <= |attempts|
      modifies this
      ensures Valid()
      ensures |used| == AttemptCount(attempts, |apiKeys|)
      ensures forall j :: 0 <= j < |used| ==> used[j] == KeyOfAttempt(old(currentKeyIndex), j, |apiKeys|)
      ensures currentKeyIndex == FinalIndex(old(currentKeyIndex), attempts, |apiKeys|)
      ensures FirstAnswered(attempts, |apiKeys|).Some? ==>
        raised.None? && aiResponse == attempts[FirstAnswered(attempts, |apiKeys|).value].content
      ensures FirstAnswered(attempts, |apiKeys|).None? ==>
        aiResponse.None? &&
        raised == (if |apiKeys| == 0 then None else Some(HttpError(500, EXHAUSTED_PREFIX + attempts[|apiKeys| - 1].error)))
    {
      var n := |apiKeys|;
      ghost var start := currentKeyIndex;
      aiResponse, raised := None, None;
      ghost var answered := false;
      used := [];
      var attempt := 0;
      while attempt < n
        invariant 0 <= attempt <= n && Valid()
        invariant n > 0 ==> attempt < n
        invariant n > 0 ==> currentKeyIndex == KeyOfAttempt(start, attempt, n)
        invariant |used| == attempt
        invariant forall j :: 0 <= j < attempt ==> used[j] == KeyOfAttempt(start, j, n)
        invariant forall j :: 0 <= j < attempt ==> attempts[j].Failed?
        invariant aiResponse.None? && raised.None? && !answered
      {
        ModOfSmall(currentKeyIndex, n);
        used := used + [currentKeyIndex % n];
        var a := attempts[attempt];
        if a.Answered? {
          aiResponse := a.content;
          answered := true;
          break;
        }
        if attempt == n - 1 {
          raised := Some(HttpError(500, EXHAUSTED_PREFIX + a.error));
          break;
        }
        ModOfSmall(currentKeyIndex + 1, n);
        TryNextApiKey();
        attempt := attempt + 1;
      }
      if answered {
        FirstAnsweredIs(attempts, n, attempt);
      } else {
        assert forall j :: 0 <= j < n ==> attempts[j].Failed?;
      }
    }

    /** The retry loop followed by the `not ai_response` check, with every
        HTTPException turned into the handler's 500. */
    method RequestCompletion(attempts: seq<Attempt>) returns (outcome: Result<string, HttpError>, used: seq<nat>)
      requires Valid() && |apiKeys| <= |attempts|
      modifies this
      ensures Valid()
      ensures outcome == Outcome(attempts, |apiKeys|)
      ensures currentKeyIndex == FinalIndex(old(currentKeyIndex), attempts, |apiKeys|)
      ensures |used| == AttemptCount(attempts, |apiKeys|)
      ensures forall j :: 0 <= j < |used| ==> used[j] == KeyOfAttempt(old(currentKeyIndex), j, |apiKeys|)
    {
      var aiResponse, raised;
      aiResponse, raised, used := TryAllKeys(attempts);
      var first := FirstAnswered(attempts, |apiKeys|);
      if first.Some? {
        OutcomeOfAnswer(attempts, |apiKeys|, first.value);
      } else {
        OutcomeWhenAllFail(attempts, |apiKeys|);
      }
      if raised.Some? {
        outcome := Err(Escalated(raised.value));
      } else if aiResponse.None? || aiResponse.value == "" {
        outcome := Err(Escalated(HttpError(500, NO_RESPONSE)));
      } else {
        outcome := Ok(aiResponse.value);
      }
    }
  }

  lemma OutcomeOfAnswer(attempts: seq<Attempt>, n: nat, k: nat)
    requires n <= |attempts| && FirstAnswered(attempts, n) == Some(k)
    ensures Outcome(attempts, n) == if attempts[k].content.Some? && attempts[k].content.value != ""
      then Ok(attempts[k].content.value) else Err(Escalated(HttpError(500, NO_RESPONSE)))
  {
  }

  lemma OutcomeWhenAllFail(attempts: seq<Attempt>, n: nat)
    requires n <= |attempts| && forall j :: 0 <= j < n ==> attempts[j].Failed?
    ensures Outcome(attempts, n) == if n == 0 then Err(Escalated(HttpError(500, NO_RESPONSE)))
      else Err(Escalated(HttpError(500, EXHAUSTED_PREFIX + attempts[n - 1].error)))
  {
  }

  /** The attempt the loop breaks at is the first answered one. */
  lemma FirstAnsweredIs(attempts: seq<Attempt>, n: nat, k: nat)
    requires k < n <= |attempts| && attempts[k].Answered?
    requires forall j :: 0 <= j < k ==> attempts[j].Failed?
    ensures FirstAnswered(attempts, n) == Some(k)
  {
  }

  /** One entry of the payload's `messages`. */
  datatype Turn = Turn(role: string, content: string)

  /** The payload: the system context first, then each history row's role
      and content in the order fetched. */
  method BuildMessages(context: string, history: seq<Tables.MessageRow>) returns (turns: seq<Turn>)
    ensures |turns| == |history| + 1
    ensures turns[0] == Turn("system", context)
    ensures forall i :: 0 <= i < |history| ==> turns[i + 1] == Turn(history[i].role, history[i].content)
  {
    turns := [Turn("system", context)];
    for i := 0 to |history|
      invariant |turns| == i + 1 && turns[0] == Turn("system", context)
      invariant forall k :: 0 <= k < i ==> turns[k + 1] == Turn(history[k].role, history[k].content)
    {
      turns := turns + [Turn(history[i].role, history[i].content)];
    }
  }
}
