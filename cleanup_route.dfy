/** The retention endpoint (`DELETE /cleanup`): it deletes messages older
    than an hour and active sessions idle for more than ten minutes, then
    walks the conversations and deletes every one left without a message.
    Counters and events are kept. The current time is a parameter. */
module CleanupRoute {
  import opened Tables

  /** Messages older than this many seconds are deleted. */
  const MESSAGE_MAX_AGE: int := SECONDS_PER_HOUR
  /** Active sessions whose last heartbeat is older than this are deleted. */
  const SESSION_MAX_AGE: int := 10 * SECONDS_PER_MINUTE
  const RETENTION_NOTE: string := "Analytics counters kept permanently (minimal storage)"

  /** What one message contributes to the kept rows (`created_at >= cutoff`)
      and to the deleted rows (`created_at < cutoff`). */
  function KeptMessage(m: MessageRow, cutoff: int): seq<MessageRow> {
    if m.createdAt >= cutoff then [m] else []
  }

  function StaleMessage(m: MessageRow, cutoff: int): seq<MessageRow> {
    if m.createdAt < cutoff then [m] else []
  }

  /** The `messages` rows the `.lt("created_at", cutoff)` delete leaves, in order. */
  function RecentMessages(ms: seq<MessageRow>, cutoff: int): (r: seq<MessageRow>)
    ensures |r| <= |ms|
    ensures forall m :: m in r <==> m in ms && m.createdAt >= cutoff
  {
    if ms == [] then [] else RecentMessages(ms[..|ms| - 1], cutoff) + KeptMessage(ms[|ms| - 1], cutoff)
  }

  /** The rows that delete removes (and returns). */
  function ExpiredMessages(ms: seq<MessageRow>, cutoff: int): (r: seq<MessageRow>)
    ensures |r| <= |ms|
    ensures forall m :: m in r <==> m in ms && m.createdAt < cutoff
  {
    if ms == [] then [] else ExpiredMessages(ms[..|ms| - 1], cutoff) + StaleMessage(ms[|ms| - 1], cutoff)
  }

  /** Every message is either kept or deleted: the deleted count is exactly
      the number of rows that went missing. */
  lemma {:induction false} MessagesPartition(ms: seq<MessageRow>, cutoff: int)
    ensures |RecentMessages(ms, cutoff)| + |ExpiredMessages(ms, cutoff)| == |ms|
  {
    if ms != [] {
      MessagesPartition(ms[..|ms| - 1], cutoff);
    }
  }

  function KeptSession(s: ActiveSession, cutoff: int): seq<ActiveSession> {
    if s.lastSeen >= cutoff then [s] else []
  }

  function StaleSession(s: ActiveSession, cutoff: int): seq<ActiveSession> {
    if s.lastSeen < cutoff then [s] else []
  }

  /** The `active_sessions` rows the `.lt("last_seen", cutoff)` delete leaves. */
  function LiveSessions(ss: seq<ActiveSession>, cutoff: int): (r: seq<ActiveSession>)
    ensures |r| <= |ss|
    ensures forall s :: s in r <==> s in ss && s.lastSeen >= cutoff
  {
    if ss == [] then [] else LiveSessions(ss[..|ss| - 1], cutoff) + KeptSession(ss[|ss| - 1], cutoff)
  }

  /** The rows that delete removes. */
  function ExpiredSessions(ss: seq<ActiveSession>, cutoff: int): (r: seq<ActiveSession>)
    ensures |r| <= |ss|
    ensures forall s :: s in r <==> s in ss && s.lastSeen < cutoff
  {
    if ss == [] then [] else ExpiredSessions(ss[..|ss| - 1], cutoff) + StaleSession(ss[|ss| - 1], cutoff)
  }

  lemma {:induction false} SessionsPartition(ss: seq<ActiveSession>, cutoff: int)
    ensures |LiveSessions(ss, cutoff)| + |ExpiredSessions(ss, cutoff)| == |ss|
  {
    if ss != [] {
      SessionsPartition(ss[..|ss| - 1], cutoff);
    }
  }

  /** `messages.select("id").eq("conversation_id", id)` returns some row. */
  predicate HasMessages(ms: seq<MessageRow>, id: string) {
    exists i :: 0 <= i < |ms| && ms[i].conversationId == id
  }

  function KeptConversation(c: Conversation, ms: seq<MessageRow>): seq<Conversation> {
    if HasMessages(ms, c.id) then [c] else []
  }

  function OrphanConversation(c: Conversation, ms: seq<MessageRow>): seq<Conversation> {
    if HasMessages(ms, c.id) then [] else [c]
  }

  /** The conversations that still have a message, in their original order. */
  function ConversationsWithMessages(cs: seq<Conversation>, ms: seq<MessageRow>): (r: seq<Conversation>)
    ensures |r| <= |cs|
  {
    if cs == [] then [] else ConversationsWithMessages(cs[..|cs| - 1], ms) + KeptConversation(cs[|cs| - 1], ms)
  }

  /** The kept conversations are exactly those with a message. */
  lemma {:induction false} KeptConversationsHaveMessages(cs: seq<Conversation>, ms: seq<MessageRow>)
    ensures forall c :: c in ConversationsWithMessages(cs, ms) <==> c in cs && HasMessages(ms, c.id)
  {
    if cs != [] {
      KeptConversationsHaveMessages(cs[..|cs| - 1], ms);
      assert cs == cs[..|cs| - 1] + [cs[|cs| - 1]];
    }
  }

  /** The conversations without a message; each one is counted once by the loop. */
  function Orphans(cs: seq<Conversation>, ms: seq<MessageRow>): (r: seq<Conversation>)
    ensures |r| <= |cs|
  {
    if cs == [] then [] else Orphans(cs[..|cs| - 1], ms) + OrphanConversation(cs[|cs| - 1], ms)
  }

  /** The counted conversations are exactly those without a message. */
  lemma {:induction false} OrphansHaveNoMessages(cs: seq<Conversation>, ms: seq<MessageRow>)
    ensures forall c :: c in Orphans(cs, ms) <==> c in cs && !HasMessages(ms, c.id)
  {
    if cs != [] {
      OrphansHaveNoMessages(cs[..|cs| - 1], ms);
      assert cs == cs[..|cs| - 1] + [cs[|cs| - 1]];
    }
  }

  lemma {:induction false} ConversationsPartition(cs: seq<Conversation>, ms: seq<MessageRow>)
    ensures |ConversationsWithMessages(cs, ms)| + |Orphans(cs, ms)| == |cs|
  {
    if cs != [] {
      ConversationsPartition(cs[..|cs| - 1], ms);
    }
  }

  function DroppedIfIn(c: Conversation, ids: set<string>): seq<Conversation> {
    if c.id in ids then [] else [c]
  }

  /** The conversation rows left after `.delete().eq("id", x)` for every `x`
      in `ids`. */
  function WithoutIds(cs: seq<Conversation>, ids: set<string>): seq<Conversation> {
    if cs == [] then [] else WithoutIds(cs[..|cs| - 1], ids) + DroppedIfIn(cs[|cs| - 1], ids)
  }

  /** The ids the loop has deleted after visiting `cs`. */
  function OrphanIds(cs: seq<Conversation>, ms: seq<MessageRow>): set<string> {
    if cs == [] then {}
    else
      var rest := OrphanIds(cs[..|cs| - 1], ms);
      if HasMessages(ms, cs[|cs| - 1].id) then rest else rest + {cs[|cs| - 1].id}
  }

  /** A visited conversation's id is among the deleted ones exactly when it
      has no message. */
  lemma {:induction false} OrphanIdsMembership(cs: seq<Conversation>, ms: seq<MessageRow>)
    ensures forall id :: id in OrphanIds(cs, ms) ==> !HasMessages(ms, id)
    ensures forall c :: c in cs ==> (c.id in OrphanIds(cs, ms) <==> !HasMessages(ms, c.id))
  {
    if cs != [] {
      var init := cs[..|cs| - 1];
      OrphanIdsMembership(init, ms);
      assert forall c :: c in cs ==> c in init || c == cs[|cs| - 1];
    }
  }

  lemma {:induction false} WithoutNoIds(cs: seq<Conversation>)
    ensures WithoutIds(cs, {}) == cs
  {
    if cs != [] {
      WithoutNoIds(cs[..|cs| - 1]);
      assert DroppedIfIn(cs[|cs| - 1], {}) == [cs[|cs| - 1]];
      assert cs == cs[..|cs| - 1] + [cs[|cs| - 1]];
    }
  }

  /** Visiting `cs[k]` adds its id to the deleted ones exactly when it has no message. */
  lemma OrphanIdsStep(cs: seq<Conversation>, k: nat, ms: seq<MessageRow>)
    requires k < |cs|
    ensures OrphanIds(cs[..k + 1], ms) ==
      OrphanIds(cs[..k], ms) + (if HasMessages(ms, cs[k].id) then {} else {cs[k].id})
  {
    assert cs[..k + 1][..k] == cs[..k];
  }

  /** Visiting `cs[k]` counts one exactly when it has no message. */
  lemma OrphansStep(cs: seq<Conversation>, k: nat, ms: seq<MessageRow>)
    requires k < |cs|
    ensures |Orphans(cs[..k + 1], ms)| == |Orphans(cs[..k], ms)| + (if HasMessages(ms, cs[k].id) then 0 else 1)
  {
    assert cs[..k + 1][..k] == cs[..k];
  }

  /** One iteration of the loop keeps the rows left equal to the snapshot
      without the deleted ids. */
  lemma DropStep(cs: seq<Conversation>, k: nat, ms: seq<MessageRow>)
    requires k < |cs| && !HasMessages(ms, cs[k].id)
    ensures WithoutIds(WithoutIds(cs, OrphanIds(cs[..k], ms)), {cs[k].id}) == WithoutIds(cs, OrphanIds(cs[..k + 1], ms))
  {
    OrphanIdsStep(cs, k, ms);
    WithoutIdsTwice(cs, OrphanIds(cs[..k], ms), cs[k].id);
  }

  lemma KeepStep(cs: seq<Conversation>, k: nat, ms: seq<MessageRow>)
    requires k < |cs| && HasMessages(ms, cs[k].id)
    ensures OrphanIds(cs[..k + 1], ms) == OrphanIds(cs[..k], ms)
  {
    OrphanIdsStep(cs, k, ms);
  }

  /** Deleting more ids one after another is deleting them all at once. */
  lemma {:induction false} WithoutIdsTwice(cs: seq<Conversation>, ids: set<string>, id: string)
    ensures WithoutIds(WithoutIds(cs, ids), {id}) == WithoutIds(cs, ids + {id})
  {
    if cs != [] {
      var init := cs[..|cs| - 1];
      WithoutIdsTwice(init, ids, id);
      var dropped := DroppedIfIn(cs[|cs| - 1], ids);
      WithoutIdsAppend(WithoutIds(init, ids), dropped, {id});
    }
  }

  lemma WithoutIdsAppend(a: seq<Conversation>, b: seq<Conversation>, ids: set<string>)
    requires |b| <= 1
    ensures WithoutIds(a + b, ids) == WithoutIds(a, ids) + WithoutIds(b, ids)
  {
    if b == [] {
      assert a + b == a;
    } else {
      assert (a + b)[..|a + b| - 1] == a;
      assert b[..0] == [];
    }
  }

  /** Deleting exactly the ids without messages keeps exactly the
      conversations that have one. */
  lemma {:induction false} WithoutOrphanIds(cs: seq<Conversation>, ms: seq<MessageRow>, ids: set<string>)
    requires forall c :: c in cs ==> (c.id in ids <==> !HasMessages(ms, c.id))
    ensures WithoutIds(cs, ids) == ConversationsWithMessages(cs, ms)
  {
    if cs != [] {
      var init := cs[..|cs| - 1];
      assert forall c :: c in init ==> c in cs;
      assert cs[|cs| - 1] in cs;
      WithoutOrphanIds(init, ms, ids);
    }
  }

  /** Deleting the ids the loop collected keeps exactly the conversations
      with a message. */
  lemma DroppingOrphanIds(cs: seq<Conversation>, ms: seq<MessageRow>)
    ensures WithoutIds(cs, OrphanIds(cs, ms)) == ConversationsWithMessages(cs, ms)
  {
    OrphanIdsMembership(cs, ms);
    WithoutOrphanIds(cs, ms, OrphanIds(cs, ms));
  }

  /** The conversation loop of `cleanup_old_data` over the snapshot `snapshot`
      of the conversation rows and the messages `ms` left by the first delete:
      for every conversation, look up its messages, and if there are none
      delete the rows with its id and count one. */
  method DropEmptyConversations(snapshot: seq<Conversation>, ms: seq<MessageRow>)
    returns (remaining: seq<Conversation>, deleted: nat)
    ensures remaining == ConversationsWithMessages(snapshot, ms)
    ensures deleted == |Orphans(snapshot, ms)|
  {
    remaining := snapshot;
    deleted := 0;
    WithoutNoIds(snapshot);
    assert OrphanIds(snapshot[..0], ms) == {};
    for k := 0 to |snapshot|
      invariant remaining == WithoutIds(snapshot, OrphanIds(snapshot[..k], ms))
      invariant deleted == |Orphans(snapshot[..k], ms)|
    {
      var conv := snapshot[k];
      OrphansStep(snapshot, k, ms);
      if !HasMessages(ms, conv.id) {
        DropStep(snapshot, k, ms);
        remaining := WithoutIds(remaining, {conv.id});
        deleted := deleted + 1;
      } else {
        KeepStep(snapshot, k, ms);
      }
    }
    assert snapshot[..|snapshot|] == snapshot;
    DroppingOrphanIds(snapshot, ms);
  }

  /** The endpoint's success reply. */
  datatype CleanupReport = CleanupReport(messagesDeleted: nat, sessionsCleaned: nat,
                                         conversationsDeleted: nat, note: string)

  /** `messages.delete().lt("created_at", cutoff)`: returns the number of
      deleted rows. */
  method DeleteOldMessages(db: Database, cutoff: int) returns (count: nat)
    modifies db
    ensures db.messages == RecentMessages(old(db.messages), cutoff)
    ensures count == |ExpiredMessages(old(db.messages), cutoff)|
    ensures db.activeSessions == old(db.activeSessions) && db.conversations == old(db.conversations)
    ensures db.counters == old(db.counters) && db.events == old(db.events)
  {
    count := |ExpiredMessages(db.messages, cutoff)|;
    db.messages := RecentMessages(db.messages, cutoff);
  }

  /** `active_sessions.delete().lt("last_seen", cutoff)`: returns the number
      of deleted rows. */
  method DeleteOldSessions(db: Database, cutoff: int) returns (count: nat)
    modifies db
    ensures db.activeSessions == LiveSessions(old(db.activeSessions), cutoff)
    ensures count == |ExpiredSessions(old(db.activeSessions), cutoff)|
    ensures db.messages == old(db.messages) && db.conversations == old(db.conversations)
    ensures db.counters == old(db.counters) && db.events == old(db.events)
  {
    count := |ExpiredSessions(db.activeSessions, cutoff)|;
    db.activeSessions := LiveSessions(db.activeSessions, cutoff);
  }

  /** The conversation step of `cleanup_old_data` on the database. */
  method DeleteEmptyConversations(db: Database) returns (count: nat)
    modifies db
    ensures db.conversations == ConversationsWithMessages(old(db.conversations), db.messages)
    ensures count == |Orphans(old(db.conversations), db.messages)|
    ensures db.messages == old(db.messages) && db.activeSessions == old(db.activeSessions)
    ensures db.counters == old(db.counters) && db.events == old(db.events)
  {
    var remaining;
    remaining, count := DropEmptyConversations(db.conversations, db.messages);
    db.conversations := remaining;
  }

  /** `cleanup_old_data` on a database that does not fail: both cutoffs are
      taken from `now`, each count is the number of rows its step removed,
      and the counter and event tables are left alone. */
  method CleanupOldData(db: Database, now: int) returns (report: CleanupReport)
    modifies db
    ensures db.messages == RecentMessages(old(db.messages), now - MESSAGE_MAX_AGE)
    ensures db.activeSessions == LiveSessions(old(db.activeSessions), now - SESSION_MAX_AGE)
    ensures db.conversations == ConversationsWithMessages(old(db.conversations), db.messages)
    ensures db.counters == old(db.counters) && db.events == old(db.events)
    ensures report.messagesDeleted == |ExpiredMessages(old(db.messages), now - MESSAGE_MAX_AGE)|
    ensures report.sessionsCleaned == |ExpiredSessions(old(db.activeSessions), now - SESSION_MAX_AGE)|
    ensures report.conversationsDeleted == |Orphans(old(db.conversations), db.messages)|
    ensures report.note == RETENTION_NOTE
  {
    var messagesDeleted := DeleteOldMessages(db, now - MESSAGE_MAX_AGE);
    var sessionsCleaned := DeleteOldSessions(db, now - SESSION_MAX_AGE);
    var conversationsDeleted := DeleteEmptyConversations(db);
    report := CleanupReport(messagesDeleted, sessionsCleaned, conversationsDeleted, RETENTION_NOTE);
  }

  /** After a cleanup, every message and session left is within its window,
      every conversation left has a message, and nothing recent was lost. */
  lemma CleanupRetains(ms: seq<MessageRow>, ss: seq<ActiveSession>, cs: seq<Conversation>, now: int)
    ensures var kept := RecentMessages(ms, now - MESSAGE_MAX_AGE);
      (forall m :: m in kept ==> m.createdAt >= now - MESSAGE_MAX_AGE) &&
      (forall m :: m in ms && m.createdAt >= now - MESSAGE_MAX_AGE ==> m in kept) &&
      (forall c :: c in ConversationsWithMessages(cs, kept) ==> HasMessages(kept, c.id)) &&
      (forall c :: c in cs && HasMessages(kept, c.id) ==> c in ConversationsWithMessages(cs, kept))
    ensures forall s :: s in LiveSessions(ss, now - SESSION_MAX_AGE) <==> s in ss && s.lastSeen >= now - SESSION_MAX_AGE
  {
    KeptConversationsHaveMessages(cs, RecentMessages(ms, now - MESSAGE_MAX_AGE));
  }
}
