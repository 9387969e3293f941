/** The analytics endpoints: `track` refreshes the session's liveness row
    and bumps the page-view counter; `stats` aggregates the events table;
    `visitors/live` reads the liveness rows and the counter. */
module AnalyticsRoute {
  import opened Wrappers
  import Tables
  import Models

  const PAGE_VIEWS_COUNTER: string := "total_page_views"
  const PAGE_VIEW: string := "page_view"
  const SECTION_VIEW: string := "section_view"
  const VISITOR_WINDOW: int := 30 * Tables.SECONDS_PER_DAY
  const LIVE_WINDOW: int := 5 * Tables.SECONDS_PER_MINUTE
  const SECTION_WINDOW: int := 7 * Tables.SECONDS_PER_DAY
  const POPULAR_LIMIT: nat := 5

  // ------------------------------------------------------ active sessions

  predicate HasSession(rows: seq<Tables.ActiveSession>, sid: string) {
    exists i :: 0 <= i < |rows| && rows[i].sessionId == sid
  }

  /** At most one row per session id (the `on_conflict` key). */
  predicate UniqueSessions(rows: seq<Tables.ActiveSession>) {
    forall i, j :: 0 <= i < j < |rows| ==> rows[i].sessionId != rows[j].sessionId
  }

  /** The update half of the upsert: the session's row gets `last_seen = now`. */
  function Touch(rows: seq<Tables.ActiveSession>, sid: string, now: int): (r: seq<Tables.ActiveSession>)
    ensures |r| == |rows|
    ensures forall i :: 0 <= i < |rows| ==>
      r[i] == if rows[i].sessionId == sid then rows[i].(lastSeen := now) else rows[i]
  {
    if rows == [] then []
    else [if rows[0].sessionId == sid then rows[0].(lastSeen := now) else rows[0]] + Touch(rows[1..], sid, now)
  }

  /** `upsert({session_id, last_seen: now}, on_conflict="session_id")`. */
  function UpsertSession(rows: seq<Tables.ActiveSession>, sid: string, now: int): seq<Tables.ActiveSession> {
    if HasSession(rows, sid) then Touch(rows, sid, now) else rows + [Tables.ActiveSession(sid, now)]
  }

  /** After the upsert the session has a row, all its rows were seen `now`,
      every other session's rows are untouched, and keys stay unique. */
  lemma UpsertSessionEffect(rows: seq<Tables.ActiveSession>, sid: string, now: int)
    ensures HasSession(UpsertSession(rows, sid, now), sid)
    ensures forall row :: row in UpsertSession(rows, sid, now) && row.sessionId == sid ==> row.lastSeen == now
    ensures forall row: Tables.ActiveSession :: row.sessionId != sid ==> (row in UpsertSession(rows, sid, now) <==> row in rows)
    ensures UniqueSessions(rows) ==> UniqueSessions(UpsertSession(rows, sid, now))
  {
    if HasSession(rows, sid) {
      TouchEffect(rows, sid, now);
    } else {
      var r := rows + [Tables.ActiveSession(sid, now)];
      assert r[|rows|].sessionId == sid;
    }
  }

  lemma TouchEffect(rows: seq<Tables.ActiveSession>, sid: string, now: int)
    requires HasSession(rows, sid)
    ensures HasSession(Touch(rows, sid, now), sid)
    ensures forall row :: row in Touch(rows, sid, now) && row.sessionId == sid ==> row.lastSeen == now
    ensures forall row: Tables.ActiveSession :: row.sessionId != sid ==> (row in Touch(rows, sid, now) <==> row in rows)
    ensures UniqueSessions(rows) ==> UniqueSessions(Touch(rows, sid, now))
  {
    var k :| 0 <= k < |rows| && rows[k].sessionId == sid;
    assert Touch(rows, sid, now)[k].sessionId == sid;
    TouchRefreshes(rows, sid, now);
    TouchKeepsOthers(rows, sid, now);
    if UniqueSessions(rows) {
      TouchKeepsUnique(rows, sid, now);
    }
  }

  /** Session ids stay where they were, so uniqueness is kept. */
  lemma TouchKeepsUnique(rows: seq<Tables.ActiveSession>, sid: string, now: int)
    requires UniqueSessions(rows)
    ensures UniqueSessions(Touch(rows, sid, now))
  {
    var r := Touch(rows, sid, now);
    assert forall i :: 0 <= i < |r| ==> r[i].sessionId == rows[i].sessionId;
  }

  /** Every row of the session carries the new time. */
  lemma TouchRefreshes(rows: seq<Tables.ActiveSession>, sid: string, now: int)
    ensures forall row :: row in Touch(rows, sid, now) && row.sessionId == sid ==> row.lastSeen == now
  {
    var r := Touch(rows, sid, now);
    forall row | row in r && row.sessionId == sid ensures row.lastSeen == now {
      var i :| 0 <= i < |r| && r[i] == row;
      assert rows[i].sessionId == sid;
    }
  }

  /** The rows of other sessions are exactly those before. */
  lemma TouchKeepsOthers(rows: seq<Tables.ActiveSession>, sid: string, now: int)
    ensures forall row: Tables.ActiveSession :: row.sessionId != sid ==> (row in Touch(rows, sid, now) <==> row in rows)
  {
    var r := Touch(rows, sid, now);
    forall row: Tables.ActiveSession | row.sessionId != sid
      ensures row in r <==> row in rows
    {
      if row in rows {
        var i :| 0 <= i < |rows| && rows[i] == row;
        assert r[i] == row;
      }
      if row in r {
        var i :| 0 <= i < |r| && r[i] == row;
        assert rows[i] == row;
      }
    }
  }

  /** `len(rows)` of `select ... gte("last_seen", cutoff)`. */
  function LiveCount(rows: seq<Tables.ActiveSession>, cutoff: int): (c: nat)
    ensures c <= |rows|
    ensures c == 0 <==> forall i :: 0 <= i < |rows| ==> rows[i].lastSeen < cutoff
    ensures c == |rows| <==> forall i :: 0 <= i < |rows| ==> rows[i].lastSeen >= cutoff
  {
    if rows == [] then 0
    else (if rows[|rows| - 1].lastSeen >= cutoff then 1 else 0) + LiveCount(rows[..|rows| - 1], cutoff)
  }

  // ------------------------------------------------------------- counters

  /** `data[0]["counter_value"] if data else 0` for the rows named `name`. */
  function CounterValue(rows: seq<Tables.CounterRow>, name: string): int {
    if rows == [] then 0
    else if rows[0].counterName == name then rows[0].counterValue
    else CounterValue(rows[1..], name)
  }

  predicate HasCounter(rows: seq<Tables.CounterRow>, name: string) {
    exists i :: 0 <= i < |rows| && rows[i].counterName == name
  }

  function SetValue(rows: seq<Tables.CounterRow>, name: string, value: int, now: int): (r: seq<Tables.CounterRow>)
    ensures |r| == |rows|
    ensures forall i :: 0 <= i < |rows| ==> r[i].counterName == rows[i].counterName
  {
    if rows == [] then []
    else
      var head := if rows[0].counterName == name then Tables.CounterRow(name, value, now) else rows[0];
      [head] + SetValue(rows[1..], name, value, now)
  }

  /** `upsert({counter_name, counter_value, updated_at}, on_conflict="counter_name")`. */
  function UpsertCounter(rows: seq<Tables.CounterRow>, name: string, value: int, now: int): seq<Tables.CounterRow> {
    if HasCounter(rows, name) then SetValue(rows, name, value, now) else rows + [Tables.CounterRow(name, value, now)]
  }

  lemma {:induction false} SetValueReads(rows: seq<Tables.CounterRow>, name: string, other: string, value: int, now: int)
    requires HasCounter(rows, name)
    ensures CounterValue(SetValue(rows, name, value, now), name) == value
    ensures other != name ==> CounterValue(SetValue(rows, name, value, now), other) == CounterValue(rows, other)
  {
    if rows[0].counterName != name {
      assert HasCounter(rows[1..], name) by {
        var i :| 0 <= i < |rows| && rows[i].counterName == name;
        assert rows[1..][i - 1].counterName == name;
      }
      SetValueReads(rows[1..], name, other, value, now);
    } else if other != name && rows[1..] != [] {
      SetValueUnrelated(rows[1..], name, other, value, now);
    }
  }

  lemma {:induction false} SetValueUnrelated(rows: seq<Tables.CounterRow>, name: string, other: string, value: int, now: int)
    requires other != name
    ensures CounterValue(SetValue(rows, name, value, now), other) == CounterValue(rows, other)
  {
    if rows != [] {
      SetValueUnrelated(rows[1..], name, other, value, now);
    }
  }

  lemma {:induction false} AppendedCounter(rows: seq<Tables.CounterRow>, name: string, other: string, value: int, now: int)
    requires !HasCounter(rows, name)
    ensures CounterValue(rows + [Tables.CounterRow(name, value, now)], name) == value
    ensures other != name ==> CounterValue(rows + [Tables.CounterRow(name, value, now)], other) == CounterValue(rows, other)
  {
    var r := rows + [Tables.CounterRow(name, value, now)];
    if rows != [] {
      assert r[1..] == rows[1..] + [Tables.CounterRow(name, value, now)];
      AppendedCounter(rows[1..], name, other, value, now);
    }
  }

  /** After an upsert the counter reads the new value and every other
      counter reads as before. */
  lemma UpsertCounterEffect(rows: seq<Tables.CounterRow>, name: string, other: string, value: int, now: int)
    ensures CounterValue(UpsertCounter(rows, name, value, now), name) == value
    ensures other != name ==> CounterValue(UpsertCounter(rows, name, value, now), other) == CounterValue(rows, other)
  {
    if HasCounter(rows, name) {
      SetValueReads(rows, name, other, value, now);
    } else {
      AppendedCounter(rows, name, other, value, now);
    }
  }

  // ---------------------------------------------------------------- track

  /** `track_event`: the session's liveness row is refreshed for every event
      type; only a page view re-writes the page-view counter, as its current
      value (0 when missing) plus one. */
  method TrackEvent(db: Tables.Database, event: Models.AnalyticsEvent, now: int)
    modifies db
    ensures db.activeSessions == UpsertSession(old(db.activeSessions), event.sessionId, now)
    ensures db.counters == if event.eventType == PAGE_VIEW
      then UpsertCounter(old(db.counters), PAGE_VIEWS_COUNTER, CounterValue(old(db.counters), PAGE_VIEWS_COUNTER) + 1, now)
      else old(db.counters)
    ensures db.events == old(db.events) && db.conversations == old(db.conversations) && db.messages == old(db.messages)
  {
    db.activeSessions := UpsertSession(db.activeSessions, event.sessionId, now);
    if event.eventType == PAGE_VIEW {
      var currentValue := CounterValue(db.counters, PAGE_VIEWS_COUNTER);
      db.counters := UpsertCounter(db.counters, PAGE_VIEWS_COUNTER, currentValue + 1, now);
    }
  }

  /** What `track_event` does to the counters as read back: the page-view
      counter rises by exactly one for a page view and not at all otherwise;
      other counters never change. */
  lemma TrackedCounters(counters: seq<Tables.CounterRow>, eventType: string, other: string, now: int)
    ensures var after := if eventType == PAGE_VIEW
      then UpsertCounter(counters, PAGE_VIEWS_COUNTER, CounterValue(counters, PAGE_VIEWS_COUNTER) + 1, now)
      else counters;
      CounterValue(after, PAGE_VIEWS_COUNTER) == CounterValue(counters, PAGE_VIEWS_COUNTER) + (if eventType == PAGE_VIEW then 1 else 0) &&
      (other != PAGE_VIEWS_COUNTER ==> CounterValue(after, other) == CounterValue(counters, other))
  {
    UpsertCounterEffect(counters, PAGE_VIEWS_COUNTER, other, CounterValue(counters, PAGE_VIEWS_COUNTER) + 1, now);
  }

  // ---------------------------------------------------------- live visitors

  datatype LiveVisitors = LiveVisitors(activeVisitors: nat, totalViews: int)

  /** `get_live_visitors`: the number of sessions seen in the last five
      minutes and the page-view counter (0 when absent). */
  function GetLiveVisitors(sessions: seq<Tables.ActiveSession>, counters: seq<Tables.CounterRow>, now: int): (r: LiveVisitors)
    ensures r.activeVisitors <= |sessions|
    ensures r.activeVisitors == 0 <==> forall i :: 0 <= i < |sessions| ==> sessions[i].lastSeen < now - LIVE_WINDOW
    ensures r.totalViews == CounterValue(counters, PAGE_VIEWS_COUNTER)
    ensures !HasCounter(counters, PAGE_VIEWS_COUNTER) ==> r.totalViews == 0
  {
    NoCounterReadsZero(counters, PAGE_VIEWS_COUNTER);
    LiveVisitors(LiveCount(sessions, now - LIVE_WINDOW), CounterValue(counters, PAGE_VIEWS_COUNTER))
  }

  lemma {:induction false} NoCounterReadsZero(rows: seq<Tables.CounterRow>, name: string)
    ensures !HasCounter(rows, name) ==> CounterValue(rows, name) == 0
  {
    if rows != [] && !HasCounter(rows, name) {
      NoCounterReadsZero(rows[1..], name);
    }
  }

  /** A session that was just tracked is live for the next five minutes. */
  lemma TrackedSessionIsLive(rows: seq<Tables.ActiveSession>, sid: string, trackedAt: int, now: int)
    requires now - LIVE_WINDOW <= trackedAt
    ensures LiveCount(UpsertSession(rows, sid, trackedAt), now - LIVE_WINDOW) >= 1
  {
    UpsertSessionEffect(rows, sid, trackedAt);
    var r := UpsertSession(rows, sid, trackedAt);
    var k :| 0 <= k < |r| && r[k].sessionId == sid;
    assert r[k] in r;
  }

  // ---------------------------------------------------------------- stats

  /** The session ids of the events at or after `cutoff`. */
  ghost function SessionsSince(events: seq<Tables.EventRow>, cutoff: int): set<string> {
    set i | 0 <= i < |events| && events[i].createdAt >= cutoff :: events[i].sessionId
  }

  /** The `set.add` loop over the rows of `gte("created_at", cutoff)`. */
  method DistinctSessions(events: seq<Tables.EventRow>, cutoff: int) returns (sessions: set<string>)
    ensures sessions == SessionsSince(events, cutoff)
    ensures forall s :: s in sessions <==> exists i :: 0 <= i < |events| && events[i].createdAt >= cutoff && events[i].sessionId == s
  {
    sessions := {};
    for k := 0 to |events|
      invariant sessions == SessionsSince(events[..k], cutoff)
    {
      assert events[..k + 1] == events[..k] + [events[k]];
      if events[k].createdAt >= cutoff {
        sessions := sessions + {events[k].sessionId};
      }
      assert SessionsSince(events[..k + 1], cutoff) == sessions by {
        forall s | s in SessionsSince(events[..k + 1], cutoff) ensures s in sessions {
          var i :| 0 <= i < k + 1 && events[..k + 1][i].createdAt >= cutoff && events[..k + 1][i].sessionId == s;
          if i < k { assert events[..k][i] == events[i]; }
        }
        forall s | s in sessions ensures s in SessionsSince(events[..k + 1], cutoff) {
          if s in SessionsSince(events[..k], cutoff) {
            var i :| 0 <= i < k && events[..k][i].createdAt >= cutoff && events[..k][i].sessionId == s;
            assert events[..k + 1][i] == events[i];
          } else {
            assert events[..k + 1][k] == events[k];
          }
        }
      }
    }
    assert events[..|events|] == events;
  }

  /** The exact count of `eq("event_type", "page_view")`. */
  function PageViewCount(events: seq<Tables.EventRow>): (c: nat)
    ensures c <= |events|
  {
    if events == [] then 0
    else (if events[|events| - 1].eventType == PAGE_VIEW then 1 else 0) + PageViewCount(events[..|events| - 1])
  }

  /** Counting page views is additive over concatenation, so the count is
      the number of page-view events, wherever they stand. */
  lemma {:induction false} PageViewCountAppend(a: seq<Tables.EventRow>, b: seq<Tables.EventRow>)
    ensures PageViewCount(a + b) == PageViewCount(a) + PageViewCount(b)
    decreases |b|
  {
    if b == [] {
      assert a + b == a;
    } else {
      var init := b[..|b| - 1];
      PageViewCountAppend(a, init);
      assert (a + b)[..|a + b| - 1] == a + init;
      assert (a + b)[|a + b| - 1] == b[|b| - 1];
    }
  }

  /** The rows of the section query: section views at or after `cutoff`. */
  function SectionRows(events: seq<Tables.EventRow>, cutoff: int): (r: seq<Tables.EventRow>)
    ensures forall e :: e in r <==> e in events && e.eventType == SECTION_VIEW && e.createdAt >= cutoff
  {
    if events == [] then []
    else
      var last := events[|events| - 1];
      var init := SectionRows(events[..|events| - 1], cutoff);
      assert forall e :: e in events <==> e in events[..|events| - 1] || e == last by {
        assert events == events[..|events| - 1] + [last];
      }
      if last.eventType == SECTION_VIEW && last.createdAt >= cutoff then init + [last] else init
  }

  /** The query keeps the rows in their order and with their multiplicity:
      it distributes over concatenation. */
  lemma {:induction false} SectionRowsAppend(a: seq<Tables.EventRow>, b: seq<Tables.EventRow>, cutoff: int)
    ensures SectionRows(a + b, cutoff) == SectionRows(a, cutoff) + SectionRows(b, cutoff)
    decreases |b|
  {
    if b == [] {
      assert a + b == a;
    } else {
      var init := b[..|b| - 1];
      SectionRowsAppend(a, init, cutoff);
      assert (a + b)[..|a + b| - 1] == a + init;
      assert (a + b)[|a + b| - 1] == b[|b| - 1];
    }
  }

  /** The truthy `section_name`s of the rows, in row order. */
  function Names(rows: seq<Tables.EventRow>): (r: seq<string>)
    ensures forall i :: 0 <= i < |r| ==> r[i] != ""
  {
    if rows == [] then []
    else
      var s := rows[|rows| - 1].sectionName;
      Names(rows[..|rows| - 1]) + (if s.Some? && s.value != "" then [s.value] else [])
  }

  lemma NamesStep(rows: seq<Tables.EventRow>, k: nat)
    requires k < |rows|
    ensures var s := rows[k].sectionName;
      Names(rows[..k + 1]) == Names(rows[..k]) + (if s.Some? && s.value != "" then [s.value] else [])
  {
    assert rows[..k + 1][..k] == rows[..k];
  }

  /** The distinct elements of `s` in order of first appearance: a dict's key order. */
  function Dedup(s: seq<string>): (r: seq<string>)
    ensures forall x :: x in r <==> x in s
    ensures forall i, j :: 0 <= i < j < |r| ==> r[i] != r[j]
  {
    if s == [] then []
    else
      var d := Dedup(s[..|s| - 1]);
      assert s == s[..|s| - 1] + [s[|s| - 1]];
      if s[|s| - 1] in d then d else d + [s[|s| - 1]]
  }

  lemma DedupAppend(s: seq<string>, x: string)
    ensures Dedup(s + [x]) == if x in s then Dedup(s) else Dedup(s) + [x]
  {
    assert (s + [x])[..|s|] == s;
  }

  /** One `section_counts[name] = section_counts.get(name, 0) + 1`. */
  lemma CountStep(counts: map<string, nat>, seen: seq<string>, name: string)
    requires forall n :: n in counts <==> n in seen
    requires forall n :: n in counts ==> counts[n] == multiset(seen)[n]
    ensures var next := counts[name := (if name in counts then counts[name] else 0) + 1];
      (forall n :: n in next <==> n in seen + [name]) &&
      (forall n :: n in next ==> next[n] == multiset(seen + [name])[n])
  {
    assert multiset(seen + [name]) == multiset(seen) + multiset{name};
    if name !in counts {
      assert multiset(seen)[name] == 0;
    }
  }

  /** The counting loop: each truthy section name's occurrences, and the
      names in the order they were first seen. */
  method CountSections(rows: seq<Tables.EventRow>) returns (counts: map<string, nat>, order: seq<string>)
    ensures forall name :: name in counts <==> name in Names(rows)
    ensures forall name :: name in counts ==> counts[name] == multiset(Names(rows))[name]
    ensures order == Dedup(Names(rows))
  {
    counts := map[];
    order := [];
    ghost var seen: seq<string> := [];
    for k := 0 to |rows|
      invariant seen == Names(rows[..k])
      invariant forall name :: name in counts <==> name in seen
      invariant forall name :: name in counts ==> counts[name] == multiset(seen)[name]
      invariant order == Dedup(seen)
    {
      NamesStep(rows, k);
      var section := rows[k].sectionName;
      if section.Some? && section.value != "" {
        var name := section.value;
        DedupAppend(seen, name);
        CountStep(counts, seen, name);
        if name !in counts {
          order := order + [name];
        }
        counts := counts[name := (if name in counts then counts[name] else 0) + 1];
        seen := seen + [name];
      }
    }
    assert rows[..|rows|] == rows;
  }

  datatype SectionViews = SectionViews(name: string, views: nat)

  /** `section_counts.items()`: the pairs in key order. */
  function Items(counts: map<string, nat>, order: seq<string>): (r: seq<SectionViews>)
    requires forall i :: 0 <= i < |order| ==> order[i] in counts
    ensures |r| == |order|
    ensures forall i :: 0 <= i < |order| ==> r[i] == SectionViews(order[i], counts[order[i]])
  {
    if order == [] then [] else [SectionViews(order[0], counts[order[0]])] + Items(counts, order[1..])
  }

  /** Views never increase along the sequence. */
  predicate ByViewsDescending(s: seq<SectionViews>) {
    forall i, j :: 0 <= i < j < |s| ==> s[i].views >= s[j].views
  }

  /** Puts `x` before the first entry with no more views than it, so it
      precedes the entries it ties with. */
  function Insert(x: SectionViews, s: seq<SectionViews>): seq<SectionViews> {
    if s == [] || x.views >= s[0].views then [x] + s else [s[0]] + Insert(x, s[1..])
  }

  /** `sorted(items, key=views, reverse=True)`, Python's stable sort. */
  function SortByViews(items: seq<SectionViews>): seq<SectionViews> {
    if items == [] then [] else Insert(items[0], SortByViews(items[1..]))
  }

  /** The entries with exactly `v` views, in order. */
  function WithViews(s: seq<SectionViews>, v: nat): seq<SectionViews> {
    if s == [] then [] else (if s[0].views == v then [s[0]] else []) + WithViews(s[1..], v)
  }

  lemma {:induction false} InsertPermutes(x: SectionViews, s: seq<SectionViews>)
    ensures multiset(Insert(x, s)) == multiset{x} + multiset(s)
  {
    if s != [] && x.views < s[0].views {
      InsertPermutes(x, s[1..]);
      assert s == [s[0]] + s[1..];
    }
  }

  /** Inserting keeps every entry at or below a bound that `x` and `s` obey. */
  lemma {:induction false} InsertBounded(x: SectionViews, s: seq<SectionViews>, b: nat)
    requires x.views <= b && forall j :: 0 <= j < |s| ==> s[j].views <= b
    ensures forall j :: 0 <= j < |Insert(x, s)| ==> Insert(x, s)[j].views <= b
  {
    if s != [] && x.views < s[0].views {
      InsertBounded(x, s[1..], b);
      var r := Insert(x, s[1..]);
      assert forall j :: 1 <= j < |[s[0]] + r| ==> ([s[0]] + r)[j] == r[j - 1];
    }
  }

  lemma {:induction false} InsertSorted(x: SectionViews, s: seq<SectionViews>)
    requires ByViewsDescending(s)
    ensures ByViewsDescending(Insert(x, s))
  {
    if s != [] && x.views < s[0].views {
      var t := s[1..];
      InsertSorted(x, t);
      InsertBounded(x, t, s[0].views);
      var r := Insert(x, t);
      var full := [s[0]] + r;
      assert forall j :: 1 <= j < |full| ==> full[j] == r[j - 1];
    }
  }

  lemma {:induction false} InsertStable(x: SectionViews, s: seq<SectionViews>, v: nat)
    ensures WithViews(Insert(x, s), v) == (if x.views == v then [x] else []) + WithViews(s, v)
  {
    if s != [] && x.views < s[0].views {
      InsertStable(x, s[1..], v);
      var h := if s[0].views == v then [s[0]] else [];
      assert ([s[0]] + Insert(x, s[1..]))[1..] == Insert(x, s[1..]);
      assert WithViews(Insert(x, s), v) == h + WithViews(Insert(x, s[1..]), v);
    } else {
      assert ([x] + s)[1..] == s;
    }
  }

  /** The sort orders by views, keeps every entry, and keeps the original
      order among entries with equal views. */
  lemma {:induction false} SortByViewsCorrect(items: seq<SectionViews>, v: nat)
    ensures ByViewsDescending(SortByViews(items))
    ensures multiset(SortByViews(items)) == multiset(items)
    ensures WithViews(SortByViews(items), v) == WithViews(items, v)
  {
    if items != [] {
      SortByViewsCorrect(items[1..], v);
      InsertSorted(items[0], SortByViews(items[1..]));
      InsertPermutes(items[0], SortByViews(items[1..]));
      InsertStable(items[0], SortByViews(items[1..]), v);
      assert items == [items[0]] + items[1..];
    }
  }

  /** `sorted(...)[:5]` turned into the response entries. */
  function PopularSections(counts: map<string, nat>, order: seq<string>): (r: seq<SectionViews>)
    requires forall i :: 0 <= i < |order| ==> order[i] in counts
    ensures |r| == if |order| < POPULAR_LIMIT then |order| else POPULAR_LIMIT
  {
    SortLength(Items(counts, order));
    var sorted := SortByViews(Items(counts, order));
    sorted[..if |sorted| < POPULAR_LIMIT then |sorted| else POPULAR_LIMIT]
  }

  lemma SortLength(items: seq<SectionViews>)
    ensures |SortByViews(items)| == |items|
  {
    SortByViewsCorrect(items, 0);
    assert |multiset(SortByViews(items))| == |multiset(items)|;
  }

  /** Taking a prefix keeps a prefix of the entries with any given views. */
  lemma {:induction false} WithViewsPrefix(s: seq<SectionViews>, k: nat, v: nat)
    requires k <= |s|
    ensures WithViews(s[..k], v) <= WithViews(s, v)
  {
    if k > 0 {
      WithViewsPrefix(s[1..], k - 1, v);
      assert s[..k][1..] == s[1..][..k - 1];
    }
  }

  /** The popular sections: the first five (or all, when fewer), by
      non-increasing views, each a real section with its real count; no
      section left out has more views than one kept, and among equal views
      the kept ones are the first in key order. */
  lemma PopularSectionsCorrect(counts: map<string, nat>, order: seq<string>)
    requires forall i :: 0 <= i < |order| ==> order[i] in counts
    ensures |PopularSections(counts, order)| == if |order| < POPULAR_LIMIT then |order| else POPULAR_LIMIT
    ensures ByViewsDescending(PopularSections(counts, order))
    ensures forall e :: e in PopularSections(counts, order) ==> e.name in counts && e.views == counts[e.name]
    ensures forall e, f ::
      e in PopularSections(counts, order) && f in Items(counts, order) && f !in PopularSections(counts, order)
      ==> f.views <= e.views
    ensures forall v :: WithViews(PopularSections(counts, order), v) <= WithViews(Items(counts, order), v)
  {
    var items := Items(counts, order);
    SortByViewsCorrect(items, 0);
    PopularAreItems(counts, order);
    NothingBetterLeftOut(counts, order);
    forall v
      ensures WithViews(PopularSections(counts, order), v) <= WithViews(items, v)
    {
      PopularTieOrder(counts, order, v);
    }
  }

  lemma PopularTieOrder(counts: map<string, nat>, order: seq<string>, v: nat)
    requires forall i :: 0 <= i < |order| ==> order[i] in counts
    ensures WithViews(PopularSections(counts, order), v) <= WithViews(Items(counts, order), v)
  {
    var items := Items(counts, order);
    var sorted := SortByViews(items);
    SortLength(items);
    SortByViewsCorrect(items, v);
    WithViewsPrefix(sorted, if |sorted| < POPULAR_LIMIT then |sorted| else POPULAR_LIMIT, v);
  }

  lemma PopularAreItems(counts: map<string, nat>, order: seq<string>)
    requires forall i :: 0 <= i < |order| ==> order[i] in counts
    requires multiset(SortByViews(Items(counts, order))) == multiset(Items(counts, order))
    ensures forall e :: e in PopularSections(counts, order) ==> e.name in counts && e.views == counts[e.name]
  {
    var items := Items(counts, order);
    var sorted := SortByViews(items);
    forall e | e in PopularSections(counts, order) ensures e.name in counts && e.views == counts[e.name] {
      assert e in sorted;
      assert e in multiset(items);
      var i :| 0 <= i < |items| && items[i] == e;
    }
  }

  lemma NothingBetterLeftOut(counts: map<string, nat>, order: seq<string>)
    requires forall i :: 0 <= i < |order| ==> order[i] in counts
    requires ByViewsDescending(SortByViews(Items(counts, order)))
    requires multiset(SortByViews(Items(counts, order))) == multiset(Items(counts, order))
    ensures forall e, f ::
      e in PopularSections(counts, order) && f in Items(counts, order) && f !in PopularSections(counts, order)
      ==> f.views <= e.views
  {
    var items := Items(counts, order);
    var sorted := SortByViews(items);
    var top := PopularSections(counts, order);
    forall e, f | e in top && f in items && f !in top ensures f.views <= e.views {
      var i :| 0 <= i < |top| && top[i] == e;
      assert f in multiset(sorted);
      var j :| 0 <= j < |sorted| && sorted[j] == f;
      assert sorted[i] == e;
    }
  }

  /** The name-count pairs of a list of section names, in order of first
      appearance, as the counting loop builds them. */
  function Tally(names: seq<string>): seq<SectionViews> {
    var d := Dedup(names);
    seq(|d|, i requires 0 <= i < |d| => SectionViews(d[i], multiset(names)[d[i]]))
  }

  /** What `CountSections` returns, read as pairs, is the tally of the names. */
  lemma ItemsAreTally(counts: map<string, nat>, order: seq<string>, names: seq<string>)
    requires forall name :: name in counts <==> name in names
    requires forall name :: name in counts ==> counts[name] == multiset(names)[name]
    requires order == Dedup(names)
    ensures forall i :: 0 <= i < |order| ==> order[i] in counts
    ensures Items(counts, order) == Tally(names)
  {
  }

  datatype Stats = Stats(totalVisitors: nat, liveVisitors: nat, totalPageViews: nat, popularSections: seq<SectionViews>)

  /** `get_stats` without `recent_events`. */
  method GetStats(events: seq<Tables.EventRow>, now: int) returns (stats: Stats)
    ensures stats.totalVisitors == |SessionsSince(events, now - VISITOR_WINDOW)|
    ensures stats.liveVisitors == |SessionsSince(events, now - LIVE_WINDOW)|
    ensures stats.totalPageViews == PageViewCount(events)
    ensures var tally := Tally(Names(SectionRows(events, now - SECTION_WINDOW)));
      |stats.popularSections| == if |tally| < POPULAR_LIMIT then |tally| else POPULAR_LIMIT
    ensures ByViewsDescending(stats.popularSections)
    ensures forall e :: e in stats.popularSections ==>
      e.views == multiset(Names(SectionRows(events, now - SECTION_WINDOW)))[e.name] && e.views > 0
    ensures var tally := Tally(Names(SectionRows(events, now - SECTION_WINDOW)));
      forall e, f :: e in stats.popularSections && f in tally && f !in stats.popularSections ==> f.views <= e.views
    ensures var tally := Tally(Names(SectionRows(events, now - SECTION_WINDOW)));
      forall v :: WithViews(stats.popularSections, v) <= WithViews(tally, v)
  {
    var unique := DistinctSessions(events, now - VISITOR_WINDOW);
    var live := DistinctSessions(events, now - LIVE_WINDOW);
    var names := Names(SectionRows(events, now - SECTION_WINDOW));
    var counts, order := CountSections(SectionRows(events, now - SECTION_WINDOW));
    ItemsAreTally(counts, order, names);
    var popular := PopularSections(counts, order);
    PopularSectionsCorrect(counts, order);
    stats := Stats(|unique|, |live|, PageViewCount(events), popular);
  }
}
