/** The analytics hook: a per-tab session id kept in session storage, and
    the page-view event sent on mount. */
module UseAnalytics {
  import opened Wrappers
  import SessionStore
  import Models

  const SESSION_KEY: string := "analytics_session_id"
  const SESSION_PREFIX: string := "session_"

  /** `getSessionId`. */
  method GetSessionId(store: SessionStore.Store, hasWindow: bool, tail: string) returns (id: string)
    modifies store
    ensures !hasWindow ==> id == "" && store.entries == old(store.entries)
    ensures hasWindow && SessionStore.StoredId(old(store.entries), SESSION_KEY).Some? ==>
      id == old(store.entries)[SESSION_KEY] && store.entries == old(store.entries)
    ensures hasWindow && SessionStore.StoredId(old(store.entries), SESSION_KEY).None? ==>
      id == SESSION_PREFIX + tail && store.entries == old(store.entries)[SESSION_KEY := SESSION_PREFIX + tail]
    ensures hasWindow ==> SessionStore.StoredId(store.entries, SESSION_KEY) == Some(id)
  {
    id := SessionStore.GetOrCreate(store, hasWindow, SESSION_KEY, SESSION_PREFIX, tail);
  }

  /** Two calls in the same tab give the same id, and the second writes nothing. */
  method GetSessionIdTwice(store: SessionStore.Store, tail1: string, tail2: string)
    returns (first: string, second: string)
    modifies store
    ensures first == second
    ensures store.entries == (if SessionStore.StoredId(old(store.entries), SESSION_KEY).Some? then old(store.entries)
                              else old(store.entries)[SESSION_KEY := SESSION_PREFIX + tail1])
  {
    first := GetSessionId(store, true, tail1);
    second := GetSessionId(store, true, tail2);
  }

  /** The JSON body `trackPageView` posts; without a window nothing is sent. */
  function PageViewBody(hasWindow: bool, sessionId: string, pathname: string): (r: Option<Models.JsonObject>)
    ensures r.Some? <==> hasWindow
    ensures r.Some? ==> r.value.Keys == {"session_id", "event_type", "page_path"}
  {
    if hasWindow then
      Some(map["session_id" := Some(sessionId), "event_type" := Some("page_view"), "page_path" := Some(pathname)])
    else None
  }

  /** The back end reads that body as a page view of `pathname` with every
      other optional field unset. */
  lemma PageViewAccepted(sessionId: string, pathname: string)
    ensures Models.ParseAnalyticsEvent(PageViewBody(true, sessionId, pathname).value)
      == Some(Models.AnalyticsEvent(sessionId, "page_view", Some(pathname), None, None, None, None))
  {
  }
}
