/** The get-or-create session id used by the chat widget (over
    `localStorage`, key `chat_session_id`) and by the analytics hook (over
    `sessionStorage`, key `analytics_session_id`). The generated id's
    time-and-random tail is a parameter. */
module SessionStore {
  import opened Wrappers

  /** A browser key/value storage area. */
  class Store {
    var entries: map<string, string>

    constructor (entries: map<string, string>)
      ensures this.entries == entries
    {
      this.entries := entries;
    }
  }

  /** `storage.getItem(key)` read through JavaScript truthiness: a missing
      entry (`null`) and a stored empty string both count as "no id". */
  function StoredId(entries: map<string, string>, key: string): (r: Option<string>)
    ensures r.Some? <==> key in entries && entries[key] != ""
    ensures r.Some? ==> r.value == entries[key]
  {
    if key in entries && entries[key] != "" then Some(entries[key]) else None
  }

  /** Without a window the id is `""` and nothing is touched. With one, a
      stored id is returned without writing; otherwise `prefix + tail` is
      stored under `key` and returned. Either way the store then holds the
      returned id, so asking again returns the same id. */
  method GetOrCreate(store: Store, hasWindow: bool, key: string, prefix: string, tail: string)
    returns (id: string)
    modifies store
    ensures !hasWindow ==> id == "" && store.entries == old(store.entries)
    ensures hasWindow && StoredId(old(store.entries), key).Some? ==>
      id == old(store.entries)[key] && store.entries == old(store.entries)
    ensures hasWindow && StoredId(old(store.entries), key).None? ==>
      id == prefix + tail && store.entries == old(store.entries)[key := prefix + tail]
    ensures hasWindow && prefix != "" ==> StoredId(store.entries, key) == Some(id)
  {
    if !hasWindow {
      return "";
    }
    var found := StoredId(store.entries, key);
    if found.Some? {
      id := found.value;
    } else {
      id := prefix + tail;
      store.entries := store.entries[key := id];
    }
  }
}
