/** The chat widget: the open/closed panel, the input box, the submit guard
    and the send-button rule, over the chat hook's state. */
module ChatWidget {
  import opened Wrappers
  import opened Text
  import UseChat
  import SessionStore

  const SESSION_KEY: string := "chat_session_id"
  const SESSION_PREFIX: string := "chat_"

  /** `handleSubmit`'s guard: the input has a non-whitespace character and no
      send is in flight. */
  function ShouldSend(input: string, isLoading: bool): (r: bool)
    ensures r <==> !isLoading && exists i :: 0 <= i < |input| && !IsWhitespace(input[i])
  {
    !(Strip(input) == [] || isLoading)
  }

  /** The send button's `disabled` attribute. */
  function SendDisabled(isLoading: bool, input: string): (r: bool)
    ensures r <==> !ShouldSend(input, isLoading)
  {
    isLoading || Strip(input) == []
  }

  class Widget {
    var isOpen: bool
    var inputValue: string
    const sessionId: string
    const chat: UseChat.ChatState

    /** First render: closed, empty input, the session id read from or
        created in local storage, and a fresh chat state. */
    constructor (store: SessionStore.Store, hasWindow: bool, tail: string)
      modifies store
      ensures !isOpen && inputValue == "" && fresh(chat)
      ensures chat.messages == [] && !chat.isLoading
      ensures !hasWindow ==> sessionId == "" && store.entries == old(store.entries)
      ensures hasWindow && SessionStore.StoredId(old(store.entries), SESSION_KEY).Some? ==>
        sessionId == old(store.entries)[SESSION_KEY] && store.entries == old(store.entries)
      ensures hasWindow && SessionStore.StoredId(old(store.entries), SESSION_KEY).None? ==>
        sessionId == SESSION_PREFIX + tail && store.entries == old(store.entries)[SESSION_KEY := SESSION_PREFIX + tail]
    {
      var id := SessionStore.GetOrCreate(store, hasWindow, SESSION_KEY, SESSION_PREFIX, tail);
      sessionId := id;
      isOpen := false;
      inputValue := "";
      chat := new UseChat.ChatState();
    }

    /** The floating button. */
    method Toggle()
      modifies this
      ensures isOpen == !old(isOpen) && inputValue == old(inputValue)
    {
      isOpen := !isOpen;
    }

    /** The panel's close button. */
    method Close()
      modifies this
      ensures !isOpen && inputValue == old(inputValue)
    {
      isOpen := false;
    }

    /** The input's `onChange`; a disabled input (while loading) fires none. */
    method Type(value: string)
      modifies this
      ensures inputValue == (if chat.isLoading then old(inputValue) else value)
      ensures isOpen == old(isOpen)
    {
      if !chat.isLoading {
        inputValue := value;
      }
    }

    /** `handleSubmit`: a refused submit changes nothing; otherwise the raw
        input is sent once and the input is cleared whatever the outcome. */
    method Submit(id: string, createdAt: string,
                  reply: Result<UseChat.ChatResponse, string>, assistantId: string)
      modifies this, chat
      ensures isOpen == old(isOpen)
      ensures !ShouldSend(old(inputValue), old(chat.isLoading)) ==>
        inputValue == old(inputValue) && chat.messages == old(chat.messages) &&
        chat.isLoading == old(chat.isLoading) && chat.error == old(chat.error)
      ensures ShouldSend(old(inputValue), old(chat.isLoading)) ==>
        inputValue == "" && !chat.isLoading &&
        (reply.Ok? ==> chat.messages == old(chat.messages) + [UseChat.Message(id, UseChat.User, old(inputValue), createdAt),
          UseChat.Message(assistantId, UseChat.Assistant, reply.value.message, reply.value.createdAt)]) &&
        (reply.Err? ==> chat.error == Some(UseChat.SEND_ERROR)) &&
        (reply.Err? && !UseChat.HasId(old(chat.messages), id) ==> chat.messages == old(chat.messages))
    {
      if !ShouldSend(inputValue, chat.isLoading) {
        return;
      }
      chat.SendMessage(inputValue, id, createdAt, reply, assistantId);
      inputValue := "";
    }
  }
}
