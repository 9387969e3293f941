/** The request and row models of the back end and their field constraints.
    A JSON request body is a map from field name to a string value or
    `null` (`None`); a model is accepted exactly when its required fields
    are present and every length constraint holds. Extra keys are ignored. */
module Models {
  import opened Wrappers

  /** A JSON object whose values are strings or `null`. */
  type JsonObject = map<string, Option<string>>

  /** A required `str` field: present and not `null`. */
  function Required(obj: JsonObject, key: string): (r: Option<string>)
    ensures r.Some? <==> key in obj && obj[key].Some?
    ensures r.Some? ==> obj[key] == r
  {
    if key in obj then obj[key] else None
  }

  /** An `Optional[str] = None` field: `null` and absence both give `None`. */
  function Optional(obj: JsonObject, key: string): (r: Option<string>)
    ensures key !in obj ==> r == None
    ensures key in obj ==> r == obj[key]
  {
    if key in obj then obj[key] else None
  }

  /** A length constraint `min_length`/`max_length`, counted in characters. */
  predicate LengthIn(s: string, lo: nat, hi: nat) {
    lo <= |s| <= hi
  }

  // ---------------------------------------------------------------- chat

  datatype ChatMessage = ChatMessage(sessionId: string, message: string)

  /** `message` has between 1 and 1000 characters; `session_id` is any string. */
  predicate ValidChatMessage(m: ChatMessage) {
    LengthIn(m.message, 1, 1000)
  }

  function ChatMessageFields(m: ChatMessage): JsonObject {
    map["session_id" := Some(m.sessionId), "message" := Some(m.message)]
  }

  function ParseChatMessage(obj: JsonObject): (r: Option<ChatMessage>)
    ensures r.Some? ==> ValidChatMessage(r.value)
    ensures r.Some? ==> ChatMessageFields(r.value) == map k | k in obj && k in {"session_id", "message"} :: obj[k]
  {
    var sid := Required(obj, "session_id");
    var msg := Required(obj, "message");
    if sid.Some? && msg.Some? && LengthIn(msg.value, 1, 1000) then
      Some(ChatMessage(sid.value, msg.value))
    else
      None
  }

  /** A chat message survives serialisation exactly when it is valid. */
  lemma ChatMessageRoundTrip(m: ChatMessage)
    ensures ParseChatMessage(ChatMessageFields(m)) == (if ValidChatMessage(m) then Some(m) else None)
  {
  }

  // ------------------------------------------------------------- history

  datatype HistoryRole = UserRole | AssistantRole | SystemRole

  function RoleName(r: HistoryRole): string {
    match r
    case UserRole => "user"
    case AssistantRole => "assistant"
    case SystemRole => "system"
  }

  /** `Literal["user", "assistant", "system"]`: exactly those three strings. */
  function ParseRole(s: string): (r: Option<HistoryRole>)
    ensures r.Some? <==> s == "user" || s == "assistant" || s == "system"
  {
    if s == "user" then Some(UserRole)
    else if s == "assistant" then Some(AssistantRole)
    else if s == "system" then Some(SystemRole)
    else None
  }

  /** `ParseRole` and `RoleName` are inverse in both directions. */
  lemma RoleRoundTrip(r: HistoryRole, s: string)
    ensures ParseRole(RoleName(r)) == Some(r)
    ensures ParseRole(s) == Some(r) ==> RoleName(r) == s
  {
  }

  /** A stored message as the history endpoint returns it. The UUID and the
      timestamp are kept as their text. */
  datatype MessageHistory = MessageHistory(id: string, role: HistoryRole, content: string, createdAt: string)

  // ----------------------------------------------------------- analytics

  datatype AnalyticsEvent = AnalyticsEvent(
    sessionId: string,
    eventType: string,
    pagePath: Option<string>,
    sectionName: Option<string>,
    userAgent: Option<string>,
    referrer: Option<string>,
    deviceType: Option<string>)

  /** `session_id` and `event_type` are required; the five others default to `None`. */
  function ParseAnalyticsEvent(obj: JsonObject): (r: Option<AnalyticsEvent>)
    ensures r.Some? <==> Required(obj, "session_id").Some? && Required(obj, "event_type").Some?
    ensures r.Some? ==> r.value.sessionId == obj["session_id"].value && r.value.eventType == obj["event_type"].value
    ensures r.Some? ==> r.value.pagePath == (if "page_path" in obj then obj["page_path"] else None)
    ensures r.Some? ==> r.value.sectionName == (if "section_name" in obj then obj["section_name"] else None)
    ensures r.Some? ==> r.value.userAgent == (if "user_agent" in obj then obj["user_agent"] else None)
    ensures r.Some? ==> r.value.referrer == (if "referrer" in obj then obj["referrer"] else None)
    ensures r.Some? ==> r.value.deviceType == (if "device_type" in obj then obj["device_type"] else None)
  {
    var sid := Required(obj, "session_id");
    var kind := Required(obj, "event_type");
    if sid.Some? && kind.Some? then
      Some(AnalyticsEvent(sid.value, kind.value,
        Optional(obj, "page_path"), Optional(obj, "section_name"),
        Optional(obj, "user_agent"), Optional(obj, "referrer"), Optional(obj, "device_type")))
    else
      None
  }

  /** The JSON object of an event, unset optional fields written as `null`. */
  function EventFields(e: AnalyticsEvent): JsonObject {
    map["session_id" := Some(e.sessionId), "event_type" := Some(e.eventType),
        "page_path" := e.pagePath, "section_name" := e.sectionName,
        "user_agent" := e.userAgent, "referrer" := e.referrer, "device_type" := e.deviceType]
  }

  /** Every event survives serialisation. */
  lemma AnalyticsEventRoundTrip(e: AnalyticsEvent)
    ensures ParseAnalyticsEvent(EventFields(e)) == Some(e)
  {
  }

  // ------------------------------------------------------------- contact

  datatype ContactFormSubmission = ContactFormSubmission(
    name: string, email: string, subject: Option<string>, message: string)

  /** `name` 2..100 characters, `subject` absent or at most 200, `message`
      10..2000. `email` is a plain string and is not checked. */
  predicate ValidContact(c: ContactFormSubmission) {
    LengthIn(c.name, 2, 100) &&
    (c.subject.None? || |c.subject.value| <= 200) &&
    LengthIn(c.message, 10, 2000)
  }

  function ParseContact(obj: JsonObject): (r: Option<ContactFormSubmission>)
    ensures r.Some? ==> ValidContact(r.value)
    ensures r.Some? ==> Required(obj, "name").Some? && Required(obj, "email").Some? && Required(obj, "message").Some?
  {
    var name := Required(obj, "name");
    var email := Required(obj, "email");
    var message := Required(obj, "message");
    if name.Some? && email.Some? && message.Some? then
      var c := ContactFormSubmission(name.value, email.value, Optional(obj, "subject"), message.value);
      if ValidContact(c) then Some(c) else None
    else
      None
  }

  function ContactFields(c: ContactFormSubmission): JsonObject {
    map["name" := Some(c.name), "email" := Some(c.email), "message" := Some(c.message)]
    + (if c.subject.Some? then map["subject" := c.subject] else map[])
  }

  /** A submission survives serialisation exactly when it is valid. */
  lemma ContactRoundTrip(c: ContactFormSubmission)
    ensures ParseContact(ContactFields(c)) == (if ValidContact(c) then Some(c) else None)
  {
  }

  /** Validity never depends on the e-mail address. */
  lemma EmailUnchecked(c: ContactFormSubmission, email: string)
    ensures ValidContact(c.(email := email)) == ValidContact(c)
  {
  }
}
