/** The database tables the back-end routes read and write, as sequences of
    rows. Timestamps are whole seconds; "now" is always a parameter. */
module Tables {
  import opened Wrappers

  const SECONDS_PER_MINUTE: int := 60
  const SECONDS_PER_HOUR: int := 60 * SECONDS_PER_MINUTE
  const SECONDS_PER_DAY: int := 24 * SECONDS_PER_HOUR

  /** `active_sessions`: one row per session, keyed by `session_id`. */
  datatype ActiveSession = ActiveSession(sessionId: string, lastSeen: int)

  /** `analytics_counters`: named integer counters, keyed by `counter_name`. */
  datatype CounterRow = CounterRow(counterName: string, counterValue: int, updatedAt: int)

  /** `analytics_events`. */
  datatype EventRow = EventRow(sessionId: string, eventType: string, sectionName: Option<string>, createdAt: int)

  /** `conversations`. */
  datatype Conversation = Conversation(id: string, sessionId: string)

  /** `messages`. */
  datatype MessageRow = MessageRow(id: string, conversationId: string, role: string, content: string, createdAt: int)

  class Database {
    var activeSessions: seq<ActiveSession>
    var counters: seq<CounterRow>
    var events: seq<EventRow>
    var conversations: seq<Conversation>
    var messages: seq<MessageRow>

    constructor (activeSessions: seq<ActiveSession>, counters: seq<CounterRow>, events: seq<EventRow>,
                 conversations: seq<Conversation>, messages: seq<MessageRow>)
      ensures this.activeSessions == activeSessions && this.counters == counters && this.events == events
      ensures this.conversations == conversations && this.messages == messages
    {
      this.activeSessions := activeSessions;
      this.counters := counters;
      this.events := events;
      this.conversations := conversations;
      this.messages := messages;
    }
  }
}
