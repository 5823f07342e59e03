/** The Slack events webhook of src/slack-events.ts: answering URL
    verification, greeting a new assistant thread, and forwarding each new
    user message once to the processing function, using the
    processed-events store to skip redeliveries.

    The request body arrives already parsed. The Slack calls, the user
    lookup and the asynchronous invoke are effects in a log; the invoke's
    success and the looked-up user name are parameters. */
module SlackEvents {
  import opened Wrappers
  import opened Db

  /** `event.assistant_thread`. */
  datatype AssistantThread = AssistantThread(threadTs: Option<string>, channelId: Option<string>, userId: Option<string>)

  /** `body.event`, with the fields the handler reads; `kind` is `type`. */
  datatype SlackEvent = SlackEvent(
    kind: Option<string>,
    threadTs: Option<string>,
    ts: Option<string>,
    channel: Option<string>,
    botId: Option<string>,
    subtype: Option<string>,
    text: Option<string>,
    eventTs: Option<string>,
    assistantThread: Option<AssistantThread>)

  /** The parsed request body; `Unparsable` when parsing throws or gives
      null. An empty request body parses as `{}`, a `Parsed` with every
      field None. */
  datatype Body =
    | Unparsable
    | Parsed(kind: Option<string>, challenge: Option<string>, eventId: Option<string>, event: Option<SlackEvent>)

  datatype ResponseBody = ChallengeBody(challenge: Option<string>) | MessageBody(message: string)

  /** `statusCode`, whether a JSON content type header is set, and the body
      before serialisation. */
  datatype Response = Response(statusCode: nat, jsonContentType: bool, body: ResponseBody)

  const Processed: Response := Response(200, false, MessageBody("Event processed successfully"))
  const AlreadyProcessed: Response := Response(200, false, MessageBody("Event already processed"))
  const InvokeFailed: Response := Response(500, false, MessageBody("Error invoking processing Lambda"))
  const InternalError: Response := Response(500, false, MessageBody("Internal server error"))

  /** What the handler does outside the store. */
  datatype Effect =
    | LookUpUser(userId: Option<string>)
    | SendGreeting(channel: Option<string>, threadTs: Option<string>, userName: Option<string>)
    | SetStatus(channel: Option<string>, threadTs: Option<string>)
    | InvokeProcessor(payload: Body)

  /** `thread_ts || ts`: a reply's thread, or the message itself. */
  function ThreadOf(ev: SlackEvent): (t: Option<string>)
    ensures Truthy(ev.threadTs) ==> t == ev.threadTs
    ensures !Truthy(ev.threadTs) ==> t == ev.ts
  {
    if Truthy(ev.threadTs) then ev.threadTs else ev.ts
  }

  /** `assistant_thread?.thread_ts || event_ts`. */
  function GreetingThread(ev: SlackEvent): Option<string>
  {
    if ev.assistantThread.Some? && Truthy(ev.assistantThread.value.threadTs)
    then ev.assistantThread.value.threadTs else ev.eventTs
  }

  function GreetingChannel(ev: SlackEvent): Option<string>
  {
    if ev.assistantThread.Some? then ev.assistantThread.value.channelId else None
  }

  function GreetingUser(ev: SlackEvent): Option<string>
  {
    if ev.assistantThread.Some? then ev.assistantThread.value.userId else None
  }

  /** A user's message: type "message", not from a bot, no subtype, and
      some text. */
  predicate IsUserMessage(ev: SlackEvent)
  {
    ev.kind == Some("message") && !Truthy(ev.botId) && !Truthy(ev.subtype) && Truthy(ev.text)
  }

  /** The branch the handler takes for a body. */
  datatype Route = Malformed | Verification | Greeting | Forward | Ignore

  function Classify(body: Body): (r: Route)
    ensures r == Malformed <==>
              body.Unparsable? || (body.kind == Some("event_callback") && body.event.None?)
    ensures r == Verification <==> body.Parsed? && body.kind == Some("url_verification")
    ensures r == Greeting <==>
              body.Parsed? && body.kind == Some("event_callback") && body.event.Some?
              && body.event.value.kind == Some("assistant_thread_started")
    ensures r == Forward <==>
              body.Parsed? && body.kind == Some("event_callback") && body.event.Some?
              && IsUserMessage(body.event.value)
  {
    match body
    case Unparsable => Malformed
    case Parsed(kind, _, _, event) =>
      if kind == Some("url_verification") then Verification
      else if kind != Some("event_callback") then Ignore
      else if event.None? then Malformed
      else if event.value.kind == Some("assistant_thread_started") then Greeting
      else if IsUserMessage(event.value) then Forward
      else Ignore
  }

  /** `handler`, against the store. `lookupDb` and `markDb` say how the
      store's two database round trips turn out, `invokeOk` whether the
      invoke was accepted, and `userName` what the user lookup returned. */
  method Handle(store: ProcessedEventsStore, body: Body, lookupDb: DbOutcomes, markDb: DbOutcomes,
                invokeOk: bool, userName: Option<string>)
      returns (response: Response, effects: seq<Effect>)
    requires store.Valid()
    modifies store
    ensures store.Valid()
    ensures Classify(body) != Forward ==> unchanged(store)
    ensures Classify(body) == Malformed ==> response == InternalError && effects == []
    ensures Classify(body) == Verification ==>
              response == Response(200, true, ChallengeBody(body.challenge)) && effects == []
    ensures Classify(body) == Greeting ==>
              var ev := body.event.value;
              response == Processed
              && effects == [LookUpUser(GreetingUser(ev)), SendGreeting(GreetingChannel(ev), GreetingThread(ev), userName)]
    ensures Classify(body) == Ignore ==> response == Processed && effects == []
    ensures Classify(body) == Forward ==>
              var ev := body.event.value;
              var duplicate := Truthy(body.eventId) && old(store.Reachable(lookupDb.connectOk))
                               && lookupDb.findOk && body.eventId in old(store.processed);
              && (duplicate ==> response == AlreadyProcessed && effects == [])
              && (!duplicate ==> effects == [SetStatus(ev.channel, ThreadOf(ev)), InvokeProcessor(body)])
              && (!duplicate ==> response == if invokeOk then Processed else InvokeFailed)
              && (store.processed == old(store.processed)
                  || (!duplicate && invokeOk && store.processed == old(store.processed) + {body.eventId}))
              && (!duplicate && invokeOk && markDb.connectOk && markDb.insertOk && Truthy(store.uri)
                  ==> body.eventId in store.processed)
    ensures Classify(body) == Forward ==>
              var duplicate := Truthy(body.eventId) && old(store.Reachable(lookupDb.connectOk))
                               && lookupDb.findOk && body.eventId in old(store.processed);
              var afterLookup := if Truthy(body.eventId) then Connect(store.uri, old(store.Conn()), lookupDb)
                                 else old(store.Conn());
              store.Conn() == if !duplicate && invokeOk then Connect(store.uri, afterLookup, markDb) else afterLookup
  {
    effects := [];
    match body {
      case Unparsable =>
        return InternalError, [];
      case Parsed(kind, challenge, eventId, event) =>
        if kind == Some("url_verification") {
          return Response(200, true, ChallengeBody(challenge)), [];
        }
        if kind == Some("event_callback") {
          if event.None? {
            // reading the thread of an absent event throws
            return InternalError, [];
          }
          var ev := event.value;
          var threadId := ThreadOf(ev);
          var channelId := ev.channel;
          if ev.kind == Some("assistant_thread_started") {
            effects := [LookUpUser(GreetingUser(ev)), SendGreeting(GreetingChannel(ev), GreetingThread(ev), userName)];
          } else if IsUserMessage(ev) {
            if Truthy(eventId) {
              var already := store.IsEventProcessed(eventId, lookupDb);
              if already {
                return AlreadyProcessed, [];
              }
            }
            effects := effects + [SetStatus(channelId, threadId)];
            effects := effects + [InvokeProcessor(body)];
            if !invokeOk {
              return InvokeFailed, effects;
            }
            store.MarkEventAsProcessed(eventId, markDb);
          }
        }
        return Processed, effects;
    }
  }

  /** Slack delivering the same user message twice, with the database up:
      the first delivery is forwarded (or was already), and the second is
      answered "Event already processed" without any effect. */
  method Redelivery(store: ProcessedEventsStore, body: Body, db: DbOutcomes, userName: Option<string>)
      returns (first: Response, second: Response, secondEffects: seq<Effect>)
    requires store.Valid() && Truthy(store.uri)
    requires Classify(body) == Forward && Truthy(body.eventId)
    requires db.connectOk && db.findOk && db.insertOk
    modifies store
    ensures store.Valid()
    ensures first == Processed || first == AlreadyProcessed
    ensures second == AlreadyProcessed && secondEffects == []
  {
    var firstEffects;
    first, firstEffects := Handle(store, body, db, db, true, userName);
    second, secondEffects := Handle(store, body, db, db, true, userName);
  }
}
