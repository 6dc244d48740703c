/** What the pipeline guarantees for every schedule: conservation, order, drain length and when it crashes. */
module Guarantees {
  import opened Topics
  import opened JsonModel
  import opened Transformation
  import opened StreamTransformers
  import opened Chains
  import opened Routes
  import opened Pipeline

  // ---- Conservation ----

  lemma {:induction false} StartKeeps(lib: Library, routes: RouteTable)
    ensures Invariant(lib, Start(routes))
  {
    assert Pipe(lib, Start(routes)) == [];
  }

  lemma {:induction false} Reached(lib: Library, routes: RouteTable, schedule: seq<Action>)
    requires Fits(lib, Start(routes), schedule)
    ensures Invariant(lib, Run(lib, Start(routes), schedule))
    ensures Run(lib, Start(routes), schedule).routes == routes
  {
    StartKeeps(lib, routes);
    RunKeeps(lib, Start(routes), schedule);
  }

  lemma {:induction false} QueueIsTransformLane(lib: Library, items: seq<Item>)
    requires forall item | item in items :: !item.origin.direct
    ensures Lane(Queued(lib, items), false) == Queued(lib, items)
  {
    if items == [] {
    } else {
      QueueIsTransformLane(lib, items[1..]);
      assert Queued(lib, items)[1..] == Queued(lib, items[1..]);
    }
  }

  lemma {:induction false} LanesOfMiddle(lib: Library, s: State)
    requires ThreadsSound(s)
    ensures Lane(Middle(lib, s), true) == [] && Lane(Middle(lib, s), false) == Middle(lib, s)
  {
    LaneConcat(InTransform(lib, s), Queued(lib, s.transformQueue), true);
    LaneConcat(InTransform(lib, s), Queued(lib, s.transformQueue), false);
    MiddleHasNoDirect(lib, s.transformQueue);
    QueueIsTransformLane(lib, s.transformQueue);
  }

  /**
   In every reachable state, per lane: what is past the transform thread, then what it holds and has queued,
   then what is yet to be dispatched, is what the arrivals are to become, in arrival and configuration order.
   */
  lemma {:induction false} Conservation(lib: Library, routes: RouteTable, schedule: seq<Action>)
    requires Fits(lib, Start(routes), schedule)
    ensures
      var s := Run(lib, Start(routes), schedule);
      var expected := Expected(lib, routes, s.arrived);
      && Lane(Past(s), true) + Lane(Ahead(lib, s), true) == Lane(expected, true)
      && Lane(Past(s), false) + (InTransform(lib, s) + Queued(lib, s.transformQueue)) + Lane(Ahead(lib, s), false)
         == Lane(expected, false)
  {
    Reached(lib, routes, schedule);
    var s := Run(lib, Start(routes), schedule);
    LanesOfMiddle(lib, s);
    PipeLane(lib, s, true);
    PipeLane(lib, s, false);
    assert Lane(Past(s), true) + [] == Lane(Past(s), true);
  }

  lemma {:induction false} PipeLane(lib: Library, s: State, direct: bool)
    ensures Lane(Pipe(lib, s), direct) ==
              Lane(Past(s), direct) + Lane(Middle(lib, s), direct) + Lane(Ahead(lib, s), direct)
  {
    LaneConcat(Past(s) + Middle(lib, s), Ahead(lib, s), direct);
    LaneConcat(Past(s), Middle(lib, s), direct);
  }

  // ---- No route overtakes itself ----

  lemma {:induction false} PublishedLeads(lib: Library, s: State, origin: Origin)
    ensures OfOrigin(Done(s.published), origin) <= OfOrigin(Pipe(lib, s), origin)
  {
    var later := Done(Held(s) + s.outgoing);
    Associate(s.published, Held(s), s.outgoing);
    DoneConcat(s.published, Held(s) + s.outgoing);
    OfOriginConcat(Past(s) + Middle(lib, s), Ahead(lib, s), origin);
    OfOriginConcat(Past(s), Middle(lib, s), origin);
    OfOriginConcat(Done(s.published), later, origin);
  }

  /** At any point of any run, what is published for a route is a prefix of what is due for it. */
  lemma {:induction false} RouteOrder(lib: Library, routes: RouteTable, schedule: seq<Action>, origin: Origin)
    requires Fits(lib, Start(routes), schedule)
    ensures
      var s := Run(lib, Start(routes), schedule);
      OfOrigin(Done(s.published), origin) <= OfOrigin(Expected(lib, routes, s.arrived), origin)
  {
    Reached(lib, routes, schedule);
    var s := Run(lib, Start(routes), schedule);
    var expected := Expected(lib, routes, s.arrived);
    assert Lane(Pipe(lib, s), origin.direct) == Lane(expected, origin.direct);
    OfOriginInLane(Pipe(lib, s), origin);
    OfOriginInLane(expected, origin);
    PublishedLeads(lib, s, origin);
  }

  // ---- Nothing is invented ----

  lemma {:induction false} InLane(deliveries: seq<Delivery>, direct: bool, d: Delivery)
    ensures d in Lane(deliveries, direct) <==> d in deliveries && d.origin.direct == direct
  {
    if deliveries == [] {
    } else {
      InLane(deliveries[1..], direct, d);
      assert deliveries == [deliveries[0]] + deliveries[1..];
    }
  }

  /** d is what message is to become on the route at position j of its topic. */
  predicate DueFor(lib: Library, routes: RouteTable, message: Message, j: nat, d: Delivery) {
    && message.topic in routes
    && j < |routes[message.topic]|
    && d == RouteDelivery(lib, message, routes[message.topic][j], j)
  }

  lemma {:induction false} InDeliveries(
      lib: Library, message: Message, routes: seq<RouteProperties>, next: nat, d: Delivery)
    ensures d in DeliveriesFrom(lib, message, routes, next) <==>
              exists j: nat :: next <= j < |routes| && d == RouteDelivery(lib, message, routes[j], j)
    decreases |routes| - next
  {
    if next >= |routes| {
    } else {
      InDeliveries(lib, message, routes, next + 1, d);
    }
  }

  ghost predicate Due(lib: Library, routes: RouteTable, message: Message, d: Delivery) {
    exists j: nat :: DueFor(lib, routes, message, j, d)
  }

  lemma {:induction false} InMessageDeliveries(lib: Library, routes: RouteTable, message: Message, d: Delivery)
    ensures d in MessageDeliveries(lib, routes, message) <==> Due(lib, routes, message, d)
  {
    if message.topic in routes {
      InDeliveries(lib, message, routes[message.topic], 0, d);
      forall j: nat
        ensures DueFor(lib, routes, message, j, d) <==>
                  j < |routes[message.topic]| && d == RouteDelivery(lib, message, routes[message.topic][j], j)
      {
      }
    }
  }

  lemma {:induction false} InExpected(lib: Library, routes: RouteTable, messages: seq<Message>, d: Delivery)
    ensures d in Expected(lib, routes, messages) <==>
              exists message | message in messages :: Due(lib, routes, message, d)
  {
    if messages == [] {
    } else {
      InExpected(lib, routes, messages[1..], d);
      InMessageDeliveries(lib, routes, messages[0], d);
      assert forall m :: m in messages <==> m == messages[0] || m in messages[1..];
    }
  }

  /** A route without transformers never ends the process. */
  lemma {:induction false} DirectFinishes(lib: Library, routes: RouteTable, messages: seq<Message>, d: Delivery)
    ensures d in Expected(lib, routes, messages) && d.origin.direct ==> d.result.Finished?
  {
    if d in Expected(lib, routes, messages) {
      InExpected(lib, routes, messages, d);
      var message :| message in messages && Due(lib, routes, message, d);
      var j: nat :| DueFor(lib, routes, message, j, d);
    }
  }

  lemma {:induction false} PipeIsExpected(lib: Library, s: State, d: Delivery)
    requires Invariant(lib, s)
    ensures d in Pipe(lib, s) <==> d in Expected(lib, s.routes, s.arrived)
  {
    InLane(Pipe(lib, s), d.origin.direct, d);
    InLane(Expected(lib, s.routes, s.arrived), d.origin.direct, d);
    assert Lane(Pipe(lib, s), d.origin.direct) == Lane(Expected(lib, s.routes, s.arrived), d.origin.direct);
  }

  /** Whatever is published was due for an arrived message on one of its configured routes. */
  lemma {:induction false} NothingInvented(lib: Library, routes: RouteTable, schedule: seq<Action>, k: nat)
    requires Fits(lib, Start(routes), schedule)
    requires k < |Run(lib, Start(routes), schedule).published|
    ensures
      var s := Run(lib, Start(routes), schedule);
      exists message | message in s.arrived :: Due(lib, routes, message, Done(s.published)[k])
  {
    Reached(lib, routes, schedule);
    var s := Run(lib, Start(routes), schedule);
    var d := Done(s.published)[k];
    assert Past(s)[k] == d;
    assert Pipe(lib, s)[k] == d;
    PipeIsExpected(lib, s, d);
    InExpected(lib, routes, s.arrived, d);
  }

  // ---- When it stops ----

  /** All queues are empty and all threads idle. */
  predicate Quiet(s: State) {
    && s.incoming == [] && s.transformQueue == [] && s.outgoing == []
    && s.ingest.IngestIdle? && s.transform.TransformIdle? && s.publish.PublishIdle?
  }

  lemma {:induction false} StoppedExact(s: State)
    requires ThreadsSound(s)
    ensures Stopped(s) <==> s.transform.Crashed? || Quiet(s)
  {
    if !s.transform.Crashed? && !Quiet(s) {
      assert exists action: Action :: !action.Arrive? && Enabled(s, action) by {
        assert Enabled(s, IngestPop) || Enabled(s, Dispatch) || Enabled(s, TransformPop) || Enabled(s, ExecuteNext)
               || Enabled(s, TransformPush) || Enabled(s, PublishPop) || Enabled(s, Send);
      }
    }
  }

  lemma {:induction false} StoppedPipe(lib: Library, s: State)
    requires ThreadsSound(s) && Stopped(s) && !s.transform.Crashed?
    ensures Pipe(lib, s) == Done(s.published)
  {
    StoppedExact(s);
    assert s.published + Held(s) + s.outgoing == s.published;
  }

  /**
   Once stopped without a crash, each lane has been published whole and in order, so the published list is a
   merge of the two and holds every expected delivery exactly as often as it is due.
   */
  lemma {:induction false} Delivered(lib: Library, routes: RouteTable, schedule: seq<Action>)
    requires Fits(lib, Start(routes), schedule)
    requires Stopped(Run(lib, Start(routes), schedule)) && !Run(lib, Start(routes), schedule).transform.Crashed?
    ensures
      var s := Run(lib, Start(routes), schedule);
      var published, expected := Done(s.published), Expected(lib, routes, s.arrived);
      && Lane(published, true) == Lane(expected, true)
      && Lane(published, false) == Lane(expected, false)
      && multiset(published) == multiset(expected)
  {
    Reached(lib, routes, schedule);
    var s := Run(lib, Start(routes), schedule);
    StoppedPipe(lib, s);
    assert Lane(Pipe(lib, s), true) == Lane(Expected(lib, routes, s.arrived), true);
    assert Lane(Pipe(lib, s), false) == Lane(Expected(lib, routes, s.arrived), false);
    LanesHoldAll(Done(s.published));
    LanesHoldAll(Expected(lib, routes, s.arrived));
  }

  /** Some arrival has a route whose chain would end the process. */
  ghost predicate TerminationDue(lib: Library, routes: RouteTable, messages: seq<Message>) {
    exists d | d in Expected(lib, routes, messages) :: d.result.Terminated?
  }

  /** A crash always has its cause in an arrival, and a run that stops has crashed exactly if there was one. */
  lemma {:induction false} CrashExact(lib: Library, routes: RouteTable, schedule: seq<Action>)
    requires Fits(lib, Start(routes), schedule)
    ensures
      var s := Run(lib, Start(routes), schedule);
      && (s.transform.Crashed? ==> TerminationDue(lib, routes, s.arrived))
      && (Stopped(s) ==> (s.transform.Crashed? <==> TerminationDue(lib, routes, s.arrived)))
  {
    Reached(lib, routes, schedule);
    var s := Run(lib, Start(routes), schedule);
    if s.transform.Crashed? {
      var d := Delivery(s.transform.item.origin, Terminated);
      assert InTransform(lib, s)[0] == d;
      assert d in Middle(lib, s);
      assert d in Pipe(lib, s);
      PipeIsExpected(lib, s, d);
    } else if Stopped(s) {
      Delivered(lib, routes, schedule);
      forall d | d in Expected(lib, routes, s.arrived)
        ensures !d.result.Terminated?
      {
        assert d in multiset(Expected(lib, routes, s.arrived));
        assert d in Done(s.published);
      }
    }
  }

  /** A transformer of one of its routes aborts on the message. */
  predicate Threatens(lib: Library, routes: RouteTable, message: Message) {
    && message.topic in routes
    && exists route | route in routes[message.topic] :: exists t | t in route.streamTransformers ::
         Aborts(lib, t, message)
  }

  /** Every payload agrees in kind with itself, so a route's chain terminates exactly if a member aborts. */
  lemma {:induction false} RouteTerminates(lib: Library, message: Message, route: RouteProperties, index: nat)
    ensures RouteDelivery(lib, message, route, index).result.Terminated? <==>
              exists t | t in route.streamTransformers :: Aborts(lib, t, message)
  {
    TerminatedExact(lib, route.streamTransformers, message, Output(route.outputTopic, message.payload));
  }

  /** Termination is due exactly when some message meets a transformer that aborts on it. */
  lemma {:induction false} TerminationDueExact(lib: Library, routes: RouteTable, messages: seq<Message>)
    ensures TerminationDue(lib, routes, messages) <==>
              exists message | message in messages :: Threatens(lib, routes, message)
  {
    if TerminationDue(lib, routes, messages) {
      var d :| d in Expected(lib, routes, messages) && d.result.Terminated?;
      InExpected(lib, routes, messages, d);
      var message :| message in messages && Due(lib, routes, message, d);
      var j: nat :| DueFor(lib, routes, message, j, d);
      RouteTerminates(lib, message, routes[message.topic][j], j);
      assert Threatens(lib, routes, message);
    }
    if message :| message in messages && Threatens(lib, routes, message) {
      var route :| route in routes[message.topic] && exists t | t in route.streamTransformers ::
        Aborts(lib, t, message);
      var j :| 0 <= j < |routes[message.topic]| && routes[message.topic][j] == route;
      var d := RouteDelivery(lib, message, route, j);
      RouteTerminates(lib, message, route, j);
      assert DueFor(lib, routes, message, j, d);
      InExpected(lib, routes, messages, d);
    }
  }

  /** A crash is told from the messages and the table: one of them threatens, and if so no run just stops. */
  lemma {:induction false} CrashFromInput(lib: Library, routes: RouteTable, schedule: seq<Action>)
    requires Fits(lib, Start(routes), schedule)
    ensures
      var s := Run(lib, Start(routes), schedule);
      var threatened := exists message | message in s.arrived :: Threatens(lib, routes, message);
      && (s.transform.Crashed? ==> threatened)
      && (Stopped(s) ==> (s.transform.Crashed? <==> threatened))
  {
    CrashExact(lib, routes, schedule);
    TerminationDueExact(lib, routes, Run(lib, Start(routes), schedule).arrived);
  }

  /** The message lacks a key that a payloadToPayload of one of its routes copies from. */
  predicate LacksKey(routes: RouteTable, message: Message) {
    && message.topic in routes
    && exists route | route in routes[message.topic] :: exists t | t in route.streamTransformers ::
         t.PayloadToPayload? && !Contains(message.payload, t.p2p.fromPayload)
  }

  /** With object payloads a run that stops has crashed exactly if some arrival lacks a key that is copied from. */
  lemma {:induction false} CrashForObjects(lib: Library, routes: RouteTable, schedule: seq<Action>)
    requires Fits(lib, Start(routes), schedule) && Stopped(Run(lib, Start(routes), schedule))
    requires forall message | message in Run(lib, Start(routes), schedule).arrived :: message.payload.JObject?
    ensures
      var s := Run(lib, Start(routes), schedule);
      s.transform.Crashed? <==> exists message | message in s.arrived :: LacksKey(routes, message)
  {
    CrashFromInput(lib, routes, schedule);
    forall message | message in Run(lib, Start(routes), schedule).arrived
      ensures Threatens(lib, routes, message) <==> LacksKey(routes, message)
    {
      forall t: StreamTransformer
        ensures Aborts(lib, t, message) <==> t.PayloadToPayload? && !Contains(message.payload, t.p2p.fromPayload)
      {
      }
    }
  }

  /** An empty object is enough to end the process, where a key is moved onto itself. */
  lemma {:induction false} EmptyObjectCrashes(lib: Library) returns (routes: RouteTable, schedule: seq<Action>)
    ensures Fits(lib, Start(routes), schedule) && Run(lib, Start(routes), schedule).transform.Crashed?
    ensures Arrivals(schedule) == [Message("a", JObject(map[]))]
  {
    var move := PayloadToPayload(P2P.PayloadToPayloadTransformation("k", "k", JsonTypeUnknown, false));
    routes := CrashingTable(move);
    schedule := OneCrash(lib, move, Message("a", JObject(map[])));
  }

  /** So is a number, where a level of the topic is stored under a key. */
  lemma {:induction false} NumberPayloadCrashes(lib: Library) returns (routes: RouteTable, schedule: seq<Action>)
    ensures Fits(lib, Start(routes), schedule) && Run(lib, Start(routes), schedule).transform.Crashed?
    ensures Arrivals(schedule) == [Message("a", JInt(5))]
  {
    var store := TopicToPayload(T2P.TopicToPayloadTransformation(0, "k", JsonTypeUnknown));
    routes := CrashingTable(store);
    schedule := OneCrash(lib, store, Message("a", JInt(5)));
  }

  function CrashingTable(t: StreamTransformer): RouteTable {
    map["a" := [RouteProperties("r", "b", [t])]]
  }

  lemma {:induction false} OneCrash(lib: Library, t: StreamTransformer, message: Message)
    returns (schedule: seq<Action>)
    requires message.topic == "a" && Aborts(lib, t, message)
    ensures
      && Fits(lib, Start(CrashingTable(t)), schedule)
      && Run(lib, Start(CrashingTable(t)), schedule).transform.Crashed?
      && Arrivals(schedule) == [message]
  {
    var start := Start(CrashingTable(t));
    OutcomeFromInput(lib, t, message, Output("b", message.payload));
    var dispatching := Step(lib, Step(lib, start, Arrive(message)), IngestPop);
    var queued := Step(lib, dispatching, Dispatch);
    schedule := [ExecuteNext];
    assert schedule[1..] == [];
    var before := Step(lib, queued, TransformPop);
    assert Step(lib, before, ExecuteNext).transform.Crashed?;
    schedule := Earlier(lib, queued, TransformPop, schedule);
    schedule := Earlier(lib, dispatching, Dispatch, schedule);
    schedule := Earlier(lib, Step(lib, start, Arrive(message)), IngestPop, schedule);
    schedule := Earlier(lib, start, Arrive(message), schedule);
  }

  /** A schedule can be begun a step earlier. */
  lemma {:induction false} Earlier(lib: Library, s: State, action: Action, later: seq<Action>)
    returns (schedule: seq<Action>)
    requires Enabled(s, action) && Fits(lib, Step(lib, s, action), later)
    ensures Fits(lib, s, schedule) && Run(lib, s, schedule) == Run(lib, Step(lib, s, action), later)
    ensures Arrivals(schedule) == (if action.Arrive? then [action.message] else []) + Arrivals(later)
  {
    schedule := [action] + later;
    assert schedule[1..] == later;
  }

  // ---- Drain length ----

  /** Steps from the transform queue to the client: pop, one per transformer, push, pop, send. */
  function ItemWork(item: Item): nat {
    if item.transformers == [] then 1 else |item.transformers| + 4
  }

  /** Steps from the dispatch of a route to the client. */
  function RouteWork(route: RouteProperties): nat {
    if route.streamTransformers == [] then 3 else |route.streamTransformers| + 5
  }

  function RoutesWork(routes: seq<RouteProperties>, next: nat): nat
    decreases |routes| - next
  {
    if next >= |routes| then 0 else RouteWork(routes[next]) + RoutesWork(routes, next + 1)
  }

  function MessageWork(routes: RouteTable, message: Message): nat {
    1 + if message.topic in routes then RoutesWork(routes[message.topic], 0) else 0
  }

  function IncomingWork(routes: RouteTable, messages: seq<Message>): nat {
    if messages == [] then 0 else MessageWork(routes, messages[0]) + IncomingWork(routes, messages[1..])
  }

  function QueueWork(items: seq<Item>): nat {
    if items == [] then 0 else ItemWork(items[0]) + QueueWork(items[1..])
  }

  function TransformWork(transform: TransformThread): nat {
    match transform
    case TransformIdle => 0
    case Transforming(item, next, _) =>
      if next <= |item.transformers| then |item.transformers| - next + 3 else 0
    case Crashed(item, next) =>
      if next < |item.transformers| then |item.transformers| - next + 2 else 0
  }

  /** The steps the three threads still have to take, or would have had to without a crash. */
  function Work(s: State): nat {
    IncomingWork(s.routes, s.incoming)
    + (if s.ingest.Dispatching? then RoutesWork(s.ingest.routes, s.ingest.next) else 0)
    + QueueWork(s.transformQueue)
    + TransformWork(s.transform)
    + 2 * |s.outgoing|
    + if s.publish.Sending? then 1 else 0
  }

  /** The work arrivals in a schedule bring, their own steps included. */
  function Brought(routes: RouteTable, schedule: seq<Action>): nat {
    if schedule == [] then 0
    else
      (if schedule[0].Arrive? then 1 + MessageWork(routes, schedule[0].message) else 0)
      + Brought(routes, schedule[1..])
  }

  lemma {:induction false} IncomingWorkSnoc(routes: RouteTable, messages: seq<Message>, message: Message)
    ensures IncomingWork(routes, messages + [message]) == IncomingWork(routes, messages) + MessageWork(routes, message)
  {
    if messages == [] {
      assert (messages + [message])[1..] == [];
    } else {
      assert (messages + [message])[1..] == messages[1..] + [message];
      IncomingWorkSnoc(routes, messages[1..], message);
    }
  }

  lemma {:induction false} QueueWorkSnoc(items: seq<Item>, item: Item)
    ensures QueueWork(items + [item]) == QueueWork(items) + ItemWork(item)
  {
    if items == [] {
      assert (items + [item])[1..] == [];
    } else {
      assert (items + [item])[1..] == items[1..] + [item];
      QueueWorkSnoc(items[1..], item);
    }
  }

  lemma {:induction false} DispatchTakesOne(s: State)
    requires ThreadsSound(s) && Enabled(s, Dispatch)
    ensures Work(AfterDispatch(s)) + 1 == Work(s)
  {
    assert RoutesWork(s.ingest.routes, |s.ingest.routes|) == 0;
    if s.ingest.routes[s.ingest.next].streamTransformers != [] {
      QueueWorkSnoc(s.transformQueue, AfterDispatch(s).transformQueue[|s.transformQueue|]);
    }
  }

  /** Every step but an arrival takes exactly one off the work, one that crashes included; an arrival adds its own. */
  lemma {:induction false} StepTakesOne(lib: Library, s: State, action: Action)
    requires ThreadsSound(s) && Enabled(s, action)
    ensures Work(Step(lib, s, action)) + 1 ==
              Work(s) + if action.Arrive? then 1 + MessageWork(s.routes, action.message) else 0
  {
    match action {
      case Arrive(message) => IncomingWorkSnoc(s.routes, s.incoming, message);
      case Dispatch => DispatchTakesOne(s);
      case TransformPop => assert s.transformQueue[0] in s.transformQueue;
      case _ =>
    }
  }

  lemma {:induction false} TableStays(lib: Library, s: State, action: Action)
    requires Enabled(s, action)
    ensures Step(lib, s, action).routes == s.routes
  {
  }

  /** The length of any run is the work it started with and was brought, less what is left. */
  lemma {:induction false} RunLength(lib: Library, s: State, schedule: seq<Action>)
    requires ThreadsSound(s) && Fits(lib, s, schedule)
    ensures |schedule| + Work(Run(lib, s, schedule)) == Work(s) + Brought(s.routes, schedule)
    decreases |schedule|
  {
    if schedule == [] {
    } else {
      ThreadsStaySound(lib, s, schedule[0]);
      StepTakesOne(lib, s, schedule[0]);
      TableStays(lib, s, schedule[0]);
      RunLength(lib, Step(lib, s, schedule[0]), schedule[1..]);
    }
  }

  lemma {:induction false} NoWorkIsQuiet(s: State)
    requires ThreadsSound(s)
    ensures Work(s) == 0 <==> Quiet(s)
  {
  }

  lemma {:induction false} RunStaysSound(lib: Library, s: State, schedule: seq<Action>)
    requires ThreadsSound(s) && Fits(lib, s, schedule)
    ensures ThreadsSound(Run(lib, s, schedule))
    decreases |schedule|
  {
    if schedule == [] {
    } else {
      ThreadsStaySound(lib, s, schedule[0]);
      RunStaysSound(lib, Step(lib, s, schedule[0]), schedule[1..]);
    }
  }

  /** No run is longer than the work there was; it is as long exactly when all is done, and stops then or in a crash. */
  lemma {:induction false} DrainLengthExact(lib: Library, s: State, schedule: seq<Action>)
    requires ThreadsSound(s) && Fits(lib, s, schedule)
    ensures
      var t, work := Run(lib, s, schedule), Work(s) + Brought(s.routes, schedule);
      && |schedule| <= work
      && (Quiet(t) <==> |schedule| == work)
      && (Stopped(t) <==> t.transform.Crashed? || |schedule| == work)
  {
    RunLength(lib, s, schedule);
    RunStaysSound(lib, s, schedule);
    StoppedExact(Run(lib, s, schedule));
    NoWorkIsQuiet(Run(lib, s, schedule));
  }

  /** From any sound state the threads can run until they stop. */
  lemma {:induction false} CanStop(lib: Library, s: State) returns (schedule: seq<Action>)
    requires ThreadsSound(s)
    ensures forall action | action in schedule :: !action.Arrive?
    ensures Fits(lib, s, schedule) && Stopped(Run(lib, s, schedule))
    decreases Work(s)
  {
    if Stopped(s) {
      schedule := [];
    } else {
      var action: Action :| !action.Arrive? && Enabled(s, action);
      ThreadsStaySound(lib, s, action);
      StepTakesOne(lib, s, action);
      var rest := CanStop(lib, Step(lib, s, action));
      schedule := [action] + rest;
      assert schedule[1..] == rest;
    }
  }

  // ---- Any two interleavings agree ----

  function Arrivals(schedule: seq<Action>): seq<Message> {
    if schedule == [] then []
    else (if schedule[0].Arrive? then [schedule[0].message] else []) + Arrivals(schedule[1..])
  }

  lemma {:induction false} StepRecords(lib: Library, s: State, action: Action)
    requires Enabled(s, action)
    ensures Step(lib, s, action).arrived == s.arrived + if action.Arrive? then [action.message] else []
  {
    assert s.arrived + [] == s.arrived;
  }

  lemma {:induction false} ArrivalsAreRecorded(lib: Library, s: State, schedule: seq<Action>)
    requires Fits(lib, s, schedule)
    ensures Run(lib, s, schedule).arrived == s.arrived + Arrivals(schedule)
    decreases |schedule|
  {
    if schedule == [] {
      assert s.arrived + [] == s.arrived;
    } else {
      var first := if schedule[0].Arrive? then [schedule[0].message] else [];
      StepRecords(lib, s, schedule[0]);
      ArrivalsAreRecorded(lib, Step(lib, s, schedule[0]), schedule[1..]);
      Associate(s.arrived, first, Arrivals(schedule[1..]));
    }
  }

  lemma {:induction false} BroughtByArrivals(routes: RouteTable, schedule: seq<Action>)
    ensures Brought(routes, schedule) == |Arrivals(schedule)| + IncomingWork(routes, Arrivals(schedule))
  {
    if schedule == [] {
    } else {
      BroughtByArrivals(routes, schedule[1..]);
      var rest := Arrivals(schedule[1..]);
      if schedule[0].Arrive? {
        assert Arrivals(schedule)[1..] == rest;
      } else {
        assert Arrivals(schedule) == rest;
      }
    }
  }

  /**
   Two complete runs on the same arrivals, however interleaved: both crash or neither, and if neither they take
   equally many steps and publish the same lanes, hence the same messages.
   */
  lemma {:induction false} InterleavingsAgree(lib: Library, routes: RouteTable, one: seq<Action>, two: seq<Action>)
    requires Fits(lib, Start(routes), one) && Stopped(Run(lib, Start(routes), one))
    requires Fits(lib, Start(routes), two) && Stopped(Run(lib, Start(routes), two))
    requires Arrivals(one) == Arrivals(two)
    ensures
      var s, t := Run(lib, Start(routes), one), Run(lib, Start(routes), two);
      && (s.transform.Crashed? <==> t.transform.Crashed?)
      && (!s.transform.Crashed? ==>
            && |one| == |two| == |Arrivals(one)| + IncomingWork(routes, Arrivals(one))
            && Lane(Done(s.published), true) == Lane(Done(t.published), true)
            && Lane(Done(s.published), false) == Lane(Done(t.published), false)
            && multiset(Done(s.published)) == multiset(Done(t.published)))
  {
    CompleteRun(lib, routes, one);
    CompleteRun(lib, routes, two);
  }

  lemma {:induction false} CompleteRun(lib: Library, routes: RouteTable, schedule: seq<Action>)
    requires Fits(lib, Start(routes), schedule) && Stopped(Run(lib, Start(routes), schedule))
    ensures
      var s := Run(lib, Start(routes), schedule);
      var expected := Expected(lib, routes, Arrivals(schedule));
      && (s.transform.Crashed? <==> TerminationDue(lib, routes, Arrivals(schedule)))
      && (!s.transform.Crashed? ==>
            && |schedule| == |Arrivals(schedule)| + IncomingWork(routes, Arrivals(schedule))
            && Lane(Done(s.published), true) == Lane(expected, true)
            && Lane(Done(s.published), false) == Lane(expected, false)
            && multiset(Done(s.published)) == multiset(expected))
  {
    ArrivalsAreRecorded(lib, Start(routes), schedule);
    assert [] + Arrivals(schedule) == Arrivals(schedule);
    CrashExact(lib, routes, schedule);
    if !Run(lib, Start(routes), schedule).transform.Crashed? {
      Delivered(lib, routes, schedule);
      DrainLengthExact(lib, Start(routes), schedule);
      BroughtByArrivals(routes, schedule);
    }
  }

  // ---- From the configured list ----

  /** With the table of a configuration, a message goes by exactly the configured routes of its topic, in order. */
  lemma {:induction false} DeliveriesByConfiguration(
      lib: Library, table: RouteTable, routes: seq<ConfiguredRoute>, message: Message)
    requires Refines(table, routes)
    ensures MessageDeliveries(lib, table, message) == DeliveriesFrom(lib, message, RoutesFor(routes, message.topic), 0)
  {
  }

  lemma {:induction false} RouteIsConfigured(routes: seq<ConfiguredRoute>, topic: string, j: nat) returns (i: nat)
    requires j < |RoutesFor(routes, topic)|
    ensures i < |routes| && routes[i] == ConfiguredRoute(topic, RoutesFor(routes, topic)[j])
  {
    if routes[0].inputTopic == topic && j == 0 {
      i := 0;
    } else {
      var rest := RouteIsConfigured(routes[1..], topic, if routes[0].inputTopic == topic then j - 1 else j);
      i := rest + 1;
    }
  }

  /**
   The route is for the message's topic. The output has the route's levels with the writes of its transformers
   spliced in, and every key of the message as the last transformer that touches it leaves it.
   */
  ghost predicate Fulfils(lib: Library, route: ConfiguredRoute, message: Message, output: Output) {
    var ts := route.properties.streamTransformers;
    && route.inputTopic == message.topic
    && Levels(output.topic) == SpliceAll(Levels(route.properties.outputTopic), WritesOf(lib, ts, message))
    && (ts == [] ==> output.payload == message.payload)
    && forall key ::
         Lookup(output.payload, key) == AfterTouch(LastTouch(lib, ts, message, key), Lookup(message.payload, key))
  }

  lemma {:induction false} RouteFulfils(
      lib: Library, entry: Json, route: ConfiguredRoute, message: Message, j: nat, output: Output)
    requires DescribesRoute(entry, route) && route.inputTopic == message.topic
    requires RouteDelivery(lib, message, route.properties, j).result == Finished(output)
    ensures Fulfils(lib, route, message, output)
  {
    var ts, start := route.properties.streamTransformers, Output(route.properties.outputTopic, message.payload);
    AllowedTopicExact(Lookup(entry, "outputTopic"));
    ChainParts(lib, ts, message, start);
    ChainTopic(lib, ts, message, start.topic);
    forall key
      ensures Lookup(output.payload, key) == AfterTouch(LastTouch(lib, ts, message, key), Lookup(message.payload, key))
    {
      LastTouchDecides(lib, ts, message, start, key);
    }
  }

  /**
   From the configuration's text to the client: whatever is published, at any point of any run, comes from an arrived
   message and an entry of the configuration, which says what has become of the message.
   */
  lemma {:induction false} PublishedAsConfigured(
      lib: Library, json: Json, routes: seq<ConfiguredRoute>, table: RouteTable, schedule: seq<Action>, k: nat)
    requires DescribesRoutes(json, routes) && Refines(table, routes)
    requires Fits(lib, Start(table), schedule) && k < |Run(lib, Start(table), schedule).published|
    ensures
      var s := Run(lib, Start(table), schedule);
      exists message, i | message in s.arrived && 0 <= i < |routes| ::
        DescribesRoute(json.items[i], routes[i]) && Fulfils(lib, routes[i], message, s.published[k].output)
  {
    var s := Run(lib, Start(table), schedule);
    var d := Done(s.published)[k];
    NothingInvented(lib, table, schedule, k);
    var message :| message in s.arrived && Due(lib, table, message, d);
    var j: nat :| DueFor(lib, table, message, j, d);
    var i := RouteIsConfigured(routes, message.topic, j);
    RouteFulfils(lib, json.items[i], routes[i], message, j, s.published[k].output);
  }

  /** With such a table no pop ever drops a message or an item for an empty list. */
  lemma {:induction false} EmptyListsUnreachable(
      lib: Library, table: RouteTable, routes: seq<ConfiguredRoute>, schedule: seq<Action>)
    requires Refines(table, routes) && Fits(lib, Start(table), schedule)
    ensures
      var s := Run(lib, Start(table), schedule);
      && (Enabled(s, IngestPop) ==>
            (AfterIngestPop(s).ingest.IngestIdle? <==> RoutesFor(routes, s.incoming[0].topic) == []))
      && (Enabled(s, TransformPop) ==> AfterTransformPop(s).transform.Transforming?)
  {
    Reached(lib, table, schedule);
    var s := Run(lib, Start(table), schedule);
    if Enabled(s, TransformPop) {
      assert s.transformQueue[0] in s.transformQueue;
    }
  }
}
