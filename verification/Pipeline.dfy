/**
 The three threads of src/traffic_warden.cpp as a transition system: ingest, transform and publish, with
 their local variables and the three queues between them. A schedule is any interleaving of their steps
 with arriving messages.
 */
module Pipeline {
  import opened JsonModel
  import opened Transformation
  import opened StreamTransformers
  import opened Chains
  import opened Routes

  /** Which route a message came by: the input topic, the position in its list, and whether it has no transformers. */
  datatype Origin = Origin(topic: string, index: nat, direct: bool)

  /** An entry of the transform queue. */
  datatype Item = Item(origin: Origin, transformers: seq<StreamTransformer>, input: Message, output: Output)

  /** An entry of the outgoing queue. */
  datatype Outgoing = Outgoing(origin: Origin, output: Output)

  datatype IngestThread = IngestIdle | Dispatching(message: Message, routes: seq<RouteProperties>, next: nat)

  /** Crashed: an exception left the thread in its turn next, which ends the whole process. */
  datatype TransformThread =
    | TransformIdle
    | Transforming(item: Item, next: nat, output: Output)
    | Crashed(item: Item, next: nat)

  datatype PublishThread = PublishIdle | Sending(outgoing: Outgoing)

  datatype State = State(
    routes: RouteTable,
    incoming: seq<Message>,
    transformQueue: seq<Item>,
    outgoing: seq<Outgoing>,
    ingest: IngestThread,
    transform: TransformThread,
    publish: PublishThread,
    arrived: seq<Message>,
    published: seq<Outgoing>)

  function Start(routes: RouteTable): State {
    State(routes, [], [], [], IngestIdle, TransformIdle, PublishIdle, [], [])
  }

  // ---- Steps ----

  datatype Action =
    | Arrive(message: Message)
    | IngestPop | Dispatch
    | TransformPop | ExecuteNext | TransformPush
    | PublishPop | Send

  predicate Enabled(s: State, action: Action) {
    && !s.transform.Crashed?
    && match action
       case Arrive(_) => true
       case IngestPop => s.ingest.IngestIdle? && s.incoming != []
       case Dispatch => s.ingest.Dispatching? && s.ingest.next < |s.ingest.routes|
       case TransformPop => s.transform.TransformIdle? && s.transformQueue != []
       case ExecuteNext => s.transform.Transforming? && s.transform.next < |s.transform.item.transformers|
       case TransformPush => s.transform.Transforming? && s.transform.next >= |s.transform.item.transformers|
       case PublishPop => s.publish.PublishIdle? && s.outgoing != []
       case Send => s.publish.Sending?
  }

  /** A message without routes, or with an empty list of them, is dropped when popped. */
  function AfterIngestPop(s: State): State
    requires Enabled(s, IngestPop)
  {
    var message := s.incoming[0];
    var popped := s.(incoming := s.incoming[1..]);
    if message.topic !in s.routes || s.routes[message.topic] == [] then popped
    else popped.(ingest := Dispatching(message, s.routes[message.topic], 0))
  }

  /** A route with transformers goes to the transform queue, any other straight to the outgoing queue. */
  function AfterDispatch(s: State): State
    requires Enabled(s, Dispatch)
  {
    var message, next := s.ingest.message, s.ingest.next;
    var route := s.ingest.routes[next];
    var origin := Origin(message.topic, next, route.streamTransformers == []);
    var output := Output(route.outputTopic, message.payload);
    var dispatched :=
      if route.streamTransformers != [] then
        s.(transformQueue := s.transformQueue + [Item(origin, route.streamTransformers, message, output)])
      else s.(outgoing := s.outgoing + [Outgoing(origin, output)]);
    dispatched.(ingest := if next + 1 == |s.ingest.routes| then IngestIdle else s.ingest.(next := next + 1))
  }

  /** An item without transformers is dropped when popped. */
  function AfterTransformPop(s: State): State
    requires Enabled(s, TransformPop)
  {
    var item := s.transformQueue[0];
    var popped := s.(transformQueue := s.transformQueue[1..]);
    if item.transformers == [] then popped else popped.(transform := Transforming(item, 0, item.output))
  }

  function AfterExecuteNext(lib: Library, s: State): State
    requires Enabled(s, ExecuteNext)
  {
    var item, next := s.transform.item, s.transform.next;
    var e := Executed(lib, item.transformers[next], item.input, s.transform.output);
    s.(transform := if e.outcome.Aborted? then Crashed(item, next) else Transforming(item, next + 1, e.output))
  }

  function Step(lib: Library, s: State, action: Action): State
    requires Enabled(s, action)
  {
    match action
    case Arrive(message) => s.(incoming := s.incoming + [message], arrived := s.arrived + [message])
    case IngestPop => AfterIngestPop(s)
    case Dispatch => AfterDispatch(s)
    case TransformPop => AfterTransformPop(s)
    case ExecuteNext => AfterExecuteNext(lib, s)
    case TransformPush =>
      s.(outgoing := s.outgoing + [Outgoing(s.transform.item.origin, s.transform.output)], transform := TransformIdle)
    case PublishPop => s.(publish := Sending(s.outgoing[0]), outgoing := s.outgoing[1..])
    case Send => s.(published := s.published + [s.publish.outgoing], publish := PublishIdle)
  }

  /** Every step of the schedule is enabled where it is taken. */
  predicate Fits(lib: Library, s: State, schedule: seq<Action>)
    decreases |schedule|
  {
    schedule == [] || (Enabled(s, schedule[0]) && Fits(lib, Step(lib, s, schedule[0]), schedule[1..]))
  }

  function Run(lib: Library, s: State, schedule: seq<Action>): State
    requires Fits(lib, s, schedule)
    decreases |schedule|
  {
    if schedule == [] then s else Run(lib, Step(lib, s, schedule[0]), schedule[1..])
  }

  /** Nothing is left to do until another message arrives. */
  ghost predicate Stopped(s: State) {
    forall action: Action | !action.Arrive? :: !Enabled(s, action)
  }

  // ---- The sequential specification ----

  /** What a message is to become on one route; Terminated if its chain would end the process. */
  datatype Delivery = Delivery(origin: Origin, result: ChainResult)

  function RouteDelivery(lib: Library, message: Message, route: RouteProperties, index: nat): Delivery {
    Delivery(Origin(message.topic, index, route.streamTransformers == []),
             RunChain(lib, route.streamTransformers, message, Output(route.outputTopic, message.payload)))
  }

  function DeliveriesFrom(lib: Library, message: Message, routes: seq<RouteProperties>, next: nat): seq<Delivery>
    decreases |routes| - next
  {
    if next >= |routes| then []
    else [RouteDelivery(lib, message, routes[next], next)] + DeliveriesFrom(lib, message, routes, next + 1)
  }

  function MessageDeliveries(lib: Library, routes: RouteTable, message: Message): seq<Delivery> {
    if message.topic in routes then DeliveriesFrom(lib, message, routes[message.topic], 0) else []
  }

  /** One message after another, each on its routes in configuration order. */
  function Expected(lib: Library, routes: RouteTable, messages: seq<Message>): seq<Delivery> {
    if messages == [] then []
    else MessageDeliveries(lib, routes, messages[0]) + Expected(lib, routes, messages[1..])
  }

  // ---- Where deliveries are on their way ----

  function Done(outgoing: seq<Outgoing>): seq<Delivery> {
    seq(|outgoing|, i requires 0 <= i < |outgoing| => Delivery(outgoing[i].origin, Finished(outgoing[i].output)))
  }

  function Held(s: State): seq<Outgoing> {
    if s.publish.Sending? then [s.publish.outgoing] else []
  }

  /** Past the transform thread: published, held by publish, or in the outgoing queue. */
  function Past(s: State): seq<Delivery> {
    Done(s.published + Held(s) + s.outgoing)
  }

  function ItemDelivery(lib: Library, item: Item): Delivery {
    Delivery(item.origin, RunChain(lib, item.transformers, item.input, item.output))
  }

  function Queued(lib: Library, items: seq<Item>): seq<Delivery> {
    if items == [] then [] else [ItemDelivery(lib, items[0])] + Queued(lib, items[1..])
  }

  function InTransform(lib: Library, s: State): seq<Delivery> {
    match s.transform
    case TransformIdle => []
    case Transforming(item, next, output) =>
      if next <= |item.transformers|
      then [Delivery(item.origin, RunChain(lib, item.transformers[next..], item.input, output))] else []
    case Crashed(item, _) => [Delivery(item.origin, Terminated)]
  }

  function Middle(lib: Library, s: State): seq<Delivery> {
    InTransform(lib, s) + Queued(lib, s.transformQueue)
  }

  /** Not dispatched yet. */
  function Ahead(lib: Library, s: State): seq<Delivery> {
    (if s.ingest.Dispatching? then DeliveriesFrom(lib, s.ingest.message, s.ingest.routes, s.ingest.next) else [])
    + Expected(lib, s.routes, s.incoming)
  }

  function Pipe(lib: Library, s: State): seq<Delivery> {
    Past(s) + Middle(lib, s) + Ahead(lib, s)
  }

  /** The deliveries of one lane: direct, or by way of the transform thread. */
  function Lane(deliveries: seq<Delivery>, direct: bool): seq<Delivery> {
    if deliveries == [] then []
    else (if deliveries[0].origin.direct == direct then [deliveries[0]] else []) + Lane(deliveries[1..], direct)
  }

  function OfOrigin(deliveries: seq<Delivery>, origin: Origin): seq<Delivery> {
    if deliveries == [] then []
    else (if deliveries[0].origin == origin then [deliveries[0]] else []) + OfOrigin(deliveries[1..], origin)
  }

  // ---- Invariant ----

  predicate ThreadsSound(s: State) {
    && (s.ingest.Dispatching? ==> s.ingest.next < |s.ingest.routes|)
    && (forall item | item in s.transformQueue :: item.transformers != [] && !item.origin.direct)
    && (s.transform.Transforming? ==>
          s.transform.next <= |s.transform.item.transformers| && !s.transform.item.origin.direct)
    && (s.transform.Crashed? ==>
          s.transform.next < |s.transform.item.transformers| && !s.transform.item.origin.direct)
  }

  /** Each lane of what is in the pipe is that lane of what the arrivals are to become, in order. */
  ghost predicate Conserved(lib: Library, s: State) {
    forall direct :: Lane(Pipe(lib, s), direct) == Lane(Expected(lib, s.routes, s.arrived), direct)
  }

  ghost predicate Invariant(lib: Library, s: State) {
    ThreadsSound(s) && Conserved(lib, s)
  }

  // ---- Lists ----

  lemma {:induction false} Associate<T>(a: seq<T>, b: seq<T>, c: seq<T>)
    ensures a + (b + c) == a + b + c
  {
  }

  lemma {:induction false} LaneConcat(a: seq<Delivery>, b: seq<Delivery>, direct: bool)
    ensures Lane(a + b, direct) == Lane(a, direct) + Lane(b, direct)
  {
    if a == [] {
      assert a + b == b;
    } else {
      assert (a + b)[1..] == a[1..] + b;
      LaneConcat(a[1..], b, direct);
    }
  }

  lemma {:induction false} LaneConcat4(
      a: seq<Delivery>, b: seq<Delivery>, c: seq<Delivery>, d: seq<Delivery>, direct: bool)
    ensures Lane(a + b + c + d, direct) == Lane(a, direct) + Lane(b, direct) + Lane(c, direct) + Lane(d, direct)
  {
    LaneConcat(a + b + c, d, direct);
    LaneConcat(a + b, c, direct);
    LaneConcat(a, b, direct);
  }

  lemma {:induction false} OfOriginConcat(a: seq<Delivery>, b: seq<Delivery>, origin: Origin)
    ensures OfOrigin(a + b, origin) == OfOrigin(a, origin) + OfOrigin(b, origin)
  {
    if a == [] {
      assert a + b == b;
    } else {
      assert (a + b)[1..] == a[1..] + b;
      OfOriginConcat(a[1..], b, origin);
    }
  }

  lemma {:induction false} OfOriginInLane(deliveries: seq<Delivery>, origin: Origin)
    ensures OfOrigin(Lane(deliveries, origin.direct), origin) == OfOrigin(deliveries, origin)
  {
    if deliveries == [] {
    } else {
      OfOriginInLane(deliveries[1..], origin);
      if deliveries[0].origin.direct == origin.direct {
        assert Lane(deliveries, origin.direct)[1..] == Lane(deliveries[1..], origin.direct);
      } else {
        assert Lane(deliveries, origin.direct) == Lane(deliveries[1..], origin.direct);
      }
    }
  }

  lemma {:induction false} LanesHoldAll(deliveries: seq<Delivery>)
    ensures multiset(Lane(deliveries, true)) + multiset(Lane(deliveries, false)) == multiset(deliveries)
  {
    if deliveries == [] {
    } else {
      LanesHoldAll(deliveries[1..]);
      assert deliveries == [deliveries[0]] + deliveries[1..];
    }
  }

  lemma {:induction false} DoneConcat(a: seq<Outgoing>, b: seq<Outgoing>)
    ensures Done(a + b) == Done(a) + Done(b)
  {
  }

  lemma {:induction false} QueuedConcat(lib: Library, a: seq<Item>, b: seq<Item>)
    ensures Queued(lib, a + b) == Queued(lib, a) + Queued(lib, b)
  {
    if a == [] {
      assert a + b == b;
    } else {
      assert (a + b)[1..] == a[1..] + b;
      QueuedConcat(lib, a[1..], b);
    }
  }

  lemma {:induction false} ExpectedConcat(lib: Library, routes: RouteTable, a: seq<Message>, b: seq<Message>)
    ensures Expected(lib, routes, a + b) == Expected(lib, routes, a) + Expected(lib, routes, b)
  {
    if a == [] {
      assert a + b == b;
    } else {
      assert (a + b)[1..] == a[1..] + b;
      ExpectedConcat(lib, routes, a[1..], b);
    }
  }

  lemma {:induction false} MiddleHasNoDirect(lib: Library, items: seq<Item>)
    requires forall item | item in items :: !item.origin.direct
    ensures Lane(Queued(lib, items), true) == []
  {
    if items == [] {
    } else {
      MiddleHasNoDirect(lib, items[1..]);
      assert Queued(lib, items)[1..] == Queued(lib, items[1..]);
    }
  }

  // ---- Every step keeps the invariant ----

  lemma {:induction false} AheadOfPop(lib: Library, s: State)
    requires Enabled(s, IngestPop)
    ensures Ahead(lib, AfterIngestPop(s)) == Ahead(lib, s)
  {
    var t := AfterIngestPop(s);
    var message, rest := s.incoming[0], Expected(lib, s.routes, s.incoming[1..]);
    assert Ahead(lib, s) == [] + Expected(lib, s.routes, s.incoming)
        == MessageDeliveries(lib, s.routes, message) + rest;
    assert t.ingest.IngestIdle? ==> MessageDeliveries(lib, s.routes, message) == [];
  }

  lemma {:induction false} AheadOfDispatch(lib: Library, s: State)
    requires Enabled(s, Dispatch)
    ensures Ahead(lib, s) ==
              [RouteDelivery(lib, s.ingest.message, s.ingest.routes[s.ingest.next], s.ingest.next)]
              + Ahead(lib, AfterDispatch(s))
  {
    var t := AfterDispatch(s);
    var moved := [RouteDelivery(lib, s.ingest.message, s.ingest.routes[s.ingest.next], s.ingest.next)];
    var later := DeliveriesFrom(lib, s.ingest.message, s.ingest.routes, s.ingest.next + 1);
    var rest := Expected(lib, s.routes, s.incoming);
    assert Ahead(lib, t) == later + rest;
    Associate(moved, later, rest);
  }

  lemma {:induction false} QueuedDispatch(lib: Library, s: State)
    requires ThreadsSound(s) && Enabled(s, Dispatch)
    requires s.ingest.routes[s.ingest.next].streamTransformers != []
    ensures Pipe(lib, AfterDispatch(s)) == Pipe(lib, s)
  {
    var t := AfterDispatch(s);
    var item := t.transformQueue[|s.transformQueue|];
    var moved := [ItemDelivery(lib, item)];
    QueuedConcat(lib, s.transformQueue, [item]);
    AheadOfDispatch(lib, s);
    assert Queued(lib, [item]) == moved;
    Associate(InTransform(lib, s), Queued(lib, s.transformQueue), moved);
    Associate(Past(s), Middle(lib, s), moved);
    Associate(Past(s) + Middle(lib, s), moved, Ahead(lib, t));
  }

  lemma {:induction false} TransformUnmoved(lib: Library, s: State, action: Action)
    requires ThreadsSound(s) && Enabled(s, action) && (action.TransformPop? || action.ExecuteNext?)
    ensures Middle(lib, Step(lib, s, action)) == Middle(lib, s)
  {
    if action.TransformPop? {
      var item := s.transformQueue[0];
      assert item in s.transformQueue;
      assert item.transformers[0..] == item.transformers;
    } else {
      var ts, next := s.transform.item.transformers, s.transform.next;
      assert ts[next..][1..] == ts[next + 1..];
    }
  }

  lemma {:induction false} PushUnmoved(lib: Library, s: State)
    requires ThreadsSound(s) && Enabled(s, TransformPush)
    ensures Pipe(lib, Step(lib, s, TransformPush)) == Pipe(lib, s)
  {
    var t := Step(lib, s, TransformPush);
    var moved := InTransform(lib, s);
    assert s.transform.item.transformers[s.transform.next..] == [];
    assert Past(t) == Past(s) + moved;
    assert Middle(lib, s) == moved + Middle(lib, t);
    Associate(Past(s), moved, Middle(lib, t));
  }

  /** All steps but a direct dispatch move a delivery along the pipe without reordering it. */
  lemma {:induction false} PipeUnmoved(lib: Library, s: State, action: Action)
    requires ThreadsSound(s) && Enabled(s, action) && !action.Arrive?
    requires action.Dispatch? ==> s.ingest.routes[s.ingest.next].streamTransformers != []
    ensures Pipe(lib, Step(lib, s, action)) == Pipe(lib, s)
  {
    var t := Step(lib, s, action);
    match action {
      case IngestPop => AheadOfPop(lib, s);
      case Dispatch => QueuedDispatch(lib, s);
      case TransformPop => TransformUnmoved(lib, s, action);
      case ExecuteNext => TransformUnmoved(lib, s, action);
      case TransformPush => PushUnmoved(lib, s);
      case PublishPop =>
        assert t.published + Held(t) + t.outgoing == s.published + Held(s) + s.outgoing;
      case Send =>
        assert t.published + Held(t) + t.outgoing == s.published + Held(s) + s.outgoing;
    }
  }

  /** A list that is in one lane may be overtaken by one that is in the other. */
  lemma {:induction false} OvertakeKeepsLane(
      past: seq<Delivery>, middle: seq<Delivery>, moved: seq<Delivery>, ahead: seq<Delivery>, direct: bool)
    requires Lane(middle, true) == [] && Lane(moved, false) == []
    ensures Lane(past + moved + middle + ahead, direct) == Lane(past + middle + (moved + ahead), direct)
  {
    LaneConcat4(past, moved, middle, ahead, direct);
    LaneConcat4(past, middle, moved, ahead, direct);
    Associate(past + middle, moved, ahead);
    var p := Lane(past, direct);
    assert p + [] == p;
    assert p + Lane(moved, direct) + [] == p + Lane(moved, direct);
    assert p + Lane(middle, direct) + [] == p + Lane(middle, direct);
  }

  /** A direct dispatch overtakes the items in the transform lane, and only those. */
  lemma {:induction false} DirectDispatchOvertakes(lib: Library, s: State, direct: bool)
    requires ThreadsSound(s) && Enabled(s, Dispatch)
    requires s.ingest.routes[s.ingest.next].streamTransformers == []
    ensures Lane(Pipe(lib, AfterDispatch(s)), direct) == Lane(Pipe(lib, s), direct)
  {
    var t := AfterDispatch(s);
    var moved := [RouteDelivery(lib, s.ingest.message, s.ingest.routes[s.ingest.next], s.ingest.next)];
    AheadOfDispatch(lib, s);
    assert Past(t) == Past(s) + moved;
    assert Lane(Middle(lib, s), true) == [] by {
      LaneConcat(InTransform(lib, s), Queued(lib, s.transformQueue), true);
      MiddleHasNoDirect(lib, s.transformQueue);
    }
    OvertakeKeepsLane(Past(s), Middle(lib, s), moved, Ahead(lib, t), direct);
  }

  lemma {:induction false} ArriveAppends(lib: Library, s: State, message: Message)
    requires Enabled(s, Arrive(message))
    ensures Pipe(lib, Step(lib, s, Arrive(message))) == Pipe(lib, s) + Expected(lib, s.routes, [message])
  {
    var t := Step(lib, s, Arrive(message));
    var more := Expected(lib, s.routes, [message]);
    var dispatching :=
      if s.ingest.Dispatching? then DeliveriesFrom(lib, s.ingest.message, s.ingest.routes, s.ingest.next) else [];
    assert Ahead(lib, t) == Ahead(lib, s) + more by {
      ExpectedConcat(lib, s.routes, s.incoming, [message]);
      Associate(dispatching, Expected(lib, s.routes, s.incoming), more);
    }
    Associate(Past(s) + Middle(lib, s), Ahead(lib, s), more);
  }

  lemma {:induction false} ArriveExtends(lib: Library, s: State, message: Message, direct: bool)
    requires Enabled(s, Arrive(message))
    requires Lane(Pipe(lib, s), direct) == Lane(Expected(lib, s.routes, s.arrived), direct)
    ensures Lane(Pipe(lib, Step(lib, s, Arrive(message))), direct) ==
              Lane(Expected(lib, s.routes, s.arrived + [message]), direct)
  {
    ArriveAppends(lib, s, message);
    ExpectedConcat(lib, s.routes, s.arrived, [message]);
    LaneConcat(Pipe(lib, s), Expected(lib, s.routes, [message]), direct);
    LaneConcat(Expected(lib, s.routes, s.arrived), Expected(lib, s.routes, [message]), direct);
  }

  lemma {:induction false} ThreadsStaySound(lib: Library, s: State, action: Action)
    requires ThreadsSound(s) && Enabled(s, action)
    ensures ThreadsSound(Step(lib, s, action))
  {
    if action.TransformPop? {
      assert s.transformQueue[0] in s.transformQueue;
    }
  }

  lemma {:induction false} StepKeeps(lib: Library, s: State, action: Action)
    requires Invariant(lib, s) && Enabled(s, action)
    ensures Invariant(lib, Step(lib, s, action))
  {
    ThreadsStaySound(lib, s, action);
    if action.Arrive? {
      ArriveExtends(lib, s, action.message, true);
      ArriveExtends(lib, s, action.message, false);
    } else if action.Dispatch? && s.ingest.routes[s.ingest.next].streamTransformers == [] {
      DirectDispatchOvertakes(lib, s, true);
      DirectDispatchOvertakes(lib, s, false);
    } else {
      PipeUnmoved(lib, s, action);
    }
  }

  lemma {:induction false} RunKeeps(lib: Library, s: State, schedule: seq<Action>)
    requires Invariant(lib, s) && Fits(lib, s, schedule)
    ensures Invariant(lib, Run(lib, s, schedule)) && Run(lib, s, schedule).routes == s.routes
    decreases |schedule|
  {
    if schedule == [] {
    } else {
      StepKeeps(lib, s, schedule[0]);
      RunKeeps(lib, Step(lib, s, schedule[0]), schedule[1..]);
    }
  }
}
