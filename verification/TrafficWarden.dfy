/**
 The TrafficWarden object of include/traffic_warden.h and src/traffic_warden.cpp: its queues and route table,
 one method for each atomic step of its threads, and the bodies of the three endless loops.
 */
module Warden {
  import opened Wrappers
  import opened JsonModel
  import opened Transformation
  import opened StreamTransformers
  import opened Chains
  import opened Routes
  import opened Pipeline
  import opened Guarantees

  class TrafficWarden {
    const lib: Library
    var routes: RouteTable
    var incomingQueue: seq<Message>
    var transformQueue: seq<Item>
    var outgoingQueue: seq<Outgoing>
    // The local variables of the three threads
    var ingestThread: IngestThread
    var transformThread: TransformThread
    var publishThread: PublishThread
    // What the environment has delivered and what the client has been given
    ghost var arrived: seq<Message>
    var published: seq<Outgoing>

    ghost function Snapshot(): State
      reads this
    {
      State(routes, incomingQueue, transformQueue, outgoingQueue,
            ingestThread, transformThread, publishThread, arrived, published)
    }

    constructor (lib: Library)
      ensures this.lib == lib && Snapshot() == Start(map[])
    {
      this.lib := lib;
      routes, incomingQueue, transformQueue, outgoingQueue := map[], [], [], [];
      ingestThread, transformThread, publishThread := IngestIdle, TransformIdle, PublishIdle;
      arrived, published := [], [];
    }

    /** init: reads the routes; the threads are started only if there are any. */
    method Init(configuredRoutes: Json) returns (started: bool, failure: Option<RouteFailure>)
      requires Snapshot() == Start(map[])
      modifies this
      ensures failure.Some? ==>
                ConfiguredRoutes(configuredRoutes) == Failure(failure.value) && Snapshot() == Start(map[])
      ensures failure.None? ==>
                && ConfiguredRoutes(configuredRoutes).Success?
                && DescribesRoutes(configuredRoutes, ConfiguredRoutes(configuredRoutes).value)
                && Refines(routes, ConfiguredRoutes(configuredRoutes).value)
                && Snapshot() == Start(routes)
      ensures started <==> failure.None? && ConfiguredRoutes(configuredRoutes).value != []
    {
      var retrieved := RetrieveRoutes(configuredRoutes);
      if retrieved.Failure? {
        return false, Some(retrieved.error);
      }
      routes := retrieved.value;
      started, failure := routes != map[], None;
      ghost var flat := ConfiguredRoutes(configuredRoutes).value;
      ConfigurationExact(configuredRoutes, flat);
      if flat != [] {
        assert flat[0].inputTopic in routes;
      } else {
        assert routes.Keys == {};
      }
    }

    // ---- Atomic steps ----

    /** message_arrived: the client's callback pushes a message. */
    method Arrive(message: Message)
      requires Enabled(Snapshot(), Action.Arrive(message))
      modifies this
      ensures Snapshot() == Step(lib, old(Snapshot()), Action.Arrive(message))
    {
      incomingQueue := incomingQueue + [message];
      arrived := arrived + [message];
    }

    method PopIncoming()
      requires Enabled(Snapshot(), IngestPop)
      modifies this
      ensures Snapshot() == Step(lib, old(Snapshot()), IngestPop)
    {
      var message := incomingQueue[0];
      incomingQueue := incomingQueue[1..];
      if message.topic !in routes {
        return;
      }
      var properties := routes[message.topic];
      if properties == [] {
        return;
      }
      ingestThread := Dispatching(message, properties, 0);
    }

    method DispatchRoute()
      requires Enabled(Snapshot(), Dispatch)
      modifies this
      ensures Snapshot() == Step(lib, old(Snapshot()), Dispatch)
    {
      var message, next := ingestThread.message, ingestThread.next;
      var property := ingestThread.routes[next];
      var origin := Origin(message.topic, next, property.streamTransformers == []);
      var output := Output(property.outputTopic, message.payload);
      if property.streamTransformers != [] {
        transformQueue := transformQueue + [Item(origin, property.streamTransformers, message, output)];
      } else {
        outgoingQueue := outgoingQueue + [Outgoing(origin, output)];
      }
      ingestThread := if next + 1 == |ingestThread.routes| then IngestIdle else ingestThread.(next := next + 1);
    }

    method PopTransform()
      requires Enabled(Snapshot(), TransformPop)
      modifies this
      ensures Snapshot() == Step(lib, old(Snapshot()), TransformPop)
    {
      var item := transformQueue[0];
      transformQueue := transformQueue[1..];
      if item.transformers == [] {
        return;
      }
      transformThread := Transforming(item, 0, item.output);
    }

    /** One turn of the loop over transformers, with its try and catch. */
    method ExecuteTransformer()
      requires Enabled(Snapshot(), ExecuteNext)
      modifies this
      ensures Snapshot() == Step(lib, old(Snapshot()), ExecuteNext)
    {
      var item, next := transformThread.item, transformThread.next;
      var output := new OutputMessage(transformThread.output.topic, transformThread.output.payload);
      var outcome := Execute(lib, item.transformers[next], item.input, output);
      if outcome == Aborted {
        transformThread := Crashed(item, next);
      } else {
        transformThread := Transforming(item, next + 1, Output(output.topic, output.payload));
      }
    }

    method PushTransformed()
      requires Enabled(Snapshot(), TransformPush)
      modifies this
      ensures Snapshot() == Step(lib, old(Snapshot()), TransformPush)
    {
      outgoingQueue := outgoingQueue + [Outgoing(transformThread.item.origin, transformThread.output)];
      transformThread := TransformIdle;
    }

    method PopOutgoing()
      requires Enabled(Snapshot(), PublishPop)
      modifies this
      ensures Snapshot() == Step(lib, old(Snapshot()), PublishPop)
    {
      publishThread := Sending(outgoingQueue[0]);
      outgoingQueue := outgoingQueue[1..];
    }

    method SendHeld()
      requires Enabled(Snapshot(), Send)
      modifies this
      ensures Snapshot() == Step(lib, old(Snapshot()), Send)
    {
      published := published + [publishThread.outgoing];
      publishThread := PublishIdle;
    }

    // ---- The thread bodies, each run undisturbed until its queue is empty ----

    /** The loop of ingest over the routes of the message it holds, if any. */
    method DispatchRoutes()
      requires ThreadsSound(Snapshot()) && !transformThread.Crashed?
      modifies this
      ensures ThreadsSound(Snapshot()) && ingestThread.IngestIdle?
      ensures routes == old(routes) && arrived == old(arrived) && published == old(published)
      ensures transformThread == old(transformThread) && publishThread == old(publishThread)
      ensures incomingQueue == old(incomingQueue)
      ensures LanesAhead(lib, Snapshot()) == old(LanesAhead(lib, Snapshot()))
    {
      while ingestThread.Dispatching?
        invariant ThreadsSound(Snapshot())
        invariant routes == old(routes) && arrived == old(arrived) && published == old(published)
        invariant transformThread == old(transformThread) && publishThread == old(publishThread)
        invariant incomingQueue == old(incomingQueue)
        invariant LanesAhead(lib, Snapshot()) == old(LanesAhead(lib, Snapshot()))
        decreases if ingestThread.Dispatching? then |ingestThread.routes| - ingestThread.next else 0
      {
        ThreadsStaySound(lib, Snapshot(), Dispatch);
        DispatchKeepsLanes(lib, Snapshot());
        DispatchRoute();
      }
    }

    /** ingest: every incoming message goes to its routes, in order, each to the queue of its lane. */
    method Ingest()
      requires ThreadsSound(Snapshot()) && ingestThread.IngestIdle? && !transformThread.Crashed?
      modifies this
      ensures ThreadsSound(Snapshot()) && ingestThread.IngestIdle? && incomingQueue == []
      ensures routes == old(routes) && arrived == old(arrived) && published == old(published)
      ensures transformThread == old(transformThread) && publishThread == old(publishThread)
      ensures Done(outgoingQueue) ==
                old(Done(outgoingQueue)) + Lane(Expected(lib, routes, old(incomingQueue)), true)
      ensures Queued(lib, transformQueue) ==
                old(Queued(lib, transformQueue)) + Lane(Expected(lib, routes, old(incomingQueue)), false)
    {
      AheadWhenIdle(lib, Snapshot());
      while incomingQueue != []
        invariant ThreadsSound(Snapshot()) && ingestThread.IngestIdle?
        invariant routes == old(routes) && arrived == old(arrived) && published == old(published)
        invariant transformThread == old(transformThread) && publishThread == old(publishThread)
        invariant LanesAhead(lib, Snapshot()) == old(LanesAhead(lib, Snapshot()))
        decreases |incomingQueue|
      {
        ThreadsStaySound(lib, Snapshot(), IngestPop);
        AheadOfPop(lib, Snapshot());
        PopIncoming();
        DispatchRoutes();
      }
      AheadWhenIdle(lib, Snapshot());
    }

    /** transform: every queued item is run through its chain and pushed, unless one ends the process. */
    method Transform()
      requires ThreadsSound(Snapshot()) && transformThread.TransformIdle?
      modifies this
      ensures ThreadsSound(Snapshot())
      ensures routes == old(routes) && arrived == old(arrived) && published == old(published)
      ensures ingestThread == old(ingestThread) && publishThread == old(publishThread)
      ensures incomingQueue == old(incomingQueue)
      ensures !transformThread.Crashed? ==>
                && transformThread.TransformIdle? && transformQueue == []
                && Done(outgoingQueue) == old(Done(outgoingQueue)) + old(Queued(lib, transformQueue))
      ensures transformThread.Crashed? <==> exists d | d in old(Queued(lib, transformQueue)) :: d.result.Terminated?
    {
      ghost var all := Done(outgoingQueue) + Middle(lib, Snapshot());
      assert Middle(lib, Snapshot()) == Queued(lib, transformQueue);
      while transformQueue != []
        invariant ThreadsSound(Snapshot()) && transformThread.TransformIdle?
        invariant routes == old(routes) && arrived == old(arrived) && published == old(published)
        invariant ingestThread == old(ingestThread) && publishThread == old(publishThread)
        invariant incomingQueue == old(incomingQueue)
        invariant Done(outgoingQueue) + Middle(lib, Snapshot()) == all
        decreases |transformQueue|
      {
        ThreadsStaySound(lib, Snapshot(), TransformPop);
        TransformUnmoved(lib, Snapshot(), TransformPop);
        assert transformQueue[0] in transformQueue;
        PopTransform();
        ghost var left := |transformQueue|;
        while transformThread.next < |transformThread.item.transformers|
          invariant ThreadsSound(Snapshot()) && transformThread.Transforming? && |transformQueue| == left
          invariant routes == old(routes) && arrived == old(arrived) && published == old(published)
          invariant ingestThread == old(ingestThread) && publishThread == old(publishThread)
          invariant incomingQueue == old(incomingQueue)
          invariant Done(outgoingQueue) + Middle(lib, Snapshot()) == all
          decreases |transformThread.item.transformers| - transformThread.next
        {
          ThreadsStaySound(lib, Snapshot(), ExecuteNext);
          TransformUnmoved(lib, Snapshot(), ExecuteNext);
          ExecuteTransformer();
          if transformThread.Crashed? {
            CrashIsQueued(lib, Snapshot(), old(outgoingQueue), old(Queued(lib, transformQueue)));
            return;
          }
        }
        ThreadsStaySound(lib, Snapshot(), TransformPush);
        PushMoves(lib, Snapshot());
        PushTransformed();
      }
      assert Done(outgoingQueue) + [] == Done(outgoingQueue);
      AllFinished(outgoingQueue, old(outgoingQueue), old(Queued(lib, transformQueue)));
    }

    /** publish: everything outgoing is sent, in order. */
    method Publish()
      requires !transformThread.Crashed? && publishThread.PublishIdle?
      modifies this
      ensures outgoingQueue == [] && published == old(published) + old(outgoingQueue)
      ensures Snapshot() == old(Snapshot()).(outgoing := [], published := old(published) + old(outgoingQueue))
    {
      while outgoingQueue != []
        invariant publishThread.PublishIdle?
        invariant published + outgoingQueue == old(published) + old(outgoingQueue)
        invariant Snapshot() == old(Snapshot()).(outgoing := outgoingQueue, published := published)
        decreases |outgoingQueue|
      {
        PopOutgoing();
        SendHeld();
      }
    }

    /** One thread after the other: the simplest schedule, which sends the direct lane before the transformed one. */
    method ServeInTurn()
      requires Quiet(Snapshot().(incoming := []))
      modifies this
      ensures transformThread.Crashed? <==> TerminationDue(lib, routes, old(incomingQueue))
      ensures !transformThread.Crashed? ==>
                var expected := Expected(lib, routes, old(incomingQueue));
                && Quiet(Snapshot())
                && Done(published) == old(Done(published)) + Lane(expected, true) + Lane(expected, false)
    {
      ghost var expected := Expected(lib, routes, incomingQueue);
      Ingest();
      EmptyFront(Lane(expected, true));
      EmptyFront(Lane(expected, false));
      OnlyTransformedTerminates(lib, routes, old(incomingQueue));
      Transform();
      if !transformThread.Crashed? {
        DoneConcat(published, outgoingQueue);
        Associate(Done(published), Lane(expected, true), Lane(expected, false));
        Publish();
      }
    }
  }

  // ---- Lemmas of the thread bodies ----

  /** Each lane of what its queue holds, followed by what is still ahead of it. */
  ghost function LanesAhead(lib: Library, s: State): (seq<Delivery>, seq<Delivery>) {
    (Done(s.outgoing) + Lane(Ahead(lib, s), true), Queued(lib, s.transformQueue) + Lane(Ahead(lib, s), false))
  }

  lemma {:induction false} EmptyFront(deliveries: seq<Delivery>)
    ensures [] + deliveries == deliveries
  {
  }

  lemma {:induction false} AheadWhenIdle(lib: Library, s: State)
    requires s.ingest.IngestIdle?
    ensures Ahead(lib, s) == Expected(lib, s.routes, s.incoming)
    ensures s.incoming == [] ==> LanesAhead(lib, s) == (Done(s.outgoing), Queued(lib, s.transformQueue))
  {
    if s.incoming == [] {
      assert Done(s.outgoing) + [] == Done(s.outgoing);
      assert Queued(lib, s.transformQueue) + [] == Queued(lib, s.transformQueue);
    }
  }

  lemma {:induction false} DispatchKeepsLanes(lib: Library, s: State)
    requires ThreadsSound(s) && Enabled(s, Dispatch)
    ensures LanesAhead(lib, AfterDispatch(s)) == LanesAhead(lib, s)
  {
    var t := AfterDispatch(s);
    var route := s.ingest.routes[s.ingest.next];
    var moved := [RouteDelivery(lib, s.ingest.message, route, s.ingest.next)];
    AheadOfDispatch(lib, s);
    LaneConcat(moved, Ahead(lib, t), true);
    LaneConcat(moved, Ahead(lib, t), false);
    assert [] + Lane(Ahead(lib, t), true) == Lane(Ahead(lib, t), true);
    assert [] + Lane(Ahead(lib, t), false) == Lane(Ahead(lib, t), false);
    if route.streamTransformers == [] {
      assert Done(t.outgoing) == Done(s.outgoing) + moved;
      Associate(Done(s.outgoing), moved, Lane(Ahead(lib, t), true));
    } else {
      var item := t.transformQueue[|s.transformQueue|];
      QueuedConcat(lib, s.transformQueue, [item]);
      assert Queued(lib, [item]) == moved;
      Associate(Queued(lib, s.transformQueue), moved, Lane(Ahead(lib, t), false));
    }
  }

  lemma {:induction false} PushMoves(lib: Library, s: State)
    requires ThreadsSound(s) && Enabled(s, TransformPush)
    ensures
      var t := Step(lib, s, TransformPush);
      Done(t.outgoing) + Middle(lib, t) == Done(s.outgoing) + Middle(lib, s)
  {
    var t := Step(lib, s, TransformPush);
    assert s.transform.item.transformers[s.transform.next..] == [];
    assert Done(t.outgoing) == Done(s.outgoing) + InTransform(lib, s);
    assert Middle(lib, t) == Queued(lib, s.transformQueue);
    Associate(Done(s.outgoing), InTransform(lib, s), Queued(lib, s.transformQueue));
  }

  /** What has left the transform thread is finished, so a crash shows in what was queued. */
  lemma {:induction false} CrashIsQueued(lib: Library, s: State, before: seq<Outgoing>, queued: seq<Delivery>)
    requires s.transform.Crashed? && Done(s.outgoing) + Middle(lib, s) == Done(before) + queued
    ensures exists d | d in queued :: d.result.Terminated?
  {
    var d := Delivery(s.transform.item.origin, Terminated);
    assert Middle(lib, s)[0] == d;
    assert (Done(s.outgoing) + Middle(lib, s))[|s.outgoing|] == d;
    assert d in Done(before) + queued;
    assert d !in Done(before);
  }

  lemma {:induction false} AllFinished(outgoing: seq<Outgoing>, before: seq<Outgoing>, queued: seq<Delivery>)
    requires Done(outgoing) == Done(before) + queued
    ensures forall d | d in queued :: d.result.Finished?
  {
    forall d | d in queued
      ensures d.result.Finished?
    {
      assert d in Done(before) + queued;
      assert d in Done(outgoing);
    }
  }

  /** A route without transformers never ends the process. */
  lemma {:induction false} OnlyTransformedTerminates(lib: Library, routes: RouteTable, messages: seq<Message>)
    ensures TerminationDue(lib, routes, messages) <==>
              exists d | d in Lane(Expected(lib, routes, messages), false) :: d.result.Terminated?
  {
    var expected := Expected(lib, routes, messages);
    forall d
      ensures d in Lane(expected, false) <==> d in expected && !d.origin.direct
      ensures d in expected && d.origin.direct ==> d.result.Finished?
    {
      InLane(expected, false, d);
      DirectFinishes(lib, routes, messages, d);
    }
  }
}
