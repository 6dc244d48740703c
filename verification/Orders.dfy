/**
 Which orders of publication the interleavings allow. The lanes alone leave too many: a direct delivery may
 overtake transformed ones, but a transformed delivery never overtakes a direct one. The orders this leaves
 are exactly the ones some schedule produces.
 */
module Orders {
  import opened JsonModel
  import opened StreamTransformers
  import opened Routes
  import opened Pipeline
  import opened Guarantees

  /** Position of the first direct delivery, or the length if there is none. */
  function FirstDirect(deliveries: seq<Delivery>): (i: nat)
    ensures i <= |deliveries|
    ensures i < |deliveries| ==> deliveries[i].origin.direct
    ensures forall k | 0 <= k < i :: !deliveries[k].origin.direct
  {
    if deliveries == [] || deliveries[0].origin.direct then 0 else 1 + FirstDirect(deliveries[1..])
  }

  function Without(deliveries: seq<Delivery>, i: nat): seq<Delivery>
    requires i < |deliveries|
  {
    deliveries[..i] + deliveries[i + 1..]
  }

  /** Next comes either the first direct delivery left, or the first of all if that is transformed. */
  predicate Publishable(expected: seq<Delivery>, published: seq<Delivery>)
    decreases |published|
  {
    if published == [] then expected == []
    else if published[0].origin.direct then
      var i := FirstDirect(expected);
      i < |expected| && expected[i] == published[0] && Publishable(Without(expected, i), published[1..])
    else expected != [] && expected[0] == published[0] && Publishable(expected[1..], published[1..])
  }

  predicate AllTransformed(deliveries: seq<Delivery>) {
    forall d | d in deliveries :: !d.origin.direct
  }

  // ---- Laws of the relation ----

  lemma {:induction false} PublishableAsIs(deliveries: seq<Delivery>)
    ensures Publishable(deliveries, deliveries)
  {
    if deliveries == [] {
    } else {
      PublishableAsIs(deliveries[1..]);
      if deliveries[0].origin.direct {
        assert Without(deliveries, 0) == deliveries[1..];
      }
    }
  }

  lemma {:induction false} PublishableLater(expected: seq<Delivery>, published: seq<Delivery>, more: seq<Delivery>)
    requires Publishable(expected, published)
    ensures Publishable(expected + more, published + more)
    decreases |published|
  {
    if published == [] {
      PublishableAsIs(more);
      assert expected + more == more && published + more == more;
    } else if published[0].origin.direct {
      var i := FirstDirect(expected);
      PublishableLater(Without(expected, i), published[1..], more);
      FirstDirectAt(expected + more, i);
      assert Without(expected + more, i) == Without(expected, i) + more;
      assert (published + more)[1..] == published[1..] + more;
    } else {
      PublishableLater(expected[1..], published[1..], more);
      assert (expected + more)[1..] == expected[1..] + more;
      assert (published + more)[1..] == published[1..] + more;
    }
  }

  lemma {:induction false} FirstDirectAt(deliveries: seq<Delivery>, i: nat)
    requires i < |deliveries| && deliveries[i].origin.direct
    requires forall k | 0 <= k < i :: !deliveries[k].origin.direct
    ensures FirstDirect(deliveries) == i
  {
  }

  /** Transformed deliveries published first are the first expected ones, and conversely. */
  lemma {:induction false} TransformedFirst(middle: seq<Delivery>, expected: seq<Delivery>, rest: seq<Delivery>)
    requires AllTransformed(middle)
    ensures Publishable(expected, middle + rest) <==>
              middle <= expected && Publishable(expected[|middle|..], rest)
  {
    if middle == [] {
      assert middle + rest == rest && expected[0..] == expected;
    } else {
      assert (middle + rest)[1..] == middle[1..] + rest;
      assert middle[0] in middle;
      if expected != [] && expected[0] == middle[0] {
        TransformedFirst(middle[1..], expected[1..], rest);
        assert middle <= expected <==> middle[1..] <= expected[1..];
        assert |middle| <= |expected| ==> expected[1..][|middle| - 1..] == expected[|middle|..];
      }
    }
  }

  /** A direct delivery may come before transformed ones that were expected first. */
  lemma {:induction false} DirectMayOvertake(
      expected: seq<Delivery>, past: seq<Delivery>, middle: seq<Delivery>, d: Delivery, ahead: seq<Delivery>)
    requires AllTransformed(middle) && d.origin.direct
    requires Publishable(expected, past + (middle + ([d] + ahead)))
    ensures Publishable(expected, past + ([d] + (middle + ahead)))
    decreases |past|
  {
    var was, now := past + (middle + ([d] + ahead)), past + ([d] + (middle + ahead));
    if past == [] {
      assert was == middle + ([d] + ahead);
      TransformedFirst(middle, expected, [d] + ahead);
      var rest := expected[|middle|..];
      var i := FirstDirect(rest);
      assert ([d] + ahead)[1..] == ahead;
      assert expected == middle + rest;
      FirstDirectAt(expected, |middle| + i);
      var left := Without(expected, |middle| + i);
      assert left == middle + Without(rest, i);
      assert left[|middle|..] == Without(rest, i);
      TransformedFirst(middle, left, ahead);
      assert now[1..] == middle + ahead;
    } else {
      assert was[1..] == past[1..] + (middle + ([d] + ahead));
      assert now[1..] == past[1..] + ([d] + (middle + ahead));
      var next := if past[0].origin.direct then Without(expected, FirstDirect(expected)) else expected[1..];
      DirectMayOvertake(next, past[1..], middle, d, ahead);
    }
  }

  // ---- Every run publishes in such an order ----

  ghost predicate OrderKept(lib: Library, s: State) {
    Publishable(Expected(lib, s.routes, s.arrived), Pipe(lib, s))
  }

  lemma {:induction false} QueuedIsTransformed(lib: Library, items: seq<Item>)
    requires forall item | item in items :: !item.origin.direct
    ensures AllTransformed(Queued(lib, items))
  {
    if items == [] {
    } else {
      QueuedIsTransformed(lib, items[1..]);
    }
  }

  lemma {:induction false} MiddleIsTransformed(lib: Library, s: State)
    requires ThreadsSound(s)
    ensures AllTransformed(Middle(lib, s))
  {
    QueuedIsTransformed(lib, s.transformQueue);
  }

  lemma {:induction false} DirectDispatchKeepsOrder(lib: Library, s: State)
    requires ThreadsSound(s) && Enabled(s, Dispatch) && OrderKept(lib, s)
    requires s.ingest.routes[s.ingest.next].streamTransformers == []
    ensures OrderKept(lib, AfterDispatch(s))
  {
    var t := AfterDispatch(s);
    var d := RouteDelivery(lib, s.ingest.message, s.ingest.routes[s.ingest.next], s.ingest.next);
    var past, middle, ahead := Past(s), Middle(lib, s), Ahead(lib, t);
    AheadOfDispatch(lib, s);
    MiddleIsTransformed(lib, s);
    assert Past(t) == past + [d];
    Associate(past, middle, [d] + ahead);
    Associate(past, [d], middle + ahead);
    Associate(past + [d], middle, ahead);
    DirectMayOvertake(Expected(lib, s.routes, s.arrived), past, middle, d, ahead);
  }

  lemma {:induction false} StepKeepsOrder(lib: Library, s: State, action: Action)
    requires ThreadsSound(s) && Enabled(s, action) && OrderKept(lib, s)
    ensures OrderKept(lib, Step(lib, s, action))
  {
    if action.Arrive? {
      ArriveAppends(lib, s, action.message);
      ExpectedConcat(lib, s.routes, s.arrived, [action.message]);
      PublishableLater(
        Expected(lib, s.routes, s.arrived), Pipe(lib, s), Expected(lib, s.routes, [action.message]));
    } else if action.Dispatch? && s.ingest.routes[s.ingest.next].streamTransformers == [] {
      DirectDispatchKeepsOrder(lib, s);
    } else {
      PipeUnmoved(lib, s, action);
    }
  }

  lemma {:induction false} RunKeepsOrder(lib: Library, s: State, schedule: seq<Action>)
    requires ThreadsSound(s) && Fits(lib, s, schedule) && OrderKept(lib, s)
    ensures OrderKept(lib, Run(lib, s, schedule))
    decreases |schedule|
  {
    if schedule == [] {
    } else {
      ThreadsStaySound(lib, s, schedule[0]);
      StepKeepsOrder(lib, s, schedule[0]);
      RunKeepsOrder(lib, Step(lib, s, schedule[0]), schedule[1..]);
    }
  }

  /** The schedule brings the messages and has published the deliveries so far, complete or not, crashed or not. */
  ghost predicate Shows(
      lib: Library, routes: RouteTable, schedule: seq<Action>, messages: seq<Message>, deliveries: seq<Delivery>)
  {
    && Fits(lib, Start(routes), schedule)
    && Arrivals(schedule) == messages
    && Done(Run(lib, Start(routes), schedule).published) == deliveries
  }

  /** The schedule also runs to its end without a crash. */
  ghost predicate Produces(
      lib: Library, routes: RouteTable, schedule: seq<Action>, messages: seq<Message>, deliveries: seq<Delivery>)
  {
    && Shows(lib, routes, schedule, messages, deliveries)
    && var s := Run(lib, Start(routes), schedule);
       Stopped(s) && !s.transform.Crashed?
  }

  lemma {:induction false} ReachedInOrder(lib: Library, routes: RouteTable, schedule: seq<Action>)
    requires Fits(lib, Start(routes), schedule)
    ensures
      var s := Run(lib, Start(routes), schedule);
      ThreadsSound(s) && Publishable(Expected(lib, routes, Arrivals(schedule)), Pipe(lib, s))
  {
    assert Pipe(lib, Start(routes)) == [];
    RunKeepsOrder(lib, Start(routes), schedule);
    Reached(lib, routes, schedule);
    ArrivalsAreRecorded(lib, Start(routes), schedule);
    assert [] + Arrivals(schedule) == Arrivals(schedule);
  }

  /** At any point of any run, what is published begins an order in which all can still be published. */
  lemma {:induction false} PublishedBegins(lib: Library, routes: RouteTable, schedule: seq<Action>)
    returns (rest: seq<Delivery>)
    requires Fits(lib, Start(routes), schedule)
    ensures Publishable(
              Expected(lib, routes, Arrivals(schedule)), Done(Run(lib, Start(routes), schedule).published) + rest)
  {
    var s := Run(lib, Start(routes), schedule);
    var published, later := Done(s.published), Done(Held(s) + s.outgoing);
    ReachedInOrder(lib, routes, schedule);
    rest := later + (Middle(lib, s) + Ahead(lib, s));
    assert Past(s) == published + later by {
      Associate(s.published, Held(s), s.outgoing);
      DoneConcat(s.published, Held(s) + s.outgoing);
    }
    Associate(published, later, Middle(lib, s) + Ahead(lib, s));
    Associate(Past(s), Middle(lib, s), Ahead(lib, s));
  }

  lemma {:induction false} ProducedIsPublishable(
      lib: Library, routes: RouteTable, schedule: seq<Action>, messages: seq<Message>, deliveries: seq<Delivery>)
    requires Produces(lib, routes, schedule, messages, deliveries)
    ensures Publishable(Expected(lib, routes, messages), deliveries)
  {
    ReachedInOrder(lib, routes, schedule);
    StoppedPipe(lib, Run(lib, Start(routes), schedule));
  }

  // ---- Every such order is published by some run ----

  lemma {:induction false} RunConcat(lib: Library, s: State, a: seq<Action>, b: seq<Action>)
    requires Fits(lib, s, a) && Fits(lib, Run(lib, s, a), b)
    ensures Fits(lib, s, a + b) && Run(lib, s, a + b) == Run(lib, Run(lib, s, a), b)
    decreases |a|
  {
    if a == [] {
      assert a + b == b;
    } else {
      assert (a + b)[1..] == a[1..] + b;
      RunConcat(lib, Step(lib, s, a[0]), a[1..], b);
    }
  }

  lemma {:induction false} RunOne(lib: Library, s: State, action: Action)
    requires Enabled(s, action)
    ensures Fits(lib, s, [action]) && Run(lib, s, [action]) == Step(lib, s, action)
  {
    assert [action][1..] == [];
  }

  predicate NoArrival(schedule: seq<Action>) {
    forall action | action in schedule :: !action.Arrive?
  }

  /** One dispatch pushes the delivery it takes from what is ahead, to the queue of its lane. */
  lemma {:induction false} DispatchPushes(lib: Library, s: State)
    requires ThreadsSound(s) && Enabled(s, Dispatch)
    ensures
      var t, d := AfterDispatch(s), Ahead(lib, s)[0];
      && ThreadsSound(t)
      && Ahead(lib, t) == Ahead(lib, s)[1..]
      && Done(t.outgoing) == Done(s.outgoing) + (if d.origin.direct then [d] else [])
      && Queued(lib, t.transformQueue) == Queued(lib, s.transformQueue) + (if d.origin.direct then [] else [d])
  {
    AheadOfDispatch(lib, s);
    ThreadsStaySound(lib, s, Dispatch);
    var t, d := AfterDispatch(s), Ahead(lib, s)[0];
    if d.origin.direct {
      assert Done(t.outgoing) == Done(s.outgoing) + [d];
      assert Queued(lib, s.transformQueue) + [] == Queued(lib, s.transformQueue);
    } else {
      var item := t.transformQueue[|s.transformQueue|];
      QueuedConcat(lib, s.transformQueue, [item]);
      assert Queued(lib, [item]) == [d];
      assert Done(s.outgoing) + [] == Done(s.outgoing);
    }
  }

  /** Ingest can go on until it has dispatched one more delivery, while the other threads rest. */
  lemma {:induction false} DispatchOne(lib: Library, s: State) returns (schedule: seq<Action>)
    requires ThreadsSound(s) && !s.transform.Crashed? && Ahead(lib, s) != []
    ensures NoArrival(schedule) && Fits(lib, s, schedule)
    ensures
      var t, d := Run(lib, s, schedule), Ahead(lib, s)[0];
      && ThreadsSound(t)
      && Ahead(lib, t) == Ahead(lib, s)[1..]
      && (t.transform, t.publish, t.published) == (s.transform, s.publish, s.published)
      && Done(t.outgoing) == Done(s.outgoing) + (if d.origin.direct then [d] else [])
      && Queued(lib, t.transformQueue) == Queued(lib, s.transformQueue) + (if d.origin.direct then [] else [d])
    decreases |s.incoming|, s.ingest.IngestIdle?
  {
    if s.ingest.Dispatching? {
      schedule := [Dispatch];
      RunOne(lib, s, Dispatch);
      DispatchPushes(lib, s);
    } else {
      var t := Step(lib, s, IngestPop);
      AheadOfPop(lib, s);
      ThreadsStaySound(lib, s, IngestPop);
      var rest := DispatchOne(lib, t);
      schedule := [IngestPop] + rest;
      assert schedule[1..] == rest;
    }
  }

  /** The transform thread can finish the item it holds. */
  lemma {:induction false} FinishItem(lib: Library, s: State) returns (schedule: seq<Action>)
    requires ThreadsSound(s) && s.transform.Transforming? && InTransform(lib, s)[0].result.Finished?
    ensures NoArrival(schedule) && Fits(lib, s, schedule)
    ensures
      var t := Run(lib, s, schedule);
      && t == s.(outgoing := t.outgoing, transform := TransformIdle)
      && Done(t.outgoing) == Done(s.outgoing) + InTransform(lib, s)
    decreases |s.transform.item.transformers| - s.transform.next
  {
    var ts, next := s.transform.item.transformers, s.transform.next;
    if next < |ts| {
      var t := Step(lib, s, ExecuteNext);
      assert ts[next..][1..] == ts[next + 1..];
      ThreadsStaySound(lib, s, ExecuteNext);
      var rest := FinishItem(lib, t);
      schedule := [ExecuteNext] + rest;
      assert schedule[1..] == rest;
    } else {
      schedule := [TransformPush];
      RunOne(lib, s, TransformPush);
      var t := Step(lib, s, TransformPush);
      assert ts[next..] == [];
      assert Done(t.outgoing) == Done(s.outgoing) + InTransform(lib, s);
    }
  }

  /** The transform thread can take the next item from its queue and finish it. */
  lemma {:induction false} TransformOne(lib: Library, s: State) returns (schedule: seq<Action>)
    requires ThreadsSound(s) && s.transform.TransformIdle? && s.transformQueue != []
    requires Queued(lib, s.transformQueue)[0].result.Finished?
    ensures NoArrival(schedule) && Fits(lib, s, schedule)
    ensures
      var t, queued := Run(lib, s, schedule), Queued(lib, s.transformQueue);
      && t == s.(outgoing := t.outgoing, transformQueue := s.transformQueue[1..])
      && Done(t.outgoing) == Done(s.outgoing) + [queued[0]]
      && Queued(lib, t.transformQueue) == queued[1..]
  {
    var t := Step(lib, s, TransformPop);
    var item := s.transformQueue[0];
    assert item in s.transformQueue;
    assert item.transformers[0..] == item.transformers;
    ThreadsStaySound(lib, s, TransformPop);
    var rest := FinishItem(lib, t);
    schedule := [TransformPop] + rest;
    assert schedule[1..] == rest;
  }

  /** Messages nobody routes can be popped away. */
  lemma {:induction false} PopUnrouted(lib: Library, s: State) returns (schedule: seq<Action>)
    requires ThreadsSound(s) && !s.transform.Crashed? && Ahead(lib, s) == []
    ensures NoArrival(schedule) && Fits(lib, s, schedule)
    ensures Run(lib, s, schedule) == s.(incoming := []) && s.ingest.IngestIdle?
    decreases |s.incoming|
  {
    schedule := [];
    assert s.ingest.Dispatching? ==> Ahead(lib, s) != [];
    if s.incoming == [] {
    } else {
      var t := Step(lib, s, IngestPop);
      AheadOfPop(lib, s);
      ThreadsStaySound(lib, s, IngestPop);
      assert t.ingest.Dispatching? ==> Ahead(lib, t) != [];
      var rest := PopUnrouted(lib, t);
      schedule := [IngestPop] + rest;
      assert schedule[1..] == rest;
    }
  }

  /** What has not been pushed to the outgoing queue, in the order it is expected. */
  function Unpushed(lib: Library, s: State): seq<Delivery> {
    Queued(lib, s.transformQueue) + Ahead(lib, s)
  }

  /** Everything but the queues and what is pushed stays as it is while the two front threads run. */
  predicate SameBack(s: State, t: State) {
    t.publish == s.publish && t.published == s.published && t.transform == s.transform
  }

  lemma {:induction false} FirstOfQueue(queued: seq<Delivery>, ahead: seq<Delivery>, order: seq<Delivery>)
    requires queued != [] && order != [] && !order[0].origin.direct && Publishable(queued + ahead, order)
    ensures order[0] == queued[0] && Publishable(queued[1..] + ahead, order[1..])
  {
    assert (queued + ahead)[1..] == queued[1..] + ahead;
  }

  /** The next delivery is to be the oldest item of the transform queue. */
  lemma {:induction false} PushQueued(lib: Library, s: State, order: seq<Delivery>) returns (schedule: seq<Action>)
    requires ThreadsSound(s) && s.transform.TransformIdle? && s.transformQueue != []
    requires order != [] && Publishable(Unpushed(lib, s), order)
    requires order[0].result.Finished? && !order[0].origin.direct
    ensures NoArrival(schedule) && Fits(lib, s, schedule)
    ensures
      var t := Run(lib, s, schedule);
      && ThreadsSound(t) && SameBack(s, t)
      && Done(t.outgoing) == Done(s.outgoing) + [order[0]]
      && Publishable(Unpushed(lib, t), order[1..])
  {
    FirstOfQueue(Queued(lib, s.transformQueue), Ahead(lib, s), order);
    schedule := TransformOne(lib, s);
    RunStaysSound(lib, s, schedule);
    assert Ahead(lib, Run(lib, s, schedule)) == Ahead(lib, s);
  }

  /** The next delivery is to be the direct one that ingest is about to dispatch. */
  lemma {:induction false} PushDirect(lib: Library, s: State, order: seq<Delivery>) returns (schedule: seq<Action>)
    requires ThreadsSound(s) && s.transform.TransformIdle?
    requires order != [] && Publishable(Unpushed(lib, s), order)
    requires order[0].origin.direct || s.transformQueue == []
    requires Ahead(lib, s) != [] && Ahead(lib, s)[0].origin.direct
    ensures NoArrival(schedule) && Fits(lib, s, schedule)
    ensures
      var t := Run(lib, s, schedule);
      && ThreadsSound(t) && SameBack(s, t)
      && Done(t.outgoing) == Done(s.outgoing) + [order[0]]
      && Publishable(Unpushed(lib, t), order[1..])
  {
    QueuedIsTransformed(lib, s.transformQueue);
    DirectLeaves(Queued(lib, s.transformQueue), Ahead(lib, s), order);
    schedule := DispatchOne(lib, s);
    assert Queued(lib, s.transformQueue) + [] == Queued(lib, s.transformQueue);
  }

  /** Ingest can bring one more item into the transform queue, which pushes nothing. */
  lemma {:induction false} BringItem(lib: Library, s: State) returns (schedule: seq<Action>)
    requires ThreadsSound(s) && s.transform.TransformIdle?
    requires Ahead(lib, s) != [] && !Ahead(lib, s)[0].origin.direct
    ensures NoArrival(schedule) && Fits(lib, s, schedule)
    ensures
      var t := Run(lib, s, schedule);
      && ThreadsSound(t) && SameBack(s, t)
      && Done(t.outgoing) == Done(s.outgoing)
      && Unpushed(lib, t) == Unpushed(lib, s) && |Ahead(lib, t)| < |Ahead(lib, s)|
  {
    var queued, ahead := Queued(lib, s.transformQueue), Ahead(lib, s);
    schedule := DispatchOne(lib, s);
    assert Done(s.outgoing) + [] == Done(s.outgoing);
    assert ahead == [ahead[0]] + ahead[1..];
    Associate(queued, [ahead[0]], ahead[1..]);
  }

  /** One move towards a publishable order: push its first delivery, or bring one more into the transform queue. */
  lemma {:induction false} PushOne(lib: Library, s: State, order: seq<Delivery>)
    returns (schedule: seq<Action>, pushed: bool)
    requires ThreadsSound(s) && s.transform.TransformIdle?
    requires order != [] && Publishable(Unpushed(lib, s), order)
    requires order[0].result.Finished?
    ensures NoArrival(schedule) && Fits(lib, s, schedule)
    ensures
      var t := Run(lib, s, schedule);
      && ThreadsSound(t) && SameBack(s, t)
      && (pushed ==>
            Done(t.outgoing) == Done(s.outgoing) + [order[0]] && Publishable(Unpushed(lib, t), order[1..]))
      && (!pushed ==>
            && Done(t.outgoing) == Done(s.outgoing) && Unpushed(lib, t) == Unpushed(lib, s)
            && |Ahead(lib, t)| < |Ahead(lib, s)|)
  {
    if !order[0].origin.direct && s.transformQueue != [] {
      schedule := PushQueued(lib, s, order);
      pushed := true;
    } else {
      QueuedIsTransformed(lib, s.transformQueue);
      NextIsAhead(Queued(lib, s.transformQueue), Ahead(lib, s), order);
      pushed := Ahead(lib, s)[0].origin.direct;
      if pushed {
        schedule := PushDirect(lib, s, order);
      } else {
        schedule := BringItem(lib, s);
      }
    }
  }

  /** The two front threads can push the beginning of a publishable order and leave the rest publishable. */
  lemma {:induction false} PushInOrder(lib: Library, s: State, order: seq<Delivery>, rest: seq<Delivery>)
    returns (schedule: seq<Action>)
    requires ThreadsSound(s) && s.transform.TransformIdle?
    requires Publishable(Unpushed(lib, s), order + rest)
    requires forall d | d in order :: d.result.Finished?
    ensures NoArrival(schedule) && Fits(lib, s, schedule)
    ensures
      var t := Run(lib, s, schedule);
      && ThreadsSound(t) && SameBack(s, t)
      && Done(t.outgoing) == Done(s.outgoing) + order
      && Publishable(Unpushed(lib, t), rest)
    decreases |order|, |Ahead(lib, s)|
  {
    if order == [] {
      schedule := [];
      assert order + rest == rest;
      assert Done(s.outgoing) + [] == Done(s.outgoing);
    } else {
      assert (order + rest)[1..] == order[1..] + rest;
      var first, pushed := PushOne(lib, s, order + rest);
      var later := if pushed then order[1..] else order;
      var more := PushInOrder(lib, Run(lib, s, first), later, rest);
      schedule := first + more;
      RunConcat(lib, s, first, more);
      if pushed {
        assert order == [order[0]] + order[1..];
        Associate(Done(s.outgoing), [order[0]], order[1..]);
      }
    }
  }

  lemma {:induction false} NoDirectAmong(deliveries: seq<Delivery>)
    requires AllTransformed(deliveries)
    ensures FirstDirect(deliveries) == |deliveries|
  {
    if deliveries == [] {
    } else {
      assert deliveries[0] in deliveries;
      NoDirectAmong(deliveries[1..]);
    }
  }

  lemma {:induction false} NextIsAhead(queued: seq<Delivery>, ahead: seq<Delivery>, order: seq<Delivery>)
    requires AllTransformed(queued) && order != [] && Publishable(queued + ahead, order)
    requires order[0].origin.direct || queued == []
    ensures ahead != []
  {
    NoDirectAmong(queued);
    assert queued + [] == queued;
  }

  lemma {:induction false} DirectLeaves(queued: seq<Delivery>, ahead: seq<Delivery>, order: seq<Delivery>)
    requires AllTransformed(queued) && ahead != [] && ahead[0].origin.direct && order != []
    requires order[0].origin.direct || queued == []
    requires Publishable(queued + ahead, order)
    ensures order[0] == ahead[0] && Publishable(queued + ahead[1..], order[1..])
  {
    var all := queued + ahead;
    FirstDirectAt(all, |queued|);
    assert Without(all, |queued|) == queued + ahead[1..];
    assert queued == [] ==> all == ahead;
  }

  /** The publish thread can send everything outgoing. */
  lemma {:induction false} SendAll(lib: Library, s: State) returns (schedule: seq<Action>)
    requires s.publish.PublishIdle? && !s.transform.Crashed?
    ensures NoArrival(schedule) && Fits(lib, s, schedule)
    ensures Run(lib, s, schedule) == s.(outgoing := [], published := s.published + s.outgoing)
    decreases |s.outgoing|
  {
    schedule := [];
    assert s.published + [] == s.published;
    if s.outgoing == [] {
    } else {
      var held := Step(lib, s, PublishPop);
      var t := Step(lib, held, Send);
      var rest := SendAll(lib, t);
      schedule := [PublishPop] + ([Send] + rest);
      assert schedule[1..] == [Send] + rest && ([Send] + rest)[1..] == rest;
      assert s.outgoing == [s.outgoing[0]] + s.outgoing[1..];
      Associate(s.published, [s.outgoing[0]], s.outgoing[1..]);
    }
  }

  lemma {:induction false} ArriveAll(lib: Library, s: State, messages: seq<Message>) returns (schedule: seq<Action>)
    requires !s.transform.Crashed?
    ensures Fits(lib, s, schedule) && Arrivals(schedule) == messages
    ensures Run(lib, s, schedule) == s.(incoming := s.incoming + messages, arrived := s.arrived + messages)
    decreases |messages|
  {
    schedule := [];
    if messages == [] {
      assert s.incoming + [] == s.incoming && s.arrived + [] == s.arrived;
    } else {
      var rest := ArriveAll(lib, Step(lib, s, Arrive(messages[0])), messages[1..]);
      schedule := [Arrive(messages[0])] + rest;
      assert schedule[1..] == rest;
      assert messages == [messages[0]] + messages[1..];
      Associate(s.incoming, [messages[0]], messages[1..]);
      Associate(s.arrived, [messages[0]], messages[1..]);
    }
  }

  lemma {:induction false} ArrivalsConcat(a: seq<Action>, b: seq<Action>)
    requires NoArrival(b)
    ensures Arrivals(a + b) == Arrivals(a)
  {
    if a == [] {
      assert a + b == b;
      if b != [] {
        assert b[0] in b && [] + b[1..] == b[1..];
        ArrivalsConcat([], b[1..]);
      }
    } else {
      assert (a + b)[1..] == a[1..] + b;
      ArrivalsConcat(a[1..], b);
    }
  }

  /** All messages can arrive and the beginning of a publishable order be pushed, with the rest still to come. */
  lemma {:induction false} ArriveAndPush(
      lib: Library, routes: RouteTable, messages: seq<Message>, order: seq<Delivery>, rest: seq<Delivery>)
    returns (schedule: seq<Action>)
    requires Publishable(Expected(lib, routes, messages), order + rest)
    requires forall d | d in order :: d.result.Finished?
    ensures Fits(lib, Start(routes), schedule) && Arrivals(schedule) == messages
    ensures
      var t := Run(lib, Start(routes), schedule);
      && ThreadsSound(t) && SameBack(Start(routes), t)
      && Done(t.outgoing) == order
      && Publishable(Unpushed(lib, t), rest)
  {
    var start := Start(routes);
    var arriving := ArriveAll(lib, start, messages);
    var arrived := Run(lib, start, arriving);
    assert [] + messages == messages;
    assert Unpushed(lib, arrived) == Expected(lib, routes, messages);
    var pushing := PushInOrder(lib, arrived, order, rest);
    schedule := arriving + pushing;
    RunConcat(lib, start, arriving, pushing);
    ArrivalsConcat(arriving, pushing);
    assert [] + order == order;
  }

  /** Once something is outgoing and nothing published, it can be sent as it stands. */
  lemma {:induction false} ThenSend(lib: Library, routes: RouteTable, pushing: seq<Action>)
    returns (schedule: seq<Action>)
    requires Fits(lib, Start(routes), pushing)
    requires SameBack(Start(routes), Run(lib, Start(routes), pushing))
    ensures Fits(lib, Start(routes), schedule) && Arrivals(schedule) == Arrivals(pushing)
    ensures
      var t := Run(lib, Start(routes), pushing);
      Run(lib, Start(routes), schedule) == t.(outgoing := [], published := t.outgoing)
  {
    var t := Run(lib, Start(routes), pushing);
    var sending := SendAll(lib, t);
    schedule := pushing + sending;
    RunConcat(lib, Start(routes), pushing, sending);
    ArrivalsConcat(pushing, sending);
    assert [] + t.outgoing == t.outgoing;
  }

  /** Whatever begins a publishable order is what some run has published at some point. */
  lemma {:induction false} BeginningIsShown(
      lib: Library, routes: RouteTable, messages: seq<Message>, order: seq<Delivery>, rest: seq<Delivery>)
    returns (schedule: seq<Action>)
    requires Publishable(Expected(lib, routes, messages), order + rest)
    requires forall d | d in order :: d.result.Finished?
    ensures Shows(lib, routes, schedule, messages, order)
  {
    var pushing := ArriveAndPush(lib, routes, messages, order, rest);
    schedule := ThenSend(lib, routes, pushing);
  }

  /** A whole publishable order is published by a run that then stops. */
  lemma {:induction false} PublishableIsProduced(
      lib: Library, routes: RouteTable, messages: seq<Message>, order: seq<Delivery>)
    returns (schedule: seq<Action>)
    requires Publishable(Expected(lib, routes, messages), order)
    requires forall d | d in order :: d.result.Finished?
    ensures Produces(lib, routes, schedule, messages, order)
  {
    assert order + [] == order;
    var pushing := ArriveAndPush(lib, routes, messages, order, []);
    var pushed := Run(lib, Start(routes), pushing);
    assert Unpushed(lib, pushed) == [];
    var popping := PopUnrouted(lib, pushed);
    RunConcat(lib, Start(routes), pushing, popping);
    ArrivalsConcat(pushing, popping);
    schedule := ThenSend(lib, routes, pushing + popping);
    RunStaysSound(lib, Start(routes), schedule);
    StoppedExact(Run(lib, Start(routes), schedule));
  }

  lemma {:induction false} PublishableHolds(expected: seq<Delivery>, published: seq<Delivery>, d: Delivery)
    requires Publishable(expected, published) && d in published
    ensures d in expected
    decreases |published|
  {
    if d == published[0] {
    } else {
      var next := if published[0].origin.direct then Without(expected, FirstDirect(expected)) else expected[1..];
      assert published == [published[0]] + published[1..];
      PublishableHolds(next, published[1..], d);
    }
  }

  /**
   What can have been published once these messages have arrived, at any point of any run, crash or not, is exactly
   what is finished and begins a publishable order.
   */
  lemma {:induction false} PublishedExact(
      lib: Library, routes: RouteTable, messages: seq<Message>, published: seq<Delivery>)
    ensures (exists schedule :: Shows(lib, routes, schedule, messages, published)) <==>
              && (forall d | d in published :: d.result.Finished?)
              && exists rest :: Publishable(Expected(lib, routes, messages), published + rest)
  {
    if schedule :| Shows(lib, routes, schedule, messages, published) {
      var rest := PublishedBegins(lib, routes, schedule);
    }
    if forall d | d in published :: d.result.Finished? {
      if rest :| Publishable(Expected(lib, routes, messages), published + rest) {
        var schedule := BeginningIsShown(lib, routes, messages, published, rest);
      }
    }
  }

  /** The complete orders of publication, over all interleavings, are exactly the publishable ones. */
  lemma {:induction false} PublishedOrdersExact(
      lib: Library, routes: RouteTable, messages: seq<Message>, order: seq<Delivery>)
    requires !TerminationDue(lib, routes, messages)
    ensures Publishable(Expected(lib, routes, messages), order) <==>
              exists schedule :: Produces(lib, routes, schedule, messages, order)
  {
    if Publishable(Expected(lib, routes, messages), order) {
      forall d | d in order
        ensures d.result.Finished?
      {
        PublishableHolds(Expected(lib, routes, messages), order, d);
      }
      var schedule := PublishableIsProduced(lib, routes, messages, order);
    }
    if schedule :| Produces(lib, routes, schedule, messages, order) {
      ProducedIsPublishable(lib, routes, schedule, messages, order);
    }
  }

  // ---- When the order is certain ----

  /** No transformed delivery is expected before a direct one. */
  predicate DirectFirst(deliveries: seq<Delivery>) {
    forall i, j | 0 <= i < j < |deliveries| :: deliveries[j].origin.direct ==> deliveries[i].origin.direct
  }

  lemma {:induction false} DirectFirstHead(deliveries: seq<Delivery>)
    requires DirectFirst(deliveries) && deliveries != []
    ensures DirectFirst(deliveries[1..])
    ensures FirstDirect(deliveries) == 0 || FirstDirect(deliveries) == |deliveries|
  {
    if !deliveries[0].origin.direct {
      forall d | d in deliveries
        ensures !d.origin.direct
      {
        var j :| 0 <= j < |deliveries| && deliveries[j] == d;
        assert j == 0 || !deliveries[j].origin.direct;
      }
      NoDirectAmong(deliveries);
    }
  }

  lemma {:induction false} DirectFirstIsFixed(expected: seq<Delivery>, order: seq<Delivery>)
    requires DirectFirst(expected) && Publishable(expected, order)
    ensures order == expected
    decreases |order|
  {
    if order == [] {
    } else {
      DirectFirstHead(expected);
      assert Without(expected, 0) == expected[1..];
      DirectFirstIsFixed(expected[1..], order[1..]);
      assert expected == [expected[0]] + expected[1..];
      assert order == [order[0]] + order[1..];
    }
  }

  /** The first transformed delivery that a direct one follows, and the first one that does. */
  lemma {:induction false} FirstOvertaken(expected: seq<Delivery>) returns (k: nat, next: nat)
    requires !DirectFirst(expected)
    ensures k < next < |expected|
    ensures forall n | 0 <= n < k :: expected[n].origin.direct
    ensures forall n | k <= n < next :: !expected[n].origin.direct
    ensures expected[next].origin.direct
  {
    var i, j :| 0 <= i < j < |expected| && expected[j].origin.direct && !expected[i].origin.direct;
    k := 0;
    while expected[k].origin.direct
      invariant k <= i
      invariant forall n | 0 <= n < k :: expected[n].origin.direct
      decreases i - k
    {
      k := k + 1;
    }
    next := k + FirstDirect(expected[k..]);
    assert expected[k..][j - k] == expected[j];
  }

  /** That direct delivery may be published early, behind none but direct ones. */
  lemma {:induction false} Overtaking(expected: seq<Delivery>) returns (early: seq<Delivery>, rest: seq<Delivery>)
    requires !DirectFirst(expected)
    ensures Publishable(expected, early + rest) && !(early <= expected)
    ensures forall d | d in early :: d in expected && d.origin.direct
  {
    var k, next := FirstOvertaken(expected);
    var past, middle, d, ahead := expected[..k], expected[k..next], expected[next], expected[next + 1..];
    early, rest := past + [d], middle + ahead;
    assert early[k] != expected[k];
    assert Publishable(expected, early + rest) by {
      assert expected == past + (middle + ([d] + ahead));
      PublishableAsIs(expected);
      DirectMayOvertake(expected, past, middle, d, ahead);
      Associate(past, [d], rest);
    }
  }

  /**
   What is published is at every point of every run the beginning of arrival and configuration order exactly when
   no transformed delivery is due before a direct one.
   */
  lemma {:induction false} GlobalOrderExact(lib: Library, routes: RouteTable, messages: seq<Message>)
    ensures
      var expected := Expected(lib, routes, messages);
      (forall schedule, published | Shows(lib, routes, schedule, messages, published) :: published <= expected)
      <==> DirectFirst(expected)
  {
    var expected := Expected(lib, routes, messages);
    if DirectFirst(expected) {
      forall schedule, published | Shows(lib, routes, schedule, messages, published)
        ensures published <= expected
      {
        var rest := PublishedBegins(lib, routes, schedule);
        DirectFirstIsFixed(expected, published + rest);
      }
    } else {
      var early, rest := Overtaking(expected);
      forall d | d in early
        ensures d.result.Finished?
      {
        DirectFinishes(lib, routes, messages, d);
      }
      var schedule := BeginningIsShown(lib, routes, messages, early, rest);
    }
  }

  /** The same for complete runs, which then publish exactly the expected list. */
  lemma {:induction false} CompleteOrderExact(lib: Library, routes: RouteTable, messages: seq<Message>)
    requires !TerminationDue(lib, routes, messages)
    ensures
      var expected := Expected(lib, routes, messages);
      (forall schedule, order | Produces(lib, routes, schedule, messages, order) :: order == expected)
      <==> DirectFirst(expected)
  {
    var expected := Expected(lib, routes, messages);
    if DirectFirst(expected) {
      forall schedule, order | Produces(lib, routes, schedule, messages, order)
        ensures order == expected
      {
        ProducedIsPublishable(lib, routes, schedule, messages, order);
        DirectFirstIsFixed(expected, order);
      }
    } else {
      var early, rest := Overtaking(expected);
      assert early <= early + rest;
      PublishedOrdersExact(lib, routes, messages, early + rest);
    }
  }
}
