/** The transformer chain of a route: the loop of src/traffic_warden.cpp that runs it, and its laws. */
module Chains {
  import opened Wrappers
  import opened Topics
  import opened JsonModel
  import opened Transformation
  import opened StreamTransformers

  datatype ChainResult = Finished(output: Output) | Terminated

  /** Runs every transformer in turn on the same input; failures are skipped, an abort ends the process. */
  function RunChain(lib: Library, ts: seq<StreamTransformer>, input: Message, output: Output): ChainResult {
    if ts == [] then Finished(output)
    else
      var e := Executed(lib, ts[0], input, output);
      if e.outcome.Aborted? then Terminated else RunChain(lib, ts[1..], input, e.output)
  }

  /** Output payload and input payload both take keys, or neither does: so it is when a message is dispatched. */
  predicate SameKind(input: Message, output: Output) {
    HoldsKeys(output.payload) <==> HoldsKeys(input.payload)
  }

  // ---- Aborts ----

  /** A chain ends the process exactly when one of its members aborts on the input. */
  lemma {:induction false} TerminatedExact(lib: Library, ts: seq<StreamTransformer>, input: Message, output: Output)
    requires SameKind(input, output)
    ensures RunChain(lib, ts, input, output).Terminated? <==> exists t | t in ts :: Aborts(lib, t, input)
  {
    if ts == [] {
    } else {
      OutcomeFromInput(lib, ts[0], input, output);
      TerminatedExact(lib, ts[1..], input, Executed(lib, ts[0], input, output).output);
      assert forall t :: t in ts <==> t == ts[0] || t in ts[1..];
    }
  }

  /** With an object payload the only way to abort is a payloadToPayload whose source key is missing. */
  lemma {:induction false} ObjectPayloadTerminates(
      lib: Library, ts: seq<StreamTransformer>, input: Message, topic: string)
    requires input.payload.JObject?
    ensures RunChain(lib, ts, input, Output(topic, input.payload)).Terminated? <==>
              exists t | t in ts :: t.PayloadToPayload? && t.p2p.fromPayload !in input.payload.fields
  {
    TerminatedExact(lib, ts, input, Output(topic, input.payload));
    forall t | t in ts
      ensures Aborts(lib, t, input) <==> t.PayloadToPayload? && t.p2p.fromPayload !in input.payload.fields
    {
    }
  }

  // ---- Failures are no-ops ----

  function Surviving(lib: Library, ts: seq<StreamTransformer>, input: Message): seq<StreamTransformer> {
    if ts == [] then []
    else (if Fails(lib, ts[0], input) then [] else [ts[0]]) + Surviving(lib, ts[1..], input)
  }

  /** A chain is the chain of the members that do not fail, whatever the output was. */
  lemma {:induction false} FailuresDropOut(lib: Library, ts: seq<StreamTransformer>, input: Message, output: Output)
    ensures RunChain(lib, ts, input, output) == RunChain(lib, Surviving(lib, ts, input), input, output)
  {
    if ts == [] {
    } else {
      var e := Executed(lib, ts[0], input, output);
      OutcomeFromInput(lib, ts[0], input, output);
      FailuresDropOut(lib, ts[1..], input, e.output);
      var kept := Surviving(lib, ts, input);
      if !Fails(lib, ts[0], input) {
        assert kept[1..] == Surviving(lib, ts[1..], input);
      } else {
        assert kept == Surviving(lib, ts[1..], input);
      }
    }
  }

  // ---- Last writer ----

  /** Keys no member touches keep the value the output payload had. */
  lemma {:induction false} UntouchedKey(
      lib: Library, ts: seq<StreamTransformer>, input: Message, output: Output, key: string)
    requires RunChain(lib, ts, input, output).Finished?
    requires forall j | 0 <= j < |ts| :: TouchOf(lib, ts[j], input, key).Untouched?
    ensures Lookup(RunChain(lib, ts, input, output).output.payload, key) == Lookup(output.payload, key)
  {
    if ts == [] {
    } else {
      EffectFromInput(lib, ts[0], input, output, key);
      assert forall j | 0 <= j < |ts| - 1 :: ts[1..][j] == ts[j + 1];
      UntouchedKey(lib, ts[1..], input, Executed(lib, ts[0], input, output).output, key);
    }
  }

  /** A key some member touches ends as the last of them leaves it, computed from the original input. */
  lemma {:induction false} LastWriter(
      lib: Library, ts: seq<StreamTransformer>, input: Message, output: Output, key: string, last: nat)
    requires RunChain(lib, ts, input, output).Finished?
    requires last < |ts| && !TouchOf(lib, ts[last], input, key).Untouched?
    requires forall j | last < j < |ts| :: TouchOf(lib, ts[j], input, key).Untouched?
    ensures Lookup(RunChain(lib, ts, input, output).output.payload, key) ==
              AfterTouch(TouchOf(lib, ts[last], input, key), None)
  {
    var next := Executed(lib, ts[0], input, output).output;
    assert forall j | 0 <= j < |ts| - 1 :: ts[1..][j] == ts[j + 1];
    if last == 0 {
      EffectFromInput(lib, ts[0], input, output, key);
      UntouchedKey(lib, ts[1..], input, next, key);
    } else {
      LastWriter(lib, ts[1..], input, next, key, last - 1);
    }
  }

  /** What the last member that touches the key does to it. */
  function LastTouch(lib: Library, ts: seq<StreamTransformer>, input: Message, key: string): Touch {
    if ts == [] then Untouched
    else
      var later := LastTouch(lib, ts[1..], input, key);
      if later.Untouched? then TouchOf(lib, ts[0], input, key) else later
  }

  /** Both cases at once: every key ends as its last touch says. */
  lemma {:induction false} LastTouchDecides(
      lib: Library, ts: seq<StreamTransformer>, input: Message, output: Output, key: string)
    requires RunChain(lib, ts, input, output).Finished?
    ensures Lookup(RunChain(lib, ts, input, output).output.payload, key) ==
              AfterTouch(LastTouch(lib, ts, input, key), Lookup(output.payload, key))
  {
    if ts == [] {
    } else {
      EffectFromInput(lib, ts[0], input, output, key);
      LastTouchDecides(lib, ts[1..], input, Executed(lib, ts[0], input, output).output, key);
    }
  }

  lemma {:induction false} FinishedFinds(
      lib: Library, ts: seq<StreamTransformer>, input: Message, output: Output, i: nat)
    requires RunChain(lib, ts, input, output).Finished?
    requires i < |ts| && ts[i].PayloadToPayload?
    ensures Contains(input.payload, ts[i].p2p.fromPayload)
  {
    if i == 0 {
    } else {
      FinishedFinds(lib, ts[1..], input, Executed(lib, ts[0], input, output).output, i - 1);
    }
  }

  /** Moving a value onto its own key leaves the payload without it, unless a later member writes it again. */
  lemma {:induction false} MoveOntoItselfErases(
      lib: Library, ts: seq<StreamTransformer>, input: Message, output: Output, last: nat)
    requires RunChain(lib, ts, input, output).Finished?
    requires last < |ts| && ts[last].PayloadToPayload? && !Fails(lib, ts[last], input)
    requires ts[last].p2p.fromPayload == ts[last].p2p.toPayload && !ts[last].p2p.keep
    requires forall j | last < j < |ts| :: TouchOf(lib, ts[j], input, ts[last].p2p.toPayload).Untouched?
    ensures Lookup(RunChain(lib, ts, input, output).output.payload, ts[last].p2p.toPayload) == None
  {
    FinishedFinds(lib, ts, input, output, last);
    LastWriter(lib, ts, input, output, ts[last].p2p.toPayload, last);
  }

  // ---- Topic and payload are independent ----

  predicate WritesTopic(t: StreamTransformer) {
    t.TopicToTopic? || t.PayloadToTopic?
  }

  predicate TouchesPayload(t: StreamTransformer) {
    t.TopicToPayload? || t.PayloadToPayload? || (t.PayloadToTopic? && !t.p2t.keep)
  }

  function TopicWriters(ts: seq<StreamTransformer>): seq<StreamTransformer> {
    if ts == [] then [] else (if WritesTopic(ts[0]) then [ts[0]] else []) + TopicWriters(ts[1..])
  }

  function PayloadTouchers(ts: seq<StreamTransformer>): seq<StreamTransformer> {
    if ts == [] then [] else (if TouchesPayload(ts[0]) then [ts[0]] else []) + PayloadTouchers(ts[1..])
  }

  /** The payload side of a chain, run with no topic at all. */
  function PayloadPart(lib: Library, ts: seq<StreamTransformer>, input: Message, payload: Json): Option<Json> {
    if ts == [] then Some(payload)
    else
      var e := Executed(lib, ts[0], input, Output("", payload));
      if e.outcome.Aborted? then None else PayloadPart(lib, ts[1..], input, e.output.payload)
  }

  /** The topic side of a chain: the levels its members write, in order. */
  function TopicPart(lib: Library, ts: seq<StreamTransformer>, input: Message, topic: string): string {
    if ts == [] then topic else TopicPart(lib, ts[1..], input, AfterWrite(WriteOf(lib, ts[0], input), topic))
  }

  lemma {:induction false} PartsOfOne(lib: Library, t: StreamTransformer, input: Message, output: Output)
    ensures
      var e, p := Executed(lib, t, input, output), Executed(lib, t, input, Output("", output.payload));
      && e.outcome == p.outcome
      && e.output.payload == p.output.payload
      && (!e.outcome.Aborted? ==> e.output.topic == AfterWrite(WriteOf(lib, t, input), output.topic))
  {
  }

  lemma {:induction false} ChainParts(lib: Library, ts: seq<StreamTransformer>, input: Message, output: Output)
    ensures RunChain(lib, ts, input, output) ==
              match PayloadPart(lib, ts, input, output.payload)
              case None => Terminated
              case Some(payload) => Finished(Output(TopicPart(lib, ts, input, output.topic), payload))
  {
    if ts == [] {
    } else {
      var e := Executed(lib, ts[0], input, output);
      PartsOfOne(lib, ts[0], input, output);
      if !e.outcome.Aborted? {
        ChainParts(lib, ts[1..], input, e.output);
      }
    }
  }

  lemma {:induction false} PayloadPartOfTouchers(
      lib: Library, ts: seq<StreamTransformer>, input: Message, payload: Json)
    ensures PayloadPart(lib, ts, input, payload) == PayloadPart(lib, PayloadTouchers(ts), input, payload)
  {
    if ts == [] {
    } else {
      var e := Executed(lib, ts[0], input, Output("", payload));
      PayloadPartOfTouchers(lib, ts[1..], input, e.output.payload);
      if TouchesPayload(ts[0]) {
        assert PayloadTouchers(ts)[1..] == PayloadTouchers(ts[1..]);
      } else {
        assert PayloadTouchers(ts) == PayloadTouchers(ts[1..]);
      }
    }
  }

  lemma {:induction false} TopicPartOfWriters(lib: Library, ts: seq<StreamTransformer>, input: Message, topic: string)
    ensures TopicPart(lib, ts, input, topic) == TopicPart(lib, TopicWriters(ts), input, topic)
  {
    if ts == [] {
    } else {
      TopicPartOfWriters(lib, ts[1..], input, AfterWrite(WriteOf(lib, ts[0], input), topic));
      if WritesTopic(ts[0]) {
        assert TopicWriters(ts)[1..] == TopicWriters(ts[1..]);
      } else {
        assert TopicWriters(ts) == TopicWriters(ts[1..]);
      }
    }
  }

  /** Chains that agree on topic writers and on payload touchers agree on every input and output. */
  lemma {:induction false} Factorisation(
      lib: Library, ts: seq<StreamTransformer>, us: seq<StreamTransformer>, input: Message, output: Output)
    requires TopicWriters(ts) == TopicWriters(us)
    requires PayloadTouchers(ts) == PayloadTouchers(us)
    ensures RunChain(lib, ts, input, output) == RunChain(lib, us, input, output)
  {
    ChainParts(lib, ts, input, output);
    ChainParts(lib, us, input, output);
    PayloadPartOfTouchers(lib, ts, input, output.payload);
    PayloadPartOfTouchers(lib, us, input, output.payload);
    TopicPartOfWriters(lib, ts, input, output.topic);
    TopicPartOfWriters(lib, us, input, output.topic);
  }

  // ---- The topic over a chain ----

  function WritesOf(lib: Library, ts: seq<StreamTransformer>, input: Message): seq<TopicWrite> {
    if ts == [] then []
    else
      (match WriteOf(lib, ts[0], input)
       case None => []
       case Some(w) => [w]) + WritesOf(lib, ts[1..], input)
  }

  function AddedLength(writes: seq<TopicWrite>): nat {
    if writes == [] then 0 else 1 + |writes[0].segment| + AddedLength(writes[1..])
  }

  function SpliceAll(levels: seq<string>, writes: seq<TopicWrite>): seq<string>
    decreases |writes|
  {
    if writes == [] then levels
    else SpliceAll(Splice(levels, writes[0].index, writes[0].segment), writes[1..])
  }

  /** The final topic from the level lists alone, and its exact length. */
  lemma {:induction false} ChainTopic(lib: Library, ts: seq<StreamTransformer>, input: Message, topic: string)
    ensures |TopicPart(lib, ts, input, topic)| == |topic| + AddedLength(WritesOf(lib, ts, input))
    ensures topic != "" ==>
              Levels(TopicPart(lib, ts, input, topic)) == SpliceAll(Levels(topic), WritesOf(lib, ts, input))
  {
    if ts == [] {
    } else {
      var write := WriteOf(lib, ts[0], input);
      var rest := WritesOf(lib, ts[1..], input);
      ChainTopic(lib, ts[1..], input, AfterWrite(write, topic));
      if write.Some? {
        InsertLength(topic, write.value.index, write.value.segment);
        InsertSplices(topic, write.value.index, write.value.segment);
        assert WritesOf(lib, ts, input)[1..] == rest;
      } else {
        assert WritesOf(lib, ts, input) == rest;
      }
    }
  }

  /** a is found in b at the positions at, in order. */
  ghost predicate FoundAt(a: seq<string>, b: seq<string>, at: seq<nat>) {
    && |at| == |a|
    && (forall i | 0 <= i < |at| :: at[i] < |b| && b[at[i]] == a[i])
    && (forall i, j | 0 <= i < j < |at| :: at[i] < at[j])
  }

  ghost predicate Survives(a: seq<string>, b: seq<string>) {
    exists at :: FoundAt(a, b, at)
  }

  lemma {:induction false} LevelsSurviveWrites(levels: seq<string>, writes: seq<TopicWrite>)
    ensures Survives(levels, SpliceAll(levels, writes))
    decreases |writes|
  {
    if writes == [] {
      assert FoundAt(levels, levels, seq(|levels|, i => i));
    } else {
      var spliced := Splice(levels, writes[0].index, writes[0].segment);
      LevelsSurviveWrites(spliced, writes[1..]);
      LevelsSurviveSplice(levels, writes[0], SpliceAll(levels, writes));
    }
  }

  /** Where a level of the list is found once a segment has been spliced in. */
  function Shifted(levels: seq<string>, w: TopicWrite, i: nat): nat {
    if i < Min(w.index, |levels|) then i else i + |Levels(w.segment)|
  }

  lemma {:induction false} SpliceShifts(levels: seq<string>, w: TopicWrite, i: nat)
    requires i < |levels|
    ensures
      var spliced := Splice(levels, w.index, w.segment);
      Shifted(levels, w, i) < |spliced| && spliced[Shifted(levels, w, i)] == levels[i]
  {
  }

  lemma {:induction false} LevelsSurviveSplice(levels: seq<string>, w: TopicWrite, final: seq<string>)
    requires Survives(Splice(levels, w.index, w.segment), final)
    ensures Survives(levels, final)
  {
    var at :| FoundAt(Splice(levels, w.index, w.segment), final, at);
    forall i | 0 <= i < |levels|
      ensures Shifted(levels, w, i) < |at| && final[at[Shifted(levels, w, i)]] == levels[i]
    {
      SpliceShifts(levels, w, i);
    }
    var kept := seq(|levels|, i requires 0 <= i < |levels| => at[Shifted(levels, w, i)]);
    assert FoundAt(levels, final, kept);
  }

  /** Configured output levels survive, in order, any chain; the topic grows by one '/' and a segment per write. */
  lemma {:induction false} ConfiguredLevelsSurvive(
      lib: Library, ts: seq<StreamTransformer>, input: Message, output: Output)
    requires output.topic != "" && RunChain(lib, ts, input, output).Finished?
    ensures
      var topic := RunChain(lib, ts, input, output).output.topic;
      && Survives(Levels(output.topic), Levels(topic))
      && |topic| == |output.topic| + AddedLength(WritesOf(lib, ts, input))
  {
    ChainParts(lib, ts, input, output);
    ChainTopic(lib, ts, input, output.topic);
    LevelsSurviveWrites(Levels(output.topic), WritesOf(lib, ts, input));
  }

  predicate StartsLevel(segment: string) {
    segment != "" && segment[0] != '/'
  }

  predicate EndsLevel(segment: string) {
    segment != "" && segment[|segment| - 1] != '/'
  }

  /** Whether the front is fine in the end: the last write at index 0 decides, if there is one. */
  predicate FrontGood(good: bool, writes: seq<TopicWrite>)
    decreases |writes|
  {
    if writes == [] then good
    else FrontGood(if writes[0].index == 0 then StartsLevel(writes[0].segment) else good, writes[1..])
  }

  /** Whether the back is: the last write past all levels, of which there are count at first, decides. */
  predicate BackGood(good: bool, count: nat, writes: seq<TopicWrite>)
    decreases |writes|
  {
    if writes == [] then good
    else
      var w := writes[0];
      BackGood(if w.index >= count then EndsLevel(w.segment) else good, count + |Levels(w.segment)|, writes[1..])
  }

  lemma {:induction false} OneSplice(levels: seq<string>, w: TopicWrite)
    requires levels != []
    ensures
      var spliced := Splice(levels, w.index, w.segment);
      && |spliced| == |levels| + |Levels(w.segment)|
      && (spliced[0] != "" <==> if w.index == 0 then StartsLevel(w.segment) else levels[0] != "")
      && (spliced[|spliced| - 1] != "" <==>
            if w.index >= |levels| then EndsLevel(w.segment) else levels[|levels| - 1] != "")
  {
    EndLevels(w.segment);
    SpliceEnds(levels, w.index, w.segment);
  }

  lemma {:induction false} SplicedEnds(levels: seq<string>, writes: seq<TopicWrite>)
    requires levels != []
    ensures
      var spliced := SpliceAll(levels, writes);
      && spliced != []
      && (spliced[0] != "" <==> FrontGood(levels[0] != "", writes))
      && (spliced[|spliced| - 1] != "" <==> BackGood(levels[|levels| - 1] != "", |levels|, writes))
    decreases |writes|
  {
    if writes == [] {
    } else {
      OneSplice(levels, writes[0]);
      SplicedEnds(Splice(levels, writes[0].index, writes[0].segment), writes[1..]);
    }
  }

  /** Exactly when a chain ends in a valid topic: "/" untouched, or a topic whose two ends come out fine. */
  lemma {:induction false} ChainValidExact(lib: Library, ts: seq<StreamTransformer>, input: Message, topic: string)
    requires topic != ""
    ensures
      var writes := WritesOf(lib, ts, input);
      IsValidTopic(TopicPart(lib, ts, input, topic)) <==>
        || (topic == "/" && writes == [])
        || (FrontGood(StartsLevel(topic), writes) && BackGood(EndsLevel(topic), |Levels(topic)|, writes))
  {
    var final := TopicPart(lib, ts, input, topic);
    ValidByLevels(final);
    SplitIsLevels(final);
    FinalEnds(lib, ts, input, topic);
    FinalSlash(lib, ts, input, topic);
  }

  lemma {:induction false} FinalEnds(lib: Library, ts: seq<StreamTransformer>, input: Message, topic: string)
    requires topic != ""
    ensures
      var final, writes := TopicPart(lib, ts, input, topic), WritesOf(lib, ts, input);
      && final != ""
      && (BoundedByLevels(Levels(final)) <==>
            FrontGood(StartsLevel(topic), writes) && BackGood(EndsLevel(topic), |Levels(topic)|, writes))
  {
    var levels, writes := Levels(topic), WritesOf(lib, ts, input);
    ChainTopic(lib, ts, input, topic);
    SplicedEnds(levels, writes);
    assert (levels[0] != "") == StartsLevel(topic) && (levels[|levels| - 1] != "") == EndsLevel(topic) by {
      EndLevels(topic);
    }
  }

  /** An empty level of a valid input topic can make the output topic invalid. */
  lemma {:induction false} EmptyLevelAppended(lib: Library, payload: Json, topic: string)
    requires topic != "" && SlashFree(topic)
    ensures
      var t := TopicToTopic(T2T.TopicToTopicTransformation(1, 1));
      IsValidTopic("a//b") && !IsValidTopic(TopicPart(lib, [t], Message("a//b", payload), topic))
  {
    var t := TopicToTopic(T2T.TopicToTopicTransformation(1, 1));
    assert WriteOf(lib, t, Message("a//b", payload)) == Some(TopicWrite(1, "")) by {
      assert "a" + "/" + "/b" == "a//b";
      LevelsOfConcat("a", "/b");
      LevelsOfSlashFree("a");
      SplitIsLevels("a//b");
    }
    LevelsOfSlashFree(topic);
    InsertValidExact(topic, 1, "");
  }

  /** So can a single write to the topic "/". */
  lemma {:induction false} SlashExtended(lib: Library, payload: Json)
    ensures
      var t := TopicToTopic(T2T.TopicToTopicTransformation(0, 0));
      IsValidTopic("/") && !IsValidTopic(TopicPart(lib, [t], Message("a", payload), "/"))
  {
    var t := TopicToTopic(T2T.TopicToTopicTransformation(0, 0));
    var write := WriteOf(lib, t, Message("a", payload));
    assert write.Some?;
    InsertValidExact("/", 0, write.value.segment);
  }

  predicate CleanSegment(segment: string) {
    StartsLevel(segment) && EndsLevel(segment)
  }

  /** Some write goes to the end of its topic, of count levels at first. */
  predicate Appends(count: nat, writes: seq<TopicWrite>)
    decreases |writes|
  {
    && writes != []
    && (writes[0].index >= count || Appends(count + |Levels(writes[0].segment)|, writes[1..]))
  }

  /** With clean segments an end is fine if it was so at first or some write has covered it. */
  lemma {:induction false} CleanEnds(front: bool, back: bool, count: nat, writes: seq<TopicWrite>)
    requires forall w | w in writes :: CleanSegment(w.segment)
    ensures FrontGood(front, writes) <==> front || exists w | w in writes :: w.index == 0
    ensures BackGood(back, count, writes) <==> back || Appends(count, writes)
    decreases |writes|
  {
    if writes == [] {
    } else {
      var w := writes[0];
      assert w in writes;
      CleanEnds(
        front || w.index == 0, back || w.index >= count, count + |Levels(w.segment)|, writes[1..]);
      assert forall v :: v in writes <==> v == w || v in writes[1..];
    }
  }

  /**
   Clean segments leave every end as good as it was. Started from a valid topic other than "/" the chain ends in a
   valid one; started from "/" only if it wrote nothing, or wrote both in front and at the end.
   */
  lemma {:induction false} CleanChainValid(lib: Library, ts: seq<StreamTransformer>, input: Message, topic: string)
    requires topic != "" && forall w | w in WritesOf(lib, ts, input) :: CleanSegment(w.segment)
    ensures
      var writes := WritesOf(lib, ts, input);
      IsValidTopic(TopicPart(lib, ts, input, topic)) <==>
        || (topic == "/" && writes == [])
        || (&& (topic[0] != '/' || exists w | w in writes :: w.index == 0)
            && (topic[|topic| - 1] != '/' || Appends(|Levels(topic)|, writes)))
  {
    var writes := WritesOf(lib, ts, input);
    ChainValidExact(lib, ts, input, topic);
    CleanEnds(StartsLevel(topic), EndsLevel(topic), |Levels(topic)|, writes);
  }

  /** Only "/" itself, with nothing written, ends as "/". */
  lemma {:induction false} FinalSlash(lib: Library, ts: seq<StreamTransformer>, input: Message, topic: string)
    requires topic != ""
    ensures TopicPart(lib, ts, input, topic) == "/" <==> topic == "/" && WritesOf(lib, ts, input) == []
  {
    ChainTopic(lib, ts, input, topic);
    if WritesOf(lib, ts, input) == [] {
      NothingWritten(lib, ts, input, topic);
    }
  }

  lemma {:induction false} NothingWritten(lib: Library, ts: seq<StreamTransformer>, input: Message, topic: string)
    requires WritesOf(lib, ts, input) == []
    ensures TopicPart(lib, ts, input, topic) == topic
  {
    if ts == [] {
    } else {
      NothingWritten(lib, ts[1..], input, topic);
    }
  }
}
