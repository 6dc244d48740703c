/** src/stream_transformer_topic_to_topic.cpp: copies a level of the input topic into the output topic. */
module TopicToTopic {
  import opened Wrappers
  import opened Text
  import opened Topics
  import opened JsonModel
  import opened Transformation

  datatype TopicToTopicTransformation = TopicToTopicTransformation(fromTopic: nat, toTopic: nat)

  predicate IsValidSetup(json: Json) {
    && json.JObject?
    && Contains(json, FROM) && IsUnsigned(json.fields[FROM])
    && Contains(json, TO) && IsUnsigned(json.fields[TO])
  }

  function SetupResult(json: Json): Result<TopicToTopicTransformation, SetupFailure> {
    if !IsValidSetup(json) then Failure(SetupException)
    else Success(TopicToTopicTransformation(
                   NarrowIndex(json.fields[FROM].number), NarrowIndex(json.fields[TO].number)))
  }

  function Executed(t: TopicToTopicTransformation, inputTopic: string, output: Output): Execution {
    var levels := Split(inputTopic, "/");
    if |levels| <= t.fromTopic then Execution(Failed, output)
    else
      Execution(Completed, output.(topic := InsertLevel(output.topic, t.toTopic, levels[t.fromTopic])))
  }

  class StreamTransformerTopicToTopic {
    var transformation: TopicToTopicTransformation

    /** Leaves the transformation to setup. */
    constructor () {
    }

    method Setup(json: Json) returns (failure: Option<SetupFailure>)
      modifies this
      ensures failure.None? ==> SetupResult(json) == Success(transformation) && Describes(json, transformation)
      ensures failure.Some? ==> SetupResult(json) == Failure(failure.value) && transformation == old(transformation)
    {
      if !IsValidSetup(json) {
        return Some(SetupException);
      }
      transformation := TopicToTopicTransformation(
        NarrowIndex(json.fields[FROM].number), NarrowIndex(json.fields[TO].number));
      failure := None;
      SetupExact(json, transformation);
    }

    method Execute(inputTopic: string, output: OutputMessage) returns (outcome: Outcome)
      modifies output
      ensures Execution(outcome, output.Value()) == Executed(transformation, inputTopic, old(output.Value()))
    {
      var inputLevels := SplitString(inputTopic, "/");
      var outputLevels := SplitString(output.topic, "/");
      if |inputLevels| <= transformation.fromTopic {
        return Failed;
      } else if |outputLevels| <= transformation.toTopic {
        output.topic := output.topic + ("/" + inputLevels[transformation.fromTopic]);
      } else {
        outputLevels := outputLevels[..transformation.toTopic]
          + [inputLevels[transformation.fromTopic]] + outputLevels[transformation.toTopic..];
        output.topic := JoinStrings(outputLevels, "/");
      }
      outcome := Completed;
    }
  }

  /** The configuration describes the transformation, key by key. */
  predicate Describes(json: Json, t: TopicToTopicTransformation) {
    && json.JObject?
    && IsIndex(Lookup(json, "from"), t.fromTopic)
    && IsIndex(Lookup(json, "to"), t.toTopic)
  }

  lemma {:induction false} SetupExact(json: Json, t: TopicToTopicTransformation)
    ensures SetupResult(json) == Success(t) <==> Describes(json, t)
    ensures SetupResult(json) != Failure(TypeErrorEscapesSetup)
  {
    if Contains(json, FROM) && IsUnsigned(json.fields[FROM]) {
      IndexExact(json.fields[FROM].number, t.fromTopic);
    }
    if Contains(json, TO) && IsUnsigned(json.fields[TO]) {
      IndexExact(json.fields[TO].number, t.toTopic);
    }
  }

  /** The level is spliced in at the index, and nothing else happens; without such a level nothing happens. */
  lemma {:induction false} ExecutedExact(t: TopicToTopicTransformation, inputTopic: string, output: Output)
    ensures
      var e, levels := Executed(t, inputTopic, output), LevelsRead(inputTopic);
      && e.output.payload == output.payload
      && (t.fromTopic >= |levels| ==> e == Execution(Failed, output))
      && (t.fromTopic < |levels| ==>
            e.outcome == Completed && Spliced(output.topic, t.toTopic, levels[t.fromTopic], e.output.topic))
  {
    SplitIsLevels(inputTopic);
    if t.fromTopic < |LevelsRead(inputTopic)| {
      InsertSplices(output.topic, t.toTopic, LevelsRead(inputTopic)[t.fromTopic]);
    }
  }
}
