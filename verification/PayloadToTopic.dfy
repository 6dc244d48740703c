/** src/stream_transformer_payload_to_topic.cpp: inserts a payload value into the output topic. */
module PayloadToTopic {
  import opened Wrappers
  import opened Text
  import opened Topics
  import opened JsonModel
  import opened Transformation

  datatype PayloadToTopicTransformation =
    PayloadToTopicTransformation(fromPayload: string, toTopic: nat, keep: bool)

  predicate IsValidSetup(json: Json) {
    && json.JObject?
    && Contains(json, FROM) && json.fields[FROM].JString?
    && Contains(json, TO) && IsUnsigned(json.fields[TO])
    && (Contains(json, KEEP) ==> json.fields[KEEP].JBool?)
  }

  function SetupResult(json: Json): Result<PayloadToTopicTransformation, SetupFailure> {
    if !IsValidSetup(json) then Failure(SetupException)
    else Success(PayloadToTopicTransformation(
                   json.fields[FROM].text,
                   NarrowIndex(json.fields[TO].number),
                   Contains(json, KEEP) && json.fields[KEEP].flag))
  }

  /** The level a payload value becomes, if the key is there and its value has a scalar text. */
  function Segment(lib: Library, t: PayloadToTopicTransformation, inputPayload: Json): Option<string> {
    if Contains(inputPayload, t.fromPayload) then ScalarText(lib, Lookup(inputPayload, t.fromPayload).value)
    else None
  }

  function Executed(lib: Library, t: PayloadToTopicTransformation, inputPayload: Json, output: Output): Execution {
    match Segment(lib, t, inputPayload)
    case None => Execution(Failed, output)
    case Some(segment) =>
      Execution(Completed, Output(
                  InsertLevel(output.topic, t.toTopic, segment),
                  if t.keep then output.payload else Erase(output.payload, t.fromPayload)))
  }

  class StreamTransformerPayloadToTopic {
    var transformation: PayloadToTopicTransformation

    /** Leaves the transformation to setup. */
    constructor () {
    }

    method Setup(json: Json) returns (failure: Option<SetupFailure>)
      modifies this
      ensures failure.None? ==> SetupResult(json) == Success(transformation) && Describes(json, transformation)
      ensures failure.Some? ==> SetupResult(json) == Failure(failure.value) && transformation == old(transformation)
    {
      if !IsValidSetup(json) {
        return Some(SetupException);
      }
      transformation := transformation.(
        fromPayload := json.fields[FROM].text, toTopic := NarrowIndex(json.fields[TO].number));
      if Contains(json, KEEP) {
        transformation := transformation.(keep := json.fields[KEEP].flag);
      } else {
        transformation := transformation.(keep := false);
      }
      failure := None;
      SetupExact(json, transformation);
    }

    method Execute(lib: Library, inputPayload: Json, output: OutputMessage) returns (outcome: Outcome)
      modifies output
      ensures Execution(outcome, output.Value()) == Executed(lib, transformation, inputPayload, old(output.Value()))
    {
      var levels := SplitString(output.topic, "/");
      if !Contains(inputPayload, transformation.fromPayload) {
        return Failed;
      }
      var ok, text := JsonToString(lib, inputPayload.fields[transformation.fromPayload], "");
      if !ok {
        return Failed;
      } else if |levels| <= transformation.toTopic {
        output.topic := output.topic + ("/" + text);
      } else {
        levels := levels[..transformation.toTopic] + [text] + levels[transformation.toTopic..];
        output.topic := JoinStrings(levels, "/");
      }
      assert output.topic == InsertLevel(old(output.topic), transformation.toTopic, text);
      if !transformation.keep && Contains(output.payload, transformation.fromPayload) {
        output.payload := Erase(output.payload, transformation.fromPayload);
      } else if !transformation.keep {
        EraseAbsent(output.payload, transformation.fromPayload);
      }
      outcome := Completed;
    }
  }

  /** The configuration describes the transformation, key by key. */
  predicate Describes(json: Json, t: PayloadToTopicTransformation) {
    && json.JObject?
    && Lookup(json, "from") == Some(JString(t.fromPayload))
    && IsIndex(Lookup(json, "to"), t.toTopic)
    && IsKeep(Lookup(json, "keep"), t.keep)
  }

  lemma {:induction false} SetupExact(json: Json, t: PayloadToTopicTransformation)
    ensures SetupResult(json) == Success(t) <==> Describes(json, t)
    ensures SetupResult(json) != Failure(TypeErrorEscapesSetup)
  {
    if Contains(json, TO) && IsUnsigned(json.fields[TO]) {
      IndexExact(json.fields[TO].number, t.toTopic);
    }
  }

  /** The text of a scalar value is spliced in, and its key erased unless it is kept; other values fail. */
  lemma {:induction false} ExecutedExact(
      lib: Library, t: PayloadToTopicTransformation, inputPayload: Json, output: Output, text: string)
    ensures
      var e, value := Executed(lib, t, inputPayload, output), Lookup(inputPayload, t.fromPayload);
      && (value.None? || value.value.JNull? || value.value.JArray? || value.value.JObject? ==>
            e == Execution(Failed, output))
      && (value.Some? && IsScalarText(lib, value.value, text) ==>
            && e.outcome == Completed
            && Spliced(output.topic, t.toTopic, text, e.output.topic)
            && e.output.payload ==
               (match output.payload
                case JObject(fields) => JObject(if t.keep then fields else fields - {t.fromPayload})
                case other => other))
  {
    var value := Lookup(inputPayload, t.fromPayload);
    if value.Some? && IsScalarText(lib, value.value, text) {
      ScalarTextExact(lib, value.value, text);
      InsertSplices(output.topic, t.toTopic, text);
    }
  }
}
