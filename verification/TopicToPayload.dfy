/** src/stream_transformer_topic_to_payload.cpp: stores a level of the input topic under a payload key. */
module TopicToPayload {
  import opened Wrappers
  import opened Integers
  import opened Booleans
  import opened Text
  import opened Topics
  import opened JsonModel
  import opened Transformation

  datatype TopicToPayloadTransformation =
    TopicToPayloadTransformation(fromTopic: nat, toPayload: string, asType: JsonType)

  predicate IsValidSetup(json: Json) {
    && json.JObject?
    && Contains(json, FROM) && IsUnsigned(json.fields[FROM])
    && Contains(json, TO) && json.fields[TO].JString?
    && (Contains(json, AS) ==> json.fields[AS].JString?)
  }

  function SetupResult(json: Json): Result<TopicToPayloadTransformation, SetupFailure> {
    if !IsValidSetup(json) then Failure(SetupException)
    else
      var asType := if Contains(json, AS) then TypeNamed(json.fields[AS].text) else Some(JsonTypeUnknown);
      if asType.None? then Failure(SetupException)
      else Success(TopicToPayloadTransformation(
                     NarrowIndex(json.fields[FROM].number), json.fields[TO].text, asType.value))
  }

  /** What becomes of a level: stored, refused with an exception, or (a non-boolean) silently left out. */
  datatype LevelCast = Store(value: Json) | Refuse | LeaveOut

  function CastLevel(lib: Library, asType: JsonType, level: string): LevelCast {
    match asType
    case JsonTypeUnknown => Store(JString(level))
    case Boolean => if IsBool(level, lib.endMet) then Store(JBool(ReadBool(level))) else LeaveOut
    case _ =>
      match CastTo(lib, asType, level)
      case Some(value) => Store(value)
      case None => Refuse
  }

  function Executed(lib: Library, t: TopicToPayloadTransformation, inputTopic: string, output: Output): Execution {
    var levels := Split(inputTopic, "/");
    if |levels| <= t.fromTopic then Execution(Failed, output)
    else
      match CastLevel(lib, t.asType, levels[t.fromTopic])
      case Refuse => Execution(Failed, output)
      case LeaveOut => Execution(Completed, output)
      case Store(value) =>
        match Put(output.payload, t.toPayload, value)
        case None => Execution(Aborted, output)
        case Some(payload) => Execution(Completed, output.(payload := payload))
  }

  class StreamTransformerTopicToPayload {
    var transformation: TopicToPayloadTransformation

    /** Leaves the transformation to setup. */
    constructor () {
    }

    method Setup(json: Json) returns (failure: Option<SetupFailure>)
      modifies this
      ensures failure.None? ==> SetupResult(json) == Success(transformation) && Describes(json, transformation)
      ensures failure.Some? ==> SetupResult(json) == Failure(failure.value) && transformation == old(transformation)
    {
      if !IsValidSetup(json) {
        return Some(SetupException);
      }
      var asType := JsonTypeUnknown;
      if Contains(json, AS) {
        var name := json.fields[AS].text;
        if name == "number" {
          asType := Number;
        } else if name == "string" {
          asType := String;
        } else if name == "boolean" {
          asType := Boolean;
        } else {
          return Some(SetupException);
        }
      }
      transformation := TopicToPayloadTransformation(
        NarrowIndex(json.fields[FROM].number), json.fields[TO].text, asType);
      failure := None;
      SetupExact(json, transformation);
    }

    method Execute(lib: Library, inputTopic: string, output: OutputMessage) returns (outcome: Outcome)
      modifies output
      ensures Execution(outcome, output.Value()) == Executed(lib, transformation, inputTopic, old(output.Value()))
    {
      var levels := SplitString(inputTopic, "/");
      if |levels| <= transformation.fromTopic {
        return Failed;
      }
      var level := levels[transformation.fromTopic];
      ghost var cast, before := CastLevel(lib, transformation.asType, level), output.Value();
      var ok := true;
      match transformation.asType {
        case JsonTypeUnknown =>
          ok := output.Assign(transformation.toPayload, JString(level));
        case Number =>
          if IsInt(level) {
            ok := output.Assign(transformation.toPayload, JInt(ReadBaseZero(level)));
          } else if lib.isFloat(level) {
            ok := output.Assign(transformation.toPayload, JFloat(lib.readFloat(level)));
          } else if lib.isDouble(level) {
            ok := output.Assign(transformation.toPayload, JFloat(lib.readDouble(level)));
          } else {
            return Failed;
          }
        case String =>
          ok := output.Assign(transformation.toPayload, JString(level));
        case Boolean =>
          if IsBool(level, lib.endMet) {
            ok := output.Assign(transformation.toPayload, JBool(ReadBool(level)));
          }
        case _ =>
          return Failed;
      }
      assert cast.Store? ==> ok == Put(before.payload, transformation.toPayload, cast.value).Some?;
      outcome := if ok then Completed else Aborted;
    }
  }

  /** The configuration describes the transformation, key by key. */
  predicate Describes(json: Json, t: TopicToPayloadTransformation) {
    && json.JObject?
    && IsIndex(Lookup(json, "from"), t.fromTopic)
    && Lookup(json, "to") == Some(JString(t.toPayload))
    && IsType(Lookup(json, "as"), t.asType)
  }

  lemma {:induction false} SetupExact(json: Json, t: TopicToPayloadTransformation)
    ensures SetupResult(json) == Success(t) <==> Describes(json, t)
    ensures SetupResult(json) != Failure(TypeErrorEscapesSetup)
  {
    if Contains(json, FROM) && IsUnsigned(json.fields[FROM]) {
      IndexExact(json.fields[FROM].number, t.fromTopic);
    }
  }

  /** What a level becomes: without a type its text, else what it reads as. */
  predicate LevelAs(lib: Library, asType: JsonType, level: string, value: Json) {
    if asType.JsonTypeUnknown? then value == JString(level) else ReadsAs(lib, asType, level, value)
  }

  /**
   A level that reads as a value is stored as that. One that cannot be read fails the transformer, except that a
   text that is no boolean is passed over.
   */
  lemma {:induction false} ExecutedExact(
      lib: Library, t: TopicToPayloadTransformation, inputTopic: string, output: Output, value: Json)
    ensures
      var e, levels := Executed(lib, t, inputTopic, output), LevelsRead(inputTopic);
      && (t.fromTopic >= |levels| ==> e == Execution(Failed, output))
      && (t.fromTopic < |levels| ==>
            var level := levels[t.fromTopic];
            && (LevelAs(lib, t.asType, level, value) ==> Stores(e, output, t.toPayload, value))
            && (!t.asType.JsonTypeUnknown? && Unreadable(lib, t.asType, level) ==>
                  e == Execution(if t.asType.Boolean? then Completed else Failed, output)))
  {
    SplitIsLevels(inputTopic);
    if t.fromTopic < |LevelsRead(inputTopic)| {
      CastExact(lib, t.asType, LevelsRead(inputTopic)[t.fromTopic], value);
    }
  }

  /** Without a type, or as a string, the key holds the very text of the level. */
  lemma {:induction false} StoresTheText(
      lib: Library, t: TopicToPayloadTransformation, inputTopic: string, output: Output)
    requires t.asType.JsonTypeUnknown? || t.asType.String?
    requires t.fromTopic < |LevelsRead(inputTopic)| && HoldsKeys(output.payload)
    ensures
      var e := Executed(lib, t, inputTopic, output);
      && e.outcome == Completed
      && Lookup(e.output.payload, t.toPayload) == Some(JString(LevelsRead(inputTopic)[t.fromTopic]))
  {
    SplitIsLevels(inputTopic);
  }
}
