/** src/stream_transformer_payload_to_payload.cpp: copies or moves a payload value, optionally cast. */
module PayloadToPayload {
  import opened Wrappers
  import opened Integers
  import opened Booleans
  import opened JsonModel
  import opened Transformation

  datatype PayloadToPayloadTransformation =
    PayloadToPayloadTransformation(fromPayload: string, toPayload: string, asType: JsonType, keep: bool)

  /** "keep" is looked at only when there is no "as". */
  predicate IsValidSetup(json: Json) {
    && json.JObject?
    && Contains(json, FROM) && json.fields[FROM].JString?
    && Contains(json, TO) && json.fields[TO].JString?
    && (if Contains(json, AS) then json.fields[AS].JString? && TypeNamed(json.fields[AS].text).Some?
        else Contains(json, KEEP) ==> json.fields[KEEP].JBool?)
  }

  function SetupResult(json: Json): Result<PayloadToPayloadTransformation, SetupFailure> {
    if !IsValidSetup(json) then Failure(SetupException)
    else if Contains(json, KEEP) && !json.fields[KEEP].JBool? then Failure(TypeErrorEscapesSetup)
    else Success(PayloadToPayloadTransformation(
                   json.fields[FROM].text,
                   json.fields[TO].text,
                   if Contains(json, AS) then TypeNamed(json.fields[AS].text).value else JsonTypeUnknown,
                   Contains(json, KEEP) && json.fields[KEEP].flag))
  }

  /** The value to store: the original, or its cast. */
  function Converted(lib: Library, asType: JsonType, value: Json): Option<Json> {
    if asType.JsonTypeUnknown? then Some(value) else CastTo(lib, asType, CastText(lib, value))
  }

  function Executed(lib: Library, t: PayloadToPayloadTransformation, inputPayload: Json, output: Output): Execution {
    match Lookup(inputPayload, t.fromPayload)
    case None => Execution(Aborted, output)
    case Some(value) =>
      match Converted(lib, t.asType, value)
      case None => Execution(Failed, output)
      case Some(converted) =>
        match Put(output.payload, t.toPayload, converted)
        case None => Execution(Aborted, output)
        case Some(payload) =>
          Execution(Completed, output.(payload := if t.keep then payload else Erase(payload, t.fromPayload)))
  }

  class StreamTransformerPayloadToPayload {
    var transformation: PayloadToPayloadTransformation

    /** Leaves the transformation to setup. */
    constructor () {
    }

    method Setup(json: Json) returns (failure: Option<SetupFailure>)
      modifies this
      ensures failure.None? ==> SetupResult(json) == Success(transformation) && Describes(json, transformation)
      ensures failure.Some? ==> SetupResult(json) == Failure(failure.value)
      ensures failure == Some(SetupException) ==> transformation == old(transformation)
      // The type error comes after all fields but keep have been assigned
      ensures failure == Some(TypeErrorEscapesSetup) ==>
                && transformation.fromPayload == json.fields[FROM].text
                && transformation.toPayload == json.fields[TO].text
                && Some(transformation.asType) == TypeNamed(json.fields[AS].text)
                && transformation.keep == old(transformation.keep)
    {
      if !IsValidSetup(json) {
        return Some(SetupException);
      }
      transformation := transformation.(fromPayload := json.fields[FROM].text, toPayload := json.fields[TO].text);
      if Contains(json, AS) {
        var name := json.fields[AS].text;
        if name == "number" {
          transformation := transformation.(asType := Number);
        } else if name == "string" {
          transformation := transformation.(asType := String);
        } else {
          transformation := transformation.(asType := Boolean);
        }
      } else {
        transformation := transformation.(asType := JsonTypeUnknown);
      }
      if Contains(json, KEEP) {
        if !json.fields[KEEP].JBool? {
          return Some(TypeErrorEscapesSetup);
        }
        transformation := transformation.(keep := json.fields[KEEP].flag);
      } else {
        transformation := transformation.(keep := false);
      }
      failure := None;
      SetupExact(json, transformation);
    }

    method Execute(lib: Library, inputPayload: Json, output: OutputMessage) returns (outcome: Outcome)
      modifies output
      ensures Execution(outcome, output.Value()) == Executed(lib, transformation, inputPayload, old(output.Value()))
    {
      if !Contains(inputPayload, transformation.fromPayload) {
        return Aborted;  // at() throws
      }
      var value := inputPayload.fields[transformation.fromPayload];
      var ok;
      if transformation.asType == JsonTypeUnknown {
        ok := output.Assign(transformation.toPayload, value);
      } else {
        var text := "";
        if value.JString? {
          text := value.text;
        } else {
          text := Dump(lib, value);
        }
        match transformation.asType {
          case Number =>
            if IsInt(text) {
              ok := output.Assign(transformation.toPayload, JInt(ReadBaseZero(text)));
            } else if lib.isFloat(text) {
              ok := output.Assign(transformation.toPayload, JFloat(lib.readFloat(text)));
            } else if lib.isDouble(text) {
              ok := output.Assign(transformation.toPayload, JFloat(lib.readDouble(text)));
            } else {
              return Failed;
            }
          case String =>
            ok := output.Assign(transformation.toPayload, JString(text));
          case Boolean =>
            if IsBool(text, lib.endMet) {
              ok := output.Assign(transformation.toPayload, JBool(ReadBool(text)));
            } else {
              return Failed;
            }
          case _ =>
            return Failed;
        }
      }
      if !ok {
        return Aborted;
      }
      if !transformation.keep {
        output.payload := Erase(output.payload, transformation.fromPayload);
      }
      outcome := Completed;
    }
  }

  /** The configuration describes the transformation, key by key. */
  predicate Describes(json: Json, t: PayloadToPayloadTransformation) {
    && json.JObject?
    && Lookup(json, "from") == Some(JString(t.fromPayload))
    && Lookup(json, "to") == Some(JString(t.toPayload))
    && IsType(Lookup(json, "as"), t.asType)
    && IsKeep(Lookup(json, "keep"), t.keep)
  }

  lemma {:induction false} SetupExact(json: Json, t: PayloadToPayloadTransformation)
    ensures SetupResult(json) == Success(t) <==> Describes(json, t)
  {
  }

  /** "as" is valid, and "keep" is there without being a boolean. */
  predicate EscapesSetup(json: Json) {
    && Lookup(json, "from").Some? && Lookup(json, "from").value.JString?
    && Lookup(json, "to").Some? && Lookup(json, "to").value.JString?
    && Lookup(json, "as").Some? && Lookup(json, "as").value.JString?
    && Lookup(json, "as").value.text in {"number", "string", "boolean"}
    && Lookup(json, "keep").Some? && !Lookup(json, "keep").value.JBool?
  }

  lemma {:induction false} EscapingSetupExact(json: Json)
    ensures SetupResult(json) == Failure(TypeErrorEscapesSetup) <==> EscapesSetup(json)
  {
  }

  /** Such a configuration: "keep" given as a text. */
  lemma {:induction false} EscapingSetup()
    ensures
      var json := JObject(map["from" := JString("a"), "to" := JString("b"), "as" := JString("string"),
                              "keep" := JString("yes")]);
      SetupResult(json) == Failure(TypeErrorEscapesSetup)
  {
  }

  /** What a value becomes: without a type it stays as it is, else its text is read. */
  predicate ValueAs(lib: Library, asType: JsonType, original: Json, value: Json) {
    if asType.JsonTypeUnknown? then value == original else ReadsAs(lib, asType, CastText(lib, original), value)
  }

  /** The value is stored under one key, then the other is erased; a payload without keys aborts. */
  predicate Moves(e: Execution, before: Output, from: string, to: string, value: Json) {
    match before.payload
    case JObject(fields) => e == Execution(Completed, before.(payload := JObject(fields[to := value] - {from})))
    case JNull => e == Execution(Completed, before.(payload := JObject(map[to := value] - {from})))
    case _ => e == Execution(Aborted, before)
  }

  /** A missing key aborts, a value that cannot be read fails, and any other is copied or moved. */
  lemma {:induction false} ExecutedExact(
      lib: Library, t: PayloadToPayloadTransformation, inputPayload: Json, output: Output, value: Json)
    ensures
      var e, original := Executed(lib, t, inputPayload, output), Lookup(inputPayload, t.fromPayload);
      && (original.None? ==> e == Execution(Aborted, output))
      && (original.Some? ==>
            && (ValueAs(lib, t.asType, original.value, value) ==>
                  if t.keep then Stores(e, output, t.toPayload, value)
                  else Moves(e, output, t.fromPayload, t.toPayload, value))
            && (!t.asType.JsonTypeUnknown? && Unreadable(lib, t.asType, CastText(lib, original.value)) ==>
                  e == Execution(Failed, output)))
  {
    var original := Lookup(inputPayload, t.fromPayload);
    if original.Some? {
      CastExact(lib, t.asType, CastText(lib, original.value), value);
    }
  }

  /** Without a type, the key copied to holds the very value of the input, unless it is the key to be erased. */
  lemma {:induction false} CopiesTheValue(
      lib: Library, t: PayloadToPayloadTransformation, inputPayload: Json, output: Output)
    requires t.asType.JsonTypeUnknown? && (t.keep || t.fromPayload != t.toPayload)
    requires Executed(lib, t, inputPayload, output).outcome.Completed?
    ensures
      Lookup(Executed(lib, t, inputPayload, output).output.payload, t.toPayload) == Lookup(inputPayload, t.fromPayload)
  {
  }
}
