/** What the four stream transformers share: the message they edit, their outcomes and their setup keys. */
module Transformation {
  import opened Wrappers
  import opened Integers
  import opened JsonModel

  const FROM: string := "from"
  const TO: string := "to"
  const AS: string := "as"
  const KEEP: string := "keep"

  /** Output topic and payload, which every transformer of a route edits in turn. */
  datatype Output = Output(topic: string, payload: Json)

  /** Failed is the exception the transform thread catches; Aborted any other, which ends the process. */
  datatype Outcome = Completed | Failed | Aborted

  datatype Execution = Execution(outcome: Outcome, output: Output)

  /**
   SetupException is caught while routes are read. TypeErrorEscapesSetup passes that handler and retrieve_routes
   by, and ends in the general one of main, which logs it and returns EXIT_FAILURE (src/main.cpp:127-129).
   */
  datatype SetupFailure = SetupException | TypeErrorEscapesSetup

  /** The two reference parameters of execute. */
  class OutputMessage {
    var topic: string
    var payload: Json

    constructor (topic: string, payload: Json)
      ensures Value() == Output(topic, payload)
    {
      this.topic := topic;
      this.payload := payload;
    }

    ghost function Value(): Output
      reads this
    {
      Output(topic, payload)
    }

    /** payload[key] = value; a payload that cannot hold keys throws. */
    method Assign(key: string, value: Json) returns (ok: bool)
      modifies this`payload
      ensures ok == Put(old(payload), key, value).Some?
      ensures payload == if ok then Put(old(payload), key, value).value else old(payload)
    {
      var written := Put(payload, key, value);
      ok := written.Some?;
      if ok {
        payload := written.value;
      }
    }
  }

  /** is_number_unsigned: an integer parsed without a sign. */
  predicate IsUnsigned(json: Json) {
    json.JInt? && json.number >= 0
  }

  /** An unsigned JSON number read through an int into an unsigned long: its low 32 bits, sign-extended. */
  function NarrowIndex(n: nat): nat {
    var low := n % 0x1_0000_0000;
    if low <= INT_MAX then low else low + 0xffff_ffff_0000_0000
  }

  lemma {:induction false} NarrowIndexExact(n: nat)
    requires n < 0x1_0000_0000_0000_0000
    ensures NarrowIndex(n) == n <==> n <= 0x7fff_ffff || n >= 0xffff_ffff_8000_0000
  {
  }

  // ---- What a configuration says, key by key ----

  /** An unsigned number that agrees with the index in its low 32 bits, the index being an int made unsigned. */
  predicate IsIndex(value: Option<Json>, index: nat) {
    && value.Some? && value.value.JInt? && value.value.number >= 0
    && index % 0x1_0000_0000 == value.value.number % 0x1_0000_0000
    && (index < 0x8000_0000 || 0xffff_ffff_8000_0000 <= index < 0x1_0000_0000_0000_0000)
  }

  predicate IsType(value: Option<Json>, asType: JsonType) {
    match asType
    case JsonTypeUnknown => value == None
    case Number => value == Some(JString("number"))
    case String => value == Some(JString("string"))
    case Boolean => value == Some(JString("boolean"))
    case _ => false
  }

  /** What is not said to be kept is erased. */
  predicate IsKeep(value: Option<Json>, keep: bool) {
    value == Some(JBool(keep)) || (value == None && !keep)
  }

  lemma {:induction false} IndexExact(n: nat, index: nat)
    ensures NarrowIndex(n) == index <==> IsIndex(Some(JInt(n)), index)
  {
  }

  // ---- What an execution does to the payload ----

  /** The value is stored under the key and nothing else has changed; a payload without keys aborts. */
  predicate Stores(e: Execution, before: Output, key: string, value: Json) {
    match before.payload
    case JObject(fields) => e == Execution(Completed, before.(payload := JObject(fields[key := value])))
    case JNull => e == Execution(Completed, before.(payload := JObject(map[key := value])))
    case _ => e == Execution(Aborted, before)
  }

  function TypeNamed(name: string): Option<JsonType> {
    if name == "number" then Some(Number)
    else if name == "string" then Some(String)
    else if name == "boolean" then Some(Boolean)
    else None
  }
}
