/** JSON values and the conversions of src/json_utilities.cpp that the stream transformers use. */
module JsonModel {
  import opened Wrappers
  import opened Integers
  import opened Booleans

  /** A floating-point number is only a token here: nothing is said about its value. */
  datatype Float = Float(bits: nat)

  datatype Json =
    | JNull
    | JBool(flag: bool)
    | JInt(number: int)
    | JFloat(float: Float)
    | JString(text: string)
    | JArray(items: seq<Json>)
    | JObject(fields: map<string, Json>)

  /**
   Library code the model does not look into: the text of floats, arrays and objects, reading floats from a
   text, whether a stream has met its end after the name of a boolean, and the byte a float narrows to.
   */
  datatype Library = Library(
    dump: Json -> string,
    isFloat: string -> bool,
    readFloat: string -> Float,
    isDouble: string -> bool,
    readDouble: string -> Float,
    endMet: bool,
    floatByte: Float -> char)

  /** dump_json: the JSON text of a value. */
  function Dump(lib: Library, json: Json): string {
    match json
    case JNull => "null"
    case JBool(flag) => if flag then "true" else "false"
    case JInt(number) => PrintInt(number)
    case _ => lib.dump(json)
  }

  /**
   json_to_string: strings are taken over; a boolean or a number is assigned to the string as one
   character, so only its low byte survives; other kinds are refused.
   */
  function ScalarText(lib: Library, json: Json): Option<string> {
    match json
    case JString(text) => Some(text)
    case JBool(flag) => Some([if flag then 1 as char else 0 as char])
    case JInt(number) => Some([(number % 256) as char])
    case JFloat(float) => Some([lib.floatByte(float)])
    case _ => None
  }

  /** json_to_string with its reference parameter: a refused value leaves the text as it was. */
  method JsonToString(lib: Library, json: Json, text: string) returns (ok: bool, result: string)
    ensures ok <==> !(json.JNull? || json.JArray? || json.JObject?)
    ensures ok ==> Some(result) == ScalarText(lib, json) && IsScalarText(lib, json, result)
    ensures !ok ==> result == text
  {
    ok := true;
    result := text;
    if json.JString? {
      result := json.text;
    } else if json.JBool? {
      result := [if json.flag then 1 as char else 0 as char];
    } else if json.JInt? {
      result := [(json.number % 256) as char];
    } else if json.JFloat? {
      result := [lib.floatByte(json.float)];
    } else {
      ok := false;
    }
  }

  /** The text of a scalar value: a string is its own, an integer and a boolean become their low byte. */
  predicate IsScalarText(lib: Library, json: Json, text: string) {
    match json
    case JString(s) => text == s
    case JBool(flag) => |text| == 1 && text[0] as int == (if flag then 1 else 0)
    case JInt(number) => |text| == 1 && text[0] as int < 256 && (number - text[0] as int) % 256 == 0
    case JFloat(float) => text == [lib.floatByte(float)]
    case _ => false
  }

  lemma {:induction false} ScalarTextExact(lib: Library, json: Json, text: string)
    ensures ScalarText(lib, json) == Some(text) <==> IsScalarText(lib, json, text)
  {
    if |text| == 1 {
      assert text == [text[0]];
    }
  }

  // ---- Keys of a payload ----

  /** What operator[] with a key accepts: an object, or a null that becomes one. */
  predicate HoldsKeys(json: Json) {
    json.JObject? || json.JNull?
  }

  function Lookup(json: Json, key: string): Option<Json> {
    if json.JObject? && key in json.fields then Some(json.fields[key]) else None
  }

  predicate Contains(json: Json, key: string) {
    Lookup(json, key).Some?
  }

  /** operator[] as the target of an assignment; other kinds throw a type error. */
  function Put(json: Json, key: string, value: Json): Option<Json> {
    match json
    case JObject(fields) => Some(JObject(fields[key := value]))
    case JNull => Some(JObject(map[key := value]))
    case _ => None
  }

  function Erase(json: Json, key: string): Json {
    if json.JObject? then JObject(json.fields - {key}) else json
  }

  lemma {:induction false} EraseAbsent(json: Json, key: string)
    requires !Contains(json, key)
    ensures Erase(json, key) == json
  {
    if json.JObject? {
      assert json.fields - {key} == json.fields;
    }
  }

  // ---- Casts ----

  datatype JsonType = Number | String | Boolean | Object | Array | Null | JsonTypeUnknown

  /** The text a cast starts from. */
  function CastText(lib: Library, json: Json): string {
    if json.JString? then json.text else Dump(lib, json)
  }

  function NumberFrom(lib: Library, text: string): Option<Json> {
    if IsInt(text) then Some(JInt(ReadBaseZero(text)))
    else if lib.isFloat(text) then Some(JFloat(lib.readFloat(text)))
    else if lib.isDouble(text) then Some(JFloat(lib.readDouble(text)))
    else None
  }

  /** The value a text is cast to, if it can be. */
  function CastTo(lib: Library, asType: JsonType, text: string): Option<Json> {
    match asType
    case Number => NumberFrom(lib, text)
    case String => Some(JString(text))
    case Boolean => if IsBool(text, lib.endMet) then Some(JBool(ReadBool(text))) else None
    case _ => None
  }

  /** The value is what the text reads as under the type: only integers as JInt, and never true. */
  predicate ReadsAs(lib: Library, asType: JsonType, text: string, value: Json) {
    match value
    case JString(s) => asType.String? && s == text
    case JInt(n) => asType.Number? && IsInt(text) && n == ReadBaseZero(text)
    case JFloat(x) =>
      && asType.Number? && !IsInt(text)
      && (if lib.isFloat(text) then x == lib.readFloat(text) else lib.isDouble(text) && x == lib.readDouble(text))
    case JBool(flag) => asType.Boolean? && IsBool(text, lib.endMet) && !flag
    case _ => false
  }

  lemma {:induction false} CastExact(lib: Library, asType: JsonType, text: string, value: Json)
    ensures CastTo(lib, asType, text) == Some(value) <==> ReadsAs(lib, asType, text, value)
  {
    if IsBool(text, lib.endMet) {
      AcceptedBoolIsFalse(text, lib.endMet);
    }
  }

  /** No value can be read from the text under the type. */
  predicate Unreadable(lib: Library, asType: JsonType, text: string) {
    match asType
    case Number => !IsInt(text) && !lib.isFloat(text) && !lib.isDouble(text)
    case String => false
    case Boolean => !IsBool(text, lib.endMet)
    case _ => true
  }

  lemma {:induction false} UnreadableExact(lib: Library, asType: JsonType, text: string)
    ensures Unreadable(lib, asType, text) <==> forall value :: !ReadsAs(lib, asType, text, value)
  {
    if !Unreadable(lib, asType, text) {
      var value := CastTo(lib, asType, text).value;
      CastExact(lib, asType, text, value);
    }
  }

  /** The text a value is cast from: a string's own, and the JSON text of any other. */
  lemma {:induction false} CastTextExact(lib: Library, json: Json)
    ensures
      CastText(lib, json) ==
      match json
      case JString(text) => text
      case JNull => "null"
      case JBool(flag) => if flag then "true" else "false"
      case JInt(number) => PrintInt(number)
      case _ => lib.dump(json)
  {
  }

  /** A boolean cast to boolean becomes false, or is refused if the stream does not meet its end. */
  lemma {:induction false} BooleanCastLoses(lib: Library, flag: bool)
    ensures CastTo(lib, Boolean, CastText(lib, JBool(flag))) == if lib.endMet then Some(JBool(false)) else None
  {
    PrintedBools(lib.endMet);
    CastExact(lib, Boolean, CastText(lib, JBool(flag)), JBool(false));
  }

  /**
   A number cast gives a JSON integer back unchanged exactly within 32 bits, whether it is cast directly or
   by way of a string.
   */
  lemma {:induction false} IntegerCastRoundTrip(lib: Library, n: int)
    ensures CastTo(lib, Number, CastText(lib, JInt(n))) == Some(JInt(n)) <==> -0x8000_0000 <= n <= 0x7fff_ffff
    ensures CastTo(lib, String, CastText(lib, JInt(n))).Some?
    ensures
      var asString := CastTo(lib, String, CastText(lib, JInt(n))).value;
      CastTo(lib, Number, CastText(lib, asString)) == Some(JInt(n)) <==> -0x8000_0000 <= n <= 0x7fff_ffff
  {
    var text := CastText(lib, JInt(n));
    assert text == PrintInt(n);
    PrintedIntReadsBack(n);
    CastExact(lib, Number, text, JInt(n));
    assert CastTo(lib, String, text) == Some(JString(text)) && CastText(lib, JString(text)) == text;
  }
}
