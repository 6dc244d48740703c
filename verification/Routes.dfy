/** retrieve_routes of src/traffic_warden.cpp: reading the configured routes into a table by input topic. */
module Routes {
  import opened Wrappers
  import opened Integers
  import opened Topics
  import opened JsonModel
  import opened Transformation
  import opened StreamTransformers

  const NAME: string := "name"
  const INPUT_TOPIC: string := "inputTopic"
  const OUTPUT_TOPIC: string := "outputTopic"
  const STREAM_TRANSFORMERS: string := "streamTransformers"
  const TYPE: string := "type"

  datatype RouteProperties =
    RouteProperties(name: string, outputTopic: string, streamTransformers: seq<StreamTransformer>)

  /** One entry of the configured list. */
  datatype ConfiguredRoute = ConfiguredRoute(inputTopic: string, properties: RouteProperties)

  type RouteTable = map<string, seq<RouteProperties>>

  /** InitializationException is what retrieve_routes throws itself; a type error passes through it to main. */
  datatype RouteFailure = InitializationException | TypeError

  // ---- One transformer ----

  /** What the catch around setup makes of its outcome. */
  function Caught(failure: SetupFailure): RouteFailure {
    match failure
    case SetupException => InitializationException
    case TypeErrorEscapesSetup => TypeError
  }

  function AfterSetup<T>(setup: Result<T, SetupFailure>, wrap: T -> StreamTransformer)
    : Result<StreamTransformer, RouteFailure>
  {
    match setup
    case Success(t) => Success(wrap(t))
    case Failure(failure) => Failure(Caught(failure))
  }

  function ParseTransformer(json: Json): Result<StreamTransformer, RouteFailure> {
    if !(Contains(json, TYPE) && json.fields[TYPE].JString?) then Failure(InitializationException)
    else
      var kind := json.fields[TYPE].text;
      if kind == "topicToPayload" then AfterSetup(T2P.SetupResult(json), t => TopicToPayload(t))
      else if kind == "topicToTopic" then AfterSetup(T2T.SetupResult(json), t => TopicToTopic(t))
      else if kind == "payloadToTopic" then AfterSetup(P2T.SetupResult(json), t => PayloadToTopic(t))
      else if kind == "payloadToPayload" then AfterSetup(P2P.SetupResult(json), t => PayloadToPayload(t))
      else Failure(InitializationException)
  }

  method RetrieveTransformer(json: Json) returns (r: Result<StreamTransformer, RouteFailure>)
    ensures r == ParseTransformer(json)
    ensures r.Success? <==> AcceptedTransformer(json)
    ensures r.Success? ==> DescribesTransformer(json, r.value)
    ensures r == Failure(TypeError) <==> TransformerEscapes(json)
  {
    TransformerAccepted(json);
    if !Contains(json, TYPE) || !json.fields[TYPE].JString? {
      return Failure(InitializationException);
    }
    var kind := json.fields[TYPE].text;
    if kind == "topicToPayload" {
      var transformer := new T2P.StreamTransformerTopicToPayload();
      var failure := transformer.Setup(json);
      r := if failure.Some? then Failure(Caught(failure.value))
           else Success(TopicToPayload(transformer.transformation));
    } else if kind == "topicToTopic" {
      var transformer := new T2T.StreamTransformerTopicToTopic();
      var failure := transformer.Setup(json);
      r := if failure.Some? then Failure(Caught(failure.value))
           else Success(TopicToTopic(transformer.transformation));
    } else if kind == "payloadToTopic" {
      var transformer := new P2T.StreamTransformerPayloadToTopic();
      var failure := transformer.Setup(json);
      r := if failure.Some? then Failure(Caught(failure.value))
           else Success(PayloadToTopic(transformer.transformation));
    } else if kind == "payloadToPayload" {
      var transformer := new P2P.StreamTransformerPayloadToPayload();
      var failure := transformer.Setup(json);
      r := if failure.Some? then Failure(Caught(failure.value))
           else Success(PayloadToPayload(transformer.transformation));
    } else {
      r := Failure(InitializationException);
    }
  }

  // ---- Lists, where the first failure wins ----

  function Prepended<T>(front: seq<T>, rest: Result<seq<T>, RouteFailure>): Result<seq<T>, RouteFailure> {
    match rest
    case Failure(failure) => Failure(failure)
    case Success(back) => Success(front + back)
  }

  lemma {:induction false} PrependedNothing<T>(rest: Result<seq<T>, RouteFailure>)
    ensures Prepended([], rest) == rest
  {
    if rest.Success? {
      assert [] + rest.value == rest.value;
    }
  }

  lemma {:induction false} PrependedTwice<T>(front: seq<T>, next: T, rest: Result<seq<T>, RouteFailure>)
    ensures Prepended(front, Prepended([next], rest)) == Prepended(front + [next], rest)
  {
    if rest.Success? {
      assert front + ([next] + rest.value) == front + [next] + rest.value;
    }
  }

  function ParseTransformers(items: seq<Json>): Result<seq<StreamTransformer>, RouteFailure> {
    if items == [] then Success([])
    else
      match ParseTransformer(items[0])
      case Failure(failure) => Failure(failure)
      case Success(t) => Prepended([t], ParseTransformers(items[1..]))
  }

  method RetrieveTransformers(items: seq<Json>) returns (r: Result<seq<StreamTransformer>, RouteFailure>)
    ensures r == ParseTransformers(items)
  {
    var transformers: seq<StreamTransformer> := [];
    assert items[0..] == items;
    PrependedNothing(ParseTransformers(items));
    for i := 0 to |items|
      invariant ParseTransformers(items) == Prepended(transformers, ParseTransformers(items[i..]))
    {
      var next := RetrieveTransformer(items[i]);
      assert items[i..][1..] == items[i + 1..];
      if next.Failure? {
        return Failure(next.error);
      }
      PrependedTwice(transformers, next.value, ParseTransformers(items[i + 1..]));
      transformers := transformers + [next.value];
    }
    assert items[|items|..] == [] && transformers + [] == transformers;
    r := Success(transformers);
  }

  // ---- Routes ----

  predicate IsValidRoute(json: Json) {
    && Contains(json, NAME) && json.fields[NAME].JString?
    && Contains(json, INPUT_TOPIC) && json.fields[INPUT_TOPIC].JString?
    && IsValidTopic(json.fields[INPUT_TOPIC].text)
    && Contains(json, OUTPUT_TOPIC) && json.fields[OUTPUT_TOPIC].JString?
    && IsValidTopic(json.fields[OUTPUT_TOPIC].text)
  }

  function ParseRoute(json: Json): Result<ConfiguredRoute, RouteFailure> {
    if !IsValidRoute(json) then Failure(InitializationException)
    else
      var transformers :=
        match Lookup(json, STREAM_TRANSFORMERS)
        case None => Success([])
        case Some(JArray(items)) => ParseTransformers(items)
        case _ => Failure(InitializationException);
      match transformers
      case Failure(failure) => Failure(failure)
      case Success(ts) =>
        Success(ConfiguredRoute(
                  json.fields[INPUT_TOPIC].text,
                  RouteProperties(json.fields[NAME].text, json.fields[OUTPUT_TOPIC].text, ts)))
  }

  function ParseRoutes(items: seq<Json>): Result<seq<ConfiguredRoute>, RouteFailure> {
    if items == [] then Success([])
    else
      match ParseRoute(items[0])
      case Failure(failure) => Failure(failure)
      case Success(route) => Prepended([route], ParseRoutes(items[1..]))
  }

  /** The configured routes, flat and in order. */
  function ConfiguredRoutes(json: Json): Result<seq<ConfiguredRoute>, RouteFailure> {
    if json.JArray? then ParseRoutes(json.items) else Failure(InitializationException)
  }

  function AddRoute(table: RouteTable, route: ConfiguredRoute): RouteTable {
    var before := if route.inputTopic in table then table[route.inputTopic] else [];
    table[route.inputTopic := before + [route.properties]]
  }

  function Index(routes: seq<ConfiguredRoute>): RouteTable {
    if routes == [] then map[] else AddRoute(Index(routes[..|routes| - 1]), routes[|routes| - 1])
  }

  /** The body of the loop over routes, up to the insertion into the table. */
  method RetrieveRoute(item: Json) returns (r: Result<ConfiguredRoute, RouteFailure>)
    ensures r == ParseRoute(item)
    ensures r.Success? <==> AcceptedEntry(item)
    ensures r.Success? ==> DescribesRoute(item, r.value)
    ensures r == Failure(TypeError) <==> EntryEscapes(item)
  {
    RouteAccepted(item);
    if !IsValidRoute(item) {
      return Failure(InitializationException);
    }
    var properties := RouteProperties(item.fields[NAME].text, item.fields[OUTPUT_TOPIC].text, []);
    if Contains(item, STREAM_TRANSFORMERS) {
      if !item.fields[STREAM_TRANSFORMERS].JArray? {
        return Failure(InitializationException);
      }
      var transformers := RetrieveTransformers(item.fields[STREAM_TRANSFORMERS].items);
      if transformers.Failure? {
        return Failure(transformers.error);
      }
      properties := properties.(streamTransformers := transformers.value);
    }
    r := Success(ConfiguredRoute(item.fields[INPUT_TOPIC].text, properties));
  }

  method RetrieveRoutes(json: Json) returns (r: Result<RouteTable, RouteFailure>)
    ensures r.Failure? <==> ConfiguredRoutes(json).Failure?
    ensures r.Failure? ==> r.error == ConfiguredRoutes(json).error
    ensures r.Success? ==> Refines(r.value, ConfiguredRoutes(json).value)
  {
    if !json.JArray? {
      return Failure(InitializationException);
    }
    var table: RouteTable := map[];
    ghost var routes: seq<ConfiguredRoute> := [];
    assert json.items[0..] == json.items;
    PrependedNothing(ParseRoutes(json.items));
    for i := 0 to |json.items|
      invariant ParseRoutes(json.items) == Prepended(routes, ParseRoutes(json.items[i..]))
      invariant table == Index(routes)
    {
      var next := RetrieveRoute(json.items[i]);
      assert json.items[i..][1..] == json.items[i + 1..];
      if next.Failure? {
        return Failure(next.error);
      }
      var route := next.value;
      assert (routes + [route])[..|routes|] == routes && [] + [route.properties] == [route.properties];
      if route.inputTopic in table {
        table := table[route.inputTopic := table[route.inputTopic] + [route.properties]];
      } else {
        table := table[route.inputTopic := [route.properties]];
      }
      PrependedTwice(routes, route, ParseRoutes(json.items[i + 1..]));
      routes := routes + [route];
    }
    assert json.items[|json.items|..] == [] && routes + [] == routes;
    IndexRefines(routes);
    r := Success(table);
  }

  // ---- The table agrees with the flat list ----

  /** The routes of the flat list with this input topic, in configuration order. */
  function RoutesFor(routes: seq<ConfiguredRoute>, topic: string): seq<RouteProperties> {
    if routes == [] then []
    else (if routes[0].inputTopic == topic then [routes[0].properties] else []) + RoutesFor(routes[1..], topic)
  }

  /** Number of routes in a table. */
  ghost function CountRoutes(table: RouteTable): nat
    decreases table.Keys
  {
    if table == map[] then 0
    else
      var topic :| topic in table;
      |table[topic]| + CountRoutes(table - {topic})
  }

  /** The table is the index of the flat list: filtered by topic, with nothing missing, added or empty. */
  ghost predicate Refines(table: RouteTable, routes: seq<ConfiguredRoute>) {
    && table.Keys == (set route | route in routes :: route.inputTopic)
    && (forall topic | topic in table :: table[topic] == RoutesFor(routes, topic) && table[topic] != [])
    && (forall topic | topic !in table :: RoutesFor(routes, topic) == [])
    && CountRoutes(table) == |routes|
  }

  lemma {:induction false} RoutesForSnoc(routes: seq<ConfiguredRoute>, route: ConfiguredRoute, topic: string)
    ensures RoutesFor(routes + [route], topic) ==
              RoutesFor(routes, topic) + if route.inputTopic == topic then [route.properties] else []
  {
    if routes == [] {
      assert (routes + [route])[1..] == [];
    } else {
      RoutesForSnoc(routes[1..], route, topic);
      assert (routes + [route])[1..] == routes[1..] + [route];
    }
  }

  /** Any topic can be counted first. */
  lemma {:induction false} CountOne(table: RouteTable, topic: string)
    requires topic in table
    ensures CountRoutes(table) == |table[topic]| + CountRoutes(table - {topic})
    decreases table.Keys
  {
    var first :| first in table && CountRoutes(table) == |table[first]| + CountRoutes(table - {first});
    if first == topic {
    } else {
      CountOne(table - {first}, topic);
      CountOne(table - {topic}, first);
      assert table - {first} - {topic} == table - {topic} - {first};
    }
  }

  lemma {:induction false} IndexFilters(routes: seq<ConfiguredRoute>, topic: string)
    ensures topic in Index(routes) <==> exists route | route in routes :: route.inputTopic == topic
    ensures RoutesFor(routes, topic) == if topic in Index(routes) then Index(routes)[topic] else []
    ensures topic in Index(routes) ==> Index(routes)[topic] != []
  {
    if routes == [] {
    } else {
      var front, route := routes[..|routes| - 1], routes[|routes| - 1];
      assert routes == front + [route];
      IndexFilters(front, topic);
      RoutesForSnoc(front, route, topic);
      assert forall r :: r in routes <==> r in front || r == route;
    }
  }

  lemma {:induction false} IndexCounts(routes: seq<ConfiguredRoute>)
    ensures CountRoutes(Index(routes)) == |routes|
  {
    if routes == [] {
    } else {
      var front, route := routes[..|routes| - 1], routes[|routes| - 1];
      var before, after := Index(front), Index(routes);
      IndexCounts(front);
      CountOne(after, route.inputTopic);
      assert after - {route.inputTopic} == before - {route.inputTopic};
      if route.inputTopic in before {
        CountOne(before, route.inputTopic);
      } else {
        assert before - {route.inputTopic} == before;
      }
    }
  }

  lemma {:induction false} IndexRefines(routes: seq<ConfiguredRoute>)
    ensures Refines(Index(routes), routes)
  {
    forall topic
      ensures topic in Index(routes) <==> topic in (set route | route in routes :: route.inputTopic)
      ensures RoutesFor(routes, topic) == if topic in Index(routes) then Index(routes)[topic] else []
      ensures topic in Index(routes) ==> Index(routes)[topic] != []
    {
      IndexFilters(routes, topic);
    }
    IndexCounts(routes);
  }

  // ---- What a configuration says, entry by entry ----

  /** The entry names the transformer's type and describes its transformation. */
  predicate DescribesTransformer(json: Json, t: StreamTransformer) {
    match t
    case TopicToTopic(t2t) =>
      Lookup(json, "type") == Some(JString("topicToTopic")) && T2T.Describes(json, t2t)
    case TopicToPayload(t2p) =>
      Lookup(json, "type") == Some(JString("topicToPayload")) && T2P.Describes(json, t2p)
    case PayloadToTopic(p2t) =>
      Lookup(json, "type") == Some(JString("payloadToTopic")) && P2T.Describes(json, p2t)
    case PayloadToPayload(p2p) =>
      Lookup(json, "type") == Some(JString("payloadToPayload")) && P2P.Describes(json, p2p)
  }

  predicate TransformerEscapes(json: Json) {
    Lookup(json, "type") == Some(JString("payloadToPayload")) && P2P.EscapesSetup(json)
  }

  predicate DescribesTransformers(items: seq<Json>, ts: seq<StreamTransformer>) {
    |items| == |ts| && forall i | 0 <= i < |ts| :: DescribesTransformer(items[i], ts[i])
  }

  /** A topic that is "/" or has characters in its first and last levels. */
  predicate AllowedTopic(value: Option<Json>) {
    value.Some? && value.value.JString? && (value.value.text == "/" || BoundedByLevels(Levels(value.value.text)))
  }

  /** Name and topics are there and allowed; the list of transformers may be missing. */
  predicate AllowedEntry(json: Json) {
    && Lookup(json, "name").Some? && Lookup(json, "name").value.JString?
    && AllowedTopic(Lookup(json, "inputTopic"))
    && AllowedTopic(Lookup(json, "outputTopic"))
  }

  /** The entry gives the route its name and topics, and its transformers in order, or none if it has no list. */
  predicate DescribesRoute(json: Json, route: ConfiguredRoute) {
    && AllowedEntry(json)
    && Lookup(json, "name") == Some(JString(route.properties.name))
    && Lookup(json, "inputTopic") == Some(JString(route.inputTopic))
    && Lookup(json, "outputTopic") == Some(JString(route.properties.outputTopic))
    && match Lookup(json, "streamTransformers")
       case None => route.properties.streamTransformers == []
       case Some(JArray(items)) => DescribesTransformers(items, route.properties.streamTransformers)
       case _ => false
  }

  predicate DescribesRoutes(json: Json, routes: seq<ConfiguredRoute>) {
    && json.JArray?
    && |json.items| == |routes|
    && forall i | 0 <= i < |routes| :: DescribesRoute(json.items[i], routes[i])
  }

  /** A transformer is accepted exactly from an entry that describes it, and a type error comes from no other type. */
  lemma {:induction false} TransformerExact(json: Json, t: StreamTransformer)
    ensures ParseTransformer(json) == Success(t) <==> DescribesTransformer(json, t)
    ensures ParseTransformer(json) == Failure(TypeError) <==> TransformerEscapes(json)
  {
    match t {
      case TopicToTopic(t2t) => T2T.SetupExact(json, t2t);
      case TopicToPayload(t2p) => T2P.SetupExact(json, t2p);
      case PayloadToTopic(p2t) => P2T.SetupExact(json, p2t);
      case PayloadToPayload(p2p) => P2P.SetupExact(json, p2p);
    }
    P2P.EscapingSetupExact(json);
    OnlyMovesEscape(json);
  }

  lemma {:induction false} OnlyMovesEscape(json: Json)
    ensures T2T.SetupResult(json) != Failure(TypeErrorEscapesSetup)
    ensures T2P.SetupResult(json) != Failure(TypeErrorEscapesSetup)
    ensures P2T.SetupResult(json) != Failure(TypeErrorEscapesSetup)
  {
  }

  lemma {:induction false} TransformersExact(items: seq<Json>, ts: seq<StreamTransformer>)
    ensures ParseTransformers(items) == Success(ts) <==> DescribesTransformers(items, ts)
  {
    if items == [] {
    } else if ts == [] {
      assert ParseTransformers(items).Success? ==> ParseTransformers(items).value != [];
    } else {
      TransformerExact(items[0], ts[0]);
      TransformersExact(items[1..], ts[1..]);
      assert ts == [ts[0]] + ts[1..];
      assert forall i | 0 <= i < |ts| - 1 :: ts[1..][i] == ts[i + 1];
      assert forall i | 0 <= i < |items| - 1 :: items[1..][i] == items[i + 1];
    }
  }

  lemma {:induction false} AllowedTopicExact(value: Option<Json>)
    ensures AllowedTopic(value) <==> value.Some? && value.value.JString? && IsValidTopic(value.value.text)
  {
    if value.Some? && value.value.JString? {
      ValidByLevels(value.value.text);
      SplitIsLevels(value.value.text);
    }
  }

  lemma {:induction false} AllowedEntryExact(json: Json)
    ensures AllowedEntry(json) <==> IsValidRoute(json)
  {
    AllowedTopicExact(Lookup(json, "inputTopic"));
    AllowedTopicExact(Lookup(json, "outputTopic"));
  }

  lemma {:induction false} RouteExact(json: Json, route: ConfiguredRoute)
    ensures ParseRoute(json) == Success(route) <==> DescribesRoute(json, route)
  {
    AllowedEntryExact(json);
    if Lookup(json, "streamTransformers").Some? && Lookup(json, "streamTransformers").value.JArray? {
      TransformersExact(Lookup(json, "streamTransformers").value.items, route.properties.streamTransformers);
    }
  }

  lemma {:induction false} EntriesExact(items: seq<Json>, routes: seq<ConfiguredRoute>)
    ensures ParseRoutes(items) == Success(routes) <==> DescribesRoutes(JArray(items), routes)
  {
    if items == [] {
    } else if routes == [] {
      assert ParseRoutes(items).Success? ==> ParseRoutes(items).value != [];
    } else {
      RouteExact(items[0], routes[0]);
      EntriesExact(items[1..], routes[1..]);
      assert routes == [routes[0]] + routes[1..];
      assert forall i | 0 <= i < |routes| - 1 :: routes[1..][i] == routes[i + 1];
      assert forall i | 0 <= i < |items| - 1 :: items[1..][i] == items[i + 1];
    }
  }

  /** A configuration is accepted, with these routes, exactly if it describes them entry by entry. */
  lemma {:induction false} ConfigurationExact(json: Json, routes: seq<ConfiguredRoute>)
    ensures ConfiguredRoutes(json) == Success(routes) <==> DescribesRoutes(json, routes)
  {
    if json.JArray? {
      EntriesExact(json.items, routes);
    }
  }

  // ---- Which failure it is ----

  ghost predicate AcceptedTransformer(json: Json) {
    exists t :: DescribesTransformer(json, t)
  }

  ghost predicate AcceptedEntry(json: Json) {
    exists route :: DescribesRoute(json, route)
  }

  /** The item at j escapes and all before it are accepted. */
  ghost predicate EscapesAt(items: seq<Json>, j: nat) {
    && j < |items| && TransformerEscapes(items[j])
    && forall i | 0 <= i < j :: AcceptedTransformer(items[i])
  }

  ghost predicate ListEscapes(items: seq<Json>) {
    exists j: nat :: EscapesAt(items, j)
  }

  ghost predicate EntryEscapes(json: Json) {
    && AllowedEntry(json)
    && Lookup(json, "streamTransformers").Some? && Lookup(json, "streamTransformers").value.JArray?
    && ListEscapes(Lookup(json, "streamTransformers").value.items)
  }

  ghost predicate RouteEscapesAt(items: seq<Json>, j: nat) {
    && j < |items| && EntryEscapes(items[j])
    && forall i | 0 <= i < j :: AcceptedEntry(items[i])
  }

  ghost predicate ConfigurationEscapes(json: Json) {
    json.JArray? && exists j: nat :: RouteEscapesAt(json.items, j)
  }

  lemma {:induction false} TransformerAccepted(json: Json)
    ensures AcceptedTransformer(json) <==> ParseTransformer(json).Success?
    ensures ParseTransformer(json).Success? ==> DescribesTransformer(json, ParseTransformer(json).value)
    ensures ParseTransformer(json) == Failure(TypeError) <==> TransformerEscapes(json)
  {
    forall t
      ensures ParseTransformer(json) == Success(t) <==> DescribesTransformer(json, t)
      ensures ParseTransformer(json) == Failure(TypeError) <==> TransformerEscapes(json)
    {
      TransformerExact(json, t);
    }
    if ParseTransformer(json).Success? {
      assert DescribesTransformer(json, ParseTransformer(json).value);
    }
  }

  lemma {:induction false} EscapesOneLater(items: seq<Json>, j: nat)
    requires items != []
    ensures EscapesAt(items, 0) <==> TransformerEscapes(items[0])
    ensures EscapesAt(items, j + 1) <==> AcceptedTransformer(items[0]) && EscapesAt(items[1..], j)
  {
    if AcceptedTransformer(items[0]) && EscapesAt(items[1..], j) {
      forall i | 0 <= i < j + 1
        ensures AcceptedTransformer(items[i])
      {
        assert i > 0 ==> items[i] == items[1..][i - 1];
      }
    }
    if EscapesAt(items, j + 1) {
      forall i | 0 <= i < j
        ensures AcceptedTransformer(items[1..][i])
      {
        assert items[1..][i] == items[i + 1];
      }
    }
  }

  lemma {:induction false} ListEscapesExact(items: seq<Json>)
    ensures ParseTransformers(items) == Failure(TypeError) <==> ListEscapes(items)
  {
    if items == [] {
    } else {
      TransformerAccepted(items[0]);
      ListEscapesExact(items[1..]);
      EscapesOneLater(items, 0);
      if ListEscapes(items) {
        var j: nat :| EscapesAt(items, j);
        if j > 0 {
          EscapesOneLater(items, j - 1);
        }
      }
      if ListEscapes(items[1..]) {
        var j: nat :| EscapesAt(items[1..], j);
        EscapesOneLater(items, j);
      }
    }
  }

  lemma {:induction false} RouteAccepted(json: Json)
    ensures AcceptedEntry(json) <==> ParseRoute(json).Success?
    ensures ParseRoute(json).Success? ==> DescribesRoute(json, ParseRoute(json).value)
    ensures ParseRoute(json) == Failure(TypeError) <==> EntryEscapes(json)
  {
    forall route
      ensures ParseRoute(json) == Success(route) <==> DescribesRoute(json, route)
    {
      RouteExact(json, route);
    }
    if ParseRoute(json).Success? {
      assert DescribesRoute(json, ParseRoute(json).value);
    }
    AllowedEntryExact(json);
    if Lookup(json, "streamTransformers").Some? && Lookup(json, "streamTransformers").value.JArray? {
      ListEscapesExact(Lookup(json, "streamTransformers").value.items);
    }
  }

  lemma {:induction false} RouteEscapesOneLater(items: seq<Json>, j: nat)
    requires items != []
    ensures RouteEscapesAt(items, 0) <==> EntryEscapes(items[0])
    ensures RouteEscapesAt(items, j + 1) <==>
              AcceptedEntry(items[0]) && RouteEscapesAt(items[1..], j)
  {
    if AcceptedEntry(items[0]) && RouteEscapesAt(items[1..], j) {
      forall i | 0 <= i < j + 1
        ensures AcceptedEntry(items[i])
      {
        assert i > 0 ==> items[i] == items[1..][i - 1];
      }
    }
    if RouteEscapesAt(items, j + 1) {
      forall i | 0 <= i < j
        ensures AcceptedEntry(items[1..][i])
      {
        assert items[1..][i] == items[i + 1];
      }
    }
  }

  lemma {:induction false} EntriesEscapeExact(items: seq<Json>)
    ensures ParseRoutes(items) == Failure(TypeError) <==> exists j: nat :: RouteEscapesAt(items, j)
  {
    if items == [] {
    } else {
      RouteAccepted(items[0]);
      EntriesEscapeExact(items[1..]);
      RouteEscapesOneLater(items, 0);
      if j: nat :| RouteEscapesAt(items, j) {
        if j > 0 {
          RouteEscapesOneLater(items, j - 1);
        }
      }
      if j: nat :| RouteEscapesAt(items[1..], j) {
        RouteEscapesOneLater(items, j);
      }
    }
  }

  /** Reading ends in the type error exactly if some transformer escapes its setup and nothing before it is refused. */
  lemma {:induction false} ConfigurationFailureExact(json: Json)
    ensures ConfiguredRoutes(json) == Failure(TypeError) <==> ConfigurationEscapes(json)
  {
    if json.JArray? {
      EntriesEscapeExact(json.items);
    }
  }

  // ---- A rendered configuration is read back ----

  function TypeName(asType: JsonType): string {
    match asType
    case Number => "number"
    case String => "string"
    case _ => "boolean"
  }

  /** The types a configuration can ask for; JsonTypeUnknown stands for no "as" key. */
  predicate Configurable(asType: JsonType) {
    asType.Number? || asType.String? || asType.Boolean? || asType.JsonTypeUnknown?
  }

  lemma {:induction false} NameOfType(asType: JsonType)
    requires Configurable(asType) && !asType.JsonTypeUnknown?
    ensures TypeNamed(TypeName(asType)) == Some(asType)
  {
  }

  /** The "as" and "keep" entries of a configuration that renders these choices. */
  function OptionalEntries(asType: JsonType): map<string, Json> {
    if asType.JsonTypeUnknown? then map[] else map[AS := JString(TypeName(asType))]
  }

  function TransformerJson(t: StreamTransformer): Json {
    match t
    case TopicToTopic(t2t) =>
      JObject(map[TYPE := JString("topicToTopic"), FROM := JInt(t2t.fromTopic), TO := JInt(t2t.toTopic)])
    case TopicToPayload(t2p) =>
      JObject(OptionalEntries(t2p.asType)
              + map[TYPE := JString("topicToPayload"), FROM := JInt(t2p.fromTopic), TO := JString(t2p.toPayload)])
    case PayloadToTopic(p2t) =>
      JObject(map[TYPE := JString("payloadToTopic"), FROM := JString(p2t.fromPayload), TO := JInt(p2t.toTopic),
                  KEEP := JBool(p2t.keep)])
    case PayloadToPayload(p2p) =>
      JObject(OptionalEntries(p2p.asType)
              + map[TYPE := JString("payloadToPayload"), FROM := JString(p2p.fromPayload),
                    TO := JString(p2p.toPayload), KEEP := JBool(p2p.keep)])
  }

  /** Indices that survive the narrowing to int, and types a configuration can name. */
  predicate Renderable(t: StreamTransformer) {
    match t
    case TopicToTopic(t2t) => t2t.fromTopic <= INT_MAX && t2t.toTopic <= INT_MAX
    case TopicToPayload(t2p) => t2p.fromTopic <= INT_MAX && Configurable(t2p.asType)
    case PayloadToTopic(p2t) => p2t.toTopic <= INT_MAX
    case PayloadToPayload(p2p) => Configurable(p2p.asType)
  }

  function TransformersJson(ts: seq<StreamTransformer>): seq<Json> {
    if ts == [] then [] else [TransformerJson(ts[0])] + TransformersJson(ts[1..])
  }

  function RouteJson(route: ConfiguredRoute): Json {
    JObject(map[
              NAME := JString(route.properties.name),
              INPUT_TOPIC := JString(route.inputTopic),
              OUTPUT_TOPIC := JString(route.properties.outputTopic),
              STREAM_TRANSFORMERS := JArray(TransformersJson(route.properties.streamTransformers))])
  }

  predicate RenderableRoute(route: ConfiguredRoute) {
    && IsValidTopic(route.inputTopic)
    && IsValidTopic(route.properties.outputTopic)
    && forall t | t in route.properties.streamTransformers :: Renderable(t)
  }

  function RoutesJson(routes: seq<ConfiguredRoute>): seq<Json> {
    if routes == [] then [] else [RouteJson(routes[0])] + RoutesJson(routes[1..])
  }

  /** A type entry leads the other keys of a rendering to the setup of its transformer. */
  lemma {:induction false} TopicToTopicReadsBack(t: T2T.TopicToTopicTransformation)
    requires Renderable(TopicToTopic(t))
    ensures ParseTransformer(TransformerJson(TopicToTopic(t))) == Success(TopicToTopic(t))
  {
    var fields := TransformerJson(TopicToTopic(t)).fields;
    assert TYPE[0] != FROM[0];
    assert fields[TYPE] == JString("topicToTopic") && fields[FROM] == JInt(t.fromTopic);
    assert T2T.SetupResult(JObject(fields)) == Success(t);
  }

  lemma {:induction false} TopicToPayloadReadsBack(t: T2P.TopicToPayloadTransformation)
    requires Renderable(TopicToPayload(t))
    ensures ParseTransformer(TransformerJson(TopicToPayload(t))) == Success(TopicToPayload(t))
  {
    var fields := TransformerJson(TopicToPayload(t)).fields;
    assert TYPE[0] != FROM[0] && TYPE[0] != AS[0];
    assert TO[0] != AS[0];
    assert fields[TYPE] == JString("topicToPayload") && fields[FROM] == JInt(t.fromTopic);
    assert fields[TO] == JString(t.toPayload);
    assert AS in fields <==> !t.asType.JsonTypeUnknown?;
    assert AS in fields ==> fields[AS] == JString(TypeName(t.asType));
    if AS in fields {
      NameOfType(t.asType);
    }
    assert T2P.SetupResult(JObject(fields)) == Success(t);
  }

  lemma {:induction false} PayloadToTopicReadsBack(t: P2T.PayloadToTopicTransformation)
    requires Renderable(PayloadToTopic(t))
    ensures ParseTransformer(TransformerJson(PayloadToTopic(t))) == Success(PayloadToTopic(t))
  {
    var fields := TransformerJson(PayloadToTopic(t)).fields;
    assert TYPE[0] != FROM[0] && TYPE[0] != KEEP[0] && FROM[0] != KEEP[0];
    assert fields[TYPE] == JString("payloadToTopic") && fields[FROM] == JString(t.fromPayload);
    assert fields[TO] == JInt(t.toTopic) && fields[KEEP] == JBool(t.keep);
    assert P2T.SetupResult(JObject(fields)) == Success(t);
  }

  lemma {:induction false} PayloadToPayloadReadsBack(t: P2P.PayloadToPayloadTransformation)
    requires Renderable(PayloadToPayload(t))
    ensures ParseTransformer(TransformerJson(PayloadToPayload(t))) == Success(PayloadToPayload(t))
  {
    var fields := TransformerJson(PayloadToPayload(t)).fields;
    assert TYPE[0] != FROM[0] && TYPE[0] != KEEP[0] && FROM[0] != KEEP[0];
    assert TO[0] != AS[0];
    assert fields[TYPE] == JString("payloadToPayload") && fields[FROM] == JString(t.fromPayload);
    assert fields[TO] == JString(t.toPayload) && fields[KEEP] == JBool(t.keep);
    assert AS in fields <==> !t.asType.JsonTypeUnknown?;
    assert AS in fields ==> fields[AS] == JString(TypeName(t.asType));
    if AS in fields {
      NameOfType(t.asType);
    }
    assert P2P.SetupResult(JObject(fields)) == Success(t);
  }

  lemma {:induction false} TransformerReadsBack(t: StreamTransformer)
    requires Renderable(t)
    ensures ParseTransformer(TransformerJson(t)) == Success(t)
  {
    match t {
      case TopicToTopic(t2t) => TopicToTopicReadsBack(t2t);
      case TopicToPayload(t2p) => TopicToPayloadReadsBack(t2p);
      case PayloadToTopic(p2t) => PayloadToTopicReadsBack(p2t);
      case PayloadToPayload(p2p) => PayloadToPayloadReadsBack(p2p);
    }
  }

  lemma {:induction false} TransformersReadBack(ts: seq<StreamTransformer>)
    requires forall t | t in ts :: Renderable(t)
    ensures ParseTransformers(TransformersJson(ts)) == Success(ts)
  {
    if ts == [] {
    } else {
      TransformerReadsBack(ts[0]);
      TransformersReadBack(ts[1..]);
      assert TransformersJson(ts)[1..] == TransformersJson(ts[1..]);
      assert [ts[0]] + ts[1..] == ts;
    }
  }

  /** Every list of routes a configuration can express is read back from its rendering. */
  lemma {:induction false} RoutesReadBack(routes: seq<ConfiguredRoute>)
    requires forall route | route in routes :: RenderableRoute(route)
    ensures ConfiguredRoutes(JArray(RoutesJson(routes))) == Success(routes)
  {
    if routes == [] {
    } else {
      assert RenderableRoute(routes[0]);
      TransformersReadBack(routes[0].properties.streamTransformers);
      assert ParseRoute(RouteJson(routes[0])) == Success(routes[0]);
      RoutesReadBack(routes[1..]);
      assert RoutesJson(routes)[1..] == RoutesJson(routes[1..]);
      assert [routes[0]] + routes[1..] == routes;
    }
  }
}
