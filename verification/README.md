# MQTTraffic-Warden, modelled and proved in Dafny

MQTTraffic-Warden takes JSON messages from MQTT topics, sends each by its configured routes through chains of
stream transformers, and publishes the results. Three threads share the work: `ingest` takes a message and
dispatches it to its routes, `transform` runs the chains, `publish` hands results to the client. Routes without
transformers go from `ingest` straight to the outgoing queue; the others pass through the transform queue.

`dafny verify dfyconfig.toml` checks the whole project.

| file | content |
|---|---|
| `Text.dfy`, `Integers.dfy`, `Booleans.dfy`, `JsonModel.dfy` | cutting and joining strings, the integer and boolean paths of the casts, JSON values |
| `Topics.dfy` | topic levels (section 4.7.1.1 of MQTT Version 3.1.1), level insertion, topic validity |
| `Transformation.dfy`, `TopicToTopic.dfy`, `TopicToPayload.dfy`, `PayloadToTopic.dfy`, `PayloadToPayload.dfy` | the four transformers as classes, with `Setup` and `Execute` |
| `StreamTransformers.dfy`, `Chains.dfy` | what a transformer does, told from the input alone; laws of chains of any length |
| `Routes.dfy` | reading the configured routes into the table `ingest` looks in |
| `Pipeline.dfy`, `Guarantees.dfy`, `Orders.dfy` | the threads as a transition system, and what holds for every interleaving |
| `TrafficWarden.dfy` | the object itself: its queues as fields, every atomic step and every thread body as a method |

## How it is modelled

* A *schedule* is any list of steps of the three threads mixed with arriving messages. Theorems about runs
  quantify over all schedules. `Expected` is the sequential specification: message after message, each on its
  routes in configuration order.
* Queue entries carry their *origin* (input topic, position in the list of routes, direct or transformed). The
  source has no such field; nothing in a step depends on it.
* A *delivery* is what a message becomes on one route. Direct deliveries (routes without transformers) and
  transformed ones form two *lanes*.
* Running a transformer has three outcomes: completed, failed (the exception the transform thread catches) and
  aborted (any other exception, which ends the process).
* `Library` holds what the model does not look into: the text of floats, arrays and objects, reading floats, the
  byte a float narrows to, and whether a stream has met its end once the name of a boolean is complete, in which
  C++ libraries differ. Every theorem holds for all of them.
* Setups and executions are functions (`SetupResult`, `Executed`) that the methods are proved against. What they
  mean is said a second time without them, over keys, levels and kinds of values (`Describes`, `ReadsAs`, `Stores`,
  `Spliced`), and the `...Exact` lemmas connect the two.
* No proof uses automatic induction: every lemma carries `{:induction false}`, also where it needs no induction.

## What the proofs show about the code

* What can have been published, at any point of any run, is known exactly: a direct delivery may overtake
  transformed ones, a transformed one never overtakes a direct one, no route overtakes itself, and every beginning
  of an order this allows is what some interleaving has published, before a crash as well. The order of arrival is
  certain exactly when no transformed delivery is due before a direct one.
* An uncaught exception ends the process exactly when some message meets, on one of its routes, a transformer that
  aborts on it: a `payloadToPayload` whose source key is missing, whether or not the value was to be cast, or a
  `topicToPayload` that has a value to store and an input payload that is neither object nor null. `{}` and `5` are
  such payloads (`EmptyObjectCrashes`, `NumberPayloadCrashes`).
* `isInt` reads base 10 but the value is stored from a base-0 reading, so `010` is stored as 8 and `08` as 0
  (`MisreadTexts`). The exact condition for agreement is proved.
* A cast to boolean never stores true. `isBool` knows booleans by name, but the value is read without names, and a
  text without digits is read as false. So `true` cast to boolean becomes false, where it is accepted at all.
* A `payloadToPayload` configuration with a valid `as` and a `keep` that is not a boolean passes its validity
  check (`EscapingSetup`) and then throws a type error. That error bypasses the handler around setup
  and retrieve_routes, and ends in the general handler of main (src/main.cpp:127-129).
* A topic stays valid through a chain if the last write at each of its ends leaves a clean one. An empty level of an
  input topic such as `a//b` need not (`EmptyLevelAppended`). Clean segments keep a topic valid unless it starts from
  `/`; from there the chain must write both in front and at the end, or nothing (`SlashExtended`).
* Integers and booleans inserted into a topic become a single character, the low byte of their value.

## Model

| member | source | states |
|---|---|---|
| Text.FindFirst | src/utilities.cpp:12-13 | the search yields a position exactly when the token stands there and nowhere before, and nothing exactly when it stands nowhere |
| Text.SplitString | src/utilities.cpp:7-23 | the loop ends for every string and non-empty token; its pieces join back to the string and none holds the token |
| Text.JoinStrings | src/utilities.cpp:25-42 | the loop computes the join, and cutting undoes it for every list that cutting can produce |
| Text.JoinSplit | src/utilities.cpp:7-42 | joining undoes cutting for every string, also with leading, trailing and adjacent tokens |
| Text.SplitJoinExact | src/utilities.cpp:7-42 | cutting undoes joining if and only if the list is not one empty piece and every piece ends where its token first stands |
| Text.PiecesAreFree | src/utilities.cpp:12-19 | no piece of a cut holds the token |
| Integers.StoredIntegerExact | src/cast.cpp:25-27 | for every text isInt accepts, the stored long is its decimal reading if and only if it has no leading zero, or only zeros, or one digit below 8 after them |
| Integers.PrintedIntReadsBack | src/utilities.cpp:52-58 | isInt accepts a printed integer if and only if it fits 32 bits, and the long read from it is that integer |
| Integers.PrintedIntExact | src/json_utilities.cpp:6-14 | a JSON integer prints as its decimal digits, after a minus sign if it is negative and without leading zeros |
| Integers.IntTextExact | src/utilities.cpp:52-58 | isInt accepts exactly the decimal texts of the 32-bit integers, with a plus sign or none and any number of leading zeros |
| Booleans.AcceptedBoolIsFalse | include/cast.h:8-18 | whatever text isBool accepts, the boolean read from it is false |
| JsonModel.JsonToString | src/json_utilities.cpp:16-33 | succeeds exactly on strings, booleans and numbers; a string is taken over as it is, a boolean or integer becomes the character of its low byte; otherwise the text stays |
| JsonModel.CastExact | src/stream_transformer_payload_to_payload.cpp:64-102 | the values a text is cast to, kind by kind: only an accepted integer text gives an integer, a float is read in single precision before double, a string is the text, and no boolean is true |
| JsonModel.UnreadableExact | src/stream_transformer_payload_to_payload.cpp:64-102 | a cast is refused if and only if the text is no number, or no boolean, as the type asks |
| JsonModel.CastTextExact | src/stream_transformer_payload_to_payload.cpp:57-63 | the text a cast starts from is a string as it is, and the JSON text of any other value |
| JsonModel.BooleanCastLoses | include/cast.h:8-18 | a JSON boolean cast to boolean becomes false, if the cast is accepted |
| JsonModel.IntegerCastRoundTrip | src/stream_transformer_payload_to_payload.cpp:57-85 | casting a JSON integer to number, directly or by way of a string, is the identity if and only if it fits 32 bits |
| Topics.SplitIsLevels | src/utilities.cpp:7-23 | cutting at "/" yields the levels read character by character, and none for the empty topic |
| Topics.TopicRoundTrip | src/utilities.cpp:7-42 | for "/" the lists restored by cutting are the '/'-free ones other than one empty level |
| Topics.InsertSplices | src/stream_transformer_topic_to_topic.cpp:39-51 | on a non-empty topic appending and inserting both splice the segment's levels in at the index or the end; the empty topic gets them after an empty level |
| Topics.InsertLength | src/stream_transformer_payload_to_topic.cpp:48-60 | either branch adds one character and the segment |
| Topics.ValidByLevels | src/traffic_warden.cpp:185-199 | a topic is valid if and only if it is "/" or its first and last levels are non-empty |
| Topics.InsertValidExact | src/stream_transformer_payload_to_topic.cpp:48-60 | the exact condition, end by end, for an insertion to yield a valid topic |
| Transformation.NarrowIndexExact | src/stream_transformer_topic_to_topic.cpp:17-18 | an index survives its trip through int exactly up to 2^31 - 1, or in the top 2^31 of the unsigned range |
| Transformation.IndexExact | src/stream_transformer_topic_to_topic.cpp:17-18 | for every unsigned number, the index has its low 32 bits and is that of an int |
| TopicToTopic.StreamTransformerTopicToTopic.Setup | src/stream_transformer_topic_to_topic.cpp:9-21 | the fields are the configured ones on success and untouched on failure |
| TopicToTopic.StreamTransformerTopicToTopic.Execute | src/stream_transformer_topic_to_topic.cpp:23-52 | outcome and edited message are those the chain laws are proved about |
| TopicToTopic.SetupExact | src/stream_transformer_topic_to_topic.cpp:9-21 | a configuration is accepted, with these indices, if and only if "from" and "to" are the unsigned numbers of them |
| TopicToTopic.ExecutedExact | src/stream_transformer_topic_to_topic.cpp:23-52 | the input level is spliced into the output levels at the index and the payload is left alone; without that level nothing changes and it fails |
| TopicToPayload.StreamTransformerTopicToPayload.Setup | src/stream_transformer_topic_to_payload.cpp:12-49 | the fields are the configured ones on success and untouched on failure |
| TopicToPayload.StreamTransformerTopicToPayload.Execute | src/stream_transformer_topic_to_payload.cpp:51-108 | outcome and edited message are those the chain laws are proved about, silent boolean misses included |
| TopicToPayload.SetupExact | src/stream_transformer_topic_to_payload.cpp:12-49 | accepted, with these fields, if and only if "from" is the number of the index, "to" the key, and "as" absent or the name of the type |
| TopicToPayload.ExecutedExact | src/stream_transformer_topic_to_payload.cpp:51-108 | a level that reads as a value is stored as that and nothing else changes; an unreadable one fails, or is passed over if a boolean was asked for; a payload without keys aborts |
| TopicToPayload.StoresTheText | src/stream_transformer_topic_to_payload.cpp:65-68 | without a type, or as a string, the key holds the very text of the level |
| PayloadToTopic.StreamTransformerPayloadToTopic.Setup | src/stream_transformer_payload_to_topic.cpp:13-29 | the fields are the configured ones on success and untouched on failure |
| PayloadToTopic.StreamTransformerPayloadToTopic.Execute | src/stream_transformer_payload_to_topic.cpp:31-66 | outcome and edited message are those the chain laws are proved about |
| PayloadToTopic.SetupExact | src/stream_transformer_payload_to_topic.cpp:13-29 | accepted, with these fields, if and only if "from" is the key, "to" the number of the index, and "keep" the flag or absent for false |
| PayloadToTopic.ExecutedExact | src/stream_transformer_payload_to_topic.cpp:31-66 | the text of a scalar value is spliced into the output levels and exactly the key is erased unless kept; a missing key or other value fails and changes nothing |
| PayloadToPayload.StreamTransformerPayloadToPayload.Setup | src/stream_transformer_payload_to_payload.cpp:13-46 | the fields on success, on a refused configuration and after the type error that comes when all but keep are assigned |
| PayloadToPayload.StreamTransformerPayloadToPayload.Execute | src/stream_transformer_payload_to_payload.cpp:48-109 | outcome and edited message are those the chain laws are proved about, aborts included |
| PayloadToPayload.SetupExact | src/stream_transformer_payload_to_payload.cpp:13-46 | accepted, with these fields, if and only if "from" and "to" are the keys, "as" is absent or the name of the type, and "keep" the flag or absent for false |
| PayloadToPayload.ExecutedExact | src/stream_transformer_payload_to_payload.cpp:48-109 | the value, as it is or as its text reads, is stored and the source key then erased unless kept; a missing key aborts, a value that cannot be read fails |
| PayloadToPayload.CopiesTheValue | src/stream_transformer_payload_to_payload.cpp:51-54 | without a type the target key holds the very value of the input |
| PayloadToPayload.EscapingSetupExact | src/stream_transformer_payload_to_payload.cpp:132-150 | setup lets a type error escape if and only if "as" is valid and "keep" is there without being a boolean |
| StreamTransformers.Execute | src/traffic_warden.cpp:416-417 | the virtual call edits the message as the transformer it reaches |
| StreamTransformers.OutcomeFromInput | src/traffic_warden.cpp:415-420 | whether a transformer fails or aborts is decided by the input alone, and then nothing has changed |
| StreamTransformers.EffectFromInput | src/traffic_warden.cpp:414-421 | what is written to the topic and to any key is decided by the input alone |
| Chains.TerminatedExact | src/traffic_warden.cpp:414-421 | a chain ends the process if and only if one of its members aborts on the input |
| Chains.ObjectPayloadTerminates | src/stream_transformer_payload_to_payload.cpp:54-58 | for object payloads that is if and only if the source key of a payloadToPayload is missing |
| Chains.FailuresDropOut | src/traffic_warden.cpp:415-420 | a chain equals the chain without its failing members, on every output |
| Chains.UntouchedKey | src/traffic_warden.cpp:414-421 | a key no member touches keeps its value |
| Chains.LastWriter | src/traffic_warden.cpp:414-421 | a key ends as the last member that touches it leaves it, with the value computed from the original input |
| Chains.LastTouchDecides | src/traffic_warden.cpp:414-421 | every key of the final payload is what the last touch of the chain makes of it, or the original value if there is none |
| Chains.MoveOntoItselfErases | src/stream_transformer_payload_to_payload.cpp:105-108 | in a chain, a value moved onto its own key is gone from the final payload unless a later member touches the key |
| Chains.Factorisation | src/traffic_warden.cpp:414-421 | chains with the same topic writers and the same payload touchers, each in order, agree on every input and output |
| Chains.ChainTopic | src/stream_transformer_topic_to_topic.cpp:39-51 | the final levels are the writes spliced one by one into the configured levels, and the final length is exact |
| Chains.ConfiguredLevelsSurvive | src/stream_transformer_payload_to_topic.cpp:48-60 | the configured levels survive any chain in order, and the topic grows by 1 plus the segment for each write |
| Chains.ChainValidExact | src/traffic_warden.cpp:185-199 | a chain ends in a valid topic if and only if that is "/" untouched, or at either end the last write there, or the topic itself if there is none, leaves a character other than '/' |
| Chains.CleanChainValid | src/traffic_warden.cpp:185-199 | if no segment is empty or has '/' at an end, that is if and only if each end was fine or some write covers it |
| Routes.RetrieveTransformer | src/traffic_warden.cpp:287-322 | a transformer entry is accepted if and only if it describes a transformer, which is then returned; the type error leaves the catch if and only if setup lets it escape |
| Routes.RetrieveTransformers | src/traffic_warden.cpp:282-323 | the list is read in order and the first failure wins |
| Routes.RetrieveRoute | src/traffic_warden.cpp:261-324 | a route entry is accepted if and only if it describes a route, which is then returned, without transformers if it has no list of them; the failure is the type error if and only if a transformer escapes setup after accepted ones |
| Routes.RetrieveRoutes | src/traffic_warden.cpp:249-337 | fails exactly as reading the flat list does; otherwise the table filters that list by topic in order, with exactly its topics as keys, no empty list and the same number of routes |
| Routes.TransformerExact | src/traffic_warden.cpp:287-322 | an entry yields a transformer if and only if its type names it and the other keys describe it |
| Routes.RouteExact | src/traffic_warden.cpp:261-324 | an entry yields a route if and only if its name is a string, both topics are "/" or have non-empty end levels, and its transformers are described by a list in order, or none if the list is absent |
| Routes.ConfigurationExact | src/traffic_warden.cpp:249-337 | a configuration is accepted, with these routes, if and only if it is an array that describes them entry by entry |
| Routes.ConfigurationFailureExact | src/traffic_warden.cpp:315-321 | reading ends in the type error if and only if some transformer escapes its setup and nothing before it is refused |
| Routes.IndexRefines | src/traffic_warden.cpp:326-332 | inserting route by route builds such a table |
| Routes.TransformerReadsBack | src/traffic_warden.cpp:293-322 | every transformer with indices up to INT_MAX is read back from its configuration |
| Routes.RoutesReadBack | src/traffic_warden.cpp:249-337 | every list of routes with valid topics and such transformers is read back from its configuration |
| Pipeline.PipeUnmoved | src/traffic_warden.cpp:386-441 | every step but a direct dispatch and an arrival leaves the order of all that is under way as it is |
| Pipeline.DirectDispatchOvertakes | src/traffic_warden.cpp:374-378 | a direct dispatch keeps both lanes in order |
| Pipeline.StepKeeps | src/traffic_warden.cpp:339-441 | every step of every thread, and every arrival, keeps the conservation invariant |
| Guarantees.Conservation | src/traffic_warden.cpp:339-441 | in every reachable state, lane by lane, what is past transform, in transform and ahead of ingest is exactly what the arrivals are to become, in order |
| Guarantees.RouteOrder | src/traffic_warden.cpp:365-379 | at every point of every run, what is published for a route is a prefix of what is due for it |
| Guarantees.NothingInvented | src/traffic_warden.cpp:347-379 | whatever is published is the chain result of an arrived message on a configured route of its topic |
| Guarantees.StoppedExact | src/traffic_warden.cpp:339-441 | no thread can move if and only if the process has crashed or everything is empty and idle |
| Guarantees.Delivered | src/traffic_warden.cpp:430-441 | a run that stops without a crash has published both lanes whole and in order, each due message exactly as often as due |
| Guarantees.CrashExact | src/traffic_warden.cpp:414-421 | a crash is due to an arrival, and a run that stops has crashed if and only if an arrival has a terminating chain |
| Guarantees.TerminationDueExact | src/traffic_warden.cpp:414-421 | for every payload, some arrival has a terminating chain if and only if some transformer on a route of an arrival aborts on it, as told from the arrival and the table |
| Guarantees.CrashFromInput | src/traffic_warden.cpp:414-421 | so a crash is due to such an arrival, and a run that stops has crashed if and only if there was one |
| Guarantees.CrashForObjects | src/stream_transformer_payload_to_payload.cpp:54-58 | for object payloads that is if and only if an arrival lacks a key that is copied from |
| Guarantees.RunLength | src/traffic_warden.cpp:339-441 | the length of every run, crashed or not, is the work at the start plus the work brought, less the work left |
| Guarantees.DrainLengthExact | src/traffic_warden.cpp:339-441 | no run is longer than the work there was; it is as long if and only if everything is empty and idle, and it stops then or in a crash, never else |
| Guarantees.CanStop | src/traffic_warden.cpp:339-441 | from every sound state the threads can run until they stop |
| Guarantees.InterleavingsAgree | src/traffic_warden.cpp:339-441 | complete runs on the same arrivals both crash or neither; if not, they take equally many steps and publish the same lanes and the same messages |
| Guarantees.DeliveriesByConfiguration | src/traffic_warden.cpp:347-379 | with the table of a configuration, a message goes by exactly the configured routes of its topic, in order |
| Guarantees.PublishedAsConfigured | src/traffic_warden.cpp:249-441 | at any point of any run, whatever is published comes from an arrived message and an entry of the configuration: the levels are the entry's with the writes of its transformers spliced in, every key is what the last touch makes of the message's, and without transformers the payload is the message's |
| Guarantees.EmptyListsUnreachable | src/traffic_warden.cpp:357-363 | with such a table a message is dropped only if no route is configured for its topic, and no item is dropped for lack of transformers |
| Orders.PublishedBegins | src/traffic_warden.cpp:339-441 | at no point of any run has a transformed delivery overtaken a direct one, or a delivery its own lane: what is published can be completed to an order without that |
| Orders.BeginningIsShown | src/traffic_warden.cpp:339-441 | every beginning of such an order whose deliveries finish is what a schedule built from it has published |
| Orders.PublishedExact | src/traffic_warden.cpp:339-441 | what can have been published once given messages have arrived, at any point of any run, crashed ones included, is exactly what is finished and begins such an order |
| Orders.ProducedIsPublishable | src/traffic_warden.cpp:339-441 | a run that stops without a crash has published all in such an order |
| Orders.PublishableIsProduced | src/traffic_warden.cpp:339-441 | every such order of finished deliveries is published by a complete run that is built from it |
| Orders.PublishedOrdersExact | src/traffic_warden.cpp:339-441 | if no chain terminates, complete runs publish in exactly those orders |
| Orders.GlobalOrderExact | src/traffic_warden.cpp:365-379 | at every point of every run the published list is a prefix of the arrivals' deliveries in order, if and only if no transformed delivery is due before a direct one |
| Orders.CompleteOrderExact | src/traffic_warden.cpp:365-379 | the same for complete runs, which then publish exactly that list |
| Warden.TrafficWarden.constructor | src/traffic_warden.cpp:14 | everything is empty and idle at first |
| Warden.TrafficWarden.Init | src/traffic_warden.cpp:25-44 | the table is that of the configuration, and the threads start if and only if a route is configured |
| Warden.TrafficWarden.Arrive | include/mqtt_client_connection_callback.h:81-86 | the whole new state is that of the arrival step |
| Warden.TrafficWarden.PopIncoming | src/traffic_warden.cpp:342-363 | the whole new state is that of the pop step of ingest |
| Warden.TrafficWarden.DispatchRoute | src/traffic_warden.cpp:365-379 | the whole new state is that of the dispatch step of ingest |
| Warden.TrafficWarden.PopTransform | src/traffic_warden.cpp:393-413 | the whole new state is that of the pop step of transform |
| Warden.TrafficWarden.ExecuteTransformer | src/traffic_warden.cpp:414-421 | the whole new state is that of the execute step of transform, caught failures and aborts included |
| Warden.TrafficWarden.PushTransformed | src/traffic_warden.cpp:422 | the whole new state is that of the push step of transform |
| Warden.TrafficWarden.PopOutgoing | src/traffic_warden.cpp:433-434 | the whole new state is that of the pop step of publish |
| Warden.TrafficWarden.SendHeld | src/traffic_warden.cpp:435-436 | the whole new state is that of the send step of publish |
| Warden.TrafficWarden.DispatchRoutes | src/traffic_warden.cpp:365-379 | the loop over routes empties the dispatch and leaves both lanes, queue and what is ahead together, as they were |
| Warden.TrafficWarden.Ingest | src/traffic_warden.cpp:339-384 | run undisturbed, it appends the direct lane of all incoming messages to the outgoing queue and the other to the transform queue |
| Warden.TrafficWarden.Transform | src/traffic_warden.cpp:386-428 | run undisturbed, it appends the results of all queued items to the outgoing queue, or crashes if and only if one of them terminates |
| Warden.TrafficWarden.Publish | src/traffic_warden.cpp:430-441 | run undisturbed, it sends everything outgoing in order and changes nothing else |
| Warden.TrafficWarden.ServeInTurn | src/traffic_warden.cpp:339-441 | the threads run one after the other publish the direct lane and then the transformed one, or crash if and only if that is due |

## Left out

- The Paho client, TLS options, reconnecting, the subscription listener and delivery reports: network input and output. Arriving and sending are steps of the environment.
- JSON parsing and printing, apart from the decimal text of integers: payloads are JSON values.
- The three endless loops as such, with their sleeps and repeated emptiness checks: waiting steps change nothing. The loops appear as atomic steps and as undisturbed passes over the queue.
- Transformer objects shared between the route table and the queues: after setup nothing writes to them, so queues and table hold their configuration, and `Execute` runs on an object in that configuration. Aliasing is not captured.
- Concurrent access inside the queues: a push and a pop are atomic, as the queue library promises.
- IntegerCastRoundTrip: says nothing about casts that yield floats, whose values come from library functions the model takes as parameters.
- JsonToString: the character a float narrows to is a parameter, since narrowing one out of range is undefined.
- Arrive: begins with the parsed payload; parsing the text of the message, which may throw, is outside the step.
- SendHeld: turning the payload into text and handing it to the client are taken to succeed.
- Uninitialised transformer fields before setup: arbitrary values.
- Broker options, IP address validation, logging, the logo, the signal handler and main: checks and user interface that would only add easy members.
