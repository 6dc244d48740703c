/**
 The four transformers behind their common interface, and what each of them does said independently of the
 output it is run on: whether it fails, which level it writes, which keys it touches.
 */
module StreamTransformers {
  import opened Wrappers
  import opened Text
  import opened Topics
  import opened JsonModel
  import opened Transformation
  import T2T = TopicToTopic
  import T2P = TopicToPayload
  import P2T = PayloadToTopic
  import P2P = PayloadToPayload

  /** A transformer after setup. Nothing writes to it any more, so the value stands for the shared pointer. */
  datatype StreamTransformer =
    | TopicToTopic(t2t: T2T.TopicToTopicTransformation)
    | TopicToPayload(t2p: T2P.TopicToPayloadTransformation)
    | PayloadToTopic(p2t: P2T.PayloadToTopicTransformation)
    | PayloadToPayload(p2p: P2P.PayloadToPayloadTransformation)

  /** The input topic and payload, which no transformer changes. */
  datatype Message = Message(topic: string, payload: Json)

  function Executed(lib: Library, t: StreamTransformer, input: Message, output: Output): Execution {
    match t
    case TopicToTopic(t2t) => T2T.Executed(t2t, input.topic, output)
    case TopicToPayload(t2p) => T2P.Executed(lib, t2p, input.topic, output)
    case PayloadToTopic(p2t) => P2T.Executed(lib, p2t, input.payload, output)
    case PayloadToPayload(p2p) => P2P.Executed(lib, p2p, input.payload, output)
  }

  /** The virtual call of execute. */
  method Execute(lib: Library, t: StreamTransformer, input: Message, output: OutputMessage)
    returns (outcome: Outcome)
    modifies output
    ensures Execution(outcome, output.Value()) == Executed(lib, t, input, old(output.Value()))
  {
    match t {
      case TopicToTopic(t2t) =>
        var transformer := new T2T.StreamTransformerTopicToTopic();
        transformer.transformation := t2t;
        outcome := transformer.Execute(input.topic, output);
      case TopicToPayload(t2p) =>
        var transformer := new T2P.StreamTransformerTopicToPayload();
        transformer.transformation := t2p;
        outcome := transformer.Execute(lib, input.topic, output);
      case PayloadToTopic(p2t) =>
        var transformer := new P2T.StreamTransformerPayloadToTopic();
        transformer.transformation := p2t;
        outcome := transformer.Execute(lib, input.payload, output);
      case PayloadToPayload(p2p) =>
        var transformer := new P2P.StreamTransformerPayloadToPayload();
        transformer.transformation := p2p;
        outcome := transformer.Execute(lib, input.payload, output);
    }
  }

  // ---- Effects, from the input alone ----

  function InputLevel(input: Message, index: nat): Option<string> {
    var levels := Split(input.topic, "/");
    if index < |levels| then Some(levels[index]) else None
  }

  predicate Fails(lib: Library, t: StreamTransformer, input: Message) {
    match t
    case TopicToTopic(t2t) => InputLevel(input, t2t.fromTopic).None?
    case TopicToPayload(t2p) =>
      (match InputLevel(input, t2p.fromTopic)
       case None => true
       case Some(level) => T2P.CastLevel(lib, t2p.asType, level).Refuse?)
    case PayloadToTopic(p2t) => P2T.Segment(lib, p2t, input.payload).None?
    case PayloadToPayload(p2p) =>
      (match Lookup(input.payload, p2p.fromPayload)
       case None => false
       case Some(value) => P2P.Converted(lib, p2p.asType, value).None?)
  }

  predicate Aborts(lib: Library, t: StreamTransformer, input: Message) {
    match t
    case TopicToPayload(t2p) =>
      && !HoldsKeys(input.payload)
      && InputLevel(input, t2p.fromTopic).Some?
      && T2P.CastLevel(lib, t2p.asType, InputLevel(input, t2p.fromTopic).value).Store?
    case PayloadToPayload(p2p) => Lookup(input.payload, p2p.fromPayload).None?
    case _ => false
  }

  datatype TopicWrite = TopicWrite(index: nat, segment: string)

  function WriteOf(lib: Library, t: StreamTransformer, input: Message): Option<TopicWrite> {
    match t
    case TopicToTopic(t2t) =>
      (match InputLevel(input, t2t.fromTopic)
       case None => None
       case Some(level) => Some(TopicWrite(t2t.toTopic, level)))
    case PayloadToTopic(p2t) =>
      (match P2T.Segment(lib, p2t, input.payload)
       case None => None
       case Some(segment) => Some(TopicWrite(p2t.toTopic, segment)))
    case _ => None
  }

  datatype Touch = Untouched | Erased | Written(value: Json)

  /** What a transformer does to one key of the output payload. */
  function TouchOf(lib: Library, t: StreamTransformer, input: Message, key: string): Touch {
    match t
    case TopicToTopic(_) => Untouched
    case TopicToPayload(t2p) =>
      if key != t2p.toPayload || InputLevel(input, t2p.fromTopic).None? then Untouched
      else
        (match T2P.CastLevel(lib, t2p.asType, InputLevel(input, t2p.fromTopic).value)
         case Store(value) => Written(value)
         case _ => Untouched)
    case PayloadToTopic(p2t) =>
      if key == p2t.fromPayload && !p2t.keep && P2T.Segment(lib, p2t, input.payload).Some? then Erased
      else Untouched
    case PayloadToPayload(p2p) =>
      (match Lookup(input.payload, p2p.fromPayload)
       case None => Untouched
       case Some(value) =>
         match P2P.Converted(lib, p2p.asType, value)
         case None => Untouched
         case Some(converted) =>
           if key == p2p.fromPayload && !p2p.keep then Erased
           else if key == p2p.toPayload then Written(converted)
           else Untouched)
  }

  function AfterTouch(touch: Touch, before: Option<Json>): Option<Json> {
    match touch
    case Untouched => before
    case Erased => None
    case Written(value) => Some(value)
  }

  function AfterWrite(write: Option<TopicWrite>, topic: string): string {
    match write
    case None => topic
    case Some(w) => InsertLevel(topic, w.index, w.segment)
  }

  /** Failing is decided by the input and changes nothing; so is aborting, as long as the payloads agree in kind. */
  lemma {:induction false} OutcomeFromInput(lib: Library, t: StreamTransformer, input: Message, output: Output)
    ensures
      var e := Executed(lib, t, input, output);
      && (e.outcome.Failed? <==> Fails(lib, t, input))
      && (!e.outcome.Completed? ==> e.output == output)
      && (HoldsKeys(e.output.payload) <==> HoldsKeys(output.payload))
      && ((HoldsKeys(output.payload) <==> HoldsKeys(input.payload)) ==>
            (e.outcome.Aborted? <==> Aborts(lib, t, input)))
  {
  }

  lemma {:induction false} EffectFromInput(
      lib: Library, t: StreamTransformer, input: Message, output: Output, key: string)
    requires !Executed(lib, t, input, output).outcome.Aborted?
    ensures
      var result := Executed(lib, t, input, output).output;
      && result.topic == AfterWrite(WriteOf(lib, t, input), output.topic)
      && Lookup(result.payload, key) == AfterTouch(TouchOf(lib, t, input, key), Lookup(output.payload, key))
  {
  }
}
