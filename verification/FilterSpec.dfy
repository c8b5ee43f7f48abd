/**
 The per-stream filter of up/filter.go and up/writer.go as a value: mutation queues, the callout handoff,
 the goroutine flags, and the calls made on the Envoy handle as a trace of effects.

 A handler or callback is arbitrary user code that acts only through the Writer, so one invocation is
 represented by the script of Writer calls it makes; statements for all scripts cover every handler.
 */
module FilterSpec {
  import opened Common
  import AllSettled
  import CalloutSequences

  // ---------------------------------------------------------------------------------------------
  // Mutations and effects

  datatype HeaderMutation = HeaderMutation(name: string, value: string, add: bool, del: bool)
  datatype StateMutation = StateMutation(key: string, value: string)
  datatype CounterMutation = CounterMutation(id: nat, delta: nat, labels: seq<string>)
  datatype GaugeOp = OpSet | OpIncrement | OpDecrement
  datatype GaugeMutation = GaugeMutation(id: nat, value: nat, op: GaugeOp)
  datatype HistogramMutation = HistogramMutation(id: nat, value: nat, labels: seq<string>)
  datatype MetadataMutation = MetadataMutation(ns: string, key: string, value: string)
  datatype HostOverride = HostOverride(host: string, strict: bool)
  datatype LocalResponse = LocalResponse(status: nat, headers: seq<(string, string)>, body: Bytes)

  /** One call of a queueing Writer method. */
  datatype Mutation =
    | OfHeader(header: HeaderMutation)
    | OfState(state: StateMutation)
    | OfCounter(counter: CounterMutation)
    | OfGauge(gauge: GaugeMutation)
    | OfHistogram(histogram: HistogramMutation)
    | OfMetadata(metadata: MetadataMutation)
    | OfOverride(override: HostOverride)
    | OfReply(reply: LocalResponse)
    | OfBody(data: Bytes)

  /** One call on the Envoy handle. */
  datatype Effect =
    | HeaderSet(name: string, value: string)
    | HeaderAdd(name: string, value: string)
    | HeaderRemove(name: string)
    | StateWritten(state: StateMutation)
    | CounterIncremented(counter: CounterMutation)
    | GaugeAssigned(id: nat, amount: nat)
    | GaugeIncremented(id: nat, amount: nat)
    | GaugeDecremented(id: nat, amount: nat)
    | HistogramRecorded(histogram: HistogramMutation)
    | MetadataWritten(metadata: MetadataMutation)
    | OverrideSet(override: HostOverride)
    | BufferReplaced(data: Bytes)
    | ResponseSent(reply: LocalResponse)
    | RequestContinued

  function HeaderEffect(m: HeaderMutation): Effect {
    if m.del then HeaderRemove(m.name)
    else if m.add then HeaderAdd(m.name, m.value)
    else HeaderSet(m.name, m.value)
  }

  function GaugeEffect(m: GaugeMutation): Effect {
    match m.op
    case OpSet => GaugeAssigned(m.id, m.value)
    case OpIncrement => GaugeIncremented(m.id, m.value)
    case OpDecrement => GaugeDecremented(m.id, m.value)
  }

  function HeaderEffects(ms: seq<HeaderMutation>): seq<Effect> {
    seq(|ms|, i requires 0 <= i < |ms| => HeaderEffect(ms[i]))
  }

  function StateEffects(ms: seq<StateMutation>): seq<Effect> {
    seq(|ms|, i requires 0 <= i < |ms| => StateWritten(ms[i]))
  }

  function CounterEffects(ms: seq<CounterMutation>): seq<Effect> {
    seq(|ms|, i requires 0 <= i < |ms| => CounterIncremented(ms[i]))
  }

  function GaugeEffects(ms: seq<GaugeMutation>): seq<Effect> {
    seq(|ms|, i requires 0 <= i < |ms| => GaugeEffect(ms[i]))
  }

  function HistogramEffects(ms: seq<HistogramMutation>): seq<Effect> {
    seq(|ms|, i requires 0 <= i < |ms| => HistogramRecorded(ms[i]))
  }

  function MetadataEffects(ms: seq<MetadataMutation>): seq<Effect> {
    seq(|ms|, i requires 0 <= i < |ms| => MetadataWritten(ms[i]))
  }

  // ---------------------------------------------------------------------------------------------
  // The filter value

  datatype Config = Config(hasBodyHandler: bool, bufferBody: bool, mutableBody: bool)

  datatype CalloutState = Active | Paused | Done | Flushed

  datatype Queues = Queues(
    headers: seq<HeaderMutation>, state: seq<StateMutation>, counters: seq<CounterMutation>,
    gauges: seq<GaugeMutation>, histograms: seq<HistogramMutation>, metadata: seq<MetadataMutation>,
    override: Option<HostOverride>)

  const NO_QUEUES := Queues([], [], [], [], [], [], None)

  /** The fields that Writer methods change: the queues, the local response, the stop flag, the new body. */
  datatype Work = Work(queues: Queues, localReply: Option<LocalResponse>, stopped: bool, replacement: Option<Bytes>)

  const NO_WORK := Work(NO_QUEUES, None, false, None)

  /** buffered is Envoy's BufferedRequestBody (None when the handle returns nil). */
  datatype Filter = Filter(
    cfg: Config, calloutState: CalloutState, calloutFn: bool, goStarted: bool, goCompleted: bool,
    work: Work, strip: bool, streamDone: bool, trace: seq<Effect>, buffered: Option<Bytes>)

  function NewFilter(cfg: Config): Filter {
    Filter(cfg, Active, false, false, false, NO_WORK, false, false, [], None)
  }

  /** A Writer method on a filter-created Writer, which always queues. */
  function QueueOne(w: Work, mutableBody: bool, m: Mutation): Work {
    var q := w.queues;
    match m
    case OfHeader(h) => w.(queues := q.(headers := q.headers + [h]))
    case OfState(s) => w.(queues := q.(state := q.state + [s]))
    case OfCounter(c) => w.(queues := q.(counters := q.counters + [c]))
    case OfGauge(g) => w.(queues := q.(gauges := q.gauges + [g]))
    case OfHistogram(h) => w.(queues := q.(histograms := q.histograms + [h]))
    case OfMetadata(d) => w.(queues := q.(metadata := q.metadata + [d]))
    case OfOverride(o) => w.(queues := q.(override := Some(o)))
    case OfReply(r) => w.(localReply := if w.localReply.None? then Some(r) else w.localReply, stopped := true)
    case OfBody(data) => if mutableBody then w.(replacement := Some(data)) else w
  }

  function QueueAll(w: Work, mutableBody: bool, ms: seq<Mutation>): Work
    decreases |ms|
  {
    if ms == [] then w else QueueAll(QueueOne(w, mutableBody, ms[0]), mutableBody, ms[1..])
  }

  function EnqueueAll(f: Filter, ms: seq<Mutation>): Filter {
    f.(work := QueueAll(f.work, f.cfg.mutableBody, ms))
  }

  const CONTENT_LENGTH := "content-length"
  const TRANSFER_ENCODING := "transfer-encoding"

  function OverrideEffects(o: Option<HostOverride>): seq<Effect> {
    match o case None => [] case Some(h) => [OverrideSet(h)]
  }

  function StripEffects(strip: bool): seq<Effect> {
    if strip then [HeaderRemove(CONTENT_LENGTH), HeaderRemove(TRANSFER_ENCODING)] else []
  }

  /** The queued mutations of one flush as handle calls, header mutations before the framing strip. */
  function QueueEffects(q: Queues, strip: bool): seq<Effect> {
    HeaderEffects(q.headers) + StripEffects(strip) + StateEffects(q.state) + CounterEffects(q.counters)
    + GaugeEffects(q.gauges) + HistogramEffects(q.histograms) + MetadataEffects(q.metadata)
      + OverrideEffects(q.override)
  }

  /** Body replacement inside flush: only when Envoy has a request buffer at all. */
  function ReplacementEffects(f: Filter): seq<Effect> {
    if f.work.replacement.Some? && f.buffered.Some? then
      [BufferReplaced(f.work.replacement.value), HeaderSet(CONTENT_LENGTH, Itoa(|f.work.replacement.value|))]
    else []
  }

  /** What one flush does to the outside: a queued local response alone, or every queued mutation once. */
  function Outcome(f: Filter, continueReq: bool): seq<Effect> {
    if f.work.localReply.Some? then [ResponseSent(f.work.localReply.value)]
    else QueueEffects(f.work.queues, f.strip) + ReplacementEffects(f) + (if continueReq then [RequestContinued] else [])
  }

  /** filter.flush; ContinueRequest makes Envoy release its request buffer. */
  function Flush(f: Filter, continueReq: bool): Filter {
    if f.work.localReply.Some? then
      f.(trace := f.trace + Outcome(f, continueReq), work := f.work.(localReply := None))
    else
      f.(trace := f.trace + Outcome(f, continueReq), work := NO_WORK, strip := false,
         buffered := if continueReq then None
                     else if f.work.replacement.Some? && f.buffered.Some? then f.work.replacement else f.buffered)
  }

  /** The tail shared by OnHttpCalloutDone, allSettledBatch.finish, calloutSequence.finish and the gRPC finish. */
  function FinishCallout(f: Filter, callback: seq<Mutation>): Filter {
    var f1 := EnqueueAll(f, callback);
    match f1.calloutState
    case Paused => Flush(f1.(calloutState := Flushed), true)
    case Active => f1.(calloutState := Done)
    case _ => f1
  }

  // ---------------------------------------------------------------------------------------------
  // Streams: the filter, the callback object Envoy holds, and the goroutine

  /** The callback object of a batch, sequence or gRPC callout; a single callout lives in filter.calloutFn. */
  datatype Op =
    | NoOp
    | Batch(batch: AllSettled.Batch)
    | Sequence(sequence: CalloutSequences.Sequence)
    | Grpc(once: bool)

  /** running and scheduled count goroutines whose function has not returned, and their scheduled finishes. */
  datatype Stream = Stream(f: Filter, op: Op, running: nat, scheduled: nat)

  function NewStream(cfg: Config): Stream {
    Stream(NewFilter(cfg), NoOp, 0, 0)
  }

  /** A callout call together with what Envoy does inside it. */
  datatype Start =
    | HttpStart(accepted: bool, sync: bool)
    | BatchStart(slots: seq<AllSettled.Launch>)
    | SequenceStart(decisions: seq<CalloutSequences.Decision>)
    | GrpcStart(accepted: bool, sync: bool)

  /** One Writer call of a handler. callback is what the user's callback does if it runs inside the call. */
  datatype Action =
    | Mutate(m: Mutation)
    | Callout(start: Start, callback: seq<Mutation>)
    | GoAsync

  datatype Writer = Writer(calloutStarted: bool, goStarted: bool)

  const NEW_WRITER := Writer(false, false)

  /** Envoy took the callout, so the Writer counts it as started. */
  predicate Accepted(st: Start) {
    match st
    case HttpStart(accepted, _) => accepted
    case BatchStart(slots) => slots != []
    case SequenceStart(_) => true
    case GrpcStart(accepted, _) => accepted
  }

  /** The user's callback runs before the starting call returns. */
  predicate FiresAtOnce(st: Start)
    requires st.SequenceStart? ==> CalloutSequences.Settles(st.decisions)
  {
    match st
    case HttpStart(accepted, sync) => accepted && sync
    case BatchStart(slots) => slots == [] || AllSettled.LaunchAll(slots).1 != []
    case SequenceStart(ds) => CalloutSequences.Begin(ds).finished
    case GrpcStart(accepted, sync) => accepted && sync
  }

  /** The object Envoy holds after the starting call. */
  function HeldOp(st: Start, held: Op): Op
    requires st.SequenceStart? ==> CalloutSequences.Settles(st.decisions)
  {
    match st
    case HttpStart(_, _) => held
    case BatchStart(slots) => if slots == [] then held else Batch(AllSettled.LaunchAll(slots).0)
    case SequenceStart(ds) => Sequence(CalloutSequences.Begin(ds))
    case GrpcStart(accepted, sync) => if accepted then Grpc(sync) else held
  }

  /** HTTPCallout, HTTPCalloutAllSettled, HTTPCalloutSequence and GRPCCallout. */
  function StartCallout(s: Stream, st: Start, callback: seq<Mutation>): Stream
    requires st.SequenceStart? ==> CalloutSequences.Settles(st.decisions)
  {
    if st.BatchStart? && st.slots == [] then s.(f := EnqueueAll(s.f, callback))
    else
      var calloutFn := if st.HttpStart? then st.accepted && !st.sync else s.f.calloutFn;
      var f1 := s.f.(calloutState := Active, calloutFn := calloutFn);
      s.(f := if FiresAtOnce(st) then FinishCallout(f1, callback) else f1, op := HeldOp(st, s.op))
  }

  /** Writer.Go. */
  function StartGo(s: Stream): Stream {
    s.(f := s.f.(goStarted := true, goCompleted := false), running := s.running + 1)
  }

  /** The Writer panics on a second asynchronous start, so a handler never makes one. */
  predicate LegalScript(w: Writer, script: seq<Action>)
    decreases |script|
  {
    script == [] ||
    match script[0]
    case Mutate(_) => LegalScript(w, script[1..])
    case GoAsync => !w.goStarted && !w.calloutStarted && LegalScript(w.(goStarted := true), script[1..])
    case Callout(st, _) =>
      && !w.goStarted && !w.calloutStarted
      && (st.SequenceStart? ==> CalloutSequences.Settles(st.decisions))
      && LegalScript(w.(calloutStarted := Accepted(st)), script[1..])
  }

  function RunScript(s: Stream, w: Writer, script: seq<Action>): (Stream, Writer)
    requires LegalScript(w, script)
    decreases |script|
  {
    if script == [] then (s, w)
    else
      match script[0]
      case Mutate(m) => RunScript(s.(f := EnqueueAll(s.f, [m])), w, script[1..])
      case GoAsync => RunScript(StartGo(s), w.(goStarted := true), script[1..])
      case Callout(st, callback) =>
        RunScript(StartCallout(s, st, callback), w.(calloutStarted := Accepted(st)), script[1..])
  }

  // ---------------------------------------------------------------------------------------------
  // Request callbacks

  datatype Status = Continue | Stop

  /** The compare-and-swap of pausePendingCallout succeeds. */
  predicate Pauses(f: Filter, w: Writer) {
    w.calloutStarted && f.calloutState == Active
  }

  function FlushCompleted(f: Filter, w: Writer): Filter {
    if w.calloutStarted && f.calloutState == Done then f.(calloutState := Flushed) else f
  }

  /** The synchronous exit of a request callback: claim a finished callout, then flush without resuming. */
  function Conclude(f: Filter, w: Writer): Filter {
    Flush(FlushCompleted(f, w), false)
  }

  function HeadersEnd(s: Stream, w: Writer): (Stream, Status) {
    if Pauses(s.f, w) then (s.(f := s.f.(calloutState := Paused)), Stop)
    else if s.f.goStarted then (s, Stop)
    else
      var f := Conclude(s.f, w);
      (s.(f := f), if f.work.stopped then Stop else Continue)
  }

  /** filter.OnRequestHeaders; bodyScript is the synthetic body call made at end of stream. */
  function OnRequestHeaders(s: Stream, script: seq<Action>, bodyScript: seq<Action>, endOfStream: bool)
    : (Stream, Status)
    requires LegalScript(NEW_WRITER, script)
    requires LegalScript(RunScript(s, NEW_WRITER, script).1, bodyScript)
  {
    var (s0, w) := RunScript(s, NEW_WRITER, script);
    HeadersTail(MarkStrip(s0, endOfStream), w, bodyScript, endOfStream)
  }

  predicate Buffering(cfg: Config, endOfStream: bool) {
    !endOfStream && cfg.bufferBody && cfg.hasBodyHandler
  }

  /** A replaceable body is coming, so flush must remove the framing headers. */
  function MarkStrip(s: Stream, endOfStream: bool): Stream {
    if Buffering(s.f.cfg, endOfStream) && s.f.cfg.mutableBody then s.(f := s.f.(strip := true)) else s
  }

  function HeadersTail(s: Stream, w: Writer, bodyScript: seq<Action>, endOfStream: bool): (Stream, Status)
    requires LegalScript(w, bodyScript)
  {
    if Pauses(s.f, w) || s.f.goStarted then HeadersEnd(s, w)
    else if endOfStream && s.f.cfg.hasBodyHandler then
      var (s2, w2) := RunScript(s, w, bodyScript);
      HeadersEnd(s2, w2)
    else
      var (s2, status) := HeadersEnd(s, w);
      (s2, if Buffering(s.f.cfg, endOfStream) then Stop else status)
  }

  /** Envoy's buffer after a callback that returns StopAndBuffer. */
  function Buffer(f: Filter, frame: Bytes): Filter {
    f.(buffered := Some((if f.buffered.Some? then f.buffered.value else []) + frame))
  }

  function Contents(buffered: Option<Bytes>): Bytes {
    if buffered.Some? then buffered.value else []
  }

  /** The bytes a buffered body handler sees: Envoy's buffer when it is non-empty, else the frame. */
  function BodyData(f: Filter, frame: Bytes): Bytes {
    if f.cfg.bufferBody && Contents(f.buffered) != [] then Contents(f.buffered) else frame
  }

  /** Envoy forwards its buffer and the frame when the callback returns Continue. */
  function Forwarded(f: Filter, frame: Bytes): Bytes {
    Contents(f.buffered) + frame
  }

  /** A replacement body: flush first, then write the new body and its length where Envoy will forward it from. */
  function ReplacedBodyEnd(s: Stream, frame: Bytes): (Stream, Status, Bytes)
    requires s.f.work.replacement.Some?
  {
    ForwardReplaced(s.(f := Flush(s.f.(work := s.f.work.(replacement := None)), false)), frame,
      s.f.work.replacement.value)
  }

  /** The flush is over: hold the request, or forward the replacement r. */
  function ForwardReplaced(s: Stream, frame: Bytes, r: Bytes): (Stream, Status, Bytes) {
    if s.f.work.stopped then (s.(f := Buffer(s.f, frame)), Stop, [])
    else
      var inBuffer := Contents(s.f.buffered) != [];
      var f := s.f.(trace := s.f.trace + [BufferReplaced(r), HeaderSet(CONTENT_LENGTH, Itoa(|r|))],
                    buffered := if inBuffer then Some(r) else s.f.buffered);
      (s.(f := f.(buffered := None)), Continue, Forwarded(f, if inBuffer then frame else r))
  }

  /** The body as it came: flush, then restore its length if the framing was stripped. */
  function KeptBodyEnd(s: Stream, frame: Bytes, data: Bytes): (Stream, Status, Bytes) {
    ForwardKept(s.(f := Flush(s.f, false)), frame, data)
  }

  /** The flush is over: hold the request, or forward the body that came. */
  function ForwardKept(s: Stream, frame: Bytes, data: Bytes): (Stream, Status, Bytes) {
    if s.f.work.stopped then (s.(f := Buffer(s.f, frame)), Stop, [])
    else
      var f := if s.f.cfg.bufferBody && s.f.cfg.mutableBody then
                 s.f.(trace := s.f.trace + [HeaderSet(CONTENT_LENGTH, Itoa(|data|))])
               else s.f;
      (s.(f := f.(buffered := None)), Continue, Forwarded(f, frame))
  }

  /** The end of OnRequestBody on the synchronous path; the last component is the body Envoy forwards. */
  function BodyEnd(s: Stream, w: Writer, frame: Bytes, data: Bytes): (Stream, Status, Bytes) {
    var s1 := s.(f := FlushCompleted(s.f, w));
    if s1.f.cfg.bufferBody && s1.f.cfg.mutableBody && s1.f.work.replacement.Some? then ReplacedBodyEnd(s1, frame)
    else KeptBodyEnd(s1, frame, data)
  }

  /** filter.OnRequestBody. */
  function OnRequestBody(s: Stream, frame: Bytes, endOfStream: bool, script: seq<Action>): (Stream, Status, Bytes)
    requires LegalScript(NEW_WRITER, script)
  {
    if !s.f.cfg.hasBodyHandler then
      if s.f.calloutState == Paused || s.f.work.stopped then (s.(f := Buffer(s.f, frame)), Stop, [])
      else (s.(f := s.f.(buffered := None)), Continue, Forwarded(s.f, frame))
    else if s.f.cfg.bufferBody && !endOfStream then (s.(f := Buffer(s.f, frame)), Stop, [])
    else
      var (s1, w) := RunScript(s, NEW_WRITER, script);
      BodyTail(s1, w, frame, BodyData(s.f, frame))
  }

  /** OnRequestBody once its handler has run. */
  function BodyTail(s: Stream, w: Writer, frame: Bytes, data: Bytes): (Stream, Status, Bytes) {
    if Pauses(s.f, w) then (s.(f := Buffer(s.f, frame).(calloutState := Paused)), Stop, [])
    else if s.f.goStarted then (s.(f := Buffer(s.f, frame)), Stop, [])
    else BodyEnd(s, w, frame, data)
  }

  /** filter.OnRequestTrailers. */
  function OnRequestTrailers(s: Stream): Status {
    if s.f.calloutState == Paused || s.f.work.stopped then Stop else Continue
  }

  // ---------------------------------------------------------------------------------------------
  // Completions

  datatype Delivery =
    | HttpDone
    | SlotDone(slot: nat, response: AllSettled.Response)
    | SequenceAnswer(answer: AllSettled.Response, decisions: seq<CalloutSequences.Decision>)
    | GrpcEnd

  /** Envoy answers only callouts it owes; duplicates of single and gRPC callouts are allowed. */
  predicate LegalDelivery(s: Stream, d: Delivery) {
    match d
    case SlotDone(i, _) => s.op.Batch? && i < |s.op.batch.responses| && s.op.batch.responses[i].None?
    case SequenceAnswer(_, ds) => s.op.Sequence? && s.op.sequence.inFlight > 0 && CalloutSequences.Settles(ds)
    case _ => true
  }

  /** The callback object's own bookkeeping, and whether it now runs the user's callback. */
  function Advance(s: Stream, d: Delivery): (Op, bool)
    requires LegalDelivery(s, d)
  {
    match d
    case HttpDone => (s.op, s.f.calloutFn)
    case SlotDone(i, r) =>
      var (b, calls) := AllSettled.Settle(s.op.batch, i, r);
      (Batch(b), calls != [])
    case SequenceAnswer(r, ds) =>
      var q := CalloutSequences.Answer(s.op.sequence, r, ds, !s.f.streamDone);
      (Sequence(q), q.finished && !s.op.sequence.finished)
    case GrpcEnd => if s.op == Grpc(false) then (Grpc(true), true) else (s.op, false)
  }

  /** OnHttpCalloutDone, allSettledBatch.finish, the sequence callback and grpcStreamCallback.finish. */
  function Deliver(s: Stream, d: Delivery, callback: seq<Mutation>): Stream
    requires LegalDelivery(s, d)
  {
    var (op, fires) := Advance(s, d);
    if !fires || s.f.streamDone then s.(op := op)
    else s.(f := FinishCallout(s.f.(calloutFn := if d.HttpDone? then false else s.f.calloutFn), callback), op := op)
  }

  /** A goroutine's function returns after queueing mutations, and schedules its finish unless the stream died. */
  function GoReturns(s: Stream, ms: seq<Mutation>): Stream
    requires s.running > 0
  {
    s.(f := EnqueueAll(s.f, ms), running := s.running - 1,
       scheduled := if s.f.goCompleted then s.scheduled else s.scheduled + 1)
  }

  /** A scheduled finish on the worker thread. */
  function GoFinish(s: Stream): Stream
    requires s.scheduled > 0
  {
    var s1 := s.(scheduled := s.scheduled - 1);
    if s.f.goCompleted then s1
    else s1.(f := Flush(s.f.(goCompleted := true, goStarted := false), true))
  }

  /** filter.OnStreamComplete. */
  function OnStreamComplete(s: Stream): Stream {
    s.(f := s.f.(streamDone := true, goCompleted := s.f.goStarted || s.f.goCompleted))
  }
}
