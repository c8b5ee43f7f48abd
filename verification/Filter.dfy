/**
 The filter object of up/filter.go with its fields updated in place. Every method is tied to the value-level
 function that the whole-run theorems are about. trace and buffered stand for the Envoy handle; op, running
 and scheduled for the callback object and the closures that Envoy and the Go runtime hold for the stream.
 */
module FilterObject {
  import opened Common
  import Spec = FilterSpec
  import AllSettled
  import CalloutSequences

  lemma Assoc<T>(a: seq<T>, b: seq<T>, c: seq<T>)
    ensures (a + b) + c == a + (b + c)
  {
  }

  lemma QueueSplit(w: Spec.Work, mutableBody: bool, ms: seq<Spec.Mutation>, i: nat)
    requires i < |ms|
    ensures Spec.QueueAll(w, mutableBody, [ms[i]]) == Spec.QueueOne(w, mutableBody, ms[i])
    ensures var v := Spec.QueueOne(w, mutableBody, ms[i]);
      Spec.QueueAll(w, mutableBody, ms[i..]) == Spec.QueueAll(v, mutableBody, ms[i + 1..])
  {
    assert [ms[i]][1..] == [];
    assert ms[i..][1..] == ms[i + 1..];
  }

  class Filter {
    const cfg: Spec.Config

    var calloutState: Spec.CalloutState
    var calloutFn: bool
    var goStarted: bool
    var goCompleted: bool
    var streamDone: bool

    var work: Spec.Work
    var stripFramingOnResume: bool

    var trace: seq<Spec.Effect>
    var buffered: Option<Bytes>

    var op: Spec.Op
    var running: nat
    var scheduled: nat

    ghost function Value(): Spec.Filter
      reads this
    {
      Spec.Filter(cfg, calloutState, calloutFn, goStarted, goCompleted, work,
                  stripFramingOnResume, streamDone, trace, buffered)
    }

    ghost function State(): Spec.Stream
      reads this
    {
      Spec.Stream(Value(), op, running, scheduled)
    }

    constructor (cfg: Spec.Config)
      ensures this.cfg == cfg && State() == Spec.NewStream(cfg)
    {
      this.cfg := cfg;
      calloutState, calloutFn, goStarted, goCompleted, streamDone := Spec.Active, false, false, false, false;
      work, stripFramingOnResume, trace, buffered := Spec.NO_WORK, false, [], None;
      op, running, scheduled := Spec.NoOp, 0, 0;
    }

    // -------------------------------------------------------------------------------------------
    // Writer methods

    method Enqueue(m: Spec.Mutation)
      modifies `work
      ensures work == Spec.QueueOne(old(work), cfg.mutableBody, m)
    {
      var q := work.queues;
      match m {
        case OfHeader(h) => q := q.(headers := q.headers + [h]);
        case OfState(s) => q := q.(state := q.state + [s]);
        case OfCounter(c) => q := q.(counters := q.counters + [c]);
        case OfGauge(g) => q := q.(gauges := q.gauges + [g]);
        case OfHistogram(h) => q := q.(histograms := q.histograms + [h]);
        case OfMetadata(d) => q := q.(metadata := q.metadata + [d]);
        case OfOverride(o) => q := q.(override := Some(o));
        case OfReply(r) =>
          if work.localReply.None? { work := work.(localReply := Some(r)); }
          work := work.(stopped := true);
        case OfBody(data) =>
          if cfg.mutableBody { work := work.(replacement := Some(data)); }
      }
      work := work.(queues := q);
    }

    /** A callback's Writer calls, one after the other. */
    method RunCallback(ms: seq<Spec.Mutation>)
      modifies `work
      ensures work == Spec.QueueAll(old(work), cfg.mutableBody, ms)
    {
      var i := 0;
      assert ms[0..] == ms;
      while i < |ms|
        invariant 0 <= i <= |ms|
        invariant Spec.QueueAll(old(work), cfg.mutableBody, ms) == Spec.QueueAll(work, cfg.mutableBody, ms[i..])
      {
        QueueSplit(work, cfg.mutableBody, ms, i);
        Enqueue(ms[i]);
        i := i + 1;
      }
    }

    // -------------------------------------------------------------------------------------------
    // flush

    method ApplyHeaders()
      modifies `trace
      ensures trace == old(trace) + Spec.HeaderEffects(work.queues.headers)
    {
      for i := 0 to |work.queues.headers|
        invariant trace == old(trace) + Spec.HeaderEffects(work.queues.headers[..i])
      {
        var m := work.queues.headers[i];
        assert Spec.HeaderEffects(work.queues.headers[..i + 1])
          == Spec.HeaderEffects(work.queues.headers[..i]) + [Spec.HeaderEffect(m)];
        if m.del {
          trace := trace + [Spec.HeaderRemove(m.name)];
        } else if m.add {
          trace := trace + [Spec.HeaderAdd(m.name, m.value)];
        } else {
          trace := trace + [Spec.HeaderSet(m.name, m.value)];
        }
      }
      assert work.queues.headers[..|work.queues.headers|] == work.queues.headers;
    }

    method ApplyFilterState()
      modifies `trace
      ensures trace == old(trace) + Spec.StateEffects(work.queues.state)
    {
      for i := 0 to |work.queues.state|
        invariant trace == old(trace) + Spec.StateEffects(work.queues.state[..i])
      {
        trace := trace + [Spec.StateWritten(work.queues.state[i])];
      }
      assert work.queues.state[..|work.queues.state|] == work.queues.state;
    }

    method ApplyCounters()
      modifies `trace
      ensures trace == old(trace) + Spec.CounterEffects(work.queues.counters)
    {
      for i := 0 to |work.queues.counters|
        invariant trace == old(trace) + Spec.CounterEffects(work.queues.counters[..i])
      {
        trace := trace + [Spec.CounterIncremented(work.queues.counters[i])];
      }
      assert work.queues.counters[..|work.queues.counters|] == work.queues.counters;
    }

    method ApplyGauges()
      modifies `trace
      ensures trace == old(trace) + Spec.GaugeEffects(work.queues.gauges)
    {
      for i := 0 to |work.queues.gauges|
        invariant trace == old(trace) + Spec.GaugeEffects(work.queues.gauges[..i])
      {
        var m := work.queues.gauges[i];
        assert Spec.GaugeEffects(work.queues.gauges[..i + 1])
          == Spec.GaugeEffects(work.queues.gauges[..i]) + [Spec.GaugeEffect(m)];
        match m.op {
          case OpSet => trace := trace + [Spec.GaugeAssigned(m.id, m.value)];
          case OpIncrement => trace := trace + [Spec.GaugeIncremented(m.id, m.value)];
          case OpDecrement => trace := trace + [Spec.GaugeDecremented(m.id, m.value)];
        }
      }
      assert work.queues.gauges[..|work.queues.gauges|] == work.queues.gauges;
    }

    method ApplyHistograms()
      modifies `trace
      ensures trace == old(trace) + Spec.HistogramEffects(work.queues.histograms)
    {
      for i := 0 to |work.queues.histograms|
        invariant trace == old(trace) + Spec.HistogramEffects(work.queues.histograms[..i])
      {
        trace := trace + [Spec.HistogramRecorded(work.queues.histograms[i])];
      }
      assert work.queues.histograms[..|work.queues.histograms|] == work.queues.histograms;
    }

    method ApplyMetadata()
      modifies `trace
      ensures trace == old(trace) + Spec.MetadataEffects(work.queues.metadata)
    {
      for i := 0 to |work.queues.metadata|
        invariant trace == old(trace) + Spec.MetadataEffects(work.queues.metadata[..i])
      {
        trace := trace + [Spec.MetadataWritten(work.queues.metadata[i])];
      }
      assert work.queues.metadata[..|work.queues.metadata|] == work.queues.metadata;
    }

    /** All queued mutations as handle calls, in the order of flush. */
    method ApplyQueues()
      modifies `trace
      ensures trace == old(trace) + Spec.QueueEffects(work.queues, stripFramingOnResume)
    {
      ghost var done := Spec.HeaderEffects(work.queues.headers);
      ApplyHeaders();
      if stripFramingOnResume {
        trace := trace + [Spec.HeaderRemove(Spec.CONTENT_LENGTH), Spec.HeaderRemove(Spec.TRANSFER_ENCODING)];
      }
      Assoc(old(trace), done, Spec.StripEffects(stripFramingOnResume));
      done := done + Spec.StripEffects(stripFramingOnResume);
      assert trace == old(trace) + done;
      ApplyFilterState();
      Assoc(old(trace), done, Spec.StateEffects(work.queues.state));
      done := done + Spec.StateEffects(work.queues.state);
      ApplyCounters();
      Assoc(old(trace), done, Spec.CounterEffects(work.queues.counters));
      done := done + Spec.CounterEffects(work.queues.counters);
      ApplyGauges();
      Assoc(old(trace), done, Spec.GaugeEffects(work.queues.gauges));
      done := done + Spec.GaugeEffects(work.queues.gauges);
      ApplyHistograms();
      Assoc(old(trace), done, Spec.HistogramEffects(work.queues.histograms));
      done := done + Spec.HistogramEffects(work.queues.histograms);
      ApplyMetadata();
      Assoc(old(trace), done, Spec.MetadataEffects(work.queues.metadata));
      done := done + Spec.MetadataEffects(work.queues.metadata);
      if work.queues.override.Some? {
        trace := trace + [Spec.OverrideSet(work.queues.override.value)];
      }
      Assoc(old(trace), done, Spec.OverrideEffects(work.queues.override));
    }

    method Flush(continueReq: bool)
      modifies `trace, `work, `stripFramingOnResume, `buffered
      ensures Value() == Spec.Flush(old(Value()), continueReq)
    {
      if work.localReply.Some? {
        trace := trace + [Spec.ResponseSent(work.localReply.value)];
        work := work.(localReply := None);
        return;
      }
      ghost var done := Spec.QueueEffects(work.queues, stripFramingOnResume);
      ApplyQueues();
      stripFramingOnResume := false;
      Assoc(old(trace), done, Spec.ReplacementEffects(old(Value())));
      done := done + Spec.ReplacementEffects(old(Value()));
      if work.replacement.Some? && buffered.Some? {
        trace := trace + [Spec.BufferReplaced(work.replacement.value),
                          Spec.HeaderSet(Spec.CONTENT_LENGTH, Itoa(|work.replacement.value|))];
        buffered := work.replacement;
      }
      assert trace == old(trace) + done;
      work := Spec.NO_WORK;
      Assoc(old(trace), done, if continueReq then [Spec.RequestContinued] else []);
      if continueReq {
        trace := trace + [Spec.RequestContinued];
        buffered := None;
      }
      assert trace == old(trace) + Spec.Outcome(old(Value()), continueReq);
    }

    // -------------------------------------------------------------------------------------------
    // The callout handoff

    method FinishCallout(callback: seq<Spec.Mutation>)
      modifies `trace, `work, `stripFramingOnResume, `buffered, `calloutState
      ensures Value() == Spec.FinishCallout(old(Value()), callback)
    {
      RunCallback(callback);
      if calloutState == Spec.Paused {
        calloutState := Spec.Flushed;
        Flush(true);
        return;
      }
      if calloutState == Spec.Active { calloutState := Spec.Done; }
    }

    method PausePendingCallout(calloutStarted: bool) returns (paused: bool)
      modifies this`calloutState
      ensures paused <==> calloutStarted && old(calloutState) == Spec.Active
      ensures calloutState == if paused then Spec.Paused else old(calloutState)
    {
      if !calloutStarted { return false; }
      paused := calloutState == Spec.Active;
      if paused { calloutState := Spec.Paused; }
    }

    method FlushCompletedCallout(calloutStarted: bool)
      modifies this`calloutState
      ensures calloutState == if calloutStarted && old(calloutState) == Spec.Done then Spec.Flushed
        else old(calloutState)
    {
      if calloutStarted && calloutState == Spec.Done { calloutState := Spec.Flushed; }
    }

    /** HTTPCallout; sync stands for a completion inside HttpCallout. */
    method StartHttp(accepted: bool, sync: bool, callback: seq<Spec.Mutation>)
      modifies this
      ensures State() == Spec.StartCallout(old(State()), Spec.HttpStart(accepted, sync), callback)
    {
      calloutFn := true;
      calloutState := Spec.Active;
      if !accepted {
        calloutFn := false;
      } else if sync {
        calloutFn := false;
        FinishCallout(callback);
      }
    }

    /** HTTPCalloutAllSettled. */
    method StartBatch(slots: seq<AllSettled.Launch>, callback: seq<Spec.Mutation>)
      modifies this
      ensures State() == Spec.StartCallout(old(State()), Spec.BatchStart(slots), callback)
    {
      if slots == [] {
        RunCallback(callback);
        return;
      }
      calloutState := Spec.Active;
      var (batch, calls) := AllSettled.LaunchAll(slots);
      op := Spec.Batch(batch);
      if calls != [] { FinishCallout(callback); }
    }

    /** HTTPCalloutSequence. */
    method StartSequence(decisions: seq<CalloutSequences.Decision>, callback: seq<Spec.Mutation>)
      requires CalloutSequences.Settles(decisions)
      modifies this
      ensures State() == Spec.StartCallout(old(State()), Spec.SequenceStart(decisions), callback)
    {
      calloutState := Spec.Active;
      op := Spec.Sequence(CalloutSequences.Begin(decisions));
      if op.sequence.finished { FinishCallout(callback); }
    }

    /** GRPCCallout. */
    method StartGrpc(accepted: bool, sync: bool, callback: seq<Spec.Mutation>)
      modifies this
      ensures State() == Spec.StartCallout(old(State()), Spec.GrpcStart(accepted, sync), callback)
    {
      calloutState := Spec.Active;
      if !accepted { return; }
      op := Spec.Grpc(sync);
      if sync { FinishCallout(callback); }
    }

    /** One of the four callout calls; started is the Writer's calloutStarted afterwards. */
    method StartCallout(st: Spec.Start, callback: seq<Spec.Mutation>) returns (started: bool)
      requires st.SequenceStart? ==> CalloutSequences.Settles(st.decisions)
      modifies this
      ensures started == Spec.Accepted(st)
      ensures State() == Spec.StartCallout(old(State()), st, callback)
    {
      match st {
        case HttpStart(accepted, sync) =>
          StartHttp(accepted, sync, callback);
          started := accepted;
        case BatchStart(slots) =>
          StartBatch(slots, callback);
          started := slots != [];
        case SequenceStart(decisions) =>
          StartSequence(decisions, callback);
          started := true;
        case GrpcStart(accepted, sync) =>
          StartGrpc(accepted, sync, callback);
          started := accepted;
      }
    }

    /** The completion callbacks; the callback object keeps its own once-flag before the shared handoff. */
    method Deliver(d: Spec.Delivery, callback: seq<Spec.Mutation>)
      requires Spec.LegalDelivery(State(), d)
      modifies this
      ensures State() == Spec.Deliver(old(State()), d, callback)
    {
      match d {
        case HttpDone =>
          if streamDone || !calloutFn { return; }
          calloutFn := false;
          FinishCallout(callback);
        case SlotDone(slot, response) =>
          var (batch, calls) := AllSettled.Settle(op.batch, slot, response);
          op := Spec.Batch(batch);
          if calls == [] || streamDone { return; }
          FinishCallout(callback);
        case SequenceAnswer(answer, decisions) =>
          var was := op.sequence.finished;
          op := Spec.Sequence(CalloutSequences.Answer(op.sequence, answer, decisions, !streamDone));
          if !op.sequence.finished || was || streamDone { return; }
          FinishCallout(callback);
        case GrpcEnd =>
          if op != Spec.Grpc(false) { return; }
          op := Spec.Grpc(true);
          if streamDone { return; }
          FinishCallout(callback);
      }
    }

    // -------------------------------------------------------------------------------------------
    // Go

    method Go()
      modifies this
      ensures State() == Spec.StartGo(old(State()))
    {
      goCompleted := false;
      goStarted := true;
      running := running + 1;
    }

    method GoReturns(ms: seq<Spec.Mutation>)
      requires running > 0
      modifies this
      ensures State() == Spec.GoReturns(old(State()), ms)
    {
      RunCallback(ms);
      running := running - 1;
      if !goCompleted { scheduled := scheduled + 1; }
    }

    method GoFinish()
      requires scheduled > 0
      modifies this
      ensures State() == Spec.GoFinish(old(State()))
    {
      scheduled := scheduled - 1;
      var lost := goCompleted;
      goCompleted := true;
      if lost { return; }
      goStarted := false;
      Flush(true);
    }

    method OnStreamComplete()
      modifies this
      ensures State() == Spec.OnStreamComplete(old(State()))
    {
      streamDone := true;
      if goStarted { goCompleted := true; }
    }

    // -------------------------------------------------------------------------------------------
    // Request callbacks

    /** Runs a handler; the Writer's two flags are passed through. */
    method RunHandler(w: Spec.Writer, script: seq<Spec.Action>) returns (w': Spec.Writer)
      requires Spec.LegalScript(w, script)
      modifies this
      ensures State() == Spec.RunScript(old(State()), w, script).0 && w' == Spec.RunScript(old(State()), w, script).1
    {
      w' := w;
      var i := 0;
      assert script[0..] == script;
      while i < |script|
        invariant 0 <= i <= |script|
        invariant Spec.LegalScript(w', script[i..])
        invariant Spec.RunScript(State(), w', script[i..]) == Spec.RunScript(old(State()), w, script)
      {
        assert script[i..][1..] == script[i + 1..];
        match script[i] {
          case Mutate(m) =>
            QueueSplit(work, cfg.mutableBody, [m], 0);
            Enqueue(m);
          case GoAsync =>
            Go();
            w' := w'.(goStarted := true);
          case Callout(st, callback) =>
            var started := StartCallout(st, callback);
            w' := w'.(calloutStarted := started);
        }
        i := i + 1;
      }
    }

    method EndHeaders(w: Spec.Writer) returns (status: Spec.Status)
      modifies this
      ensures State() == Spec.HeadersEnd(old(State()), w).0 && status == Spec.HeadersEnd(old(State()), w).1
    {
      var paused := PausePendingCallout(w.calloutStarted);
      if paused || goStarted { return Spec.Stop; }
      FlushCompletedCallout(w.calloutStarted);
      Flush(false);
      status := if work.stopped then Spec.Stop else Spec.Continue;
    }

    method OnRequestHeaders(script: seq<Spec.Action>, bodyScript: seq<Spec.Action>, endOfStream: bool)
      returns (status: Spec.Status)
      requires Spec.LegalScript(Spec.NEW_WRITER, script)
      requires Spec.LegalScript(Spec.RunScript(State(), Spec.NEW_WRITER, script).1, bodyScript)
      modifies this
      ensures State() == Spec.OnRequestHeaders(old(State()), script, bodyScript, endOfStream).0
      ensures status == Spec.OnRequestHeaders(old(State()), script, bodyScript, endOfStream).1
    {
      var w := RunHandler(Spec.NEW_WRITER, script);
      var stopForBufferedBody := !endOfStream && cfg.bufferBody && cfg.hasBodyHandler;
      if stopForBufferedBody && cfg.mutableBody { stripFramingOnResume := true; }
      ghost var s1 := State();
      assert s1 == Spec.MarkStrip(Spec.RunScript(old(State()), Spec.NEW_WRITER, script).0, endOfStream);
      if (w.calloutStarted && calloutState == Spec.Active) || goStarted {
        status := EndHeaders(w);
      } else {
        if endOfStream && cfg.hasBodyHandler { w := RunHandler(w, bodyScript); }
        status := EndHeaders(w);
        if stopForBufferedBody { status := Spec.Stop; }
      }
    }

    /** The frame joins Envoy's buffer when the body callback returns StopAndBuffer. */
    method Hold(frame: Bytes)
      modifies this`buffered
      ensures Value() == Spec.Buffer(old(Value()), frame)
    {
      buffered := Some((if buffered.Some? then buffered.value else []) + frame);
    }

    method OnRequestBody(frame: Bytes, endOfStream: bool, script: seq<Spec.Action>)
      returns (status: Spec.Status, forwarded: Bytes)
      requires Spec.LegalScript(Spec.NEW_WRITER, script)
      modifies this
      ensures State() == Spec.OnRequestBody(old(State()), frame, endOfStream, script).0
      ensures status == Spec.OnRequestBody(old(State()), frame, endOfStream, script).1
      ensures forwarded == Spec.OnRequestBody(old(State()), frame, endOfStream, script).2
    {
      if !cfg.hasBodyHandler {
        if calloutState == Spec.Paused || work.stopped {
          Hold(frame);
          return Spec.Stop, [];
        }
        forwarded := Spec.Contents(buffered) + frame;
        buffered := None;
        return Spec.Continue, forwarded;
      }
      if cfg.bufferBody && !endOfStream {
        Hold(frame);
        return Spec.Stop, [];
      }
      var data := frame;
      if cfg.bufferBody && buffered.Some? && |buffered.value| > 0 { data := buffered.value; }
      var w := RunHandler(Spec.NEW_WRITER, script);
      var paused := PausePendingCallout(w.calloutStarted);
      if paused || goStarted {
        Hold(frame);
        return Spec.Stop, [];
      }
      status, forwarded := EndBody(w, frame, data);
    }

    method EndBody(w: Spec.Writer, frame: Bytes, data: Bytes) returns (status: Spec.Status, forwarded: Bytes)
      modifies this
      ensures State() == Spec.BodyEnd(old(State()), w, frame, data).0
      ensures status == Spec.BodyEnd(old(State()), w, frame, data).1
      ensures forwarded == Spec.BodyEnd(old(State()), w, frame, data).2
    {
      FlushCompletedCallout(w.calloutStarted);
      assert Value() == Spec.FlushCompleted(old(Value()), w);
      if cfg.bufferBody && cfg.mutableBody && work.replacement.Some? {
        status, forwarded := EndReplacedBody(frame);
      } else {
        status, forwarded := EndKeptBody(frame, data);
      }
    }

    method EndKeptBody(frame: Bytes, data: Bytes) returns (status: Spec.Status, forwarded: Bytes)
      modifies this
      ensures State() == Spec.KeptBodyEnd(old(State()), frame, data).0
      ensures status == Spec.KeptBodyEnd(old(State()), frame, data).1
      ensures forwarded == Spec.KeptBodyEnd(old(State()), frame, data).2
    {
      Flush(false);
      if work.stopped {
        Hold(frame);
        return Spec.Stop, [];
      }
      if cfg.bufferBody && cfg.mutableBody {
        trace := trace + [Spec.HeaderSet(Spec.CONTENT_LENGTH, Itoa(|data|))];
      }
      forwarded := Spec.Contents(buffered) + frame;
      buffered := None;
      status := Spec.Continue;
    }

    method EndReplacedBody(frame: Bytes) returns (status: Spec.Status, forwarded: Bytes)
      requires work.replacement.Some?
      modifies this
      ensures State() == Spec.ReplacedBodyEnd(old(State()), frame).0
      ensures status == Spec.ReplacedBodyEnd(old(State()), frame).1
      ensures forwarded == Spec.ReplacedBodyEnd(old(State()), frame).2
    {
      var body := work.replacement.value;
      work := work.(replacement := None);
      Flush(false);
      if work.stopped {
        Hold(frame);
        return Spec.Stop, [];
      }
      forwarded := WriteReplacement(body, frame);
      status := Spec.Continue;
    }

    /** The new body goes into Envoy's buffer when that holds anything, else into the current frame. */
    method WriteReplacement(body: Bytes, frame: Bytes) returns (forwarded: Bytes)
      modifies `trace, `buffered
      ensures trace == old(trace) + [Spec.BufferReplaced(body), Spec.HeaderSet(Spec.CONTENT_LENGTH, Itoa(|body|))]
      ensures buffered == None
      ensures forwarded == if Spec.Contents(old(buffered)) != [] then body + frame else body
    {
      var current := frame;
      if buffered.Some? && |buffered.value| > 0 { buffered := Some(body); } else { current := body; }
      trace := trace + [Spec.BufferReplaced(body), Spec.HeaderSet(Spec.CONTENT_LENGTH, Itoa(|body|))];
      forwarded := Spec.Contents(buffered) + current;
      buffered := None;
    }

    method OnRequestTrailers() returns (status: Spec.Status)
      ensures status == Spec.OnRequestTrailers(State())
    {
      status := if calloutState == Spec.Paused || work.stopped then Spec.Stop else Spec.Continue;
    }
  }
}
