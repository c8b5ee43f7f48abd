/**
 The Envoy handle as a state: what each handle call does to it, what each Writer call asks for, and the proof that a
 flush leaves the handle as if every Writer call had acted on it at once, although flush sorts the calls by kind.
 */
module HandleModel {
  import opened Common
  import opened FilterSpec
  import opened Handoff
  import opened Headers

  type Counts = map<(nat, seq<string>), int>
  type Gauges = map<nat, int>
  type Samples = map<(nat, seq<string>), seq<nat>>
  type Texts = map<string, string>
  type Metadata = map<(string, string), string>

  /** Metric values are unbounded integers, 0 where nothing was written. */
  datatype Handle = Handle(
    headers: HeaderMap, state: Texts, counters: Counts, gauges: Gauges, histograms: Samples, metadata: Metadata,
    override: Option<HostOverride>, body: Option<Bytes>, replies: seq<LocalResponse>, continued: nat)

  function Count(m: Counts, k: (nat, seq<string>)): int {
    if k in m then m[k] else 0
  }

  function Gauge(m: Gauges, id: nat): int {
    if id in m then m[id] else 0
  }

  function Recorded(m: Samples, k: (nat, seq<string>)): seq<nat> {
    if k in m then m[k] else []
  }

  // ---------------------------------------------------------------------------------------------
  // Handle calls

  /** One call on the handle. */
  function OnHandle(h: Handle, e: Effect): Handle {
    match e
    case HeaderSet(_, _) => h.(headers := ApplyEffect(h.headers, e))
    case HeaderAdd(_, _) => h.(headers := ApplyEffect(h.headers, e))
    case HeaderRemove(_) => h.(headers := ApplyEffect(h.headers, e))
    case StateWritten(s) => h.(state := h.state[s.key := s.value])
    case CounterIncremented(c) => h.(counters := h.counters[(c.id, c.labels) := Count(h.counters, (c.id, c.labels))
      + c.delta])
    case GaugeAssigned(id, amount) => h.(gauges := h.gauges[id := amount])
    case GaugeIncremented(id, amount) => h.(gauges := h.gauges[id := Gauge(h.gauges, id) + amount])
    case GaugeDecremented(id, amount) => h.(gauges := h.gauges[id := Gauge(h.gauges, id) - amount])
    case HistogramRecorded(s) =>
      h.(histograms := h.histograms[(s.id, s.labels) := Recorded(h.histograms, (s.id, s.labels)) + [s.value]])
    case MetadataWritten(d) => h.(metadata := h.metadata[(d.ns, d.key) := d.value])
    case OverrideSet(o) => h.(override := Some(o))
    case BufferReplaced(data) => h.(body := Some(data))
    case ResponseSent(r) => h.(replies := h.replies + [r])
    case RequestContinued => h.(continued := h.continued + 1)
  }

  function Play(h: Handle, trace: seq<Effect>): Handle
    decreases |trace|
  {
    if trace == [] then h else Play(OnHandle(h, trace[0]), trace[1..])
  }

  lemma {:induction false} PlayConcat(h: Handle, a: seq<Effect>, b: seq<Effect>)
    ensures Play(h, a + b) == Play(Play(h, a), b)
    decreases |a|
  {
    if a == [] {
      assert a + b == b;
    } else {
      assert (a + b)[1..] == a[1..] + b;
      PlayConcat(OnHandle(h, a[0]), a[1..], b);
    }
  }

  // ---------------------------------------------------------------------------------------------
  // Writer calls

  function HeaderAsked(m: HeaderMap, c: HeaderMutation): HeaderMap {
    if c.del then m - {Fold(c.name)}
    else if c.add then m[Fold(c.name) := Lookup(m, c.name) + [c.value]]
    else m[Fold(c.name) := [c.value]]
  }

  function CounterAsked(m: Counts, c: CounterMutation): Counts {
    m[(c.id, c.labels) := Count(m, (c.id, c.labels)) + c.delta]
  }

  function GaugeAsked(m: Gauges, g: GaugeMutation): Gauges {
    match g.op
    case OpSet => m[g.id := g.value]
    case OpIncrement => m[g.id := Gauge(m, g.id) + g.value]
    case OpDecrement => m[g.id := Gauge(m, g.id) - g.value]
  }

  function HistogramAsked(m: Samples, s: HistogramMutation): Samples {
    m[(s.id, s.labels) := Recorded(m, (s.id, s.labels)) + [s.value]]
  }

  /** What a Writer call other than a rejection or a new body asks of the handle. */
  function Asked(h: Handle, m: Mutation): Handle {
    h.(headers := if m.OfHeader? then HeaderAsked(h.headers, m.header) else h.headers,
       state := if m.OfState? then h.state[m.state.key := m.state.value] else h.state,
       counters := if m.OfCounter? then CounterAsked(h.counters, m.counter) else h.counters,
       gauges := if m.OfGauge? then GaugeAsked(h.gauges, m.gauge) else h.gauges,
       histograms := if m.OfHistogram? then HistogramAsked(h.histograms, m.histogram) else h.histograms,
       metadata := if m.OfMetadata? then h.metadata[(m.metadata.ns, m.metadata.key) := m.metadata.value]
         else h.metadata,
       override := if m.OfOverride? then Some(m.override) else h.override)
  }

  function AskAll(h: Handle, ms: seq<Mutation>): Handle
    decreases |ms|
  {
    if ms == [] then h else AskAll(Asked(h, ms[0]), ms[1..])
  }

  // ---------------------------------------------------------------------------------------------
  // Kind by kind

  function AskHeaders(m: HeaderMap, cs: seq<HeaderMutation>): HeaderMap
    decreases |cs|
  {
    if cs == [] then m else AskHeaders(HeaderAsked(m, cs[0]), cs[1..])
  }

  function AskStates(m: Texts, ss: seq<StateMutation>): Texts
    decreases |ss|
  {
    if ss == [] then m else AskStates(m[ss[0].key := ss[0].value], ss[1..])
  }

  function AskCounters(m: Counts, cs: seq<CounterMutation>): Counts
    decreases |cs|
  {
    if cs == [] then m else AskCounters(CounterAsked(m, cs[0]), cs[1..])
  }

  function AskGauges(m: Gauges, gs: seq<GaugeMutation>): Gauges
    decreases |gs|
  {
    if gs == [] then m else AskGauges(GaugeAsked(m, gs[0]), gs[1..])
  }

  function AskHistograms(m: Samples, ss: seq<HistogramMutation>): Samples
    decreases |ss|
  {
    if ss == [] then m else AskHistograms(HistogramAsked(m, ss[0]), ss[1..])
  }

  function AskMetadata(m: Metadata, ds: seq<MetadataMutation>): Metadata
    decreases |ds|
  {
    if ds == [] then m else AskMetadata(m[(ds[0].ns, ds[0].key) := ds[0].value], ds[1..])
  }

  lemma {:induction false} PlayHeaders(h: Handle, cs: seq<HeaderMutation>)
    ensures Play(h, HeaderEffects(cs)) == h.(headers := AskHeaders(h.headers, cs))
    decreases |cs|
  {
    if cs != [] {
      assert HeaderEffects(cs)[1..] == HeaderEffects(cs[1..]);
      PlayHeaders(h.(headers := HeaderAsked(h.headers, cs[0])), cs[1..]);
    }
  }

  lemma {:induction false} PlayStates(h: Handle, ss: seq<StateMutation>)
    ensures Play(h, StateEffects(ss)) == h.(state := AskStates(h.state, ss))
    decreases |ss|
  {
    if ss != [] {
      assert StateEffects(ss)[1..] == StateEffects(ss[1..]);
      PlayStates(h.(state := h.state[ss[0].key := ss[0].value]), ss[1..]);
    }
  }

  lemma {:induction false} PlayCounters(h: Handle, cs: seq<CounterMutation>)
    ensures Play(h, CounterEffects(cs)) == h.(counters := AskCounters(h.counters, cs))
    decreases |cs|
  {
    if cs != [] {
      assert CounterEffects(cs)[1..] == CounterEffects(cs[1..]);
      PlayCounters(h.(counters := CounterAsked(h.counters, cs[0])), cs[1..]);
    }
  }

  lemma {:induction false} PlayGauges(h: Handle, gs: seq<GaugeMutation>)
    ensures Play(h, GaugeEffects(gs)) == h.(gauges := AskGauges(h.gauges, gs))
    decreases |gs|
  {
    if gs != [] {
      assert GaugeEffects(gs)[1..] == GaugeEffects(gs[1..]);
      PlayGauges(h.(gauges := GaugeAsked(h.gauges, gs[0])), gs[1..]);
    }
  }

  lemma {:induction false} PlayHistograms(h: Handle, ss: seq<HistogramMutation>)
    ensures Play(h, HistogramEffects(ss)) == h.(histograms := AskHistograms(h.histograms, ss))
    decreases |ss|
  {
    if ss != [] {
      assert HistogramEffects(ss)[1..] == HistogramEffects(ss[1..]);
      PlayHistograms(h.(histograms := HistogramAsked(h.histograms, ss[0])), ss[1..]);
    }
  }

  lemma {:induction false} PlayMetadata(h: Handle, ds: seq<MetadataMutation>)
    ensures Play(h, MetadataEffects(ds)) == h.(metadata := AskMetadata(h.metadata, ds))
    decreases |ds|
  {
    if ds != [] {
      assert MetadataEffects(ds)[1..] == MetadataEffects(ds[1..]);
      PlayMetadata(h.(metadata := h.metadata[(ds[0].ns, ds[0].key) := ds[0].value]), ds[1..]);
    }
  }

  /** The handle after all kinds of calls, given by the mutations of each kind. */
  function ByKind(h: Handle, q: Queues): Handle {
    h.(headers := AskHeaders(h.headers, q.headers), state := AskStates(h.state, q.state),
       counters := AskCounters(h.counters, q.counters), gauges := AskGauges(h.gauges, q.gauges),
       histograms := AskHistograms(h.histograms, q.histograms), metadata := AskMetadata(h.metadata, q.metadata),
       override := if q.override.Some? then q.override else h.override)
  }

  /** The framing headers go when a replaceable body follows. */
  function Unframed(h: Handle, strip: bool): Handle {
    if strip then h.(headers := h.headers - {Fold("content-length")} - {Fold("transfer-encoding")}) else h
  }

  lemma PlayStrip(h: Handle, strip: bool)
    ensures Play(h, StripEffects(strip)) == Unframed(h, strip)
  {
    if strip { PlayTwo(h, HeaderRemove(CONTENT_LENGTH), HeaderRemove(TRANSFER_ENCODING)); }
  }

  lemma PlayQueues(h: Handle, q: Queues, strip: bool)
    ensures Play(h, QueueEffects(q, strip)) == Unframed(ByKind(h, q), strip)
  {
    var e1 := HeaderEffects(q.headers) + StripEffects(strip);
    var e2 := e1 + StateEffects(q.state);
    var e3 := e2 + CounterEffects(q.counters);
    var e4 := e3 + GaugeEffects(q.gauges);
    var e5 := e4 + HistogramEffects(q.histograms);
    var e6 := e5 + MetadataEffects(q.metadata);
    PlayHeaders(h, q.headers);
    PlayConcat(h, HeaderEffects(q.headers), StripEffects(strip));
    PlayStrip(Play(h, HeaderEffects(q.headers)), strip);
    PlayConcat(h, e1, StateEffects(q.state));
    PlayStates(Play(h, e1), q.state);
    PlayConcat(h, e2, CounterEffects(q.counters));
    PlayCounters(Play(h, e2), q.counters);
    PlayConcat(h, e3, GaugeEffects(q.gauges));
    PlayGauges(Play(h, e3), q.gauges);
    PlayConcat(h, e4, HistogramEffects(q.histograms));
    PlayHistograms(Play(h, e4), q.histograms);
    PlayConcat(h, e5, MetadataEffects(q.metadata));
    PlayMetadata(Play(h, e5), q.metadata);
    PlayConcat(h, e6, OverrideEffects(q.override));
    PlayOverride(Play(h, e6), q.override);
  }

  lemma PlayOverride(h: Handle, o: Option<HostOverride>)
    ensures Play(h, OverrideEffects(o)) == h.(override := if o.Some? then o else h.override)
  {
    if o.Some? { assert OverrideEffects(o)[1..] == []; }
  }

  lemma {:induction false} LastOverrideOf(o: Option<HostOverride>, ms: seq<Mutation>)
    ensures LastOverride(o, ms) == if LastOverride(None, ms).Some? then LastOverride(None, ms) else o
    decreases |ms|
  {
    if ms != [] {
      var first := if ms[0].OfOverride? then Some(ms[0].override) else None;
      LastOverrideOf(if ms[0].OfOverride? then Some(ms[0].override) else o, ms[1..]);
      LastOverrideOf(first, ms[1..]);
    }
  }

  /** Kinds do not touch each other's part of the handle, so sorting the calls by kind changes nothing. */
  lemma {:induction false} KindsCommute(h: Handle, ms: seq<Mutation>)
    ensures AskAll(h, ms) == ByKind(h, Sorted(ms))
    decreases |ms|
  {
    if ms != [] {
      KindsCommute(Asked(h, ms[0]), ms[1..]);
      OneMoreCall(h, ms);
    }
  }

  lemma OneMoreCall(h: Handle, ms: seq<Mutation>)
    requires ms != []
    ensures ByKind(Asked(h, ms[0]), Sorted(ms[1..])) == ByKind(h, Sorted(ms))
  {
    MoreOverrides(h, ms);
    MoreHeaders(h, ms);
    MoreStates(h, ms);
    MoreCounters(h, ms);
    MoreGauges(h, ms);
    MoreHistograms(h, ms);
    MoreMetadata(h, ms);
  }

  lemma MoreOverrides(h: Handle, ms: seq<Mutation>)
    requires ms != []
    ensures var o, all := LastOverride(None, ms[1..]), LastOverride(None, ms);
      (if o.Some? then o else Asked(h, ms[0]).override) == if all.Some? then all else h.override
    ensures var g := Asked(h, ms[0]); g.body == h.body && g.replies == h.replies && g.continued == h.continued
  {
    LastOverrideOf(if ms[0].OfOverride? then Some(ms[0].override) else None, ms[1..]);
  }

  lemma FirstHeaders(m: HeaderMap, c: HeaderMutation, rest: seq<HeaderMutation>)
    ensures AskHeaders(m, [c] + rest) == AskHeaders(HeaderAsked(m, c), rest)
      && AskHeaders(m, [] + rest) == AskHeaders(m, rest)
  {
    assert ([c] + rest)[1..] == rest && [] + rest == rest;
  }

  lemma MoreHeaders(h: Handle, ms: seq<Mutation>)
    requires ms != []
    ensures AskHeaders(Asked(h, ms[0]).headers, HeadersOf(ms[1..])) == AskHeaders(h.headers, HeadersOf(ms))
  {
    var m, rest := ms[0], HeadersOf(ms[1..]);
    if m.OfHeader? {
      FirstHeaders(h.headers, m.header, rest);
      assert HeadersOf(ms) == [m.header] + rest;
    } else {
      assert HeadersOf(ms) == [] + rest == rest;
      assert Asked(h, m).headers == h.headers;
    }
  }

  lemma FirstStates(m: Texts, c: StateMutation, rest: seq<StateMutation>)
    ensures AskStates(m, [c] + rest) == AskStates(m[c.key := c.value], rest)
      && AskStates(m, [] + rest) == AskStates(m, rest)
  {
    assert ([c] + rest)[1..] == rest && [] + rest == rest;
  }

  lemma MoreStates(h: Handle, ms: seq<Mutation>)
    requires ms != []
    ensures AskStates(Asked(h, ms[0]).state, StatesOf(ms[1..])) == AskStates(h.state, StatesOf(ms))
  {
    var m, rest := ms[0], StatesOf(ms[1..]);
    if m.OfState? {
      FirstStates(h.state, m.state, rest);
      assert StatesOf(ms) == [m.state] + rest;
    } else {
      assert StatesOf(ms) == [] + rest == rest;
      assert Asked(h, m).state == h.state;
    }
  }

  lemma FirstCounters(m: Counts, c: CounterMutation, rest: seq<CounterMutation>)
    ensures AskCounters(m, [c] + rest) == AskCounters(CounterAsked(m, c), rest)
      && AskCounters(m, [] + rest) == AskCounters(m, rest)
  {
    assert ([c] + rest)[1..] == rest && [] + rest == rest;
  }

  lemma MoreCounters(h: Handle, ms: seq<Mutation>)
    requires ms != []
    ensures AskCounters(Asked(h, ms[0]).counters, CountersOf(ms[1..])) == AskCounters(h.counters, CountersOf(ms))
  {
    var m, rest := ms[0], CountersOf(ms[1..]);
    if m.OfCounter? {
      FirstCounters(h.counters, m.counter, rest);
      assert CountersOf(ms) == [m.counter] + rest;
    } else {
      assert CountersOf(ms) == [] + rest == rest;
      assert Asked(h, m).counters == h.counters;
    }
  }

  lemma FirstGauges(m: Gauges, c: GaugeMutation, rest: seq<GaugeMutation>)
    ensures AskGauges(m, [c] + rest) == AskGauges(GaugeAsked(m, c), rest)
      && AskGauges(m, [] + rest) == AskGauges(m, rest)
  {
    assert ([c] + rest)[1..] == rest && [] + rest == rest;
  }

  lemma MoreGauges(h: Handle, ms: seq<Mutation>)
    requires ms != []
    ensures AskGauges(Asked(h, ms[0]).gauges, GaugesOf(ms[1..])) == AskGauges(h.gauges, GaugesOf(ms))
  {
    var m, rest := ms[0], GaugesOf(ms[1..]);
    if m.OfGauge? {
      FirstGauges(h.gauges, m.gauge, rest);
      assert GaugesOf(ms) == [m.gauge] + rest;
    } else {
      assert GaugesOf(ms) == [] + rest == rest;
      assert Asked(h, m).gauges == h.gauges;
    }
  }

  lemma FirstHistograms(m: Samples, c: HistogramMutation, rest: seq<HistogramMutation>)
    ensures AskHistograms(m, [c] + rest) == AskHistograms(HistogramAsked(m, c), rest)
      && AskHistograms(m, [] + rest) == AskHistograms(m, rest)
  {
    assert ([c] + rest)[1..] == rest && [] + rest == rest;
  }

  lemma MoreHistograms(h: Handle, ms: seq<Mutation>)
    requires ms != []
    ensures AskHistograms(Asked(h, ms[0]).histograms, HistogramsOf(ms[1..]))
      == AskHistograms(h.histograms, HistogramsOf(ms))
  {
    var m, rest := ms[0], HistogramsOf(ms[1..]);
    if m.OfHistogram? {
      FirstHistograms(h.histograms, m.histogram, rest);
      assert HistogramsOf(ms) == [m.histogram] + rest;
    } else {
      assert HistogramsOf(ms) == [] + rest == rest;
      assert Asked(h, m).histograms == h.histograms;
    }
  }

  lemma FirstMetadata(m: Metadata, c: MetadataMutation, rest: seq<MetadataMutation>)
    ensures AskMetadata(m, [c] + rest) == AskMetadata(m[(c.ns, c.key) := c.value], rest)
      && AskMetadata(m, [] + rest) == AskMetadata(m, rest)
  {
    assert ([c] + rest)[1..] == rest && [] + rest == rest;
  }

  lemma MoreMetadata(h: Handle, ms: seq<Mutation>)
    requires ms != []
    ensures AskMetadata(Asked(h, ms[0]).metadata, MetadataOf(ms[1..])) == AskMetadata(h.metadata, MetadataOf(ms))
  {
    var m, rest := ms[0], MetadataOf(ms[1..]);
    if m.OfMetadata? {
      FirstMetadata(h.metadata, m.metadata, rest);
      assert MetadataOf(ms) == [m.metadata] + rest;
    } else {
      assert MetadataOf(ms) == [] + rest == rest;
      assert Asked(h, m).metadata == h.metadata;
    }
  }

  // ---------------------------------------------------------------------------------------------
  // Flush

  /** The handle calls of one flush after a list of Writer calls on a filter with empty queues. */
  function Flushed(f: Filter, ms: seq<Mutation>, continueReq: bool): seq<Effect> {
    Outcome(EnqueueAll(f, ms), continueReq)
  }

  /** A new body in Envoy's buffer, with its length as content-length. */
  function WithBody(h: Handle, body: Option<Bytes>): Handle {
    match body
    case None => h
    case Some(data) => h.(body := body, headers := h.headers[Fold("content-length") := [Itoa(|data|)]])
  }

  function Resumed(h: Handle, continueReq: bool): Handle {
    if continueReq then h.(continued := h.continued + 1) else h
  }

  /**
   A flush does to the handle what the Writer calls asked for, in their own order, then removes the framing headers
   if a replaceable body follows, writes the last new body if the mode allows one and Envoy has a buffer, and
   resumes the request if told to. When one of the calls
   rejects, the handle sees the first response and nothing else.
   */
  lemma FlushDoesWhatWasAsked(f: Filter, ms: seq<Mutation>, continueReq: bool, h: Handle)
    requires f.work == NO_WORK
    ensures Flush(EnqueueAll(f, ms), continueReq).trace == f.trace + Flushed(f, ms, continueReq)
    ensures var h' := Play(h, Flushed(f, ms, continueReq));
      match FirstReply(ms)
      case Some(r) => h' == h.(replies := h.replies + [r])
      case None =>
        var body := if f.cfg.mutableBody && f.buffered.Some? then LastBody(None, ms) else None;
        h' == Resumed(WithBody(Unframed(AskAll(h, ms), f.strip), body), continueReq)
  {
    QueuedSorted(f, ms);
    match FirstReply(ms)
    case Some(r) => PlayOne(h, ResponseSent(r));
    case None => AcceptedFlush(f, ms, continueReq, h);
  }

  lemma AcceptedFlush(f: Filter, ms: seq<Mutation>, continueReq: bool, h: Handle)
    requires f.work == NO_WORK && FirstReply(ms).None?
    ensures var body := if f.cfg.mutableBody && f.buffered.Some? then LastBody(None, ms) else None;
      Play(h, Flushed(f, ms, continueReq)) == Resumed(WithBody(Unframed(AskAll(h, ms), f.strip), body), continueReq)
  {
    var g := EnqueueAll(f, ms);
    var queued, last := QueueEffects(Sorted(ms), f.strip), if continueReq then [RequestContinued] else [];
    QueuedSorted(f, ms);
    assert Flushed(f, ms, continueReq) == queued + ReplacementEffects(g) + last;
    PlayConcat(h, queued + ReplacementEffects(g), last);
    PlayConcat(h, queued, ReplacementEffects(g));
    PlayQueues(h, Sorted(ms), f.strip);
    KindsCommute(h, ms);
    var asked := Unframed(AskAll(h, ms), f.strip);
    PlayBody(asked, g);
    PlayLast(Play(asked, ReplacementEffects(g)), continueReq);
  }

  lemma PlayBody(h: Handle, g: Filter)
    ensures Play(h, ReplacementEffects(g)) == WithBody(h, if g.buffered.Some? then g.work.replacement else None)
  {
    if g.work.replacement.Some? && g.buffered.Some? {
      var v := g.work.replacement.value;
      PlayTwo(h, BufferReplaced(v), HeaderSet(CONTENT_LENGTH, Itoa(|v|)));
    }
  }

  lemma PlayLast(h: Handle, continueReq: bool)
    ensures Play(h, if continueReq then [RequestContinued] else []) == Resumed(h, continueReq)
  {
    if continueReq { PlayOne(h, RequestContinued); }
  }

  lemma QueuedSorted(f: Filter, ms: seq<Mutation>)
    requires f.work == NO_WORK
    ensures EnqueueAll(f, ms).work.queues == Sorted(ms) && EnqueueAll(f, ms).work.localReply == FirstReply(ms)
    ensures EnqueueAll(f, ms).work.replacement == if f.cfg.mutableBody then LastBody(None, ms) else None
  {
    QueuesAreProjections(NO_WORK, f.cfg.mutableBody, ms);
  }

  lemma PlayOne(h: Handle, e: Effect)
    ensures Play(h, [e]) == OnHandle(h, e)
  {
    assert [e][1..] == [];
  }

  lemma PlayTwo(h: Handle, a: Effect, b: Effect)
    ensures Play(h, [a, b]) == OnHandle(OnHandle(h, a), b)
  {
    assert [a, b][1..] == [b];
    PlayOne(OnHandle(h, a), b);
  }

  /** The filter's idea of Envoy's buffer is the buffer that the handle calls of a flush leave. */
  lemma BufferFollowsHandle(f: Filter, h: Handle)
    requires h.body == f.buffered
    ensures Flush(f, false).buffered == Play(h, Outcome(f, false)).body
  {
    if f.work.localReply.Some? {
      PlayOne(h, ResponseSent(f.work.localReply.value));
    } else {
      var queued := QueueEffects(f.work.queues, f.strip);
      assert Outcome(f, false) == queued + ReplacementEffects(f);
      PlayConcat(h, queued, ReplacementEffects(f));
      PlayQueues(h, f.work.queues, f.strip);
      PlayBody(Play(h, queued), f);
    }
  }

  /** In particular Set assigns a gauge, Increment adds to it and Decrement subtracts. */
  lemma GaugeCalls(f: Filter, h: Handle, id: nat, v: nat)
    requires f.work == NO_WORK && !f.strip
    ensures Gauge(Play(h, Flushed(f, [OfGauge(GaugeMutation(id, v, OpSet))], false)).gauges, id) == v
    ensures Gauge(Play(h, Flushed(f, [OfGauge(GaugeMutation(id, v, OpIncrement))], false)).gauges, id)
      == Gauge(h.gauges, id) + v
    ensures Gauge(Play(h, Flushed(f, [OfGauge(GaugeMutation(id, v, OpDecrement))], false)).gauges, id)
      == Gauge(h.gauges, id) - v
  {
    OneGaugeCall(f, h, GaugeMutation(id, v, OpSet));
    OneGaugeCall(f, h, GaugeMutation(id, v, OpIncrement));
    OneGaugeCall(f, h, GaugeMutation(id, v, OpDecrement));
  }

  lemma OneGaugeCall(f: Filter, h: Handle, g: GaugeMutation)
    requires f.work == NO_WORK && !f.strip
    ensures Play(h, Flushed(f, [OfGauge(g)], false)).gauges == GaugeAsked(h.gauges, g)
  {
    FlushDoesWhatWasAsked(f, [OfGauge(g)], false, h);
    assert [OfGauge(g)][1..] == [];
  }
}
