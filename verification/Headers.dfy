/**
 Request headers: the view a handler sees while its mutations are still queued, and the framing headers of a
 replaceable body. Envoy's header map is a multimap from case-folded names to value sequences.
 */
module Headers {
  import opened Common
  import opened FilterSpec
  import opened Handoff
  import opened HandoffRuns

  type HeaderMap = map<string, seq<string>>
  type HeaderList = seq<(string, string)>

  function Lookup(m: HeaderMap, name: string): seq<string> {
    if Fold(name) in m then m[Fold(name)] else []
  }

  /** Set replaces, Add appends, Remove deletes all values of a name. */
  function ApplyEffect(m: HeaderMap, e: Effect): HeaderMap {
    match e
    case HeaderSet(name, value) => m[Fold(name) := [value]]
    case HeaderAdd(name, value) => m[Fold(name) := Lookup(m, name) + [value]]
    case HeaderRemove(name) => m - {Fold(name)}
    case _ => m
  }

  function HeadersAfter(m: HeaderMap, trace: seq<Effect>): HeaderMap
    decreases |trace|
  {
    if trace == [] then m else HeadersAfter(ApplyEffect(m, trace[0]), trace[1..])
  }

  lemma {:induction false} HeadersAfterConcat(m: HeaderMap, a: seq<Effect>, b: seq<Effect>)
    ensures HeadersAfter(m, a + b) == HeadersAfter(HeadersAfter(m, a), b)
    decreases |a|
  {
    if a == [] {
      assert a + b == b;
    } else {
      assert (a + b)[1..] == a[1..] + b;
      HeadersAfterConcat(ApplyEffect(m, a[0]), a[1..], b);
    }
  }

  // ---------------------------------------------------------------------------------------------
  // The queued view

  predicate SameName(a: string, b: string) {
    Fold(a) == Fold(b)
  }

  /** All values of a name, in order. */
  function Values(hs: HeaderList, name: string): seq<string> {
    if hs == [] then []
    else (if SameName(hs[0].0, name) then [hs[0].1] else []) + Values(hs[1..], name)
  }

  function Without(hs: HeaderList, name: string): HeaderList {
    if hs == [] then []
    else (if SameName(hs[0].0, name) then [] else [hs[0]]) + Without(hs[1..], name)
  }

  function ApplyToList(hs: HeaderList, m: HeaderMutation): HeaderList {
    if m.del then Without(hs, m.name)
    else if m.add then hs + [(m.name, m.value)]
    else Without(hs, m.name) + [(m.name, m.value)]
  }

  function View(hs: HeaderList, ms: seq<HeaderMutation>): HeaderList
    decreases |ms|
  {
    if ms == [] then hs else View(ApplyToList(hs, ms[0]), ms[1..])
  }

  /** A header list and a header map hold the same values for every name. */
  ghost predicate Agree(hs: HeaderList, m: HeaderMap) {
    forall name :: Values(hs, name) == Lookup(m, name)
  }

  lemma {:induction false} ValuesConcat(hs: HeaderList, gs: HeaderList, name: string)
    ensures Values(hs + gs, name) == Values(hs, name) + Values(gs, name)
  {
    if hs == [] {
      assert hs + gs == gs;
    } else {
      assert (hs + gs)[1..] == hs[1..] + gs;
      ValuesConcat(hs[1..], gs, name);
    }
  }

  lemma {:induction false} ValuesWithout(hs: HeaderList, removed: string, name: string)
    ensures Values(Without(hs, removed), name) == if SameName(removed, name) then [] else Values(hs, name)
  {
    if hs != [] {
      ValuesWithout(hs[1..], removed, name);
      ValuesConcat(if SameName(hs[0].0, removed) then [] else [hs[0]], Without(hs[1..], removed), name);
    }
  }

  lemma MutationAgrees(hs: HeaderList, m: HeaderMap, mut: HeaderMutation)
    requires Agree(hs, m)
    ensures Agree(ApplyToList(hs, mut), ApplyEffect(m, HeaderEffect(mut)))
  {
    if mut.del {
      RemovedAgrees(hs, m, mut.name);
    } else if mut.add {
      AddedAgrees(hs, m, mut.name, mut.value);
    } else {
      RemovedAgrees(hs, m, mut.name);
      var m1 := m - {Fold(mut.name)};
      AddedAgrees(Without(hs, mut.name), m1, mut.name, mut.value);
      assert Lookup(m1, mut.name) + [mut.value] == [mut.value];
      assert m1[Fold(mut.name) := [mut.value]] == m[Fold(mut.name) := [mut.value]];
    }
  }

  lemma RemovedAgrees(hs: HeaderList, m: HeaderMap, removed: string)
    requires Agree(hs, m)
    ensures Agree(Without(hs, removed), m - {Fold(removed)})
  {
    forall name ensures Values(Without(hs, removed), name) == Lookup(m - {Fold(removed)}, name) {
      assert Values(hs, name) == Lookup(m, name);
      ValuesWithout(hs, removed, name);
    }
  }

  lemma AddedAgrees(hs: HeaderList, m: HeaderMap, added: string, value: string)
    requires Agree(hs, m)
    ensures Agree(hs + [(added, value)], m[Fold(added) := Lookup(m, added) + [value]])
  {
    var m' := m[Fold(added) := Lookup(m, added) + [value]];
    forall name ensures Values(hs + [(added, value)], name) == Lookup(m', name) {
      assert Values(hs, name) == Lookup(m, name);
      ValuesConcat(hs, [(added, value)], name);
      OneValue(added, value, name);
    }
  }

  lemma OneValue(added: string, value: string, name: string)
    ensures Values([(added, value)], name) == if SameName(added, name) then [value] else []
  {
    assert [(added, value)][1..] == [];
  }

  lemma {:induction false} ViewAgrees(hs: HeaderList, m: HeaderMap, ms: seq<HeaderMutation>)
    requires Agree(hs, m)
    ensures Agree(View(hs, ms), HeadersAfter(m, HeaderEffects(ms)))
    decreases |ms|
  {
    if ms != [] {
      MutationAgrees(hs, m, ms[0]);
      assert HeaderEffects(ms)[1..] == HeaderEffects(ms[1..]);
      ViewAgrees(ApplyToList(hs, ms[0]), ApplyEffect(m, HeaderEffect(ms[0])), ms[1..]);
    }
  }

  lemma {:induction false} OtherEffectsKeepHeaders(m: HeaderMap, trace: seq<Effect>)
    requires forall e | e in trace :: !e.HeaderSet? && !e.HeaderAdd? && !e.HeaderRemove?
    ensures HeadersAfter(m, trace) == m
    decreases |trace|
  {
    if trace != [] { OtherEffectsKeepHeaders(m, trace[1..]); }
  }

  /** The headers after one flush: the queued header mutations, then the framing strip, then the new body's length. */
  lemma FlushHeaders(f: Filter, continueReq: bool, m: HeaderMap)
    requires f.work.localReply.None?
    ensures HeadersAfter(m, Outcome(f, continueReq)) ==
      HeadersAfter(HeadersAfter(HeadersAfter(m, HeaderEffects(f.work.queues.headers)), StripEffects(f.strip)),
        ReplacementEffects(f))
  {
    var queued, replaced := QueueEffects(f.work.queues, f.strip), ReplacementEffects(f);
    var last := if continueReq then [RequestContinued] else [];
    QueueHeaders(f.work.queues, f.strip, m);
    HeadersAfterConcat(m, queued, replaced);
    HeadersAfterConcat(m, queued + replaced, last);
    OtherEffectsKeepHeaders(HeadersAfter(m, queued + replaced), last);
  }

  /** Of the queues, only the header mutations and the strip reach the header map. */
  lemma QueueHeaders(q: Queues, strip: bool, m: HeaderMap)
    ensures HeadersAfter(m, QueueEffects(q, strip))
      == HeadersAfter(HeadersAfter(m, HeaderEffects(q.headers)), StripEffects(strip))
  {
    var head := HeaderEffects(q.headers) + StripEffects(strip);
    QueueSplits(q, strip);
    HeadersAfterConcat(m, HeaderEffects(q.headers), StripEffects(strip));
    HeadersAfterConcat(m, head, OtherEffects(q));
    OthersAreNoHeaders(q);
    OtherEffectsKeepHeaders(HeadersAfter(m, head), OtherEffects(q));
  }

  function OtherEffects(q: Queues): seq<Effect> {
    StateEffects(q.state) + CounterEffects(q.counters) + GaugeEffects(q.gauges)
    + HistogramEffects(q.histograms) + MetadataEffects(q.metadata) + OverrideEffects(q.override)
  }

  lemma QueueSplits(q: Queues, strip: bool)
    ensures QueueEffects(q, strip) == (HeaderEffects(q.headers) + StripEffects(strip)) + OtherEffects(q)
  {
  }

  lemma OthersAreNoHeaders(q: Queues)
    ensures forall e | e in OtherEffects(q) :: !e.HeaderSet? && !e.HeaderAdd? && !e.HeaderRemove?
  {
  }

  /**
   The view shows what the flush will do: for every name, RequestHeaders lists the values that Envoy's map
   holds after the flush, when no local response is pending, no framing strip applies and no body is replaced.
   */
  lemma ViewMatchesFlush(f: Filter, continueReq: bool, hs: HeaderList, m: HeaderMap)
    requires Agree(hs, m)
    requires f.work.localReply.None? && !f.strip && f.work.replacement.None?
    ensures Agree(View(hs, f.work.queues.headers), HeadersAfter(m, Outcome(f, continueReq)))
  {
    FlushHeaders(f, continueReq, m);
    ViewAgrees(hs, m, f.work.queues.headers);
  }

  // ---------------------------------------------------------------------------------------------
  // The view as computed: in-place compaction over one buffer

  lemma {:induction false} WithoutConcat(hs: HeaderList, gs: HeaderList, name: string)
    ensures Without(hs + gs, name) == Without(hs, name) + Without(gs, name)
  {
    if hs == [] {
      assert hs + gs == gs;
    } else {
      assert (hs + gs)[1..] == hs[1..] + gs;
      WithoutConcat(hs[1..], gs, name);
    }
  }

  /** removeRequestHeader: keeps the other entries of the first n, compacted to the front of the same array. */
  method RemoveRequestHeader(a: array<(string, string)>, n: nat, name: string) returns (k: nat)
    requires n <= a.Length
    modifies a
    ensures k <= n && a[..k] == Without(old(a[..n]), name)
  {
    k := 0;
    ghost var hs := a[..n];
    for i := 0 to n
      invariant k <= i
      invariant a[..k] == Without(hs[..i], name)
      invariant a[i..n] == hs[i..]
    {
      assert hs[..i + 1] == hs[..i] + [hs[i]];
      WithoutConcat(hs[..i], [hs[i]], name);
      var h := a[i];
      assert h == a[i..n][0] == hs[i];
      if Fold(h.0) != Fold(name) {
        a[k] := h;
        k := k + 1;
      }
      assert a[i + 1..n] == hs[i + 1..];
    }
    assert hs[..n] == hs;
  }

  method ApplyRequestHeaderMutation(a: array<(string, string)>, n: nat, m: HeaderMutation) returns (k: nat)
    requires n < a.Length
    modifies a
    ensures k <= n + 1 && a[..k] == ApplyToList(old(a[..n]), m)
  {
    if m.del {
      k := RemoveRequestHeader(a, n, m.name);
      return;
    }
    k := n;
    if !m.add { k := RemoveRequestHeader(a, n, m.name); }
    a[k] := (m.name, m.value);
    k := k + 1;
  }

  /** Writer.RequestHeaders: Envoy's current headers with every queued mutation applied to a copy. */
  method RequestHeaders(raw: HeaderList, queued: seq<HeaderMutation>) returns (view: HeaderList)
    ensures view == View(raw, queued)
  {
    var a := new (string, string)[|raw| + |queued|](_ => ("", ""));
    for i := 0 to |raw|
      invariant a[..i] == raw[..i]
    {
      a[i] := raw[i];
    }
    var n: nat := |raw|;
    assert raw[..|raw|] == raw && queued[0..] == queued;
    for j := 0 to |queued|
      invariant n <= |raw| + j
      invariant View(a[..n], queued[j..]) == View(raw, queued)
    {
      assert queued[j..][1..] == queued[j + 1..];
      n := ApplyRequestHeaderMutation(a, n, queued[j]);
    }
    view := a[..n];
  }

  // ---------------------------------------------------------------------------------------------
  // Framing of a replaceable body

  lemma StripClears(m: HeaderMap)
    ensures Lookup(HeadersAfter(m, StripEffects(true)), CONTENT_LENGTH) == []
    ensures Lookup(HeadersAfter(m, StripEffects(true)), TRANSFER_ENCODING) == []
  {
    var s := StripEffects(true);
    assert s[1..] == [HeaderRemove(TRANSFER_ENCODING)];
    assert s[1..][1..] == [];
    assert HeadersAfter(m, s) == m - {Fold(CONTENT_LENGTH)} - {Fold(TRANSFER_ENCODING)};
  }

  lemma SetShows(m: HeaderMap, trace: seq<Effect>, value: string)
    ensures Lookup(HeadersAfter(m, trace + [HeaderSet(CONTENT_LENGTH, value)]), CONTENT_LENGTH) == [value]
  {
    HeadersAfterConcat(m, trace, [HeaderSet(CONTENT_LENGTH, value)]);
    assert HeadersAfter(HeadersAfter(m, trace), [HeaderSet(CONTENT_LENGTH, value)])
        == HeadersAfter(m, trace)[Fold(CONTENT_LENGTH) := [value]];
  }

  lemma NamesDiffer()
    ensures Fold(CONTENT_LENGTH) != Fold(TRANSFER_ENCODING)
  {
    assert |Fold(CONTENT_LENGTH)| == 14 && |Fold(TRANSFER_ENCODING)| == 17;
  }

  /**
   A flush with the strip mark leaves no transfer-encoding whatever the handler queued, and no content-length
   either, except when it writes a replacement body into an existing buffer; then content-length is that
   body's length.
   */
  lemma FlushStripsFraming(f: Filter, continueReq: bool, m: HeaderMap)
    requires f.work.localReply.None? && f.strip
    ensures var h := HeadersAfter(m, Outcome(f, continueReq));
      && Lookup(h, "transfer-encoding") == []
      && Lookup(h, "content-length") ==
           (if f.work.replacement.Some? && f.buffered.Some? then [Itoa(|f.work.replacement.value|)] else [])
  {
    FlushHeaders(f, continueReq, m);
    NamesDiffer();
    var m1 := HeadersAfter(m, HeaderEffects(f.work.queues.headers));
    StripClears(m1);
    var m2 := HeadersAfter(m1, StripEffects(true));
    if f.work.replacement.Some? && f.buffered.Some? {
      var v := Itoa(|f.work.replacement.value|);
      SetShows(m2, [BufferReplaced(f.work.replacement.value)], v);
      assert ReplacementEffects(f) == [BufferReplaced(f.work.replacement.value)] + [HeaderSet(CONTENT_LENGTH, v)];
      HeadersAfterConcat(m2, [BufferReplaced(f.work.replacement.value)], [HeaderSet(CONTENT_LENGTH, v)]);
      OtherEffectsKeepHeaders(m2, [BufferReplaced(f.work.replacement.value)]);
      assert HeadersAfter(m2, [HeaderSet(CONTENT_LENGTH, v)]) == m2[Fold(CONTENT_LENGTH) := [v]];
    }
  }

  /**
   In mutable buffered mode no framing header survives the header phase, for every handler that neither rejects nor
   waits.
   */
  lemma HeaderPhaseStripsFraming(cfg: Config, script: seq<Action>, m: HeaderMap)
    requires cfg == Config(true, true, true) && LegalScript(NEW_WRITER, script) && GoAsync !in script
    requires !LeavesPending(NewStream(cfg), script) && FirstReply(ScriptMutations(NEW_WRITER, script)).None?
    ensures var (s, status) := OnRequestHeaders(NewStream(cfg), script, [], false);
      && status == Stop
      && Lookup(HeadersAfter(m, s.f.trace), "content-length") == []
      && Lookup(HeadersAfter(m, s.f.trace), "transfer-encoding") == []
  {
    AfterScript(NewStream(cfg), script);
    SingleSlots(NO_WORK, true, ScriptMutations(NEW_WRITER, script));
    var (s0, w) := RunScript(NewStream(cfg), NEW_WRITER, script);
    var s1 := MarkStrip(s0, false);
    assert s1 == s0.(f := s0.f.(strip := true));
    ConcludeOutcome(s1, w);
    FlushStripsFraming(s1.f, false, m);
    assert s1.f.buffered.None? && s1.f.trace == [];
    assert OnRequestHeaders(NewStream(cfg), script, [], false).0.f == Conclude(s1.f, w);
    assert [] + Outcome(s1.f, false) == Outcome(s1.f, false);
  }

  lemma SameNumeral(a: nat, b: nat)
    ensures Itoa(a) == Itoa(b) <==> a == b
  {
    ItoaReadsBack(a);
    ItoaReadsBack(b);
  }

  /** The bytes whose length OnRequestBody declares. */
  function Declared(q: Filter, data: Bytes): Bytes {
    if q.work.replacement.Some? then q.work.replacement.value else data
  }

  lemma BodyForwarded(s: Stream, w: Writer, frame: Bytes)
    requires Handling(s, w) && !w.goStarted && !(w.calloutStarted && Armed(s))
    requires s.f.cfg.bufferBody && s.f.cfg.mutableBody && s.f.work.localReply.None? && !s.f.work.stopped
    ensures var (s', status, forwarded) := BodyEnd(s, w, frame, BodyData(s.f, frame));
      var declared := Declared(s.f, BodyData(s.f, frame));
      && status == Continue
      && (|forwarded| == |declared| <==> Contents(s.f.buffered) == [] || frame == [])
      && (|forwarded| == |declared| ==> forwarded == declared)
  {
    var s1 := s.(f := FlushCompleted(s.f, w));
    if s1.f.work.replacement.Some? {
      ReplacedForwarded(s1, frame);
    } else {
      KeptForwarded(s1, frame);
    }
  }

  lemma ReplacedForwarded(s: Stream, frame: Bytes)
    requires s.f.work.localReply.None? && !s.f.work.stopped && s.f.work.replacement.Some?
    ensures var (s', status, forwarded) := ReplacedBodyEnd(s, frame);
      && status == Continue
      && forwarded == (if Contents(s.f.buffered) != [] then s.f.work.replacement.value + frame
        else s.f.work.replacement.value)
  {
  }

  lemma KeptForwarded(s: Stream, frame: Bytes)
    requires s.f.cfg.bufferBody && s.f.work.localReply.None? && !s.f.work.stopped && s.f.work.replacement.None?
    ensures var (s', status, forwarded) := KeptBodyEnd(s, frame, BodyData(s.f, frame));
      status == Continue && forwarded == Contents(s.f.buffered) + frame
  {
  }

  /**
   In mutable buffered mode, when OnRequestBody returns Continue on the last frame, the content-length header
   is the length of the body Envoy forwards, replaced or not, exactly when Envoy's buffer or the frame is
   empty.
   */
  lemma ContentLengthMatchesBody(s: Stream, frame: Bytes, script: seq<Action>, m: HeaderMap)
    requires s.f.cfg == Config(true, true, true) && Ready(s) && LegalScript(NEW_WRITER, script) && GoAsync !in script
    requires !LeavesPending(s, script) && FirstReply(ScriptMutations(NEW_WRITER, script)).None?
    ensures var (s', status, forwarded) := OnRequestBody(s, frame, true, script);
      && status == Continue
      && (Lookup(HeadersAfter(m, s'.f.trace), "content-length") == [Itoa(|forwarded|)]
          <==> Contents(s.f.buffered) == [] || frame == [])
  {
    AfterScript(s, script);
    SingleSlots(s.f.work, true, ScriptMutations(NEW_WRITER, script));
    var (s1, w) := RunScript(s, NEW_WRITER, script);
    ConcludeOutcome(s1, w);
    EndLength(s1, w, frame, m);
  }

  /** A request on which the two differ: a buffered frame and a last frame that is not empty. */
  lemma ContentLengthCanBeWrong(m: HeaderMap)
    ensures var s := OnRequestHeaders(NewStream(Config(true, true, true)), [], [], false).0;
      var s1 := OnRequestBody(s, [1], false, []).0;
      var (s2, status, forwarded) := OnRequestBody(s1, [2], true, []);
      && status == Continue && forwarded == [1, 2]
      && Lookup(HeadersAfter(m, s2.f.trace), "content-length") != [Itoa(2)]
  {
    var s := OnRequestHeaders(NewStream(Config(true, true, true)), [], [], false).0;
    var s1 := OnRequestBody(s, [1], false, []).0;
    var one: Bytes := [1];
    assert [] + one == one;
    assert s1.f.buffered == Some([1]) && Ready(s1);
    ContentLengthMatchesBody(s1, [2], [], m);
    KeptForwarded(s1, [2]);
  }

  lemma EndLength(s1: Stream, w: Writer, frame: Bytes, m: HeaderMap)
    requires Handling(s1, w) && !w.goStarted && !(w.calloutStarted && Armed(s1))
    requires s1.f.cfg.bufferBody && s1.f.cfg.mutableBody && s1.f.work.localReply.None? && !s1.f.work.stopped
    ensures var (s', status, forwarded) := BodyEnd(s1, w, frame, BodyData(s1.f, frame));
      && status == Continue
      && (Lookup(HeadersAfter(m, s'.f.trace), CONTENT_LENGTH) == [Itoa(|forwarded|)]
          <==> Contents(s1.f.buffered) == [] || frame == [])
  {
    var data := BodyData(s1.f, frame);
    BodyEndOutcome(s1, w, frame, data);
    BodyForwarded(s1, w, frame);
    DeclaredLast(s1.f, data);
    var declared := Declared(s1.f, data);
    var body := BodyOutcome(s1.f, data);
    var before := s1.f.trace + body[..|body| - 1];
    assert s1.f.trace + body == before + [HeaderSet(CONTENT_LENGTH, Itoa(|declared|))];
    SetShows(m, before, Itoa(|declared|));
    SameNumeral(|declared|, |BodyEnd(s1, w, frame, data).2|);
  }

  /** The last call of the body callback writes the declared length. */
  lemma DeclaredLast(q: Filter, data: Bytes)
    requires q.cfg.bufferBody && q.cfg.mutableBody && q.work.localReply.None?
    ensures var t := BodyOutcome(q, data);
      |t| > 0 && t[|t| - 1] == HeaderSet(CONTENT_LENGTH, Itoa(|Declared(q, data)|))
  {
  }
}
