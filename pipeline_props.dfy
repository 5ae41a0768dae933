/**
 * What the loop of umd2.py's `main` guarantees, line by line and over whole
 * streams: how lines are recognised, what a counter frame does to the state,
 * which frames produce a record or an FFT snapshot, and how deltas, the
 * position and the moving-average buffer relate to the counter values seen.
 */
module PipelineProps {

  import opened Options
  import opened Text
  import opened HeaderLine
  import opened Tokens
  import opened Calc
  import opened Pipeline

  // ---- Recognising lines ----

  /** A line is skipped as blank exactly when it is all whitespace. */
  lemma ClassifyBlank(cfg: Config, raw: string)
    ensures Classify(cfg, raw) == Blank <==> All(raw, IsSpace)
  {
    StripEmptyIff(raw);
  }

  /** A line is an announcement exactly when its stripped text matches the
      header pattern with a nonzero value; the value is then positive and is
      the one written in the line. A matching line announcing 0 is not an
      announcement. */
  lemma ClassifyHeader(cfg: Config, raw: string)
    ensures Classify(cfg, raw).Header? <==>
              !All(raw, IsSpace) && MaybeExtractFs(Strip(raw)).Some? && MaybeExtractFs(Strip(raw)).value != 0.0
    ensures Classify(cfg, raw).Header? ==>
              Classify(cfg, raw).fs > 0.0 && MaybeExtractFs(Strip(raw)) == Some(Classify(cfg, raw).fs)
  {
    StripEmptyIff(raw);
  }

  /** Any other nonblank line is a counter frame exactly when its tokens hold
      `DIFF` or `D`; the counter is `DIFF` when present, otherwise `D`; the
      sequence number is `N`, 0 when absent; the secondary axis is read only
      when enabled. */
  lemma ClassifyCounter(cfg: Config, raw: string)
    requires !All(raw, IsSpace)
    requires MaybeExtractFs(Strip(raw)).None? || MaybeExtractFs(Strip(raw)).value == 0.0
    ensures var toks := TokenMap(Strip(raw));
            && (Classify(cfg, raw).Data? <==> "DIFF" in toks || "D" in toks)
            && (Classify(cfg, raw).NoCounter? <==> "DIFF" !in toks && "D" !in toks)
            && ("DIFF" in toks ==> Classify(cfg, raw).frame.d == ToInt(toks["DIFF"]))
            && ("DIFF" !in toks && "D" in toks ==> Classify(cfg, raw).frame.d == ToInt(toks["D"]))
            && (Classify(cfg, raw).Data? ==> Classify(cfg, raw).frame.n == (if "N" in toks then ToInt(toks["N"]) else 0))
            && (Classify(cfg, raw).Data? && !cfg.enableXY ==> Classify(cfg, raw).frame.x2.None? && Classify(cfg, raw).frame.y2.None?)
  {
    StripEmptyIff(raw);
  }

  // ---- One line ----

  /** A blank line or a line without counter changes nothing and yields
      nothing. */
  lemma SkipChangesNothing(cfg: Config, st: State, kind: LineKind)
    requires kind.Blank? || kind.NoCounter?
    ensures StepOn(cfg, st, kind) == Outcome(st, None, None)
  {
  }

  /** An announcement replaces the frequency, whatever it was (also one given
      on the command line), changes nothing else and yields nothing. */
  lemma HeaderSetsFrequency(cfg: Config, st: State, fs: real)
    ensures var o := StepOn(cfg, st, Header(fs));
            o.state.fsHz == fs && o.state.(fsHz := st.fsHz) == st && o.record.None? && o.snapshot.None?
  {
  }

  /** What a counter frame does to the loop variables: the counter is
      remembered, the position integrates the step and then takes the
      straightness factor, the frequency defaults to 1000 Hz only when still
      unset, the average and the deque take the new position, and the
      emission counter counts the frames the emit policy keeps. */
  lemma AdvanceState(cfg: Config, st: State, f: Frame)
    requires Inv(cfg, st)
    ensures var o := Advance(cfg, st, f);
            var dD := DeltaOf(st.prevD, f.d);
            && o.state.prevD == Some(f.d)
            && o.state.xNm == (st.xNm + StepPerCount(cfg) * dD as real) * cfg.straightMult
            && o.state.fsHz == (if st.fsHz <= 0.0 then 1000.0 else st.fsHz)
            && o.state.fsHz > 0.0
            && (cfg.emaAlpha > 0.0 ==> o.state.emaX == Some(EmaNext(st.emaX, o.state.xNm, cfg.emaAlpha)))
            && (cfg.emaAlpha <= 0.0 ==> o.state.emaX.None?)
            && (cfg.maWindow > 0 ==> o.state.maBuf == Last(st.maBuf + [o.state.xNm], cfg.maWindow))
            && (cfg.maWindow <= 0 ==> o.state.maBuf == [])
            && o.state.emitted == st.emitted + (if Stepped(cfg, dD) then 1 else 0)
  {
  }

  /** The fields of every record a frame yields, as the loop computes them. */
  predicate RecordSound(cfg: Config, r: Record)
  {
    && r.fsHz > 0.0
    && r.stepNm == StepPerCount(cfg) * r.deltaD as real
    && r.vNmS == r.stepNm * r.fsHz
    && r.xNmEnv == ApplyEnv(r.xNm, cfg.env)
    && (r.xNmEma.Some? <==> cfg.emaAlpha > 0.0)
    && (cfg.emaAlpha == 1.0 ==> r.xNmEma == Some(r.xNm))
    && (r.xNmMa.Some? <==> cfg.maWindow > 0)
    && (r.angleDeg.Some? <==> cfg.mode == AngleMode)
    && (r.angleDeg.Some? ==> r.angleDeg.value == AngleFromDisplacement(r.xNm, cfg.angleNormNm, cfg.angleCorr))
    && (!cfg.enableXY ==> r.x2.None? && r.y2.None?)
    && (cfg.emit == OnStep ==> r.deltaD != 0)
  }

  /** A record carries the frame's values and the new position, and each of
      its derived fields is what the loop computes. */
  lemma AdvanceRecord(cfg: Config, st: State, f: Frame)
    requires !cfg.enableXY ==> f.x2.None? && f.y2.None?
    ensures var o := Advance(cfg, st, f);
            o.record.Some? ==>
              && RecordSound(cfg, o.record.value)
              && o.record.value.seqNo == f.n && o.record.value.d == f.d
              && o.record.value.deltaD == DeltaOf(st.prevD, f.d)
              && o.record.value.xNm == o.state.xNm
              && o.record.value.fsHz == o.state.fsHz
              && (cfg.maWindow > 0 ==> o.record.value.xNmMa == Some(Mean(o.state.maBuf)))
              && (cfg.emaAlpha > 0.0 ==> o.record.value.xNmEma == o.state.emaX)
  {
  }

  /** Which frames are output: the emit policy (`onstep` keeps a frame exactly
      when the counter moved), then decimation on the emission counter. With
      `every` and no decimation every frame is output. */
  lemma AdvanceEmission(cfg: Config, st: State, f: Frame)
    ensures var o := Advance(cfg, st, f);
            var dD := DeltaOf(st.prevD, f.d);
            && (o.record.Some? <==> Stepped(cfg, dD) && (cfg.decimate <= 1 || o.state.emitted % cfg.decimate == 0))
            && (cfg.emit == OnStep && cfg.decimate <= 1 ==> (o.record.Some? <==> dD != 0))
            && (cfg.emit == Every && cfg.decimate <= 1 ==> o.record.Some?)
            && (cfg.decimate > 1 && Stepped(cfg, dD) ==> (o.record.Some? <==> o.state.emitted % cfg.decimate == 0))
  {
  }

  /** The FFT buffer grows by one value per output record while enabled, and
      a snapshot is taken exactly when a record is output, the buffer holds
      at least `fft_len` values and the emission counter is a multiple of
      `fft_every`; it covers the last `fft_len` values. */
  lemma AdvanceFft(cfg: Config, st: State, f: Frame)
    ensures var o := Advance(cfg, st, f);
            && (o.snapshot.Some? <==>
                  o.record.Some? && FftOn(cfg) && |o.state.fftBuf| >= cfg.fftLen && o.state.emitted % cfg.fftEvery == 0)
            && (o.record.Some? && FftOn(cfg) ==>
                  o.state.fftBuf == st.fftBuf + [if cfg.fftSignal == SignalX then o.record.value.xNm else o.record.value.vNmS])
            && (o.record.None? || !FftOn(cfg) ==> o.state.fftBuf == st.fftBuf)
            && (o.snapshot.Some? ==>
                  |o.snapshot.value.window| == cfg.fftLen
                  && o.snapshot.value.window == Last(o.state.fftBuf, cfg.fftLen)
                  && o.snapshot.value.fsHz == o.state.fsHz)
  {
  }

  // ---- Whole streams ----

  /** The counter values of the frames among `kinds`, in order. */
  function Counters(kinds: seq<LineKind>): seq<int>
    decreases |kinds|
  {
    if kinds == [] then []
    else if kinds[|kinds| - 1].Data? then Counters(kinds[..|kinds| - 1]) + [kinds[|kinds| - 1].frame.d]
    else Counters(kinds[..|kinds| - 1])
  }

  /** The records among the outputs, in order. */
  function Records(outs: seq<Output>): seq<Record>
    decreases |outs|
  {
    if outs == [] then []
    else Records(outs[..|outs| - 1]) + (if outs[|outs| - 1].SampleOut? then [outs[|outs| - 1].rec] else [])
  }

  lemma {:induction false} RecordsAppend(a: seq<Output>, b: seq<Output>)
    ensures Records(a + b) == Records(a) + Records(b)
    decreases |b|
  {
    if b == [] {
      assert a + b == a;
    } else {
      var b' := b[..|b| - 1];
      assert (a + b)[..|a + b| - 1] == a + b';
      RecordsAppend(a, b');
    }
  }

  lemma RecordsOfEmitted(o: Outcome)
    ensures Records(Emitted(o)) == (if o.record.Some? then [o.record.value] else [])
  {
    var head: seq<Output> := if o.record.Some? then [SampleOut(o.record.value)] else [];
    var tail: seq<Output> := if o.snapshot.Some? then [FftOut(o.snapshot.value)] else [];
    assert Emitted(o) == head + tail;
    RecordsAppend(head, tail);
    if o.record.Some? {
      assert head[..0] == [];
    }
    if o.snapshot.Some? {
      assert tail[..0] == [];
    }
  }

  /** The deltas the frames of a stream must report, given the counter held
      before it: zero for a first frame, the change afterwards. */
  function Deltas(prev: Option<int>, cs: seq<int>): (ds: seq<int>)
    ensures |ds| == |cs|
    decreases |cs|
  {
    if cs == [] then []
    else
      var init := cs[..|cs| - 1];
      var p := if init == [] then prev else Some(init[|init| - 1]);
      Deltas(prev, init) + [DeltaOf(p, cs[|cs| - 1])]
  }

  function SumInts(s: seq<int>): int
    decreases |s|
  {
    if s == [] then 0 else SumInts(s[..|s| - 1]) + s[|s| - 1]
  }

  /** The counter the deltas are measured from: the one held before the
      stream, else the stream's first. */
  function Base(prev: Option<int>, cs: seq<int>): int
    requires cs != []
  {
    if prev.Some? then prev.value else cs[0]
  }

  /** The deltas of a stream of frames sum to the last counter minus the base. */
  lemma {:induction false} DeltasTelescope(prev: Option<int>, cs: seq<int>)
    requires cs != []
    ensures SumInts(Deltas(prev, cs)) == cs[|cs| - 1] - Base(prev, cs)
    decreases |cs|
  {
    var init := cs[..|cs| - 1];
    var ds := Deltas(prev, cs);
    assert ds[..|ds| - 1] == Deltas(prev, init);
    if init != [] {
      DeltasTelescope(prev, init);
      assert Base(prev, init) == Base(prev, cs);
    }
  }

  /** After a stream, the held counter is the stream's last, or the one held
      before when it has no frame. */
  lemma {:induction false} RunPrevD(cfg: Config, st: State, kinds: seq<LineKind>)
    ensures var cs := Counters(kinds);
            RunOn(cfg, st, kinds).state.prevD == (if cs == [] then st.prevD else Some(cs[|cs| - 1]))
    decreases |kinds|
  {
    if kinds != [] {
      RunPrevD(cfg, st, kinds[..|kinds| - 1]);
    }
  }

  /** One line's effect on the held counter and, with straightness factor 1,
      on the position. */
  lemma StepPosition(cfg: Config, st: State, k: LineKind)
    requires cfg.straightMult == 1.0
    ensures var o := StepOn(cfg, st, k);
            && (k.Data? ==>
                  && o.state.prevD == Some(k.frame.d)
                  && o.state.xNm == st.xNm + StepPerCount(cfg) * DeltaOf(st.prevD, k.frame.d) as real)
            && (!k.Data? ==> o.state.prevD == st.prevD && o.state.xNm == st.xNm)
  {
  }

  /** With straightness factor 1, the position after a stream is the start
      position plus the step times the total counter change. */
  lemma {:induction false} RunPosition(cfg: Config, st: State, kinds: seq<LineKind>)
    requires cfg.straightMult == 1.0
    requires Counters(kinds) != []
    ensures var cs := Counters(kinds);
            RunOn(cfg, st, kinds).state.xNm ==
              st.xNm + StepPerCount(cfg) * (cs[|cs| - 1] - Base(st.prevD, cs)) as real
    decreases |kinds|
  {
    var init := kinds[..|kinds| - 1];
    var r := RunOn(cfg, st, init);
    var k := kinds[|kinds| - 1];
    var step := StepPerCount(cfg);
    var cs := Counters(kinds);
    var ci := Counters(init);
    StepPosition(cfg, r.state, k);
    RunPrevD(cfg, st, init);
    if ci == [] {
      RunFramelessKeepsPosition(cfg, st, init);
      assert k.Data? && cs == [k.frame.d];
    } else {
      RunPosition(cfg, st, init);
      if k.Data? {
        assert cs == ci + [k.frame.d];
        var b := Base(st.prevD, ci);
        assert Base(st.prevD, cs) == b;
        StepSum(step, ci[|ci| - 1] - b, k.frame.d - ci[|ci| - 1]);
      } else {
        assert cs == ci;
      }
    }
  }

  lemma StepSum(step: real, a: int, b: int)
    ensures step * a as real + step * b as real == step * (a + b) as real
  {
  }

  /** A stream without frames leaves the position alone. */
  lemma {:induction false} RunFramelessKeepsPosition(cfg: Config, st: State, kinds: seq<LineKind>)
    requires Counters(kinds) == []
    ensures RunOn(cfg, st, kinds).state.xNm == st.xNm
    ensures RunOn(cfg, st, kinds).state.prevD == st.prevD
    decreases |kinds|
  {
    if kinds != [] {
      RunFramelessKeepsPosition(cfg, st, kinds[..|kinds| - 1]);
    }
  }

  lemma CountersSnoc(kinds: seq<LineKind>)
    requires kinds != []
    ensures var k := kinds[|kinds| - 1];
            Counters(kinds) == if k.Data? then Counters(kinds[..|kinds| - 1]) + [k.frame.d] else Counters(kinds[..|kinds| - 1])
  {
    assert Counters(kinds[..|kinds| - 1]) + [] == Counters(kinds[..|kinds| - 1]);
  }

  lemma DeltasSnoc(prev: Option<int>, cs: seq<int>, d: int)
    ensures Deltas(prev, cs + [d]) == Deltas(prev, cs) + [DeltaOf(if cs == [] then prev else Some(cs[|cs| - 1]), d)]
  {
    assert (cs + [d])[..|cs|] == cs;
  }

  /** The counters of a sequence of records. */
  function RecordCounters(recs: seq<Record>): (cs: seq<int>)
    ensures |cs| == |recs|
    decreases |recs|
  {
    if recs == [] then [] else RecordCounters(recs[..|recs| - 1]) + [recs[|recs| - 1].d]
  }

  /** The deltas of a sequence of records. */
  function RecordDeltas(recs: seq<Record>): (ds: seq<int>)
    ensures |ds| == |recs|
    decreases |recs|
  {
    if recs == [] then [] else RecordDeltas(recs[..|recs| - 1]) + [recs[|recs| - 1].deltaD]
  }

  lemma RecordsSnoc(recs: seq<Record>, r: Record)
    ensures RecordCounters(recs + [r]) == RecordCounters(recs) + [r.d]
    ensures RecordDeltas(recs + [r]) == RecordDeltas(recs) + [r.deltaD]
  {
    assert (recs + [r])[..|recs|] == recs;
  }

  /** With `every` and no decimation, a line yields a record exactly when it
      is a frame, with the frame's counter and its delta, and each frame
      advances the emission counter. */
  lemma StepEvery(cfg: Config, st: State, k: LineKind)
    requires cfg.emit == Every && cfg.decimate <= 1
    ensures var o := StepOn(cfg, st, k);
            && (k.Data? ==>
                  && o.record.Some? && o.record.value.d == k.frame.d
                  && o.record.value.deltaD == DeltaOf(st.prevD, k.frame.d)
                  && o.state.emitted == st.emitted + 1)
            && (!k.Data? ==> o.record.None? && o.state.emitted == st.emitted)
  {
  }

  /** Hence, over a stream, the records carry exactly the frames' counters,
      in order, and the deltas between consecutive counters (the first
      measured from the counter held before), and the emission counter
      advances by the number of frames. */
  lemma {:induction false} RunEvery(cfg: Config, st: State, kinds: seq<LineKind>)
    requires cfg.emit == Every && cfg.decimate <= 1
    ensures var recs := Records(RunOn(cfg, st, kinds).outputs);
            && RecordCounters(recs) == Counters(kinds)
            && RecordDeltas(recs) == Deltas(st.prevD, Counters(kinds))
            && RunOn(cfg, st, kinds).state.emitted == st.emitted + |Counters(kinds)|
    decreases |kinds|
  {
    if kinds != [] {
      var init := kinds[..|kinds| - 1];
      var k := kinds[|kinds| - 1];
      RunEvery(cfg, st, init);
      RunPrevD(cfg, st, init);
      var r := RunOn(cfg, st, init);
      var o := StepOn(cfg, r.state, k);
      RecordsAppend(r.outputs, Emitted(o));
      RecordsOfEmitted(o);
      StepEvery(cfg, r.state, k);
      CountersSnoc(kinds);
      var recs0 := Records(r.outputs);
      assert RunOn(cfg, st, kinds).outputs == r.outputs + Emitted(o);
      if k.Data? {
        assert Records(RunOn(cfg, st, kinds).outputs) == recs0 + [o.record.value];
        RecordsSnoc(recs0, o.record.value);
        DeltasSnoc(st.prevD, Counters(init), k.frame.d);
      } else {
        assert Emitted(o) == [];
        assert r.outputs + [] == r.outputs;
      }
    }
  }

  /** Hence, with `every` and no decimation, the deltas of the records sum to
      the last counter minus the first (or minus the one held before). */
  lemma RunDeltaSum(cfg: Config, st: State, kinds: seq<LineKind>)
    requires cfg.emit == Every && cfg.decimate <= 1
    requires Counters(kinds) != []
    ensures var cs := Counters(kinds);
            SumInts(RecordDeltas(Records(RunOn(cfg, st, kinds).outputs))) == cs[|cs| - 1] - Base(st.prevD, cs)
  {
    RunEvery(cfg, st, kinds);
    DeltasTelescope(st.prevD, Counters(kinds));
  }

  /** The records one line yields are sound. */
  lemma StepRecordsSound(cfg: Config, st: State, k: LineKind)
    requires !cfg.enableXY && k.Data? ==> k.frame.x2.None? && k.frame.y2.None?
    ensures forall r | r in Records(Emitted(StepOn(cfg, st, k))) :: RecordSound(cfg, r)
  {
    var o := StepOn(cfg, st, k);
    RecordsOfEmitted(o);
    if k.Data? {
      AdvanceRecord(cfg, st, k.frame);
    }
  }

  /** Every record of a stream is sound (see `RecordSound`). */
  lemma {:induction false} RunRecordsSound(cfg: Config, st: State, kinds: seq<LineKind>)
    requires !cfg.enableXY ==> forall i :: 0 <= i < |kinds| && kinds[i].Data? ==> kinds[i].frame.x2.None? && kinds[i].frame.y2.None?
    ensures forall r | r in Records(RunOn(cfg, st, kinds).outputs) :: RecordSound(cfg, r)
    decreases |kinds|
  {
    if kinds != [] {
      var init := kinds[..|kinds| - 1];
      var k := kinds[|kinds| - 1];
      assert forall i :: 0 <= i < |init| ==> init[i] == kinds[i];
      RunRecordsSound(cfg, st, init);
      var r := RunOn(cfg, st, init);
      var o := StepOn(cfg, r.state, k);
      RecordsAppend(r.outputs, Emitted(o));
      StepRecordsSound(cfg, r.state, k);
    }
  }

  /** The positions the frames of a stream reach, in order. */
  function Positions(cfg: Config, st: State, kinds: seq<LineKind>): seq<real>
    decreases |kinds|
  {
    if kinds == [] then []
    else
      var init := kinds[..|kinds| - 1];
      Positions(cfg, st, init) +
      (if kinds[|kinds| - 1].Data? then [RunOn(cfg, st, kinds).state.xNm] else [])
  }

  /** A frame pushes the new position onto the deque; other lines leave it. */
  lemma StepMa(cfg: Config, st: State, k: LineKind)
    requires cfg.maWindow > 0
    ensures var s := StepOn(cfg, st, k).state;
            s.maBuf == if k.Data? then Last(st.maBuf + [s.xNm], cfg.maWindow) else st.maBuf
  {
  }

  /** The moving-average deque always holds the last `ma_window` positions
      of the whole history, so each average is over the last
      min(k, window) positions. */
  lemma {:induction false} RunMaBuffer(cfg: Config, st: State, kinds: seq<LineKind>)
    requires cfg.maWindow > 0 && |st.maBuf| <= cfg.maWindow
    ensures RunOn(cfg, st, kinds).state.maBuf == Last(st.maBuf + Positions(cfg, st, kinds), cfg.maWindow)
    decreases |kinds|
  {
    var w := cfg.maWindow;
    if kinds == [] {
      assert st.maBuf + [] == st.maBuf;
    } else {
      var init := kinds[..|kinds| - 1];
      var k := kinds[|kinds| - 1];
      RunMaBuffer(cfg, st, init);
      var r := RunOn(cfg, st, init);
      var h := st.maBuf + Positions(cfg, st, init);
      StepMa(cfg, r.state, k);
      if k.Data? {
        var x := RunOn(cfg, st, kinds).state.xNm;
        LastAppend(h, x, w);
        assert st.maBuf + Positions(cfg, st, kinds) == h + [x];
      } else {
        assert st.maBuf + Positions(cfg, st, kinds) == h;
      }
    }
  }
}
