/**
 * The per-line state machine of umd2.py's `main` loop: each raw line is
 * stripped, recognised as a blank line, a sample-frequency announcement or a
 * counter frame, and a counter frame advances the position, the smoothing
 * state and the emission counter and may yield a sample record and an FFT
 * snapshot. The pure functions `StepSpec` and `Run` specify one line and a
 * whole stream; the class `Backend` is the loop itself.
 */
module Pipeline {

  import opened Options
  import opened Text
  import opened HeaderLine
  import opened Tokens
  import opened Calc

  // ---- Configuration (the parsed command line) ----

  datatype EmitPolicy = Every | OnStep
  datatype Mode = Displacement | AngleMode
  datatype FftSignal = SignalX | SignalV

  /** The options the loop reads. `spectralAvailable` says whether the
      optional numerical library imports; only then is the FFT buffer fed. */
  datatype Config = Config(
    fs: real, emit: EmitPolicy, decimate: int,
    stepNm: Option<real>, lambdaNm: real, scaleDiv: int, startNm: real, straightMult: real,
    mode: Mode, angleNormNm: real, angleCorr: real,
    emaAlpha: real, maWindow: int, env: Env,
    fftLen: int, fftEvery: int, fftSignal: FftSignal, spectralAvailable: bool,
    enableXY: bool)

  /** `step_nm_per_count`, computed once before the loop. */
  function StepPerCount(cfg: Config): real
  {
    ComputeStepNm(cfg.stepNm, cfg.lambdaNm, cfg.scaleDiv)
  }

  /** Whether recorded samples feed the FFT buffer. */
  predicate FftOn(cfg: Config)
  {
    cfg.fftLen > 0 && cfg.fftEvery > 0 && cfg.spectralAvailable
  }

  // ---- Recognising a line ----

  /** The values a counter frame carries: `N`, the counter, and the optional
      secondary axis. */
  datatype Frame = Frame(n: int, d: int, x2: Option<real>, y2: Option<real>)

  datatype LineKind = Blank | Header(fs: real) | NoCounter | Data(frame: Frame)

  /** The counter a token dictionary provides, `DIFF` before `D`. */
  function Counter(toks: map<string, Num>): Option<int>
  {
    if "DIFF" in toks then Some(ToInt(toks["DIFF"]))
    else if "D" in toks then Some(ToInt(toks["D"]))
    else None
  }

  /** `float(toks[key])` when the key is present and the secondary axis is
      enabled. */
  function Axis(cfg: Config, toks: map<string, Num>, key: string): Option<real>
  {
    if key in toks && cfg.enableXY then Some(ToReal(toks[key])) else None
  }

  /** What the tokens of a line make of it once it is neither blank nor an
      announcement: a counter frame when they hold a counter, with `N` (0
      when absent) and the secondary axis, otherwise a line to skip. */
  function FrameOf(cfg: Config, toks: map<string, Num>): (k: LineKind)
    ensures k.Data? <==> Counter(toks).Some?
    ensures k.Data? ==> k.frame.d == Counter(toks).value
    ensures !k.Data? ==> k == NoCounter
  {
    match Counter(toks)
    case None => NoCounter
    case Some(d) =>
      var n := if "N" in toks then ToInt(toks["N"]) else 0;
      Data(Frame(n, d, Axis(cfg, toks, "X"), Axis(cfg, toks, "Y")))
  }

  /** What the loop makes of a stripped line: blank, an announcement of a
      nonzero frequency (`if fs_found:` is false for 0.0), or whatever its
      tokens make of it. */
  function ClassifyLine(cfg: Config, line: string): LineKind
  {
    if line == [] then Blank
    else
      var fsFound := MaybeExtractFs(line);
      if fsFound.Some? && fsFound.value != 0.0 then Header(fsFound.value)
      else FrameOf(cfg, TokenMap(line))
  }

  /** What the loop makes of one raw line. */
  function Classify(cfg: Config, raw: string): LineKind
  {
    ClassifyLine(cfg, Strip(raw))
  }

  // ---- State, records and one step ----

  /** The loop's variables. `maBuf` is the deque, `fftBuf` the list. */
  datatype State = State(
    fsHz: real, prevD: Option<int>, xNm: real, emaX: Option<real>,
    maBuf: seq<real>, fftBuf: seq<real>, emitted: int)

  /** The capacity of the moving-average deque. */
  function MaCap(cfg: Config): nat
  {
    if cfg.maWindow > 0 then cfg.maWindow else 1
  }

  /** What stays true of the loop variables between lines: the deque never
      exceeds its capacity and stays empty while disabled, the emission
      counter is never negative, and no average or FFT buffer builds up while
      disabled. */
  predicate Inv(cfg: Config, st: State)
  {
    && |st.maBuf| <= MaCap(cfg)
    && (cfg.maWindow <= 0 ==> st.maBuf == [])
    && (cfg.emaAlpha <= 0.0 ==> st.emaX.None?)
    && (!FftOn(cfg) ==> st.fftBuf == [])
    && st.emitted >= 0
  }

  /** The variables before the first line. */
  function Initial(cfg: Config): (st: State)
    ensures Inv(cfg, st)
  {
    State(if cfg.fs > 0.0 then cfg.fs else 0.0, None, cfg.startNm, None, [], [], 0)
  }

  /** One output record, with the source's keys. `stepNm` is the
      displacement of this frame (`dx`). */
  datatype Record = Record(
    seqNo: int, fsHz: real, d: int, deltaD: int, stepNm: real, xNm: real, vNmS: real,
    xNmEma: Option<real>, xNmMa: Option<real>, xNmEnv: real, angleDeg: Option<Angle>,
    x2: Option<real>, y2: Option<real>)

  /** An FFT snapshot request: the signal, the frequency and the window of the
      last `fft_len` buffered values (the transform is not modelled). */
  datatype Snapshot = Snapshot(signal: FftSignal, fsHz: real, window: seq<real>)

  datatype Outcome = Outcome(state: State, record: Option<Record>, snapshot: Option<Snapshot>)

  /** `dD`: zero on the first frame, the counter change afterwards. */
  function DeltaOf(prevD: Option<int>, d: int): int
  {
    match prevD
    case None => 0
    case Some(p) => d - p
  }

  /** Whether the emit policy keeps a frame with change `dD`. */
  predicate Stepped(cfg: Config, dD: int)
  {
    cfg.emit == Every || dD != 0
  }

  /** `fs_hz` once a frame arrives: 1000 Hz when still unset. */
  function FsOf(st: State): real
  {
    if st.fsHz <= 0.0 then 1000.0 else st.fsHz
  }

  /** `dx`: the displacement of a frame. */
  function Dx(cfg: Config, st: State, f: Frame): real
  {
    StepPerCount(cfg) * DeltaOf(st.prevD, f.d) as real
  }

  /** `x_nm` after a frame: the step added, then the straightness factor. */
  function NextX(cfg: Config, st: State, f: Frame): real
  {
    (st.xNm + Dx(cfg, st, f)) * cfg.straightMult
  }

  /** `emitted` after a frame: counts the frames the emit policy keeps. */
  function NextEmitted(cfg: Config, st: State, f: Frame): int
  {
    if Stepped(cfg, DeltaOf(st.prevD, f.d)) then st.emitted + 1 else st.emitted
  }

  /** Whether a frame is output: kept by the emit policy and not dropped by
      decimation. */
  predicate Keep(cfg: Config, st: State, f: Frame)
  {
    Stepped(cfg, DeltaOf(st.prevD, f.d)) && !(cfg.decimate > 1 && NextEmitted(cfg, st, f) % cfg.decimate != 0)
  }

  /** `v_nm_s`: the displacement times the sample frequency. */
  function Velocity(cfg: Config, st: State, f: Frame): real
  {
    Dx(cfg, st, f) * FsOf(st)
  }

  /** The value an output record feeds into the FFT buffer. */
  function FftSample(cfg: Config, st: State, f: Frame): real
  {
    if cfg.fftSignal == SignalX then NextX(cfg, st, f) else Velocity(cfg, st, f)
  }

  /** The loop variables after a counter frame. */
  function NextState(cfg: Config, st: State, f: Frame): (s: State)
    ensures cfg.maWindow > 0 ==> s.maBuf != []
  {
    var x := NextX(cfg, st, f);
    State(
      FsOf(st), Some(f.d), x,
      if cfg.emaAlpha > 0.0 then Some(EmaNext(st.emaX, x, cfg.emaAlpha)) else st.emaX,
      if cfg.maWindow > 0 then PushBounded(st.maBuf, x, cfg.maWindow) else st.maBuf,
      if Keep(cfg, st, f) && FftOn(cfg) then st.fftBuf + [FftSample(cfg, st, f)] else st.fftBuf,
      NextEmitted(cfg, st, f))
  }

  /** The record a frame yields when it is output, computed from the new
      loop variables. */
  function RecordOf(cfg: Config, st: State, f: Frame): Record
  {
    var s := NextState(cfg, st, f);
    Record(
      f.n, s.fsHz, f.d, DeltaOf(st.prevD, f.d), Dx(cfg, st, f), s.xNm, Velocity(cfg, st, f),
      if cfg.emaAlpha > 0.0 then s.emaX else None,
      if cfg.maWindow > 0 then Some(Mean(s.maBuf)) else None,
      ApplyEnv(s.xNm, cfg.env),
      if cfg.mode == AngleMode then Some(AngleFromDisplacement(s.xNm, cfg.angleNormNm, cfg.angleCorr)) else None,
      f.x2, f.y2)
  }

  /** Whether an output frame also yields an FFT snapshot. */
  predicate Snap(cfg: Config, st: State, f: Frame)
  {
    Keep(cfg, st, f) && FftOn(cfg)
    && |NextState(cfg, st, f).fftBuf| >= cfg.fftLen && NextState(cfg, st, f).emitted % cfg.fftEvery == 0
  }

  /** The effect of one counter frame. */
  function Advance(cfg: Config, st: State, f: Frame): (o: Outcome)
  {
    var s := NextState(cfg, st, f);
    Outcome(
      s,
      if Keep(cfg, st, f) then Some(RecordOf(cfg, st, f)) else None,
      if Snap(cfg, st, f) then Some(Snapshot(cfg.fftSignal, s.fsHz, Last(s.fftBuf, cfg.fftLen))) else None)
  }

  /** One iteration of the loop on a line already recognised as `kind`. */
  function StepOn(cfg: Config, st: State, kind: LineKind): (o: Outcome)
  {
    match kind
    case Blank => Outcome(st, None, None)
    case NoCounter => Outcome(st, None, None)
    case Header(fs) => Outcome(st.(fsHz := fs), None, None)
    case Data(f) => Advance(cfg, st, f)
  }

  /** One iteration of the loop on a raw line. */
  function StepSpec(cfg: Config, st: State, raw: string): (o: Outcome)
  {
    StepOn(cfg, st, Classify(cfg, raw))
  }

  // ---- A whole stream ----

  datatype Output = SampleOut(rec: Record) | FftOut(snap: Snapshot)

  /** What one step writes: the record, then the snapshot. */
  function Emitted(o: Outcome): seq<Output>
  {
    (if o.record.Some? then [SampleOut(o.record.value)] else []) +
    (if o.snapshot.Some? then [FftOut(o.snapshot.value)] else [])
  }

  datatype RunResult = RunResult(state: State, outputs: seq<Output>)

  /** The loop over a sequence of raw lines. */
  function Run(cfg: Config, st: State, lines: seq<string>): (r: RunResult)
    decreases |lines|
  {
    if lines == [] then RunResult(st, [])
    else
      var r := Run(cfg, st, lines[..|lines| - 1]);
      var o := StepSpec(cfg, r.state, lines[|lines| - 1]);
      RunResult(o.state, r.outputs + Emitted(o))
  }

  /** The loop over the first `i + 1` lines is the loop over the first `i`
      followed by one iteration on line `i`. */
  lemma RunPrefixStep(cfg: Config, st: State, lines: seq<string>, i: nat)
    requires i < |lines|
    ensures var r := Run(cfg, st, lines[..i]);
            var o := StepSpec(cfg, r.state, lines[i]);
            Run(cfg, st, lines[..i + 1]) == RunResult(o.state, r.outputs + Emitted(o))
  {
    assert lines[..i + 1][..i] == lines[..i];
  }

  /** The same for the loop over recognised lines. */
  lemma RunOnPrefixStep(cfg: Config, st: State, ks: seq<LineKind>, i: nat)
    requires i < |ks|
    ensures var r := RunOn(cfg, st, ks[..i]);
            var o := StepOn(cfg, r.state, ks[i]);
            RunOn(cfg, st, ks[..i + 1]) == RunResult(o.state, r.outputs + Emitted(o))
  {
    assert ks[..i + 1][..i] == ks[..i];
  }

  /** What each line of a stream is recognised as. */
  function Kinds(cfg: Config, lines: seq<string>): (ks: seq<LineKind>)
    ensures |ks| == |lines|
  {
    seq(|lines|, i requires 0 <= i < |lines| => Classify(cfg, lines[i]))
  }

  /** The loop over a sequence of recognised lines. */
  function RunOn(cfg: Config, st: State, kinds: seq<LineKind>): (r: RunResult)
    decreases |kinds|
  {
    if kinds == [] then RunResult(st, [])
    else
      var r := RunOn(cfg, st, kinds[..|kinds| - 1]);
      var o := StepOn(cfg, r.state, kinds[|kinds| - 1]);
      RunResult(o.state, r.outputs + Emitted(o))
  }

  /** Each iteration keeps the invariant. */
  lemma StepKeepsInv(cfg: Config, st: State, kind: LineKind)
    requires Inv(cfg, st)
    ensures Inv(cfg, StepOn(cfg, st, kind).state)
  {
  }

  /** Hence so does the whole loop. */
  lemma {:induction false} RunKeepsInv(cfg: Config, st: State, kinds: seq<LineKind>)
    requires Inv(cfg, st)
    ensures Inv(cfg, RunOn(cfg, st, kinds).state)
    decreases |kinds|
  {
    if kinds != [] {
      RunKeepsInv(cfg, st, kinds[..|kinds| - 1]);
      StepKeepsInv(cfg, RunOn(cfg, st, kinds[..|kinds| - 1]).state, kinds[|kinds| - 1]);
    }
  }

  /** Running on raw lines is running on what they are recognised as. */
  lemma RunIsRunOn(cfg: Config, st: State, lines: seq<string>)
    ensures Run(cfg, st, lines) == RunOn(cfg, st, Kinds(cfg, lines))
  {
    var ks := Kinds(cfg, lines);
    for i := 0 to |lines|
      invariant Run(cfg, st, lines[..i]) == RunOn(cfg, st, ks[..i])
    {
      RunPrefixStep(cfg, st, lines, i);
      RunOnPrefixStep(cfg, st, ks, i);
      assert ks[i] == Classify(cfg, lines[i]);
    }
    assert lines[..|lines|] == lines && ks[..|ks|] == ks;
  }
}
