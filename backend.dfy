/**
 * The loop of umd2.py's `main` as the imperative code it is: the loop
 * variables are the fields of `Backend`, `Step` is one iteration on a raw
 * line and `Process` runs the loop over a sequence of lines, collecting what
 * the source writes to standard output instead of writing it. Each is proved
 * to do exactly what `StepSpec` and `Run` specify.
 */
module MainLoop {

  import opened Options
  import opened Text
  import opened HeaderLine
  import opened Tokens
  import opened Calc
  import opened Pipeline

  class Backend {
    const cfg: Config
    const stepNmPerCount: real
    var fsHz: real
    var prevD: Option<int>
    var xNm: real
    var emaX: Option<real>
    var maBuf: seq<real>
    var fftBuf: seq<real>
    var emitted: int

    /** The loop variables as a value. */
    function Current(): State
      reads this
    {
      State(fsHz, prevD, xNm, emaX, maBuf, fftBuf, emitted)
    }

    predicate Valid()
      reads this
    {
      Inv(cfg, Current()) && stepNmPerCount == StepPerCount(cfg)
    }

    /** The set-up before the loop: the frequency from the command line when
        positive, the step per count, the start position, and empty
        smoothing and FFT state. */
    constructor (cfg: Config)
      ensures this.cfg == cfg && Valid() && Current() == Initial(cfg)
    {
      this.cfg := cfg;
      stepNmPerCount := ComputeStepNm(cfg.stepNm, cfg.lambdaNm, cfg.scaleDiv);
      fsHz := if cfg.fs > 0.0 then cfg.fs else 0.0;
      prevD := None;
      xNm := cfg.startNm;
      emaX := None;
      maBuf := [];
      fftBuf := [];
      emitted := 0;
    }

    /** One iteration of the loop on `raw`: the record it outputs and the
        FFT snapshot it takes, if any. */
    method Step(raw: string) returns (rec: Option<Record>, snap: Option<Snapshot>)
      requires Valid()
      modifies this
      ensures Valid()
      ensures var o := StepSpec(cfg, old(Current()), raw);
              Current() == o.state && rec == o.record && snap == o.snapshot
    {
      StepKeepsInv(cfg, Current(), Classify(cfg, raw));
      rec, snap := None, None;
      var kind := Recognise(raw);
      match kind
      case Blank =>
      case NoCounter =>
      case Header(fs) =>
        fsHz := fs;
      case Data(f) =>
        rec, snap := OnFrame(f);
    }

    /** The first part of an iteration: strip the line, skip it when blank,
        take a nonzero frequency announcement, otherwise read its tokens. */
    method Recognise(raw: string) returns (kind: LineKind)
      ensures kind == Classify(cfg, raw)
    {
      var line := Strip(raw);
      if line == [] {
        return Blank;
      }
      var fsFound := MaybeExtractFs(line);
      if fsFound.Some? && fsFound.value != 0.0 {
        return Header(fsFound.value);
      }
      var toks := ParseLineTokens(line);
      kind := ReadCounter(toks);
    }

    /** The counter (`DIFF` before `D`), `N` and the secondary axis read from
        the tokens. */
    method ReadCounter(toks: map<string, Num>) returns (kind: LineKind)
      ensures kind == FrameOf(cfg, toks)
    {
      var d: int;
      if "DIFF" in toks {
        d := ToInt(toks["DIFF"]);
      } else if "D" in toks {
        d := ToInt(toks["D"]);
      } else {
        return NoCounter;
      }
      var n := if "N" in toks then ToInt(toks["N"]) else 0;
      var x2 := if "X" in toks && cfg.enableXY then Some(ToReal(toks["X"])) else None;
      var y2 := if "Y" in toks && cfg.enableXY then Some(ToReal(toks["Y"])) else None;
      kind := Data(Frame(n, d, x2, y2));
    }

    /** The rest of an iteration once a line has yielded a counter frame. */
    method OnFrame(f: Frame) returns (rec: Option<Record>, snap: Option<Snapshot>)
      requires Valid()
      modifies this
      ensures Valid()
      ensures Current() == NextState(cfg, old(Current()), f)
      ensures rec == if Keep(cfg, old(Current()), f) then Some(RecordOf(cfg, old(Current()), f)) else None
      ensures snap == if Snap(cfg, old(Current()), f) then Some(Snapshot(cfg.fftSignal, fsHz, Last(fftBuf, cfg.fftLen))) else None
    {
      ghost var st := Current();
      ghost var s := NextState(cfg, st, f);
      StepKeepsInv(cfg, st, Data(f));
      rec, snap := None, None;
      var dD, dx, v := Integrate(f);
      assert fsHz == s.fsHz && prevD == s.prevD && xNm == s.xNm;
      var xEma := UpdateEma();
      assert emaX == s.emaX;
      var xMa := UpdateMa();
      assert maBuf == s.maBuf;
      var xEnv := ApplyEnv(xNm, cfg.env);
      var angle := if cfg.mode == AngleMode then Some(AngleFromDisplacement(xNm, cfg.angleNormNm, cfg.angleCorr)) else None;
      var keep := Emit(dD);
      assert emitted == s.emitted && keep == Keep(cfg, st, f);
      if !keep {
        return;
      }
      rec := Some(Record(f.n, fsHz, f.d, dD, dx, xNm, v, xEma, xMa, xEnv, angle, f.x2, f.y2));
      assert rec.value == RecordOf(cfg, st, f);
      if FftOn(cfg) {
        snap := UpdateFft(if cfg.fftSignal == SignalX then xNm else v);
      }
    }

    /** The frequency defaults to 1000 Hz when still unset; the counter
        change `dD` (zero on the first frame) is integrated into the
        position, which then takes the straightness factor. */
    method Integrate(f: Frame) returns (dD: int, dx: real, v: real)
      requires stepNmPerCount == StepPerCount(cfg)
      modifies `fsHz, `prevD, `xNm
      ensures var st := old(Current());
              && fsHz == FsOf(st) && prevD == Some(f.d) && xNm == NextX(cfg, st, f)
              && dD == DeltaOf(st.prevD, f.d) && dx == Dx(cfg, st, f) && v == Velocity(cfg, st, f)
    {
      var d := f.d;
      if fsHz <= 0.0 {
        fsHz := 1000.0;
      }
      if prevD.None? {
        dD := 0;
      } else {
        dD := d - prevD.value;
      }
      prevD := Some(d);
      dx := stepNmPerCount * dD as real;
      xNm := (xNm + dx) * cfg.straightMult;
      v := dx * fsHz;
    }

    /** The emit policy and decimation: whether the frame is output, with
        the emission counter advanced for every frame the policy keeps. */
    method Emit(dD: int) returns (keep: bool)
      modifies `emitted
      ensures emitted == if Stepped(cfg, dD) then old(emitted) + 1 else old(emitted)
      ensures keep == (Stepped(cfg, dD) && !(cfg.decimate > 1 && emitted % cfg.decimate != 0))
    {
      keep := true;
      if cfg.emit == OnStep {
        keep := dD != 0;
      }
      if keep {
        emitted := emitted + 1;
        if cfg.decimate > 1 && emitted % cfg.decimate != 0 {
          keep := false;
        }
      }
    }

    /** `ema_x` takes the new position: it seeds the average, or mixes in. */
    method UpdateEma() returns (xEma: Option<real>)
      modifies `emaX
      ensures emaX == if cfg.emaAlpha > 0.0 then Some(EmaNext(old(emaX), xNm, cfg.emaAlpha)) else old(emaX)
      ensures xEma == if cfg.emaAlpha > 0.0 then emaX else None
    {
      xEma := None;
      if cfg.emaAlpha > 0.0 {
        if emaX.None? {
          emaX := Some(xNm);
        } else {
          ghost var prev := emaX.value;
          emaX := Some(cfg.emaAlpha * xNm + (1.0 - cfg.emaAlpha) * emaX.value);
          assert emaX.value == EmaNext(Some(prev), xNm, cfg.emaAlpha);
        }
        xEma := emaX;
      }
    }

    /** The deque takes the new position, dropping its oldest one when full,
        and the moving average is taken over it. */
    method UpdateMa() returns (xMa: Option<real>)
      requires |maBuf| <= MaCap(cfg)
      modifies `maBuf
      ensures maBuf == if cfg.maWindow > 0 then PushBounded(old(maBuf), xNm, cfg.maWindow) else old(maBuf)
      ensures xMa == if cfg.maWindow > 0 then Some(Mean(maBuf)) else None
    {
      xMa := None;
      if cfg.maWindow > 0 {
        PushBoundedDropsOldest(maBuf, xNm, cfg.maWindow);
        if |maBuf| == cfg.maWindow {
          maBuf := maBuf[1..];
        }
        maBuf := maBuf + [xNm];
        xMa := Some(Mean(maBuf));
      }
    }

    /** An output sample goes into the FFT buffer; a snapshot of the last
        `fft_len` values is taken when the buffer is long enough and the
        emission counter is a multiple of `fft_every`. */
    method UpdateFft(sig: real) returns (snap: Option<Snapshot>)
      requires FftOn(cfg)
      modifies `fftBuf
      ensures fftBuf == old(fftBuf) + [sig]
      ensures snap == if |fftBuf| >= cfg.fftLen && emitted % cfg.fftEvery == 0
                      then Some(Snapshot(cfg.fftSignal, fsHz, Last(fftBuf, cfg.fftLen)))
                      else None
    {
      snap := None;
      fftBuf := fftBuf + [sig];
      if |fftBuf| >= cfg.fftLen && emitted % cfg.fftEvery == 0 {
        snap := Some(Snapshot(cfg.fftSignal, fsHz, fftBuf[|fftBuf| - cfg.fftLen..]));
      }
    }

    /** The loop over `lines`: everything it outputs, in order. */
    method Process(lines: seq<string>) returns (outs: seq<Output>)
      requires Valid()
      modifies this
      ensures Valid()
      ensures var r := Run(cfg, old(Current()), lines);
              Current() == r.state && outs == r.outputs
    {
      ghost var st0 := Current();
      outs := [];
      for i := 0 to |lines|
        invariant Valid()
        invariant Current() == Run(cfg, st0, lines[..i]).state
        invariant outs == Run(cfg, st0, lines[..i]).outputs
      {
        ghost var spec := StepSpec(cfg, Current(), lines[i]);
        assert Run(cfg, st0, lines[..i + 1]) == RunResult(spec.state, outs + Emitted(spec)) by {
          RunPrefixStep(cfg, st0, lines, i);
        }
        var rec, snap := Step(lines[i]);
        var o := Outcome(Current(), rec, snap);
        assert o == spec;
        outs := outs + Emitted(o);
      }
      assert lines[..|lines|] == lines;
    }
  }
}
