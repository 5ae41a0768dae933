/**
 * A worked trace through the whole loop of umd2.py's `main`: with
 * `--emit onstep`, `--lambda-nm 632.991` and `--scale-div 8` (every other
 * option at its default), an announcement of 2000 Hz followed by four
 * counter frames (`D` 100, 105, 105, 110) outputs exactly two records, for
 * frames 2 and 4, each with a counter change of 5 at 2000 Hz. The lines are
 * recognised one by one first; the run is then followed frame by frame.
 */
module Scenario {

  import opened Options
  import opened Text
  import opened HeaderLine
  import opened Tokens
  import opened Calc
  import opened Pipeline
  import opened PipelineProps

  /** No environmental compensation on any axis. */
  const NoEnv: Env := Env(EnvAxis(None, None, 0.0), EnvAxis(None, None, 0.0), EnvAxis(None, None, 0.0))

  /** The trace runs with `--emit onstep`; every other option keeps its
      command-line default. */
  const TraceConfig: Config := Config(
    0.0, OnStep, 1,
    None, 632.991, 8, 0.0, 1.0,
    Displacement, 1.0, 1.0,
    0.0, 0, NoEnv,
    0, 0, SignalX, false,
    false)

  // ---- The announcement line ----

  /** The announcement of the trace, taken apart as the header pattern does. */
  lemma AnnRender(line: string, h: HeaderParts)
    requires line == "Sample Frequency = 2000 Hz"
    requires h == HeaderParts("", "Sample", " ", "Frequency", Reading(" ", " ", "2000", None, HzTail(" ", "Hz", "")))
    ensures Render(h) == line
  {
  }

  lemma AnnWellFormed(h: HeaderParts)
    requires h == HeaderParts("", "Sample", " ", "Frequency", Reading(" ", " ", "2000", None, HzTail(" ", "Hz", "")))
    ensures WellFormed(h)
  {
  }

  /** `2000` reads as 2000. */
  lemma AnnValue(ds: string)
    requires ds == "2000"
    ensures All(ds, IsDigit) && DecimalValue(ds, None) == 2000.0
  {
    assert ds[..3] == "200" && ds[..3][..2] == "20" && ds[..3][..2][..1] == "2";
    assert DigitsValue("2") == 2;
    assert DigitsValue("20") == 20;
    assert DigitsValue("200") == 200;
  }

  /** The announcement has no surrounding white space. */
  lemma AnnStrip(line: string)
    requires line == "Sample Frequency = 2000 Hz"
    ensures Strip(line) == line
  {
    StripKeeps(line);
  }

  /** The announcement is recognised with its value, whatever the options. */
  lemma AnnouncementLine(cfg: Config, line: string)
    requires line == "Sample Frequency = 2000 Hz"
    ensures Classify(cfg, line) == Header(2000.0)
  {
    var h := HeaderParts("", "Sample", " ", "Frequency", Reading(" ", " ", "2000", None, HzTail(" ", "Hz", "")));
    AnnRender(line, h);
    AnnWellFormed(h);
    ExtractFsOfHeader(h);
    AnnValue(h.reading.intDigits);
    AnnStrip(line);
    assert MaybeExtractFs(line) == Some(2000.0);
    assert Strip(line) == line;
  }

  // ---- Counter lines ----

  /** The text of a token with no gaps and an integer value. */
  lemma HitText(h: Hit, key: string, ds: string, rest: string)
    requires h == Hit(key, "", "", Numeral(false, ds, None))
    ensures HitThen(h, rest) == key + ":" + ds + rest
  {
    assert NumeralThen(h.num, rest) == ds + rest;
  }

  /** `N:n D:d` is the text of two tokens. */
  lemma FrameRender(line: string, n: char, d: string, hn: Hit, hd: Hit)
    requires line == ['N', ':', n, ' ', 'D', ':'] + d
    requires hn == Hit("N", "", "", Numeral(false, [n], None)) && hd == Hit("D", "", "", Numeral(false, d, None))
    ensures RenderHits([hn, hd]) == line
  {
    var tail := RenderHits([hd]);
    assert tail == "D" + ":" + d + "" by {
      HitText(hd, "D", d, "");
    }
    assert RenderHits([hn, hd]) == HitThen(hn, " " + tail) by {
      assert [hn, hd][1..] == [hd];
    }
    HitText(hn, "N", [n], " " + tail);
  }

  /** The token dictionary of `N:n D:d`: both integers, keys in upper case. */
  lemma FrameTokens(n: char, d: string, hn: Hit, hd: Hit)
    requires IsDigit(n) && d != [] && All(d, IsDigit) && |d| <= MaxStrDigits
    requires hn == Hit("N", "", "", Numeral(false, [n], None)) && hd == Hit("D", "", "", Numeral(false, d, None))
    ensures HitWellFormed(hn) && HitWellFormed(hd)
    ensures TokenMapOf([hn, hd]) == map["N" := IntNum(DigitValue(n)), "D" := IntNum(DigitsValue(d))]
  {
    assert HitWellFormed(hn) && HitWellFormed(hd);
    assert Converts(hn.num) && Converts(hd.num);
    SingleN(n, hn);
    IntHitValue(hd, "D", d);
    TokenMapSnoc([hn], hd);
    assert [hn] + [hd] == [hn, hd];
    assert Upper("D") == "D";
  }

  /** The value of an unsigned integer hit. */
  lemma IntHitValue(h: Hit, key: string, d: string)
    requires d != [] && All(d, IsDigit)
    requires h == Hit(key, "", "", Numeral(false, d, None))
    ensures NumValue(h.num) == IntNum(DigitsValue(d))
  {
    NoDotInDigits(d);
    assert NumeralText(h.num) == d;
  }

  /** The dictionary of the single hit `N:n`. */
  lemma SingleN(n: char, hn: Hit)
    requires IsDigit(n)
    requires hn == Hit("N", "", "", Numeral(false, [n], None))
    ensures HitWellFormed(hn)
    ensures TokenMapOf([hn]) == map["N" := IntNum(DigitValue(n))]
  {
    assert HitWellFormed(hn);
    assert DigitsValue([n]) == DigitValue(n) by {
      assert [n][..0] == [];
    }
    IntHitValue(hn, "N", [n]);
    TokenMapSnoc([], hn);
    assert [] + [hn] == [hn];
    assert Upper("N") == "N";
  }

  lemma NoDotInDigits(d: string)
    requires All(d, IsDigit)
    ensures '.' !in d
  {
  }

  /** A nonblank line that is not an announcement has the kind its tokens give. */
  lemma ClassifyByTokens(cfg: Config, line: string)
    requires line != [] && Strip(line) == line && MaybeExtractFs(line) == None
    ensures Classify(cfg, line) == FrameOf(cfg, TokenMap(line))
  {
  }

  lemma FrameOfND(cfg: Config, m: map<string, Num>, n: int, d: int)
    requires !cfg.enableXY
    requires m == map["N" := IntNum(n), "D" := IntNum(d)]
    ensures FrameOf(cfg, m) == Data(Frame(n, d, None, None))
  {
    assert "DIFF" !in m && "D" in m && "N" in m && "X" !in m && "Y" !in m;
  }

  /** `N:n D:d` is stripped already and is not an announcement. */
  lemma FrameLineText(line: string, n: char, d: string)
    requires d != [] && All(d, IsDigit)
    requires line == ['N', ':', n, ' ', 'D', ':'] + d
    ensures line != [] && Strip(line) == line && MaybeExtractFs(line) == None
  {
    assert line[|line| - 1] == d[|d| - 1] && IsDigit(d[|d| - 1]);
    StripKeeps(line);
    NotAnnouncement(line);
  }

  /** The token dictionary of `N:n D:d`. */
  lemma FrameLineTokens(line: string, n: char, d: string)
    requires IsDigit(n) && d != [] && All(d, IsDigit) && |d| <= MaxStrDigits
    requires line == ['N', ':', n, ' ', 'D', ':'] + d
    ensures TokenMap(line) == map["N" := IntNum(DigitValue(n)), "D" := IntNum(DigitsValue(d))]
  {
    var hn := Hit("N", "", "", Numeral(false, [n], None));
    var hd := Hit("D", "", "", Numeral(false, d, None));
    FrameTokens(n, d, hn, hd);
    assert FindAll(line) == [hn, hd] by {
      FrameRender(line, n, d, hn, hd);
      FindAllRenderHits([hn, hd]);
    }
  }

  /** A line `N:n D:d` is a counter frame with those values. */
  lemma FrameLine(cfg: Config, line: string, n: char, d: string)
    requires !cfg.enableXY
    requires IsDigit(n) && d != [] && All(d, IsDigit) && |d| <= MaxStrDigits
    requires line == ['N', ':', n, ' ', 'D', ':'] + d
    ensures Classify(cfg, line) == Data(Frame(DigitValue(n), DigitsValue(d), None, None))
  {
    FrameLineText(line, n, d);
    FrameLineTokens(line, n, d);
    ClassifyByTokens(cfg, line);
    FrameOfND(cfg, TokenMap(line), DigitValue(n), DigitsValue(d));
  }

  /** With more digits than `int()` accepts, the `D` hit raises `ValueError`
      and is dropped, so `N:n D:d` is a line without a counter. */
  lemma LongCounterLine(cfg: Config, line: string, n: char, d: string)
    requires IsDigit(n) && d != [] && All(d, IsDigit) && |d| > MaxStrDigits
    requires line == ['N', ':', n, ' ', 'D', ':'] + d
    ensures TokenMap(line) == map["N" := IntNum(DigitValue(n))]
    ensures Classify(cfg, line) == NoCounter
  {
    LongCounterTokens(line, n, d);
    FrameLineText(line, n, d);
    ClassifyByTokens(cfg, line);
    FrameOfNOnly(cfg, TokenMap(line), DigitValue(n));
  }

  /** The token dictionary of `N:n D:d` when `d` is too long to convert. */
  lemma LongCounterTokens(line: string, n: char, d: string)
    requires IsDigit(n) && d != [] && All(d, IsDigit) && |d| > MaxStrDigits
    requires line == ['N', ':', n, ' ', 'D', ':'] + d
    ensures TokenMap(line) == map["N" := IntNum(DigitValue(n))]
  {
    var hn := Hit("N", "", "", Numeral(false, [n], None));
    var hd := Hit("D", "", "", Numeral(false, d, None));
    assert HitWellFormed(hn) && HitWellFormed(hd);
    assert FindAll(line) == [hn, hd] by {
      FrameRender(line, n, d, hn, hd);
      FindAllRenderHits([hn, hd]);
    }
    assert TokenMapOf([hn, hd]) == TokenMapOf([hn]) by {
      TokenMapSkipsLong([hn], hd);
      assert [hn] + [hd] == [hn, hd];
    }
    SingleN(n, hn);
  }

  lemma FrameOfNOnly(cfg: Config, m: map<string, Num>, n: int)
    requires m == map["N" := IntNum(n)]
    ensures FrameOf(cfg, m) == NoCounter
  {
    assert "DIFF" !in m && "D" !in m;
  }

  // ---- The run ----

  /** A counter frame after the first one, with the trace's options. */
  lemma TraceFrame(cfg: Config, st: State, f: Frame, p: int)
    requires cfg == TraceConfig && st.prevD == Some(p) && st.fsHz == 2000.0 && f.x2.None? && f.y2.None?
    ensures var o := StepOn(cfg, st, Data(f));
            && o.state.prevD == Some(f.d) && o.state.fsHz == 2000.0 && o.snapshot.None?
            && Emitted(o) == (if f.d != p then [SampleOut(o.record.value)] else [])
            && (f.d != p ==> o.record.value.seqNo == f.n && o.record.value.deltaD == f.d - p && o.record.value.fsHz == 2000.0)
  {
    AdvanceRecord(cfg, st, f);
    AdvanceEmission(cfg, st, f);
    AdvanceFft(cfg, st, f);
  }

  /** The first counter frame is never output when only steps are. */
  lemma TraceFirstFrame(cfg: Config, st: State, f: Frame)
    requires cfg == TraceConfig && st.prevD == None && st.fsHz == 2000.0
    ensures var o := StepOn(cfg, st, Data(f));
            o.state.prevD == Some(f.d) && o.state.fsHz == 2000.0 && Emitted(o) == []
  {
    AdvanceEmission(cfg, st, f);
    AdvanceFft(cfg, st, f);
  }

  /** The first counter frame of the trace, at position `i` of the kinds. */
  lemma TraceRunFirst(cfg: Config, st0: State, ks: seq<LineKind>, i: nat, f: Frame)
    requires cfg == TraceConfig && i < |ks| && ks[i] == Data(f)
    requires var r := RunOn(cfg, st0, ks[..i]); r.outputs == [] && r.state.prevD == None && r.state.fsHz == 2000.0
    ensures var r := RunOn(cfg, st0, ks[..i + 1]); r.outputs == [] && r.state.prevD == Some(f.d) && r.state.fsHz == 2000.0
  {
    RunOnPrefixStep(cfg, st0, ks, i);
    TraceFirstFrame(cfg, RunOn(cfg, st0, ks[..i]).state, f);
  }

  /** A later counter frame of the trace, after counter `p`. */
  lemma TraceRunNext(cfg: Config, st0: State, ks: seq<LineKind>, i: nat, f: Frame, p: int)
    requires cfg == TraceConfig && i < |ks| && ks[i] == Data(f) && f.x2.None? && f.y2.None?
    requires var r := RunOn(cfg, st0, ks[..i]); r.state.prevD == Some(p) && r.state.fsHz == 2000.0
    ensures var r := RunOn(cfg, st0, ks[..i]);
            var r' := RunOn(cfg, st0, ks[..i + 1]);
            && r'.state.prevD == Some(f.d) && r'.state.fsHz == 2000.0
            && (f.d == p ==> r'.outputs == r.outputs)
            && (f.d != p ==>
                  && |r'.outputs| == |r.outputs| + 1 && r'.outputs[..|r.outputs|] == r.outputs
                  && r'.outputs[|r.outputs|].SampleOut?
                  && r'.outputs[|r.outputs|].rec.seqNo == f.n && r'.outputs[|r.outputs|].rec.deltaD == f.d - p
                  && r'.outputs[|r.outputs|].rec.fsHz == 2000.0)
  {
    var r := RunOn(cfg, st0, ks[..i]);
    RunOnPrefixStep(cfg, st0, ks, i);
    TraceFrame(cfg, r.state, f, p);
    var o := StepOn(cfg, r.state, ks[i]);
    if f.d != p {
      assert (r.outputs + [SampleOut(o.record.value)])[..|r.outputs|] == r.outputs;
    } else {
      assert r.outputs + [] == r.outputs;
    }
  }

  /** What the trace's lines are recognised as. */
  predicate TraceKinds(ks: seq<LineKind>)
  {
    && |ks| == 5 && ks[0] == Header(2000.0) && ks[1] == Data(Frame(1, 100, None, None))
    && ks[2] == Data(Frame(2, 105, None, None)) && ks[3] == Data(Frame(3, 105, None, None))
    && ks[4] == Data(Frame(4, 110, None, None))
  }

  /** The run up to the second line: the frequency is set, nothing is written. */
  lemma TraceUpTo2(cfg: Config, ks: seq<LineKind>)
    requires cfg == TraceConfig && TraceKinds(ks)
    ensures var r := RunOn(cfg, Initial(cfg), ks[..2]);
            r.outputs == [] && r.state.prevD == Some(100) && r.state.fsHz == 2000.0
  {
    var st0 := Initial(cfg);
    assert RunOn(cfg, st0, ks[..1]).outputs == [] && RunOn(cfg, st0, ks[..1]).state == st0.(fsHz := 2000.0) by {
      RunOnPrefixStep(cfg, st0, ks, 0);
    }
    TraceRunFirst(cfg, st0, ks, 1, Frame(1, 100, None, None));
  }

  /** The third line writes the first record. */
  lemma TraceUpTo3(cfg: Config, ks: seq<LineKind>)
    requires cfg == TraceConfig && TraceKinds(ks)
    ensures var r := RunOn(cfg, Initial(cfg), ks[..3]);
            && |r.outputs| == 1 && r.state.prevD == Some(105) && r.state.fsHz == 2000.0
            && r.outputs[0].SampleOut? && r.outputs[0].rec.seqNo == 2 && r.outputs[0].rec.deltaD == 5
            && r.outputs[0].rec.fsHz == 2000.0
  {
    TraceUpTo2(cfg, ks);
    TraceRunNext(cfg, Initial(cfg), ks, 2, Frame(2, 105, None, None), 100);
  }

  /** The fourth line repeats the counter and writes nothing. */
  lemma TraceUpTo4(cfg: Config, ks: seq<LineKind>)
    requires cfg == TraceConfig && TraceKinds(ks)
    ensures var r := RunOn(cfg, Initial(cfg), ks[..4]);
            && |r.outputs| == 1 && r.state.prevD == Some(105) && r.state.fsHz == 2000.0
            && r.outputs[0].SampleOut? && r.outputs[0].rec.seqNo == 2 && r.outputs[0].rec.deltaD == 5
            && r.outputs[0].rec.fsHz == 2000.0
  {
    TraceUpTo3(cfg, ks);
    TraceRunNext(cfg, Initial(cfg), ks, 3, Frame(3, 105, None, None), 105);
  }

  /** On the recognised lines: two records, for frames 2 and 4. */
  lemma TraceRunOn(cfg: Config, ks: seq<LineKind>)
    requires cfg == TraceConfig && TraceKinds(ks)
    ensures var outs := RunOn(cfg, Initial(cfg), ks).outputs;
            && |outs| == 2 && outs[0].SampleOut? && outs[1].SampleOut?
            && outs[0].rec.seqNo == 2 && outs[0].rec.deltaD == 5 && outs[0].rec.fsHz == 2000.0
            && outs[1].rec.seqNo == 4 && outs[1].rec.deltaD == 5 && outs[1].rec.fsHz == 2000.0
  {
    TraceUpTo4(cfg, ks);
    TraceRunNext(cfg, Initial(cfg), ks, 4, Frame(4, 110, None, None), 105);
    assert ks[..5] == ks;
  }

  /** The value of three decimal digits. */
  lemma ThreeDigits(d: string)
    requires |d| == 3 && All(d, IsDigit)
    ensures DigitsValue(d) == 100 * DigitValue(d[0]) + 10 * DigitValue(d[1]) + DigitValue(d[2])
  {
    var d2 := d[..2];
    var d1 := d2[..1];
    assert d1[..0] == [];
    assert DigitsValue(d1) == DigitValue(d[0]);
    assert DigitsValue(d2) == 10 * DigitValue(d[0]) + DigitValue(d[1]);
  }

  /** The four counter lines of the trace. */
  lemma TraceLine1(cfg: Config, line: string)
    requires !cfg.enableXY && line == "N:1 D:100"
    ensures Classify(cfg, line) == Data(Frame(1, 100, None, None))
  {
    assert DigitValue('1') == 1 && DigitsValue("100") == 100 by {
      ThreeDigits("100");
    }
    FrameLine(cfg, line, '1', "100");
  }

  lemma TraceLine2(cfg: Config, line: string)
    requires !cfg.enableXY && line == "N:2 D:105"
    ensures Classify(cfg, line) == Data(Frame(2, 105, None, None))
  {
    assert DigitValue('2') == 2 && DigitsValue("105") == 105 by {
      ThreeDigits("105");
    }
    FrameLine(cfg, line, '2', "105");
  }

  lemma TraceLine3(cfg: Config, line: string)
    requires !cfg.enableXY && line == "N:3 D:105"
    ensures Classify(cfg, line) == Data(Frame(3, 105, None, None))
  {
    assert DigitValue('3') == 3 && DigitsValue("105") == 105 by {
      ThreeDigits("105");
    }
    FrameLine(cfg, line, '3', "105");
  }

  lemma TraceLine4(cfg: Config, line: string)
    requires !cfg.enableXY && line == "N:4 D:110"
    ensures Classify(cfg, line) == Data(Frame(4, 110, None, None))
  {
    assert DigitValue('4') == 4 && DigitsValue("110") == 110 by {
      ThreeDigits("110");
    }
    FrameLine(cfg, line, '4', "110");
  }

  /** The whole trace, from raw text to what is written out. */
  lemma TraceRun(cfg: Config, lines: seq<string>)
    requires cfg == TraceConfig && |lines| == 5 && lines[0] == "Sample Frequency = 2000 Hz"
    requires lines[1] == "N:1 D:100" && lines[2] == "N:2 D:105" && lines[3] == "N:3 D:105" && lines[4] == "N:4 D:110"
    ensures var outs := Run(cfg, Initial(cfg), lines).outputs;
            && |outs| == 2 && outs[0].SampleOut? && outs[1].SampleOut?
            && outs[0].rec.seqNo == 2 && outs[0].rec.deltaD == 5 && outs[0].rec.fsHz == 2000.0
            && outs[1].rec.seqNo == 4 && outs[1].rec.deltaD == 5 && outs[1].rec.fsHz == 2000.0
  {
    var ks := Kinds(cfg, lines);
    assert ks[0] == Header(2000.0) by {
      AnnouncementLine(cfg, lines[0]);
    }
    assert ks[1] == Data(Frame(1, 100, None, None)) by {
      TraceLine1(cfg, lines[1]);
    }
    assert ks[2] == Data(Frame(2, 105, None, None)) by {
      TraceLine2(cfg, lines[2]);
    }
    assert ks[3] == Data(Frame(3, 105, None, None)) by {
      TraceLine3(cfg, lines[3]);
    }
    assert ks[4] == Data(Frame(4, 110, None, None)) by {
      TraceLine4(cfg, lines[4]);
    }
    RunIsRunOn(cfg, Initial(cfg), lines);
    TraceRunOn(cfg, ks);
  }
}
