# UMD2 backend line processing, modelled in Dafny

This project models the core of `umd2.py`. That program is the backend of an interferometer readout. It reads text lines from a serial port, a file or standard input. A line is either:

- a sample-frequency announcement (`Sample Frequency = 1000 Hz`), or
- a counter frame of `KEY: value` tokens (`N: 12 D: 3456 X: 0.5`).

From the counter it integrates a displacement in nanometres. It then derives:

- a velocity;
- an exponential and a moving average;
- an environmentally compensated displacement;
- optionally a tilt angle.

It outputs one record per kept sample and, optionally, FFT snapshots of the recent signal.

The modules follow the program's structure:

- `Options`: the `Option` type.
- `Text`: Python's `str.isspace` character class, `str.strip()`, and ASCII-digit numerals.
- `HeaderLine`: the `HeaderFS_RE` pattern and `maybe_extract_fs`.
  - The matcher is proved sound and complete against a rendering of well-formed matches.
- `Tokens`: `Tok_RE.findall`, `parse_line_tokens`, and the `int()` and `float()` conversions.
  - `findall` is proved to recover exactly the hits a line is rendered from.
  - The dictionary holds, for each upper-cased key, the value of its last hit.
  - A hit whose integer numeral has more digits than `int()` accepts is skipped, as the `except ValueError` branch does.
  - `ParseLineTokens` is the dictionary-filling loop, proved against that function.
- `Calc`: `clamp`, `compute_step_nm`, `apply_env`, `angle_from_displacement`, the EMA update, the bounded `deque` and the mean.
- `Pipeline`: the loop of `main` as pure functions:
  - the configuration (the parsed command line);
  - the loop variables (`State`), the record and the FFT snapshot;
  - one line (`StepSpec`) and a stream of lines (`Run`);
  - the invariant the loop keeps.
- `PipelineProps`: what the loop promises about a step and about a whole stream:
  - the classification of a line;
  - the emit and decimation policy;
  - the FFT cadence;
  - the position as a telescoping sum of counter changes;
  - one record per counter frame under `--emit every`;
  - the moving-average deque holding the last `W` positions;
  - the soundness of every record.
- `MainLoop`: the loop itself, as the class `Backend`.
  - Its fields are the loop variables. `Step` is one iteration and `Process` is the loop over a list of lines.
  - Each is proved to compute exactly `StepSpec` or `Run`.
- `SerialLines`: the newline-splitting buffer of `iter_lines_serial`, as the class `LineSplitter`.
  - `Feed` is proved to yield exactly the clean lines of the buffered bytes.
  - It is also proved to keep a newline-free tail. How the stream is cut into reads does not matter.
- `Scenario`: a worked trace from raw text to output.
  - The one option set is `--emit onstep`. Every other option keeps its command-line default (`umd2.py:28-61`), among them `--lambda-nm 632.991`, `--scale-div 8` and `--angle-norm-nm 1.0`.
  - The lines are `Sample Frequency = 2000 Hz`, then `N:1 D:100`, `N:2 D:105`, `N:3 D:105` and `N:4 D:110`.
  - Exactly two records come out, for frames 2 and 4, each with a counter change of 5 at 2000 Hz.

Python floats are modelled as exact reals. Python integers are unbounded, like Dafny's. But `int()` on a string refuses more than 4300 digits (`Tokens.MaxStrDigits`, the default in CPython 3.11 and later and in the 3.10.7, 3.9.14, 3.8.14 and 3.7.14 security releases) with `ValueError`. `parse_line_tokens` then skips that token (`umd2.py:113-116`); see `Scenario.LongCounterLine`.

### The moving average and the emit filter

`ma_buf.append(x_nm)` (`umd2.py:265`) runs for every line that carries a counter. It runs before the emit filter and decimation (`umd2.py:274-284`). So under `--emit onstep` or `--decimate` the average also covers positions that are never output; see `PipelineProps.RunMaBuffer`.

## Model

| member | source | states |
|---|---|---|
| Text.IsSpace | umd2.py:18-19 | definition: the whitespace of `\s` and of `str.strip()`, Python's `str.isspace` set of 29 code points |
| Text.Span | umd2.py:18 | the length of the longest prefix in a character class: everything before it is in the class, the next character is not |
| Text.SpanAppend | umd2.py:18 | a prefix entirely in the class is consumed whole, and the scan carries on into the rest |
| Text.TrailingSpaces | umd2.py:215 | the longest whitespace suffix: all of it is whitespace, the character before it is not |
| Text.StripBounds | umd2.py:215 | the cut points of `strip()`: whitespace before and after, non-whitespace at both inner ends |
| Text.Strip | umd2.py:215 | `raw.strip()` is a slice of the line, with only whitespace cut off either side and no whitespace left at either end |
| Text.StripEmptyIff | umd2.py:215-217 | a stripped line is empty exactly when the raw line is all whitespace |
| Text.StripKeeps | umd2.py:215 | a line that begins and ends with a non-whitespace character is left as it is by `strip()` |
| Text.SplitSpan | umd2.py:18-19 | a string splits into its longest prefix in a class and a rest starting outside it |
| Text.SplitSpanOf | umd2.py:18-19 | that split is the only one: a class-only prefix followed by a non-class character is recovered exactly |
| Text.DigitValue | umd2.py:124 | a digit's value is below 10 |
| Text.DigitsValue | umd2.py:114 | a decimal numeral of n digits is below 10^n |
| Text.Pow10 | umd2.py:114 | helper: powers of ten are positive, used for the bounds of `DigitsValue` and `DecimalValue` |
| Text.DecimalValue | umd2.py:114 | `float()` of `digits[.digits]` lies between the integer part and the integer part plus one |
| Text.FractionBelowOne | umd2.py:124 | helper: a/b with 0 <= a < b lies in [0, 1), used for the bound of `DecimalValue` |
| HeaderLine.CaseEq | umd2.py:18 | definition: `re.IGNORECASE` on one letter of the pattern: the letter itself, its ASCII upper case, or `ſ` (U+017F) for `s` |
| HeaderLine.SplitWord | umd2.py:18 | a case-insensitive keyword match returns the keyword as written and the rest of the line |
| HeaderLine.SplitWordOf | umd2.py:18 | a line that starts with the keyword in any case is matched with exactly that prefix |
| HeaderLine.SplitFrac | umd2.py:18 | the optional `(?:\.[0-9]+)` group either takes a dot and at least one digit or nothing, and the rest reassembles the line |
| HeaderLine.SplitFracOf | umd2.py:18 | the optional fraction is recovered exactly when not followed by a further digit or dot |
| HeaderLine.MatchTail | umd2.py:18 | an accepted `\s*Hz\s*$` tail is well formed and is exactly the text matched |
| HeaderLine.MatchTailComplete | umd2.py:18 | every well-formed tail is accepted with its own pieces |
| HeaderLine.MatchReading | umd2.py:18 | an accepted `\s*=\s*number` reading is well formed and is exactly the text matched |
| HeaderLine.MatchReadingComplete | umd2.py:18 | every well-formed reading is accepted with its own pieces |
| HeaderLine.MatchHeader | umd2.py:18 | soundness of `HeaderFS_RE.match`: an accepted line is the rendering of well-formed match pieces |
| HeaderLine.MatchHeaderComplete | umd2.py:18 | completeness: every rendering of well-formed pieces is accepted, with exactly those pieces (the match is unique) |
| HeaderLine.NotAnnouncement | umd2.py:18 | a line beginning with neither whitespace nor an `s` of either case does not match the announcement pattern |
| HeaderLine.HeaderValue | umd2.py:124 | definition: `float(m.group(1))`, the decimal value of the captured digits and optional fraction |
| HeaderLine.MaybeExtractFs | umd2.py:120-127 | a frequency comes back exactly when the line matches the pattern, and it is never negative |
| HeaderLine.ExtractFsOfHeader | umd2.py:120-127 | the frequency of a matching line is the decimal value of its captured group |
| Tokens.NumValue | umd2.py:114 | the value is a `float` exactly when the captured text contains a dot, and either way it is the number the text denotes: the signed decimal value of the digits |
| Tokens.MaxStrDigits | umd2.py:114 | definition: 4300, the longest digit string `int()` accepts by default |
| Tokens.Converts | umd2.py:114-116 | definition: the conversion returns unless the numeral is an integer of more than `MaxStrDigits` digits, where `int()` raises `ValueError` |
| Tokens.Trunc | umd2.py:226-234 | `int()` of a float truncates toward zero: the result lies within one of the value, on the zero side |
| Tokens.ToInt | umd2.py:226-234 | definition: `int()` of a stored value, the integer itself or the float truncated toward zero (`Trunc`) |
| Tokens.ToReal | umd2.py:236-237 | definition: `float()` of a stored value, the integer as a real or the float itself |
| Tokens.Boundary | umd2.py:19 | definition: `\b` after the last digit: the line ends there or the next character is not a word character |
| Tokens.FracThen | umd2.py:19 | rendering a fraction never shortens the rest |
| Tokens.NumeralThen | umd2.py:19 | rendering a numeral never shortens the rest |
| Tokens.MatchFracEnd | umd2.py:19 | the fraction and the `\b` boundary, with the single backtracking step of `(?:\.\d+)?\b` (it drops the fraction when a word character follows) |
| Tokens.MatchFracEndOf | umd2.py:19 | a well-formed fraction followed by a boundary is recovered exactly |
| Tokens.MatchNumber | umd2.py:19 | an accepted `-?\d+(?:\.\d+)?\b` is a well-formed numeral followed by a word boundary |
| Tokens.MatchNumberOf | umd2.py:19 | every well-formed numeral followed by a boundary is matched exactly |
| Tokens.HitThen | umd2.py:19 | a hit always consumes text |
| Tokens.MatchAt | umd2.py:19 | an accepted `([A-Za-z]+)\s*:\s*number\b` at a position is a well-formed hit |
| Tokens.MatchAtOf | umd2.py:19 | every well-formed hit followed by a boundary is matched exactly |
| Tokens.ConsWellFormed | umd2.py:111 | a well-formed hit in front of well-formed hits stays well formed |
| Tokens.FindAll | umd2.py:111 | definition: `Tok_RE.findall(line)`: try the pattern at the first position; after a match resume where it ends, otherwise one character later |
| Tokens.FindAllWellFormed | umd2.py:111 | every hit `findall` returns is well formed |
| Tokens.FindAllAfterHit | umd2.py:111 | after a hit, `findall` resumes right after the match |
| Tokens.FindAllSkipSpace | umd2.py:111 | a position where no match starts is skipped |
| Tokens.FindAllRenderHits | umd2.py:111 | `findall` on a line built from well-formed hits returns exactly those hits, in order |
| Tokens.FindAllRenderOne | umd2.py:111 | a line holding one well-formed hit yields exactly that hit |
| Tokens.FindAllRenderCons | umd2.py:111 | a well-formed hit written before a space and the rest of a line is found, followed by the hits of the rest |
| Tokens.UpperChar | umd2.py:112 | definition: `upper()` on one character: `a`-`z` to `A`-`Z`, every other character unchanged |
| Tokens.Upper | umd2.py:112 | `key.upper()` maps each character and keeps the length |
| Tokens.KeyOf | umd2.py:112 | definition: the key a hit is stored under, `key.upper()` |
| Tokens.TokenMapOf | umd2.py:110-118 | definition: the dictionary after storing each hit in order under its upper-cased name, skipping a hit whose numeral does not convert |
| Tokens.TokenMap | umd2.py:109-118 | definition: `parse_line_tokens(line)`, the dictionary of the line's `findall` hits |
| Tokens.TokenMapKeysFound | umd2.py:109-118 | every key of the dictionary is the upper-cased name of some hit whose numeral converts |
| Tokens.TokenMapKeysStored | umd2.py:109-118 | the upper-cased name of every hit whose numeral converts is a key of the dictionary |
| Tokens.TokenMapSnoc | umd2.py:113-117 | one more hit is stored under its name, overwriting an earlier value, when its numeral converts, and changes nothing otherwise |
| Tokens.TokenMapSkipsLong | umd2.py:115-116 | a hit whose integer has more than 4300 digits leaves the dictionary as it was (`except ValueError: continue`) |
| Tokens.TokenMapUpperKeys | umd2.py:112 | every key is an upper-case ASCII name |
| Tokens.TokenMapLastWins | umd2.py:117 | a key holds the value of its last hit in the line whose numeral converts |
| Tokens.StoreHits | umd2.py:111-117 | the loop that stores the hits one by one, skipping those that do not convert, builds the specified dictionary |
| Tokens.ParseLineTokens | umd2.py:109-118 | `parse_line_tokens` returns the dictionary of the line's `findall` hits |
| Calc.Clamp | umd2.py:129-130 | the result is one of the three arguments; it is in [lo, hi] when lo <= hi, is the value inside the range, is lo below it, and is hi above it (lo winning when the value is below lo as well) |
| Calc.ComputeStepNm | umd2.py:132-136 | an explicit step wins; otherwise the step times the division gives the wavelength, with divisions below 1 taken as 1 |
| Calc.Applies | umd2.py:140-144 | definition: the guard of each environmental axis: measured and reference values both given and a nonzero coefficient |
| Calc.Factor | umd2.py:140-145 | an environmental factor departs from 1 exactly when its axis applies and the reading is off its reference, by coeff times the deviation |
| Calc.EnvScale | umd2.py:139-145 | the scale is 1 when no axis applies |
| Calc.ApplyEnv | umd2.py:138-146 | no applicable axis leaves the position unchanged; zero stays zero |
| Calc.ApplyEnvLinear | umd2.py:146 | compensation is linear: it distributes over sums and differences of positions |
| Calc.AngleFromDisplacement | umd2.py:148-152 | a zero normalisation length gives 0.0 exactly; otherwise the arcsine argument is the ratio clamped to [-1, 1] and the scale is corr times 57.296 |
| Calc.EmaNext | umd2.py:253-259 | the first sample seeds the average; alpha 1 follows the sample and alpha 0 keeps the average; for alpha in [0, 1] the new average lies between the old one and the sample |
| Calc.MixBetween | umd2.py:258 | a convex mix of two values lies between them |
| Calc.MulNonneg | umd2.py:258 | helper: a product of non-negative reals is non-negative, used for `MixBetween` |
| Calc.Last | umd2.py:265 | the last min(n, length) elements |
| Calc.PushBounded | umd2.py:265 | `deque.append` never exceeds `maxlen`, and the new element is at the right end |
| Calc.PushBoundedDropsOldest | umd2.py:265 | below capacity the element is appended; at capacity the leftmost element drops |
| Calc.LastAppend | umd2.py:265 | a bounded buffer fed one element at a time holds the last n elements of the whole history |
| Calc.Sum | umd2.py:266 | definition: `sum(ma_buf)`, the sum of all buffered values |
| Calc.SumTo | umd2.py:266 | definition: the sum of the first n buffered values, added left to right |
| Calc.Mean | umd2.py:266 | definition: `sum(ma_buf) / len(ma_buf)` on a non-empty buffer |
| Calc.SumBounds | umd2.py:266 | a sum of n values in [lo, hi] lies in [n*lo, n*hi] |
| Calc.MeanBounds | umd2.py:266 | the moving average lies between the smallest and largest buffered value |
| Calc.DivNonneg | umd2.py:266 | helper: a non-negative value divided by a positive one is non-negative, used for `MeanBounds` |
| Pipeline.StepPerCount | umd2.py:166 | definition: `step_nm_per_count = compute_step_nm(args)` |
| Pipeline.FftOn | umd2.py:315-321 | definition: both FFT lengths positive and numpy importable, so output records feed the FFT buffer |
| Pipeline.Axis | umd2.py:236-237 | definition: `float(toks[key])` when the key is present and `--enable-xy` is set, otherwise none |
| Pipeline.Counter | umd2.py:226-232 | definition: `DIFF` converted with `int()` when present, otherwise `D`, otherwise none (the line is skipped) |
| Pipeline.FrameOf | umd2.py:224-237 | the tokens make a counter frame exactly when they hold a counter (`DIFF`, else `D`), whose value is the frame's counter; otherwise the line is skipped |
| Pipeline.ClassifyLine | umd2.py:216-237 | definition: on a stripped line, blank when empty, an announcement when `maybe_extract_fs` gives a nonzero value, otherwise what its tokens make of it |
| Pipeline.Classify | umd2.py:215-237 | definition: `ClassifyLine` of `raw.strip()` |
| Pipeline.MaCap | umd2.py:172 | definition: the deque's `maxlen`, the window when positive and 1 otherwise |
| Pipeline.Inv | umd2.py:165-323 | definition: the loop invariant `StepKeepsInv` preserves and `Backend.Valid` carries: the deque within its capacity and empty while disabled, no EMA while disabled, no FFT buffer while the FFT is off, a non-negative emission count |
| Pipeline.Initial | umd2.py:165-176 | the variables before the first line satisfy the loop invariant |
| Pipeline.NextState | umd2.py:261-266 | with the moving average enabled, the deque is non-empty after a frame (so the mean is defined) |
| Pipeline.DeltaOf | umd2.py:242-247 | definition: `dD`, 0 for the first counter and otherwise the counter minus the stored one |
| Pipeline.FsOf | umd2.py:239-240 | definition: `fs_hz` when a frame arrives, 1000 Hz when still unset (zero or below) |
| Pipeline.Dx | umd2.py:249 | definition: `dx`, the step per count times `dD` |
| Pipeline.NextX | umd2.py:250 | definition: the new `x_nm`, the step added and then multiplied by the straightness factor |
| Pipeline.Velocity | umd2.py:251 | definition: `v_nm_s`, the step times the sample frequency |
| Pipeline.Stepped | umd2.py:274-276 | definition: the emit policy: every frame under `every`, a nonzero `dD` under `onstep` |
| Pipeline.NextEmitted | umd2.py:278-279 | definition: `emitted` after a frame, one more exactly when the policy keeps it |
| Pipeline.FftSample | umd2.py:321 | definition: the value an output record feeds into the FFT buffer, `x_nm` or `v_nm_s` as `--fft-signal` says |
| Pipeline.Keep | umd2.py:274-284 | definition: the emit policy keeps the frame and, when decimating, the new emission count is a multiple of `decimate` |
| Pipeline.RecordOf | umd2.py:286-300 | definition: the record dictionary, from the frame, the counter change, the step and the new variables |
| Pipeline.Snap | umd2.py:315-323 | definition: the frame is output, the FFT is on (lengths positive, numpy importable) and, after the append, the buffer holds at least `fft_len` values and the emission count is a multiple of `fft_every` |
| Pipeline.Advance | umd2.py:239-323 | definition: the rest of an iteration on a frame: the new variables, the record when kept, the snapshot when due |
| Pipeline.StepOn | umd2.py:215-323 | definition: blank and counterless lines change nothing, an announcement sets the frequency, a frame advances |
| Pipeline.StepSpec | umd2.py:205-323 | definition: one iteration on a raw line, `StepOn` of its classification |
| Pipeline.Emitted | umd2.py:302-323 | definition: what one iteration outputs, in order: the record when present, then the FFT snapshot when present |
| Pipeline.Run | umd2.py:205 | definition: the iterations over the lines in order, each output appended |
| Pipeline.RunOn | umd2.py:205 | definition: the same loop over lines already classified |
| Pipeline.RunPrefixStep | umd2.py:205 | the loop over one more line is one more iteration after the loop over the shorter stream |
| Pipeline.RunOnPrefixStep | umd2.py:205 | the same for the loop over classified lines |
| Pipeline.Kinds | umd2.py:205 | one classification per line |
| Pipeline.StepKeepsInv | umd2.py:205-323 | every iteration keeps the invariant: the deque within capacity and empty while disabled, no EMA or FFT state while disabled, a non-negative emission counter |
| Pipeline.RunKeepsInv | umd2.py:205-323 | the invariant holds after any stream of lines |
| Pipeline.RunIsRunOn | umd2.py:205-232 | processing a stream is classifying each line and then stepping on the classifications, in order |
| PipelineProps.ClassifyBlank | umd2.py:215-217 | a line is skipped as blank exactly when it is all whitespace |
| PipelineProps.ClassifyHeader | umd2.py:219-222 | a line sets the frequency exactly when it is non-blank and announces a nonzero frequency (`if fs_found:` is false for 0.0), and then with that positive value |
| PipelineProps.ClassifyCounter | umd2.py:224-237 | otherwise the line is a frame exactly when `DIFF` or `D` is among its tokens, with `DIFF` preferred, `N` defaulting to 0 and no secondary axis unless enabled |
| PipelineProps.SkipChangesNothing | umd2.py:215-232 | blank and counterless lines change no variable and output nothing |
| PipelineProps.HeaderSetsFrequency | umd2.py:219-222 | an announcement changes the frequency and nothing else, and outputs nothing |
| PipelineProps.AdvanceState | umd2.py:239-266 | a frame's new variables: counter stored, position integrated and scaled, frequency defaulted to 1000 and positive, EMA and deque updated, emission counted only if the emit policy keeps the frame |
| PipelineProps.AdvanceRecord | umd2.py:286-300 | an output record carries the frame's `N` and counter, its counter change and the new position, frequency and averages, and is sound: positive frequency, step = change times step per count, velocity = step times frequency, the compensated position, each average present exactly when enabled, the angle present exactly in angle mode, no secondary axis unless enabled, and a nonzero change under `onstep` |
| PipelineProps.AdvanceEmission | umd2.py:274-284 | a record is output exactly when the policy keeps the frame and, when decimating, the emission count is a multiple of `decimate`; for `onstep` alone that is exactly dD != 0; for `every` alone it is always |
| PipelineProps.AdvanceFft | umd2.py:315-323 | the FFT buffer grows by the chosen signal of each output record exactly when the FFT is on; a snapshot fires exactly when the buffer holds `fft_len` values and the emission count is a multiple of `fft_every`, and holds the last `fft_len` values |
| PipelineProps.RecordsAppend | umd2.py:302-307 | the records output by two stretches of a stream are those of the first followed by those of the second |
| PipelineProps.RecordsOfEmitted | umd2.py:283-302 | an iteration outputs either its one record or none |
| PipelineProps.Deltas | umd2.py:242-247 | one counter change per counter frame |
| PipelineProps.DeltasTelescope | umd2.py:242-247 | the counter changes of a run sum to the last counter minus the first (or the prior counter) |
| PipelineProps.RunPrevD | umd2.py:242-247 | after a stream, the stored counter is the last counter seen, or unchanged if none |
| PipelineProps.StepPosition | umd2.py:249-250 | with straightness factor 1, a frame moves the position by step times dD and other lines leave it |
| PipelineProps.RunPosition | umd2.py:242-250 | with straightness factor 1, the position after a stream is the start plus step times (last counter minus first or prior counter) |
| PipelineProps.StepSum | umd2.py:249 | helper: the step per count distributes over summed counter changes, used for `RunPosition` |
| PipelineProps.RunFramelessKeepsPosition | umd2.py:215-232 | a stream without counter frames leaves the position and the stored counter alone |
| PipelineProps.CountersSnoc | umd2.py:227-232 | the counters of a stream extended by one line |
| PipelineProps.DeltasSnoc | umd2.py:242-247 | the counter changes of a stream extended by one counter |
| PipelineProps.RecordCounters | umd2.py:289 | one counter per record |
| PipelineProps.RecordDeltas | umd2.py:290 | one counter change per record |
| PipelineProps.RecordsSnoc | umd2.py:289-290 | the counters and changes of records extended by one record |
| PipelineProps.StepEvery | umd2.py:274-284 | under `every` without decimation, each frame is output with its counter and change, and counted |
| PipelineProps.RunEvery | umd2.py:274-300 | under `every` without decimation, the records of a stream are exactly its counter frames in order, with their counter changes, and the emission count grows by their number |
| PipelineProps.RunDeltaSum | umd2.py:242-290 | under `every` without decimation, the output `deltaD` values sum to the total counter travel |
| PipelineProps.StepRecordsSound | umd2.py:286-300 | every record one iteration outputs is sound |
| PipelineProps.RunRecordsSound | umd2.py:205-300 | every record a stream outputs is sound |
| PipelineProps.StepMa | umd2.py:261-266 | a frame pushes its new position onto the deque; other lines leave it |
| PipelineProps.RunMaBuffer | umd2.py:261-266 | the deque after a stream holds the last `W` positions of every counter frame, kept or not |
| MainLoop.Backend.constructor | umd2.py:165-176 | the set-up before the loop produces the initial variables |
| MainLoop.Backend.Step | umd2.py:205-323 | one iteration changes the variables and outputs the record and snapshot exactly as specified, keeping the invariant |
| MainLoop.Backend.Recognise | umd2.py:215-237 | strip, blank test, announcement test and token reading classify the line as specified |
| MainLoop.Backend.ReadCounter | umd2.py:224-237 | the counter (`DIFF` before `D`), `N` and the secondary axis read from the tokens form the specified frame |
| MainLoop.Backend.OnFrame | umd2.py:239-323 | the rest of an iteration on a frame yields the specified new variables, record and snapshot |
| MainLoop.Backend.Integrate | umd2.py:239-251 | frequency default, counter change, integrated position and velocity |
| MainLoop.Backend.Emit | umd2.py:274-284 | the emission counter advances exactly for frames the policy keeps, and the frame is output exactly when it also survives decimation |
| MainLoop.Backend.UpdateEma | umd2.py:253-259 | the EMA update and the value recorded |
| MainLoop.Backend.UpdateMa | umd2.py:261-266 | the deque append and the mean recorded |
| MainLoop.Backend.UpdateFft | umd2.py:315-323 | the FFT buffer append and the snapshot cadence |
| MainLoop.Backend.Process | umd2.py:205-323 | the loop over a list of lines ends in the specified variables and outputs exactly the specified records and snapshots, in order |
| SerialLines.Terminated | umd2.py:91-93 | definition: lines written back with a newline after each, the bytes the loop consumed from the buffer |
| SerialLines.TerminatedAppend | umd2.py:91-93 | the bytes of two runs of terminated lines concatenate |
| SerialLines.TerminatedSnoc | umd2.py:91-93 | one more line adds its bytes and a newline |
| SerialLines.FirstNL | umd2.py:91-92 | the position of the first newline: a newline there and none before it |
| SerialLines.Split | umd2.py:91-93 | the lines cut from a byte stream hold no newline, neither does the tail, and lines-with-newlines plus the tail are the stream |
| SerialLines.CutLine | umd2.py:92 | a clean line cut at the first newline, followed by a reading of the rest, reads the whole |
| SerialLines.FirstNLAfter | umd2.py:92 | the first newline after a clean line is the one ending it |
| SerialLines.SplitUnique | umd2.py:91-93 | a stream has exactly one reading as clean terminated lines followed by a clean tail |
| SerialLines.CountNL | umd2.py:91 | definition: the number of newline bytes in a byte string |
| SerialLines.CountNLAppend | umd2.py:91 | newline counts add up over concatenation |
| SerialLines.CountNLClean | umd2.py:91 | a clean line has no newline |
| SerialLines.SplitCount | umd2.py:91-93 | one line is yielded per newline in the stream |
| SerialLines.JoinReadings | umd2.py:90-93 | a reading of one read, continued by the reading of its tail plus the next chunk, reads both reads together |
| SerialLines.SplitChunks | umd2.py:87-93 | how the stream is cut into reads does not change the lines yielded or the tail left |
| SerialLines.TakeLine | umd2.py:91-92 | taking the line before the first newline off the buffer keeps the reading of the stream |
| SerialLines.LineSplitter.constructor | umd2.py:86 | the buffer starts empty |
| SerialLines.LineSplitter.Feed | umd2.py:88-93 | after a read, every yielded line and the buffer are newline-free, the yielded lines with their newlines plus the buffer are the old buffer plus the chunk, and this is the unique such reading; an empty read changes nothing |
| Scenario.AnnRender | umd2.py:18 | `Sample Frequency = 2000 Hz` is the rendering of the match pieces `Sample`, one space, `Frequency`, ` = `, `2000`, ` Hz` |
| Scenario.AnnWellFormed | umd2.py:18 | those pieces are a well-formed match of the header pattern |
| Scenario.AnnStrip | umd2.py:215 | the trace's announcement is unchanged by `strip()` |
| Scenario.AnnValue | umd2.py:124 | the captured group `2000` converts to the frequency 2000.0 |
| Scenario.AnnouncementLine | umd2.py:215-222 | `Sample Frequency = 2000 Hz` is recognised as the announcement of 2000 Hz, whatever the options |
| Scenario.HitText | umd2.py:19 | a token without gaps around its colon is written as key, colon, digits |
| Scenario.FrameRender | umd2.py:19 | `N:n D:d` is the text of the two hits `N` and `D` |
| Scenario.FrameTokens | umd2.py:109-118 | the dictionary of those hits, with at most 4300 digits in `d`, maps `N` and `D` to the integer values of their digits |
| Scenario.IntHitValue | umd2.py:114 | an unsigned digit string converts with `int` to its decimal value |
| Scenario.SingleN | umd2.py:109-118 | the dictionary of the single hit `N:n` maps `N` to n |
| Scenario.NoDotInDigits | umd2.py:114 | a digit string holds no dot, so it converts with `int` |
| Scenario.ClassifyByTokens | umd2.py:215-224 | a non-blank stripped line that is not an announcement is classified by its tokens alone |
| Scenario.FrameOfND | umd2.py:226-237 | tokens `N` and `D` alone, with the secondary axis off, make the frame with those two values |
| Scenario.FrameLineText | umd2.py:215-222 | a line `N:n D:d` is unchanged by stripping and is not an announcement |
| Scenario.FrameLineTokens | umd2.py:224 | the tokens of `N:n D:d` are `N` = n and `D` = d |
| Scenario.FrameLine | umd2.py:215-237 | a line `N:n D:d` with at most 4300 digits in `d` is a counter frame with `N` = n, counter d and no secondary axis |
| Scenario.LongCounterTokens | umd2.py:113-116 | with more than 4300 digits in `d`, the tokens of `N:n D:d` are only `N` = n: `int()` raises `ValueError` on `d` and the hit is skipped |
| Scenario.FrameOfNOnly | umd2.py:226-232 | tokens holding only `N` make a line without a counter |
| Scenario.LongCounterLine | umd2.py:113-232 | such a line is skipped as a line without a counter, whatever the options |
| Scenario.TraceFirstFrame | umd2.py:242-284 | with `--emit onstep`, the first counter frame (dD = 0) writes nothing and stores its counter |
| Scenario.TraceFrame | umd2.py:242-300 | with the trace's options, a later frame writes one record exactly when its counter differs from the stored one, carrying `N`, the change and the frequency, and never an FFT snapshot |
| Scenario.TraceRunFirst | umd2.py:242-284 | the run stays silent over the first counter frame of the trace |
| Scenario.TraceRunNext | umd2.py:242-300 | a later frame of the trace appends exactly one record to what was written when the counter changes, and nothing otherwise |
| Scenario.TraceUpTo2 | umd2.py:205-284 | after the announcement and the first frame, nothing is written, the frequency is 2000 Hz and the counter stored is 100 |
| Scenario.TraceUpTo3 | umd2.py:205-300 | the second frame (counter 105) writes the record of frame 2 with change 5 at 2000 Hz |
| Scenario.TraceUpTo4 | umd2.py:205-284 | the third frame repeats counter 105 and writes nothing more |
| Scenario.TraceRunOn | umd2.py:205-300 | on the recognised lines the run writes exactly two records: frame 2 and frame 4, each with change 5 at 2000 Hz |
| Scenario.ThreeDigits | umd2.py:114 | three decimal digits have the value 100a + 10b + c |
| Scenario.TraceLine1 | umd2.py:215-237 | `N:1 D:100` is the frame with `N` = 1 and counter 100 |
| Scenario.TraceLine2 | umd2.py:215-237 | `N:2 D:105` is the frame with `N` = 2 and counter 105 |
| Scenario.TraceLine3 | umd2.py:215-237 | `N:3 D:105` is the frame with `N` = 3 and counter 105 |
| Scenario.TraceLine4 | umd2.py:215-237 | `N:4 D:110` is the frame with `N` = 4 and counter 110 |
| Scenario.TraceRun | umd2.py:205-300 | from the raw text of the five lines, the loop writes exactly two records, for frames 2 and 4, each with change 5 at 2000 Hz |

## Left out

- Input sources: opening the serial port, the 0.2 s read timeout, closing it, and reading files and standard input (`umd2.py:78-107`). A read is the parameter `chunk` of `Feed`, and the loop takes a list of lines.
- Decoding: `line.decode(errors="ignore")` (`umd2.py:93`) and the UTF-8 decoding of files. `Feed` yields byte lines.
- Output and logging: JSON and CSV output, the CSV log, the raw-log sidecar file and float formatting (`umd2.py:178-213`, `umd2.py:302-312`). The loop returns the record and snapshot values in order instead.
- The numerical library: the Hann window, `rfft`, magnitudes and `rfftfreq` (`umd2.py:324-336`). Whether numpy imports is a configuration flag, and a snapshot is the window of values the transform would receive.
- Transcendental maths: `math.asin` is not evaluated. The angle is the clamped argument and the scale factor (`umd2.py:152`).
- Floating point: IEEE rounding and overflow are not modelled; floats are exact reals. Where a value overflows, the program stops with an uncaught `OverflowError` while the model goes on with the exact value. That happens in `int()` of a float token that rounds to infinity (`umd2.py:228`, `umd2.py:230`, `umd2.py:234`), in `float()` of an integer token of more than about 309 digits (`umd2.py:236-237`), and in `float(dD)` of such a counter change (`umd2.py:249`).
- The `int()` digit limit: `Tokens.MaxStrDigits` is the interpreter's default. `PYTHONINTMAXSTRDIGITS` or `sys.set_int_max_str_digits` can change it, and interpreters older than those releases have no limit.
- Unicode digits and letters: `\d` and the `\b` word test accept only ASCII digits and letters here, while Python's `str` patterns also accept other Unicode digits and letters. Whitespace uses Python's full `str.isspace` set.
- Argument parsing: `argparse` (`umd2.py:21-76`) is not modelled. The configuration is an immutable datatype whose fields are the parsed options.
- Deque re-creation: replacing `ma_buf` when its `maxlen` differs from `--ma-window` (`umd2.py:263-264`) is not modelled. The window is constant for a run, and the deque is created with that capacity (`umd2.py:172`), so the re-creation never happens.
- Pipeline.Initial: states only the loop invariant; the initial values themselves are given by `MainLoop.Backend.constructor`.
- Pipeline.NextState: its own contract states only that the deque is non-empty; the full effect of a frame is stated by `PipelineProps.AdvanceState`.
- Endless loop: the `while True` of `iter_lines_serial` is modelled one read at a time (`Feed`), and its composition over reads by `SplitChunks`.
