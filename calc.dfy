/**
 * The arithmetic helpers of umd2.py's backend: `clamp`, `compute_step_nm`,
 * `apply_env`, `angle_from_displacement`, the exponential moving average and
 * the bounded moving-average buffer (a `deque` with a `maxlen`). Python's
 * floats are modelled as exact reals.
 */
module Calc {

  import opened Options

  /** `clamp(val, lo, hi)`: `lo` below the range, `hi` above it, `val` inside. */
  function Clamp(val: real, lo: real, hi: real): (r: real)
    ensures r == lo || r == val || r == hi
    ensures lo <= hi ==> lo <= r <= hi
    ensures lo <= val <= hi ==> r == val
    ensures val < lo ==> r == lo
    ensures val >= lo && val > hi ==> r == hi
  {
    if val < lo then lo else if val > hi then hi else val
  }

  /** `compute_step_nm`: an explicit `--stepnm` wins; otherwise the
      wavelength divided by the interferometer division, taken as at least 1. */
  function ComputeStepNm(stepNm: Option<real>, lambdaNm: real, scaleDiv: int): (r: real)
    ensures stepNm.Some? ==> r == stepNm.value
    ensures stepNm.None? && scaleDiv >= 1 ==> r * scaleDiv as real == lambdaNm
    ensures stepNm.None? && scaleDiv < 1 ==> r == lambdaNm
  {
    match stepNm
    case Some(s) => s
    case None =>
      var div := if scaleDiv > 1 then scaleDiv else 1;
      lambdaNm / div as real
  }

  // ---- Environmental compensation ----

  /** One linear correction: a measured value, its reference and a coefficient
      (`--env-temp`, `--env-temp0`, `--env-ktemp` and so on). */
  datatype EnvAxis = EnvAxis(measured: Option<real>, reference: Option<real>, coeff: real)

  /** The three axes `apply_env` consults, in its order. */
  datatype Env = Env(temp: EnvAxis, press: EnvAxis, hum: EnvAxis)

  /** An axis contributes only when both values are given and its
      coefficient is nonzero. */
  predicate Applies(a: EnvAxis)
  {
    a.measured.Some? && a.reference.Some? && a.coeff != 0.0
  }

  /** The factor one axis multiplies the scale by. It departs from 1 exactly
      when the axis applies and the measured value is off its reference, and
      then by `coeff` per unit of deviation. */
  function Factor(a: EnvAxis): (f: real)
    ensures f != 1.0 <==> Applies(a) && a.measured.value != a.reference.value
    ensures Applies(a) ==> f - 1.0 == a.coeff * (a.measured.value - a.reference.value)
  {
    if Applies(a) then 1.0 + a.coeff * (a.measured.value - a.reference.value) else 1.0
  }

  /** The `scale` that `apply_env` accumulates, starting from 1. */
  function EnvScale(env: Env): (s: real)
    ensures !Applies(env.temp) && !Applies(env.press) && !Applies(env.hum) ==> s == 1.0
  {
    1.0 * Factor(env.temp) * Factor(env.press) * Factor(env.hum)
  }

  /** `apply_env(x_nm, args)`: the position times the compensation scale. */
  function ApplyEnv(xNm: real, env: Env): (r: real)
    ensures !Applies(env.temp) && !Applies(env.press) && !Applies(env.hum) ==> r == xNm
    ensures xNm == 0.0 ==> r == 0.0
  {
    xNm * EnvScale(env)
  }

  /** The compensation is linear in the position: it scales sums and
      differences of positions alike. */
  lemma ApplyEnvLinear(x: real, y: real, env: Env)
    ensures ApplyEnv(x + y, env) == ApplyEnv(x, env) + ApplyEnv(y, env)
    ensures ApplyEnv(x - y, env) == ApplyEnv(x, env) - ApplyEnv(y, env)
  {
    var s := EnvScale(env);
    assert (x + y) * s == x * s + y * s;
    assert (x - y) * s == x * s - y * s;
  }

  // ---- Angle mode ----

  /** Degrees per radian as the source writes it. */
  const DegreesPerRadian: real := 57.296

  /** The value of `angle_from_displacement`: `ZeroNorm` is the `0.0`
      returned for a zero normalisation length; otherwise the angle is
      `asin(arg) * scale` degrees, with `arg` already clamped to [-1, 1] (the
      arcsine itself is not evaluated here). */
  datatype Angle = ZeroNorm | Arcsine(arg: real, scale: real)

  function AngleFromDisplacement(xNm: real, normNm: real, corr: real): (a: Angle)
    ensures a.ZeroNorm? <==> normNm == 0.0
    ensures a.Arcsine? ==> -1.0 <= a.arg <= 1.0 && a.scale == corr * DegreesPerRadian
    ensures a.Arcsine? && -1.0 <= xNm / normNm <= 1.0 ==> a.arg == xNm / normNm
    ensures a.Arcsine? && xNm / normNm > 1.0 ==> a.arg == 1.0
    ensures a.Arcsine? && xNm / normNm < -1.0 ==> a.arg == -1.0
  {
    if normNm == 0.0 then ZeroNorm
    else Arcsine(Clamp(xNm / normNm, -1.0, 1.0), corr * DegreesPerRadian)
  }

  // ---- Exponential moving average ----

  /** One update of `ema_x`: the first sample seeds it, later samples mix in
      with weight `alpha`. With `alpha` in [0, 1] the new average lies
      between the previous average and the sample; `alpha == 1` follows the
      sample exactly. */
  function EmaNext(prev: Option<real>, x: real, alpha: real): (e: real)
    ensures prev.None? ==> e == x
    ensures alpha == 1.0 ==> e == x
    ensures prev.Some? && alpha == 0.0 ==> e == prev.value
    ensures prev.Some? && 0.0 <= alpha <= 1.0 ==>
              (prev.value <= x ==> prev.value <= e <= x) && (x <= prev.value ==> x <= e <= prev.value)
  {
    match prev
    case None => x
    case Some(p) =>
      MixBetween(p, x, alpha);
      alpha * x + (1.0 - alpha) * p
  }

  lemma MixBetween(p: real, x: real, alpha: real)
    ensures 0.0 <= alpha <= 1.0 && p <= x ==> p <= alpha * x + (1.0 - alpha) * p <= x
    ensures 0.0 <= alpha <= 1.0 && x <= p ==> x <= alpha * x + (1.0 - alpha) * p <= p
  {
    var e := alpha * x + (1.0 - alpha) * p;
    assert e - p == alpha * (x - p);
    assert x - e == (1.0 - alpha) * (x - p);
    if 0.0 <= alpha <= 1.0 {
      if p <= x {
        MulNonneg(alpha, x - p);
        MulNonneg(1.0 - alpha, x - p);
      }
      if x <= p {
        MulNonneg(alpha, p - x);
        MulNonneg(1.0 - alpha, p - x);
      }
    }
  }

  lemma MulNonneg(a: real, b: real)
    requires a >= 0.0 && b >= 0.0
    ensures a * b >= 0.0
  {
  }

  // ---- The bounded moving-average buffer ----

  /** The last `min(|s|, n)` elements of `s`. */
  function Last<T>(s: seq<T>, n: nat): (r: seq<T>)
    ensures |r| == if |s| <= n then |s| else n
  {
    if |s| <= n then s else s[|s| - n..]
  }

  /** `deque.append(x)` on a deque created with `maxlen`: the deque holds the
      last `maxlen` elements of its old contents followed by `x`. */
  function PushBounded(buf: seq<real>, x: real, maxlen: nat): (r: seq<real>)
    ensures |r| <= maxlen
    ensures maxlen >= 1 ==> r != [] && r[|r| - 1] == x
  {
    Last(buf + [x], maxlen)
  }

  /** How the append works on a deque within its bound: the element goes on
      the right, and when the deque was full the leftmost one drops. */
  lemma PushBoundedDropsOldest(buf: seq<real>, x: real, maxlen: nat)
    requires 1 <= maxlen && |buf| <= maxlen
    ensures |buf| < maxlen ==> PushBounded(buf, x, maxlen) == buf + [x]
    ensures |buf| == maxlen ==> PushBounded(buf, x, maxlen) == buf[1..] + [x]
  {
    if |buf| == maxlen {
      assert buf[1..] + [x] == (buf + [x])[1..];
    }
  }

  /** Keeping the last `n` elements before an append does not change the
      last `n` elements after it: a bounded buffer fed sample by sample holds
      the last `n` samples of the whole history. */
  lemma LastAppend<T>(a: seq<T>, x: T, n: nat)
    requires n >= 1
    ensures Last(Last(a, n) + [x], n) == Last(a + [x], n)
  {
    if |a| > n {
      var b := a[|a| - n..];
      assert (b + [x])[1..] == (a + [x])[|a| + 1 - n..];
    }
  }

  function Sum(s: seq<real>): real
  {
    SumTo(s, |s|)
  }

  function SumTo(s: seq<real>, n: nat): real
    requires n <= |s|
  {
    if n == 0 then 0.0 else SumTo(s, n - 1) + s[n - 1]
  }

  /** `sum(ma_buf) / len(ma_buf)`. */
  function Mean(s: seq<real>): real
    requires s != []
  {
    Sum(s) / |s| as real
  }

  lemma {:induction false} SumBounds(s: seq<real>, n: nat, lo: real, hi: real)
    requires n <= |s|
    requires forall i :: 0 <= i < |s| ==> lo <= s[i] <= hi
    ensures n as real * lo <= SumTo(s, n) <= n as real * hi
  {
    if n > 0 {
      SumBounds(s, n - 1, lo, hi);
      assert n as real * lo == (n - 1) as real * lo + lo;
      assert n as real * hi == (n - 1) as real * hi + hi;
    }
  }

  /** The moving average lies between the smallest and largest value it
      averages. */
  lemma MeanBounds(s: seq<real>, lo: real, hi: real)
    requires s != []
    requires forall i :: 0 <= i < |s| ==> lo <= s[i] <= hi
    ensures lo <= Mean(s) <= hi
  {
    SumBounds(s, |s|, lo, hi);
    var n := |s| as real;
    assert Mean(s) - lo == (Sum(s) - n * lo) / n;
    assert hi - Mean(s) == (n * hi - Sum(s)) / n;
    DivNonneg(Sum(s) - n * lo, n);
    DivNonneg(n * hi - Sum(s), n);
  }

  lemma DivNonneg(a: real, b: real)
    requires a >= 0.0 && b > 0.0
    ensures a / b >= 0.0
  {
    assert a / b * b == a;
  }
}
