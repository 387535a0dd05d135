/**
 Retry intervals: exponential backoff by cumulative rounding, and the jitter window.

 Arithmetic is over the reals, with floating point as a parameter: a monotone rounding of
 the nonnegative reals with relative error at most `unit`.  With `unit` zero the products
 are exact; binary64 within its normal range is another instance.  Durations are integers
 (nanoseconds); that they fit an int64 is proved, not assumed.
 */
module Intervals {
  const MAX_INT64: int := 0x7FFF_FFFF_FFFF_FFFF
  const DEFAULT_INTERVAL: int := 5_000_000_000

  datatype Config = Config(retries: int, interval: int, multiplier: real, jitter: real)

  /** One precomputed retry: the wait is `base` plus a random value below `jitter`. */
  datatype Interval = Interval(base: int, jitter: int)

  // ---------------------------------------------------------------- floating point

  datatype Float = Float(round: real -> real, unit: real)

  ghost predicate Near(f: Float, x: real) {
    x * (1.0 - f.unit) <= f.round(x) <= x * (1.0 + f.unit)
  }

  ghost predicate InOrder(f: Float, x: real, y: real) {
    f.round(x) <= f.round(y)
  }

  ghost predicate Faithful(f: Float) {
    && 0.0 <= f.unit < 1.0
    && (forall x: real {:trigger Near(f, x)} :: x >= 0.0 ==> Near(f, x))
    && (forall x: real, y: real {:trigger InOrder(f, x, y)} :: 0.0 <= x <= y ==> InOrder(f, x, y))
  }

  lemma RoundingNear(f: Float, x: real)
    requires Faithful(f) && x >= 0.0
    ensures 0.0 <= x * (1.0 - f.unit) <= f.round(x) <= x * (1.0 + f.unit)
  {
    assert Near(f, x);
    MulMonotone(0.0, x, 1.0 - f.unit);
  }

  /** math.Round of a nonnegative value: to the nearest integer, halves away from zero. */
  function Round(x: real): int {
    (x + 0.5).Floor
  }

  lemma RoundNear(x: real)
    ensures x - 0.5 < Round(x) as real <= x + 0.5
  {
  }

  lemma RoundMonotone(x: real, y: real)
    requires x <= y
    ensures Round(x) <= Round(y)
  {
  }

  // ---------------------------------------------------------------- the plan

  function Seed(cfg: Config): (b: int)
    ensures b >= 1
  {
    if cfg.interval <= 0 then DEFAULT_INTERVAL else cfg.interval
  }

  function Multiplier(cfg: Config): (m: real)
    ensures m > 0.0
  {
    if cfg.multiplier <= 0.0 then 1.0 else cfg.multiplier
  }

  function Mul(x: real, m: real): real {
    x * m
  }

  /** A floating-point product. */
  function Product(f: Float, x: real, m: real): real {
    f.round(Mul(x, m))
  }

  /** float64(b) * m. */
  function Scaled(f: Float, b: int, m: real): real {
    Product(f, f.round(b as real), m)
  }

  /** time.Duration(math.Round(float64(b) * m)). */
  function Times(f: Float, b: int, m: real): int {
    Round(Scaled(f, b, m))
  }

  /** The unjittered duration before retry `k`. */
  function Base(f: Float, cfg: Config, k: nat): int {
    if k == 0 then Seed(cfg) else Times(f, Base(f, cfg, k - 1), Multiplier(cfg))
  }

  predicate Jitters(cfg: Config) {
    0.0 < cfg.jitter < 1.0
  }

  function Low(f: Float, cfg: Config, b: int): int {
    if Jitters(cfg) then Times(f, b, f.round(1.0 - cfg.jitter)) else b
  }

  function High(f: Float, cfg: Config, b: int): int {
    if Jitters(cfg) then Times(f, b, f.round(1.0 + cfg.jitter)) else b
  }

  /** The interval of a base with the given jitter factors. */
  function Window(f: Float, b: int, jitterLo: real, jitterHi: real): Interval {
    var lo, hi := Times(f, b, jitterLo), Times(f, b, jitterHi);
    Interval(lo, hi - lo + 1)
  }

  function Planned(f: Float, cfg: Config, k: nat): Interval {
    var b := Base(f, cfg, k);
    if Jitters(cfg) then Window(f, b, f.round(1.0 - cfg.jitter), f.round(1.0 + cfg.jitter)) else Interval(b, 0)
  }

  /** First pass: apply the multiplier cumulatively. */
  method ApplyMultiplier(f: Float, plan: array<Interval>, m: real, ghost cfg: Config)
    requires plan.Length > 0 && plan[0] == Interval(Seed(cfg), 0) && m == Multiplier(cfg)
    modifies plan
    ensures forall k | 0 <= k < plan.Length :: plan[k] == Interval(Base(f, cfg, k), 0)
  {
    for x := 1 to plan.Length
      invariant forall k | 0 <= k < x :: plan[k] == Interval(Base(f, cfg, k), 0)
    {
      plan[x] := Interval(Times(f, plan[x - 1].base, m), 0);
    }
  }

  /** Second pass: turn each base into its jitter window. */
  method ApplyJitter(f: Float, plan: array<Interval>, cfg: Config)
    requires Jitters(cfg) && forall k | 0 <= k < plan.Length :: plan[k] == Interval(Base(f, cfg, k), 0)
    modifies plan
    ensures forall k | 0 <= k < plan.Length :: plan[k] == Planned(f, cfg, k)
  {
    var jitterLo, jitterHi := f.round(1.0 - cfg.jitter), f.round(1.0 + cfg.jitter);
    ghost var bases := seq(plan.Length, k requires 0 <= k => Base(f, cfg, k));
    WindowPass(f, plan, jitterLo, jitterHi, bases);
    forall k | 0 <= k < plan.Length
      ensures plan[k] == Planned(f, cfg, k)
    {
      assert plan[k] == Window(f, bases[k], jitterLo, jitterHi);
    }
  }

  method WindowPass(f: Float, plan: array<Interval>, jitterLo: real, jitterHi: real, ghost bases: seq<int>)
    requires |bases| == plan.Length && forall k | 0 <= k < plan.Length :: plan[k] == Interval(bases[k], 0)
    modifies plan
    ensures forall k | 0 <= k < plan.Length :: plan[k] == Window(f, bases[k], jitterLo, jitterHi)
  {
    for x := 0 to plan.Length
      invariant forall k | 0 <= k < x :: plan[k] == Window(f, bases[k], jitterLo, jitterHi)
      invariant forall k | x <= k < plan.Length :: plan[k] == Interval(bases[k], 0)
    {
      var lo := Times(f, plan[x].base, jitterLo);
      var hi := Times(f, plan[x].base, jitterHi);
      plan[x] := Interval(lo, hi - lo + 1);
    }
  }

  /** newIntervals: two passes over the slice, in place. */
  method NewIntervals(f: Float, cfg: Config) returns (plan: array<Interval>)
    ensures fresh(plan) && plan.Length == if cfg.retries < 1 then 0 else cfg.retries
    ensures forall k | 0 <= k < plan.Length :: plan[k] == Planned(f, cfg, k)
  {
    if cfg.retries < 1 {
      plan := new Interval[0];
      return;
    }
    plan := new Interval[cfg.retries](_ => Interval(0, 0));
    plan[0] := Interval(cfg.interval, 0);
    if plan[0].base <= 0 {
      plan[0] := Interval(DEFAULT_INTERVAL, 0);
    }
    var m := cfg.multiplier;
    if m <= 0.0 {
      m := 1.0;
    }
    ApplyMultiplier(f, plan, m, cfg);
    if 0.0 < cfg.jitter && cfg.jitter < 1.0 {
      ApplyJitter(f, plan, cfg);
    }
  }

  /** A random source: any value in [0, n), and it may not be asked for an empty range. */
  method Int63n(n: int) returns (r: int)
    requires n >= 1
    ensures 0 <= r < n
  {
    r :| 0 <= r < n;
  }

  /** interval.duration. */
  method Duration(f: Float, cfg: Config, k: nat, interval: Interval) returns (wait: int)
    requires Faithful(f) && interval == Planned(f, cfg, k)
    ensures Low(f, cfg, Base(f, cfg, k)) <= wait <= High(f, cfg, Base(f, cfg, k))
  {
    WindowIsNonempty(f, cfg, k);
    if interval.jitter > 0 {
      var r := Int63n(interval.jitter);
      return interval.base + r;
    }
    return interval.base;
  }

  // ---------------------------------------------------------------- rounding, once

  lemma MulMonotone(a: real, b: real, c: real)
    requires a <= b && c >= 0.0
    ensures a * c <= b * c && c * a <= c * b
  {
  }

  lemma ProductNear(f: Float, x: real, m: real)
    requires Faithful(f) && x >= 0.0 && m >= 0.0
    ensures x * m >= 0.0
    ensures x * m * (1.0 - f.unit) <= Product(f, x, m) <= x * m * (1.0 + f.unit)
    ensures Product(f, x, m) >= 0.0
  {
    MulMonotone(0.0, x, m);
    RoundingNear(f, Mul(x, m));
  }

  /** x * m with two factors of relative error. */
  function Twice(x: real, m: real, c: real): real {
    x * m * (c * c)
  }

  lemma ScaledNear(f: Float, b: int, m: real)
    requires Faithful(f) && b >= 0 && m >= 0.0
    ensures Twice(b as real, m, 1.0 - f.unit) <= Scaled(f, b, m) <= Twice(b as real, m, 1.0 + f.unit)
    ensures Scaled(f, b, m) >= 0.0
  {
    var x, u := b as real, f.unit;
    var y := f.round(x);
    RoundingNear(f, x);
    ProductNear(f, y, m);
    Lower(x, y, m, 1.0 - u, Product(f, y, m));
    Upper(x, y, m, 1.0 + u, Product(f, y, m));
  }

  /** One multiplication: two roundings in floating point, then one to an integer. */
  lemma TimesNear(f: Float, b: int, m: real)
    requires Faithful(f) && b >= 0 && m >= 0.0
    ensures Twice(b as real, m, 1.0 - f.unit) - 0.5 <= Times(f, b, m) as real <= Twice(b as real, m, 1.0 + f.unit) + 0.5
    ensures Times(f, b, m) >= 0
  {
    ScaledNear(f, b, m);
    RoundNear(Scaled(f, b, m));
  }

  lemma Lower(x: real, y: real, m: real, c: real, z: real)
    requires m >= 0.0 && c >= 0.0 && x * c <= y && y * m * c <= z
    ensures Twice(x, m, c) <= z
  {
    MulMonotone(x * c, y, m);
    MulMonotone(x * c * m, y * m, c);
    assert x * m * (c * c) == x * c * m * c;
  }

  lemma Upper(x: real, y: real, m: real, c: real, z: real)
    requires m >= 0.0 && c >= 0.0 && y <= x * c && z <= y * m * c
    ensures z <= Twice(x, m, c)
  {
    MulMonotone(y, x * c, m);
    MulMonotone(y * m, x * c * m, c);
    assert x * m * (c * c) == x * c * m * c;
  }

  lemma TimesMonotone(f: Float, b: int, b': int, m: real, m': real)
    requires Faithful(f) && 0 <= b <= b' && 0.0 <= m <= m'
    ensures Times(f, b, m) <= Times(f, b', m')
  {
    var x, x' := f.round(b as real), f.round(b' as real);
    RoundingNear(f, b as real);
    assert InOrder(f, b as real, b' as real);
    Products(x, x', m, m');
    assert InOrder(f, Mul(x, m), Mul(x', m'));
    RoundMonotone(Scaled(f, b, m), Scaled(f, b', m'));
  }

  lemma Products(x: real, x': real, m: real, m': real)
    requires 0.0 <= x <= x' && 0.0 <= m <= m'
    ensures 0.0 <= x * m <= x' * m'
  {
    MulMonotone(x, x', m);
    MulMonotone(m, m', x');
    MulMonotone(0.0, x, m);
  }

  lemma {:induction false} BaseNonnegative(f: Float, cfg: Config, k: nat)
    requires Faithful(f)
    ensures Base(f, cfg, k) >= 0
  {
    if k > 0 {
      BaseNonnegative(f, cfg, k - 1);
      TimesNear(f, Base(f, cfg, k - 1), Multiplier(cfg));
    }
  }

  lemma JitterFactors(f: Float, cfg: Config)
    requires Faithful(f) && Jitters(cfg)
    ensures 0.0 <= f.round(1.0 - cfg.jitter) <= f.round(1.0 + cfg.jitter)
  {
    RoundingNear(f, 1.0 - cfg.jitter);
    assert InOrder(f, 1.0 - cfg.jitter, 1.0 + cfg.jitter);
  }

  /** The random source is never asked for an empty range, and the window starts at or above zero. */
  lemma WindowIsNonempty(f: Float, cfg: Config, k: nat)
    requires Faithful(f)
    ensures var b := Base(f, cfg, k);
            && 0 <= Low(f, cfg, b) <= High(f, cfg, b)
            && (Jitters(cfg) ==> Planned(f, cfg, k).jitter >= 1)
  {
    var b := Base(f, cfg, k);
    BaseNonnegative(f, cfg, k);
    if Jitters(cfg) {
      JitterFactors(f, cfg);
      TimesNear(f, b, f.round(1.0 - cfg.jitter));
      TimesMonotone(f, b, b, f.round(1.0 - cfg.jitter), f.round(1.0 + cfg.jitter));
    }
  }

  /** The waits that can occur are exactly the window, both ends included. */
  lemma WindowIsExact(f: Float, cfg: Config, k: nat, wait: int)
    requires Faithful(f)
    ensures var plan, b := Planned(f, cfg, k), Base(f, cfg, k);
            Low(f, cfg, b) <= wait <= High(f, cfg, b) <==>
            (if plan.jitter > 0 then 0 <= wait - plan.base < plan.jitter else wait == plan.base)
  {
    WindowIsNonempty(f, cfg, k);
  }

  // ---------------------------------------------------------------- distance from the formula

  function Pow(m: real, k: nat): real {
    if k == 0 then 1.0 else m * Pow(m, k - 1)
  }

  /** The relative error of two floating-point roundings. */
  function TwoRoundings(u: real): real {
    2.0 * u + u * u
  }

  /** interval * multiplier^k, as documented. */
  function Formula(m: real, i: real, k: nat): real {
    i * Pow(m, k)
  }

  /** How far base `k` may be from interval * multiplier^k. */
  function Drift(u: real, m: real, i: real, k: nat): real {
    if k == 0 then 0.0 else NextDrift(TwoRoundings(u), m, Drift(u, m, i, k - 1), Formula(m, i, k))
  }

  /** The old error scaled, plus the rounding of the new product, plus half a unit. */
  function NextDrift(e: real, m: real, drift: real, target: real): real {
    (1.0 + e) * (m * drift) + e * target + 0.5
  }

  /** Half the sum of multiplier^j for j < k. */
  function HalfSum(m: real, k: nat): real {
    if k == 0 then 0.0 else HalfSum(m, k - 1) + Pow(m, k - 1) / 2.0
  }

  function Abs(x: real): real {
    if x < 0.0 then -x else x
  }

  lemma {:induction false} PowPositive(m: real, k: nat)
    requires m > 0.0
    ensures Pow(m, k) > 0.0
  {
    if k > 0 {
      PowPositive(m, k - 1);
    }
  }

  /** `product` is b * m, up to the relative error `e` and half a unit. */
  predicate ProductClose(product: real, b: real, m: real, e: real) {
    Abs(product - b * m) <= e * (b * m) + 0.5
  }

  lemma TimesClose(f: Float, b: int, m: real)
    requires Faithful(f) && b >= 0 && m >= 0.0
    ensures ProductClose(Times(f, b, m) as real, b as real, m, TwoRoundings(f.unit))
  {
    TimesNear(f, b, m);
    TwiceNear(b as real, m, f.unit);
  }

  lemma TwiceNear(x: real, m: real, u: real)
    requires x >= 0.0 && m >= 0.0 && u >= 0.0
    ensures Twice(x, m, 1.0 + u) <= x * m + TwoRoundings(u) * (x * m)
    ensures Twice(x, m, 1.0 - u) >= x * m - TwoRoundings(u) * (x * m)
  {
    var exact, e := x * m, TwoRoundings(u);
    MulMonotone(0.0, x, m);
    assert (1.0 + u) * (1.0 + u) == 1.0 + e;
    assert (1.0 - u) * (1.0 - u) == 1.0 - e + 2.0 * (u * u);
    MulMonotone(1.0 - e, (1.0 - u) * (1.0 - u), exact);
  }

  predicate Scales(x: real, m: real, y: real) {
    x == m * y
  }

  /** One step of the error: from `target` to `target * m`. */
  lemma DriftStep(e: real, m: real, b: real, b': real, target: real, target': real, drift: real)
    requires e >= 0.0 && m > 0.0 && Abs(b - target) <= drift && Scales(target', m, target)
    requires ProductClose(b', b, m, e)
    ensures Abs(b' - target') <= NextDrift(e, m, drift, target')
  {
    hide Mul, NextDrift, ProductClose, Scales;
    var bm, d := Mul(b, m), Mul(m, drift);
    CloseAsMul(b', b, m, e);
    GapAsMul(b, target, target', drift, m);
    ErrorAsMul(e, bm, target', d);
    DriftAsMul(e, m, drift, target');
    Combine(b', bm, target', d, Mul(e, bm), Mul(e, target'), Mul(e, d));
  }

  lemma CloseAsMul(product: real, b: real, m: real, e: real)
    requires ProductClose(product, b, m, e)
    ensures Abs(product - Mul(b, m)) <= Mul(e, Mul(b, m)) + 0.5
  {
  }

  lemma GapAsMul(b: real, target: real, target': real, drift: real, m: real)
    requires m > 0.0 && Abs(b - target) <= drift && Scales(target', m, target)
    ensures Mul(b, m) - target' <= Mul(m, drift) && target' - Mul(b, m) <= Mul(m, drift)
  {
    ScaledGap(b, target, drift, m);
    ScaledGap(target, b, drift, m);
  }

  lemma ErrorAsMul(e: real, bm: real, t: real, d: real)
    requires e >= 0.0 && bm - t <= d
    ensures Mul(e, bm) <= Mul(e, t) + Mul(e, d)
  {
    MulMonotone(bm, t + d, e);
    SpreadSum(e, t, d);
  }

  lemma DriftAsMul(e: real, m: real, drift: real, t: real)
    ensures NextDrift(e, m, drift, t) == Mul(m, drift) + Mul(e, Mul(m, drift)) + Mul(e, t) + 0.5
  {
    SpreadSum(e, t, m * drift);
  }

  lemma Combine(b: real, bm: real, t: real, d: real, ebm: real, et: real, ed: real)
    requires Abs(b - bm) <= ebm + 0.5 && bm - t <= d && t - bm <= d && ebm <= et + ed
    ensures Abs(b - t) <= d + ed + et + 0.5
  {
  }

  lemma ScaledGap(a: real, b: real, gap: real, m: real)
    requires a - b <= gap && m >= 0.0
    ensures a * m - b * m <= m * gap
  {
    MulMonotone(a - b, gap, m);
    assert (a - b) * m == a * m - b * m;
  }

  lemma SpreadSum(e: real, t: real, d: real)
    ensures e * (t + d) == e * t + e * d && (1.0 + e) * d == d + e * d
  {
  }

  lemma ErrorNonnegative(u: real)
    requires u >= 0.0
    ensures TwoRoundings(u) >= 0.0
  {
    MulMonotone(0.0, u, u);
  }

  lemma FormulaStep(m: real, i: real, k: nat)
    ensures Formula(m, i, 0) == i && Scales(Formula(m, i, k + 1), m, Formula(m, i, k))
  {
  }

  lemma CloseStep(f: Float, b: int, m: real, target: real, target': real, drift: real)
    requires Faithful(f) && b >= 0 && m > 0.0 && Abs(b as real - target) <= drift && Scales(target', m, target)
    ensures Abs(Times(f, b, m) as real - target') <= NextDrift(TwoRoundings(f.unit), m, drift, target')
  {
    TimesClose(f, b, m);
    ErrorNonnegative(f.unit);
    DriftStep(TwoRoundings(f.unit), m, b as real, Times(f, b, m) as real, target, target', drift);
  }

  /** Every base is as close to the documented formula as the accumulated roundings allow. */
  lemma {:induction false} BaseClose(f: Float, cfg: Config, k: nat)
    requires Faithful(f)
    ensures var i, m := Seed(cfg) as real, Multiplier(cfg);
            Abs(Base(f, cfg, k) as real - Formula(m, i, k)) <= Drift(f.unit, m, i, k)
  {
    var i, m := Seed(cfg) as real, Multiplier(cfg);
    if k == 0 {
      FormulaStep(m, i, 0);
    } else {
      var b := Base(f, cfg, k - 1);
      BaseClose(f, cfg, k - 1);
      BaseNonnegative(f, cfg, k - 1);
      FormulaStep(m, i, k - 1);
      CloseStep(f, b, m, Formula(m, i, k - 1), Formula(m, i, k), Drift(f.unit, m, i, k - 1));
    }
  }

  /** With exact products, the distance is at most half the sum of the powers so far. */
  lemma {:induction false} ExactDrift(m: real, i: real, k: nat)
    ensures Drift(0.0, m, i, k) == HalfSum(m, k)
  {
    if k > 0 {
      ExactDrift(m, i, k - 1);
      HalfSumShift(m, k - 1);
    }
  }

  lemma {:induction false} HalfSumShift(m: real, k: nat)
    ensures m * HalfSum(m, k) + 0.5 == HalfSum(m, k + 1)
  {
    if k > 0 {
      HalfSumShift(m, k - 1);
    }
  }

  // ---------------------------------------------------------------- the jitter window

  /** A factor with three roundings. */
  function Thrice(a: real, c: real): real {
    a * c * (c * c)
  }

  function Shrink(u: real, jitter: real): real {
    Thrice(1.0 - jitter, 1.0 - u)
  }

  function Grow(u: real, jitter: real): real {
    Thrice(1.0 + jitter, 1.0 + u)
  }

  lemma TwiceOfLower(x: real, a: real, c: real, factor: real)
    requires x >= 0.0 && c >= 0.0 && a * c <= factor
    ensures x * Thrice(a, c) <= Twice(x, factor, c)
  {
    MulMonotone(0.0, c, c);
    MulMonotone(a * c, factor, x);
    MulMonotone(x * (a * c), x * factor, c * c);
    assert x * Thrice(a, c) == x * (a * c) * (c * c);
  }

  lemma TwiceOfUpper(x: real, a: real, c: real, factor: real)
    requires x >= 0.0 && c >= 0.0 && factor <= a * c
    ensures Twice(x, factor, c) <= x * Thrice(a, c)
  {
    MulMonotone(0.0, c, c);
    MulMonotone(factor, a * c, x);
    MulMonotone(x * factor, x * (a * c), c * c);
    assert x * Thrice(a, c) == x * (a * c) * (c * c);
  }

  lemma LowNear(f: Float, cfg: Config, b: int)
    requires Faithful(f) && Jitters(cfg) && b >= 0
    ensures Mul(b as real, Shrink(f.unit, cfg.jitter)) - 0.5 <= Low(f, cfg, b) as real
  {
    LowFactor(f, 1.0 - cfg.jitter, b);
  }

  lemma LowFactor(f: Float, a: real, b: int)
    requires Faithful(f) && a >= 0.0 && b >= 0
    ensures Mul(b as real, Thrice(a, 1.0 - f.unit)) - 0.5 <= Times(f, b, f.round(a)) as real
  {
    RoundingNear(f, a);
    TimesNear(f, b, f.round(a));
    TwiceOfLower(b as real, a, 1.0 - f.unit, f.round(a));
  }

  lemma HighNear(f: Float, cfg: Config, b: int)
    requires Faithful(f) && Jitters(cfg) && b >= 0
    ensures High(f, cfg, b) as real <= Mul(b as real, Grow(f.unit, cfg.jitter)) + 0.5
  {
    RoundingNear(f, 1.0 + cfg.jitter);
    TimesNear(f, b, f.round(1.0 + cfg.jitter));
    TwiceOfUpper(b as real, 1.0 + cfg.jitter, 1.0 + f.unit, f.round(1.0 + cfg.jitter));
  }

  lemma ThriceNonnegative(a: real, c: real)
    requires a >= 0.0 && c >= 0.0
    ensures Thrice(a, c) >= 0.0
  {
    MulMonotone(0.0, c, c);
    MulMonotone(0.0, c, a);
    MulMonotone(0.0, a * c, c * c);
  }

  lemma ThriceAtLeastOne(a: real, c: real)
    requires a >= 1.0 && c >= 1.0
    ensures Thrice(a, c) >= 1.0
  {
    MulMonotone(1.0, c, c);
    MulMonotone(1.0, c, a);
    MulMonotone(1.0, a * c, c * c);
  }

  lemma MulFactors(a: real, b: real, c: real)
    requires a <= b && c >= 0.0
    ensures Mul(a, c) <= Mul(b, c)
  {
  }

  /**
   Every wait that can occur lies in the documented window [1-jitter, 1+jitter] around
   interval * multiplier^k, up to the drift of the base, the relative error of the three
   roundings of the factor, and half a nanosecond.
   */
  lemma WaitWindow(f: Float, cfg: Config, k: nat, wait: int)
    requires Faithful(f)
    requires Low(f, cfg, Base(f, cfg, k)) <= wait <= High(f, cfg, Base(f, cfg, k))
    ensures var i, m, u := Seed(cfg) as real, Multiplier(cfg), f.unit;
            var exact, drift := Formula(m, i, k), Drift(u, m, i, k);
            if Jitters(cfg)
            then && Mul(exact - drift, Shrink(u, cfg.jitter)) - 0.5 <= wait as real
                 && wait as real <= Mul(exact + drift, Grow(u, cfg.jitter)) + 0.5
            else Abs(wait as real - exact) <= drift
  {
    var i, m, u, b := Seed(cfg) as real, Multiplier(cfg), f.unit, Base(f, cfg, k);
    BaseClose(f, cfg, k);
    if Jitters(cfg) {
      BaseNonnegative(f, cfg, k);
      LowNear(f, cfg, b);
      HighNear(f, cfg, b);
      ThriceNonnegative(1.0 - cfg.jitter, 1.0 - u);
      ThriceNonnegative(1.0 + cfg.jitter, 1.0 + u);
      MulFactors(Formula(m, i, k) - Drift(u, m, i, k), b as real, Shrink(u, cfg.jitter));
      MulFactors(b as real, Formula(m, i, k) + Drift(u, m, i, k), Grow(u, cfg.jitter));
    }
  }

  /**
   The documented wait before retry `k`, of a configuration as given: Interval, or five seconds if it is not
   positive, times Multiplier^k, or one if that is not positive, times [1-Jitter, 1+Jitter] if Jitter lies
   between zero and one; up to the drift, three roundings of the factor and half a nanosecond.
   */
  ghost predicate Documented(u: real, cfg: Config, k: nat, wait: int) {
    var i := if cfg.interval > 0 then cfg.interval as real else 5_000_000_000.0;
    var m := if cfg.multiplier > 0.0 then cfg.multiplier else 1.0;
    var exact, drift := Formula(m, i, k), Drift(u, m, i, k);
    if 0.0 < cfg.jitter && cfg.jitter < 1.0
    then
      && Mul(exact - drift, Thrice(1.0 - cfg.jitter, 1.0 - u)) - 0.5 <= wait as real
      && wait as real <= Mul(exact + drift, Thrice(1.0 + cfg.jitter, 1.0 + u)) + 0.5
    else -drift <= wait as real - exact <= drift
  }

  lemma WaitIsDocumented(f: Float, cfg: Config, k: nat, wait: int)
    requires Faithful(f)
    requires Low(f, cfg, Base(f, cfg, k)) <= wait <= High(f, cfg, Base(f, cfg, k))
    ensures Documented(f.unit, cfg, k, wait)
  {
    hide Base, Drift, Formula, Low, High, Mul, Thrice;
    WaitWindow(f, cfg, k, wait);
    assert Seed(cfg) as real == if cfg.interval > 0 then cfg.interval as real else 5_000_000_000.0;
    assert Multiplier(cfg) == if cfg.multiplier > 0.0 then cfg.multiplier else 1.0;
  }

  /** With exact products the factors are the documented ones and the drift is half the sum of the powers. */
  lemma ExactWindow(f: Float, cfg: Config, k: nat, wait: int)
    requires Faithful(f) && f.unit == 0.0 && Jitters(cfg)
    requires Low(f, cfg, Base(f, cfg, k)) <= wait <= High(f, cfg, Base(f, cfg, k))
    ensures var i, m := Seed(cfg) as real, Multiplier(cfg);
            && Mul(Formula(m, i, k) - HalfSum(m, k), 1.0 - cfg.jitter) - 0.5 <= wait as real
            && wait as real <= Mul(Formula(m, i, k) + HalfSum(m, k), 1.0 + cfg.jitter) + 0.5
  {
    WaitWindow(f, cfg, k, wait);
    ExactDrift(Multiplier(cfg), Seed(cfg) as real, k);
    assert Shrink(0.0, cfg.jitter) == 1.0 - cfg.jitter && Grow(0.0, cfg.jitter) == 1.0 + cfg.jitter;
  }

  /** The documented formula itself is not met: one nanosecond times 1.5 waits two, and the bound is attained. */
  lemma FormulaNotMet(f: Float)
    requires f == Float(x => x, 0.0)
    ensures Faithful(f)
    ensures var cfg := Config(2, 1, 1.5, 0.0);
            && Planned(f, cfg, 1) == Interval(2, 0)
            && Abs(2.0 - Formula(1.5, 1.0, 1)) == HalfSum(1.5, 1) == 0.5
  {
    var cfg := Config(2, 1, 1.5, 0.0);
    assert Base(f, cfg, 0) == 1;
    assert Mul(1.0, 1.5) == 1.5;
    assert Base(f, cfg, 1) == Round(1.5) == 2;
    assert Pow(1.5, 0) == 1.0 && Pow(1.5, 1) == 1.5;
  }

  // ---------------------------------------------------------------- when the formula is met

  ghost predicate Whole(x: real) {
    x == x.Floor as real
  }

  lemma WholeInt(n: int)
    ensures Whole(n as real)
  {
  }

  lemma RoundIsExact(x: real)
    ensures Round(x) as real == x <==> Whole(x)
  {
    hide Round;
    RoundNear(x);
    if Round(x) as real == x {
      WholeInt(Round(x));
    }
    if Whole(x) {
      var n := x.Floor;
      assert n as real - 1.0 < Round(x) as real < n as real + 1.0;
      assert n - 1 < Round(x) < n + 1;
    }
  }

  /** With exact arithmetic, a rounded product is the product exactly when that is whole. */
  lemma TimesIsExact(f: Float, b: int, m: real)
    requires Faithful(f) && f.unit == 0.0 && b >= 0 && m >= 0.0
    ensures Times(f, b, m) as real == Mul(b as real, m) <==> Whole(Mul(b as real, m))
  {
    RoundingNear(f, b as real);
    MulMonotone(0.0, b as real, m);
    RoundingNear(f, Mul(b as real, m));
    RoundIsExact(Mul(b as real, m));
  }

  /** The wait before retry `k`, without jitter, is the documented one. */
  ghost predicate Met(f: Float, cfg: Config, k: nat) {
    Base(f, cfg, k) as real == Formula(Multiplier(cfg), Seed(cfg) as real, k)
  }

  ghost predicate WholeAt(cfg: Config, k: nat) {
    Whole(Formula(Multiplier(cfg), Seed(cfg) as real, k))
  }

  lemma FormulaProduct(m: real, i: real, k: nat, b: real)
    requires b == Formula(m, i, k)
    ensures Formula(m, i, k + 1) == Mul(b, m)
  {
    var p := Pow(m, k);
    assert i * (m * p) == (i * p) * m;
  }

  lemma MetStep(f: Float, cfg: Config, k: nat)
    requires Faithful(f) && f.unit == 0.0 && Met(f, cfg, k)
    ensures Met(f, cfg, k + 1) <==> WholeAt(cfg, k + 1)
  {
    var i, m, b := Seed(cfg) as real, Multiplier(cfg), Base(f, cfg, k);
    BaseNonnegative(f, cfg, k);
    FormulaProduct(m, i, k, b as real);
    TimesIsExact(f, b, m);
  }

  /**
   With exact arithmetic the waits before the first `n` retries are Interval*Multiplier^k, as
   documented, if and only if all of these are whole numbers of nanoseconds.
   */
  lemma {:induction false} FormulaMetIff(f: Float, cfg: Config, n: nat)
    requires Faithful(f) && f.unit == 0.0
    ensures (forall k: nat | k <= n :: Met(f, cfg, k)) <==> (forall k: nat | k <= n :: WholeAt(cfg, k))
  {
    FormulaStep(Multiplier(cfg), Seed(cfg) as real, 0);
    assert Met(f, cfg, 0) && WholeAt(cfg, 0);
    if n > 0 {
      FormulaMetIff(f, cfg, n - 1);
      if Met(f, cfg, n - 1) {
        MetStep(f, cfg, n - 1);
      }
      assert (forall k: nat | k <= n :: Met(f, cfg, k))
          <==> (forall k: nat | k < n :: Met(f, cfg, k)) && Met(f, cfg, n);
      assert (forall k: nat | k <= n :: WholeAt(cfg, k))
          <==> (forall k: nat | k < n :: WholeAt(cfg, k)) && WholeAt(cfg, n);
    }
  }

  /** Both ends of the jitter window are the documented ones. */
  ghost predicate WindowMet(f: Float, cfg: Config, k: nat) {
    var b, exact := Base(f, cfg, k), Formula(Multiplier(cfg), Seed(cfg) as real, k);
    Low(f, cfg, b) as real == Mul(exact, 1.0 - cfg.jitter) && High(f, cfg, b) as real == Mul(exact, 1.0 + cfg.jitter)
  }

  ghost predicate WholeWindowAt(cfg: Config, k: nat) {
    var exact := Formula(Multiplier(cfg), Seed(cfg) as real, k);
    Whole(Mul(exact, 1.0 - cfg.jitter)) && Whole(Mul(exact, 1.0 + cfg.jitter))
  }

  lemma WindowMetAt(f: Float, cfg: Config, k: nat)
    requires Faithful(f) && f.unit == 0.0 && Jitters(cfg) && Met(f, cfg, k)
    ensures WindowMet(f, cfg, k) <==> WholeWindowAt(cfg, k)
  {
    BaseNonnegative(f, cfg, k);
    RoundingNear(f, 1.0 - cfg.jitter);
    RoundingNear(f, 1.0 + cfg.jitter);
    TimesIsExact(f, Base(f, cfg, k), 1.0 - cfg.jitter);
    TimesIsExact(f, Base(f, cfg, k), 1.0 + cfg.jitter);
  }

  /** A window with the documented ends belongs to a base that is the documented one. */
  lemma WindowShowsBase(f: Float, cfg: Config, k: nat)
    requires Faithful(f) && f.unit == 0.0 && Jitters(cfg) && WindowMet(f, cfg, k)
    ensures Met(f, cfg, k)
  {
    var b, j, exact := Base(f, cfg, k), cfg.jitter, Formula(Multiplier(cfg), Seed(cfg) as real, k);
    BaseNonnegative(f, cfg, k);
    RoundingNear(f, 1.0 + j);
    RoundingNear(f, b as real);
    MulMonotone(0.0, b as real, 1.0 + j);
    RoundingNear(f, Mul(b as real, 1.0 + j));
    RoundNear(Mul(b as real, 1.0 + j));
    MiddleOfWindow(b, exact, j, Low(f, cfg, b), High(f, cfg, b));
  }

  lemma MiddleOfWindow(b: int, exact: real, j: real, lo: int, hi: int)
    requires j > 0.0 && lo as real == Mul(exact, 1.0 - j) && hi as real == Mul(exact, 1.0 + j)
    requires Mul(b as real, 1.0 + j) - 0.5 <= hi as real <= Mul(b as real, 1.0 + j) + 0.5
    ensures b as real == exact
  {
    var gap := exact - b as real;
    assert (lo + hi) as real == 2.0 * exact;
    assert -0.5 <= Mul(gap, 1.0 + j) <= 0.5;
    if gap >= 0.5 {
      MulMonotone(0.5, gap, 1.0 + j);
    } else if gap <= -0.5 {
      MulMonotone(gap, -0.5, 1.0 + j);
    }
    assert -1.0 < (lo + hi - 2 * b) as real < 1.0;
  }

  /**
   With exact arithmetic and jitter, both ends of the windows of the first `n` retries are the
   documented ones if and only if they and the waits in their middle are whole.
   */
  lemma WindowMetIff(f: Float, cfg: Config, n: nat)
    requires Faithful(f) && f.unit == 0.0 && Jitters(cfg)
    ensures (forall k: nat | k <= n :: WindowMet(f, cfg, k))
            <==> (forall k: nat | k <= n :: WholeAt(cfg, k) && WholeWindowAt(cfg, k))
  {
    FormulaMetIff(f, cfg, n);
    forall k: nat | k <= n && WindowMet(f, cfg, k)
      ensures Met(f, cfg, k)
    {
      WindowShowsBase(f, cfg, k);
    }
    forall k: nat | k <= n && Met(f, cfg, k)
      ensures WindowMet(f, cfg, k) <==> WholeWindowAt(cfg, k)
    {
      WindowMetAt(f, cfg, k);
    }
  }

  /** A whole Multiplier meets the formula at every retry. */
  lemma {:induction false} WholeMultiplierMeets(f: Float, cfg: Config, k: nat)
    requires Faithful(f) && f.unit == 0.0 && Whole(Multiplier(cfg))
    ensures Met(f, cfg, k)
  {
    if k == 0 {
      FormulaStep(Multiplier(cfg), Seed(cfg) as real, 0);
    } else {
      WholeMultiplierMeets(f, cfg, k - 1);
      var b, m := Base(f, cfg, k - 1), Multiplier(cfg);
      WholeProduct(b, m);
      FormulaProduct(m, Seed(cfg) as real, k - 1, b as real);
      MetStep(f, cfg, k - 1);
    }
  }

  lemma WholeProduct(b: int, m: real)
    requires Whole(m)
    ensures Whole(Mul(b as real, m))
  {
    var n := m.Floor;
    assert (b * n) as real == Mul(b as real, n as real);
    WholeInt(b * n);
  }

  // ---------------------------------------------------------------- monotonicity

  /** Integers up to `top` are represented exactly: 2^53 for binary64. */
  ghost predicate ExactTo(f: Float, top: int) {
    forall b: int {:trigger f.round(b as real)} | 0 <= b <= top :: f.round(b as real) == b as real
  }

  /** One retry after another. */
  lemma NextGrows(f: Float, cfg: Config, k: nat)
    requires Faithful(f) && Multiplier(cfg) >= 1.0
    requires var b := Base(f, cfg, k); f.round(b as real) == b as real
    ensures Base(f, cfg, k) <= Base(f, cfg, k + 1)
  {
    var b, m := Base(f, cfg, k), Multiplier(cfg);
    BaseNonnegative(f, cfg, k);
    MulMonotone(1.0, m, b as real);
    assert InOrder(f, b as real, Mul(b as real, m));
    RoundMonotone(b as real, Scaled(f, b, m));
  }

  /** With Multiplier at least 1, waits never shrink, as long as the bases are exact in floating point. */
  lemma {:induction false} BasesGrow(f: Float, cfg: Config, j: nat, k: nat, top: int)
    requires Faithful(f) && Multiplier(cfg) >= 1.0 && j <= k && ExactTo(f, top)
    requires forall l: nat | l < k :: Base(f, cfg, l) <= top
    ensures Base(f, cfg, j) <= Base(f, cfg, k)
    ensures Low(f, cfg, Base(f, cfg, j)) <= Low(f, cfg, Base(f, cfg, k))
    ensures High(f, cfg, Base(f, cfg, j)) <= High(f, cfg, Base(f, cfg, k))
    decreases k
  {
    if j < k {
      BasesGrow(f, cfg, j, k - 1, top);
      BaseNonnegative(f, cfg, k - 1);
      NextGrows(f, cfg, k - 1);
      WindowGrows(f, cfg, Base(f, cfg, k - 1), Base(f, cfg, k));
    }
  }

  lemma WindowGrows(f: Float, cfg: Config, b: int, b': int)
    requires Faithful(f) && 0 <= b <= b'
    ensures Low(f, cfg, b) <= Low(f, cfg, b') && High(f, cfg, b) <= High(f, cfg, b')
  {
    if Jitters(cfg) {
      JitterFactors(f, cfg);
      TimesMonotone(f, b, b', f.round(1.0 - cfg.jitter), f.round(1.0 - cfg.jitter));
      TimesMonotone(f, b, b', f.round(1.0 + cfg.jitter), f.round(1.0 + cfg.jitter));
    }
  }

  /** With exact arithmetic, waits never shrink at all. */
  lemma {:induction false} BasesGrowExactly(f: Float, cfg: Config, j: nat, k: nat)
    requires Faithful(f) && f.unit == 0.0 && Multiplier(cfg) >= 1.0 && j <= k
    ensures Base(f, cfg, j) <= Base(f, cfg, k)
    ensures Low(f, cfg, Base(f, cfg, j)) <= Low(f, cfg, Base(f, cfg, k))
    ensures High(f, cfg, Base(f, cfg, j)) <= High(f, cfg, Base(f, cfg, k))
    decreases k
  {
    if j < k {
      BasesGrowExactly(f, cfg, j, k - 1);
      BaseNonnegative(f, cfg, k - 1);
      RoundingNear(f, Base(f, cfg, k - 1) as real);
      NextGrows(f, cfg, k - 1);
      WindowGrows(f, cfg, Base(f, cfg, k - 1), Base(f, cfg, k));
    }
  }

  // ---------------------------------------------------------------- int64

  function AtLeastOne(m: real): real {
    if m < 1.0 then 1.0 else m
  }

  lemma {:induction false} PowGrows(m: real, big: real, k: nat, n: nat)
    requires 0.0 < m <= big && big >= 1.0 && k <= n
    ensures 0.0 < Pow(m, k) <= Pow(big, n)
  {
    PowPositive(m, k);
    if k > 0 {
      PowGrows(m, big, k - 1, n - 1);
      PowPositive(m, k - 1);
      Products(m, big, Pow(m, k - 1), Pow(big, n - 1));
    } else {
      PowAtLeastOne(big, n);
    }
  }

  lemma {:induction false} PowAtLeastOne(m: real, n: nat)
    requires m >= 1.0
    ensures Pow(m, n) >= 1.0
  {
    if n > 0 {
      PowAtLeastOne(m, n - 1);
      MulMonotone(1.0, m, Pow(m, n - 1));
    }
  }

  lemma {:induction false} DriftGrows(u: real, m: real, big: real, i: real, k: nat, n: nat)
    requires u >= 0.0 && 0.0 < m <= big && big >= 1.0 && i >= 0.0 && k <= n
    ensures 0.0 <= Drift(u, m, i, k) <= Drift(u, big, i, n)
  {
    if n > 0 {
      var e := TwoRoundings(u);
      ErrorNonnegative(u);
      FormulaGrows(big, big, i, n, n);
      if k > 0 {
        DriftGrows(u, m, big, i, k - 1, n - 1);
        FormulaGrows(m, big, i, k, n);
        NextDriftGrows(e, m, big, Drift(u, m, i, k - 1), Drift(u, big, i, n - 1), Formula(m, i, k), Formula(big, i, n));
      } else {
        DriftGrows(u, m, big, i, 0, n - 1);
        NextDriftGrows(e, m, big, 0.0, Drift(u, big, i, n - 1), 0.0, Formula(big, i, n));
      }
    }
  }

  lemma FormulaGrows(m: real, big: real, i: real, k: nat, n: nat)
    requires 0.0 < m <= big && big >= 1.0 && i >= 0.0 && k <= n
    ensures 0.0 <= Formula(m, i, k) <= Formula(big, i, n)
  {
    PowGrows(m, big, k, n);
    MulMonotone(Pow(m, k), Pow(big, n), i);
    MulMonotone(0.0, Pow(m, k), i);
  }

  lemma NextDriftGrows(e: real, m: real, big: real, drift: real, drift': real, target: real, target': real)
    requires e >= 0.0 && 0.0 < m <= big && 0.0 <= drift <= drift' && 0.0 <= target <= target'
    ensures 0.0 <= NextDrift(e, m, drift, target) <= NextDrift(e, big, drift', target')
  {
    Products(m, big, drift, drift');
    NextDriftArith(e, m * drift, big * drift', target, target');
  }

  lemma NextDriftArith(e: real, a: real, a': real, target: real, target': real)
    requires e >= 0.0 && 0.0 <= a <= a' && 0.0 <= target <= target'
    ensures 0.0 <= (1.0 + e) * a + e * target + 0.5 <= (1.0 + e) * a' + e * target' + 0.5
  {
    MulMonotone(a, a', 1.0 + e);
    MulMonotone(0.0, a, 1.0 + e);
    MulMonotone(target, target', e);
    MulMonotone(0.0, target, e);
  }

  lemma AtLeastSelf(a: real, c: real)
    requires a >= 0.0 && c >= 1.0
    ensures Mul(a, c) >= a
  {
    MulMonotone(1.0, c, a);
  }

  /** The largest wait a configuration can lead to, by the documented formula and its error bound. */
  function Peak(u: real, cfg: Config): real
    requires cfg.retries >= 1
  {
    var i, m := Seed(cfg) as real, AtLeastOne(Multiplier(cfg));
    Mul(Formula(m, i, cfg.retries - 1) + Drift(u, m, i, cfg.retries - 1),
        Grow(u, if Jitters(cfg) then cfg.jitter else 0.0))
  }

  lemma {:induction false} HalfSumBound(m: real, k: nat)
    requires m >= 1.0
    ensures HalfSum(m, k) <= Mul(k as real / 2.0, Pow(m, k))
  {
    if k > 0 {
      HalfSumBound(m, k - 1);
      PowAtLeastOne(m, k - 1);
      var p := Pow(m, k - 1);
      MulMonotone(1.0, m, p);
      assert Mul((k - 1) as real / 2.0, p) + p / 2.0 == Mul(k as real / 2.0, p);
      MulMonotone(p, Pow(m, k), k as real / 2.0);
    }
  }

  /** With exact products the peak is bounded by (interval + (retries-1)/2) * multiplier^(retries-1) * (1+jitter). */
  lemma PeakBound(cfg: Config)
    requires cfg.retries >= 1
    ensures var i, m, n := Seed(cfg) as real, AtLeastOne(Multiplier(cfg)), cfg.retries - 1;
            Peak(0.0, cfg) <= Mul(Mul(i + n as real / 2.0, Pow(m, n)), 1.0 + if Jitters(cfg) then cfg.jitter else 0.0)
  {
    var i, m, n := Seed(cfg) as real, AtLeastOne(Multiplier(cfg)), cfg.retries - 1;
    var j := if Jitters(cfg) then cfg.jitter else 0.0;
    ExactDrift(m, i, n);
    HalfSumBound(m, n);
    assert Mul(i + n as real / 2.0, Pow(m, n)) == Formula(m, i, n) + Mul(n as real / 2.0, Pow(m, n));
    assert Thrice(1.0 + j, 1.0) == 1.0 + j;
    MulFactors(Formula(m, i, n) + Drift(0.0, m, i, n), Mul(i + n as real / 2.0, Pow(m, n)), 1.0 + j);
  }

  /**
   No conversion leaves the int64 range: if the peak does not, then every base, both ends of
   every window, every window size and every wait fit.
   */
  lemma EverythingFits(f: Float, cfg: Config, k: nat, wait: int)
    requires Faithful(f) && 0 <= k < cfg.retries && Peak(f.unit, cfg) + 1.5 <= MAX_INT64 as real
    requires Low(f, cfg, Base(f, cfg, k)) <= wait <= High(f, cfg, Base(f, cfg, k))
    ensures var b, plan := Base(f, cfg, k), Planned(f, cfg, k);
            && 0 <= b <= MAX_INT64 && 0 <= plan.base <= MAX_INT64 && 0 <= plan.jitter <= MAX_INT64
            && 0 <= Low(f, cfg, b) <= wait <= High(f, cfg, b) <= MAX_INT64
  {
    var b, j := Base(f, cfg, k), if Jitters(cfg) then cfg.jitter else 0.0;
    var i, m, big, n := Seed(cfg) as real, Multiplier(cfg), AtLeastOne(Multiplier(cfg)), cfg.retries - 1;
    BaseNonnegative(f, cfg, k);
    BaseClose(f, cfg, k);
    FormulaGrows(m, big, i, k, n);
    DriftGrows(f.unit, m, big, i, k, n);
    ThriceAtLeastOne(1.0 + j, 1.0 + f.unit);
    var most := Formula(big, i, n) + Drift(f.unit, big, i, n);
    AtLeastSelf(most, Grow(f.unit, j));
    MulFactors(b as real, most, Grow(f.unit, j));
    WindowIsNonempty(f, cfg, k);
    if Jitters(cfg) {
      HighNear(f, cfg, b);
    }
  }

  /** Every base is at most the peak of the configuration. */
  lemma BaseBelowPeak(f: Float, cfg: Config, k: nat)
    requires Faithful(f) && 0 <= k < cfg.retries
    ensures Base(f, cfg, k) as real <= Peak(f.unit, cfg)
  {
    var i, m, big, n := Seed(cfg) as real, Multiplier(cfg), AtLeastOne(Multiplier(cfg)), cfg.retries - 1;
    var j := if Jitters(cfg) then cfg.jitter else 0.0;
    BaseNonnegative(f, cfg, k);
    BaseClose(f, cfg, k);
    FormulaGrows(m, big, i, k, n);
    DriftGrows(f.unit, m, big, i, k, n);
    ThriceAtLeastOne(1.0 + j, 1.0 + f.unit);
    AtLeastSelf(Formula(big, i, n) + Drift(f.unit, big, i, n), Grow(f.unit, j));
  }

  /**
   Over a whole configuration: with Multiplier at least 1, and all integers up to its peak exact in
   floating point, no wait and neither end of a window shrinks from one retry to a later one.
   */
  lemma WaitsGrow(f: Float, cfg: Config, j: nat, k: nat)
    requires Faithful(f) && Multiplier(cfg) >= 1.0 && j <= k < cfg.retries
    requires ExactTo(f, Peak(f.unit, cfg).Floor)
    ensures Base(f, cfg, j) <= Base(f, cfg, k)
    ensures Low(f, cfg, Base(f, cfg, j)) <= Low(f, cfg, Base(f, cfg, k))
    ensures High(f, cfg, Base(f, cfg, j)) <= High(f, cfg, Base(f, cfg, k))
  {
    forall l: nat | l < k
      ensures Base(f, cfg, l) <= Peak(f.unit, cfg).Floor
    {
      BaseBelowPeak(f, cfg, l);
    }
    BasesGrow(f, cfg, j, k, Peak(f.unit, cfg).Floor);
  }
}
