/** Temporal smoothing of the introspection readings: an exponential filter whose
    rate is adapted after every tick. */
module SmootherModel {
  import opened Signals

  datatype Raw = Raw(influence: Signal, harmony: Signal, consent: Signal)

  datatype Filter = Filter(alpha: real, influence: real, harmony: real, consent: real, warmup: int)

  datatype Adapt = Adapt(
    alphaMin: real, alphaMax: real, targetDelta: real, kp: real, ki: real, kd: real,
    errPrev: real, errI: real, lastAlpha: real, lastErr: real, lowCount: int)

  function Sane(s: Signal): real {
    if s.Finite? then s.value else 0.0
  }

  function Clamp(x: real, lo: real, hi: real): real {
    if x < lo then lo else if x > hi then hi else x
  }

  function ClampSignal(s: Signal, lo: real, hi: real, fallback: real): real {
    if s.Finite? then Clamp(s.value, lo, hi) else fallback
  }

  function Abs(x: real): real {
    if x < 0.0 then -x else x
  }

  function Max(a: real, b: real): real {
    if b > a then b else a
  }

  // ----- the filter -----

  /** One smoothed value. */
  function Blend(alpha: real, x: real, smoothed: real): real {
    alpha * x + (1.0 - alpha) * smoothed
  }

  function FilterStep(f: Filter, raw: Raw): Filter {
    var alpha := Clamp(f.alpha, 0.0, 1.0);
    var i, h, c := Sane(raw.influence), Sane(raw.harmony), Sane(raw.consent);
    if alpha == 0.0 && f.warmup <= 0 then f.(influence := i, harmony := h, consent := c)
    else if f.warmup > 0 then f.(influence := i, harmony := h, consent := c, warmup := f.warmup - 1)
    else f.(influence := Blend(alpha, i, f.influence), harmony := Blend(alpha, h, f.harmony),
            consent := Blend(alpha, c, f.consent))
  }

  /** The greatest distance of a smoothed value from its reading. */
  function Gap(f: Filter, raw: Raw): real {
    Max(Max(Abs(f.influence - Sane(raw.influence)), Abs(f.harmony - Sane(raw.harmony))),
        Abs(f.consent - Sane(raw.consent)))
  }

  // ----- the adaptation -----

  const SPIKE := 0.15
  const QUIET := 0.002
  const QUIET_TICKS := 20
  const COUNT_LIMIT := 1000000

  /** A number, or the fallback for what is none. */
  function Or(s: Signal, fallback: real): real {
    if s.Finite? then s.value else fallback
  }

  /** The adaptation at its start, between two bounds given in either order. */
  function Fresh(lo: real, hi: real, target: real, kp: real, ki: real, kd: real, initial: Signal): Adapt {
    var least, greatest := if lo > hi then hi else lo, Max(lo, hi);
    Adapt(least, greatest, Max(0.0, target), kp, ki, kd, 0.0, 0.0, ClampSignal(initial, least, greatest, least), 0.0, 0)
  }

  lemma {:induction false} FreshInRange(lo: real, hi: real, target: real, kp: real, ki: real, kd: real, initial: Signal)
    requires 0.0 <= lo <= 1.0 && 0.0 <= hi <= 1.0
    ensures InRange(Fresh(lo, hi, target, kp, ki, kd, initial))
  {
  }

  /** The proportional, integral and derivative terms. */
  function Adjustment(kp: real, ki: real, kd: real, err: real, errI: real, errD: real): real {
    kp * err + ki * errI + kd * errD
  }

  function AdaptStep(a: Adapt, rawDelta: real): Adapt {
    var delta := Max(0.0, rawDelta);
    var err := delta - a.targetDelta;
    var errI := Clamp(a.errI + err, -0.05, 0.05);
    if delta > SPIKE then
      a.(errPrev := err, errI := errI, lastAlpha := a.alphaMax, lastErr := err, lowCount := 0)
    else
      var low := if delta >= QUIET then 0 else if a.lowCount < COUNT_LIMIT then a.lowCount + 1 else a.lowCount;
      var next := a.lastAlpha + Adjustment(a.kp, a.ki, a.kd, err, errI, err - a.errPrev)
                  - (if low >= QUIET_TICKS then 0.01 else 0.0);
      a.(errPrev := err, errI := errI, lastAlpha := Clamp(next, a.alphaMin, a.alphaMax), lastErr := err,
         lowCount := low)
  }

  // ----- one tick -----

  datatype Smoother = Smoother(filter: Filter, adapt: Adapt)

  function Tick(s: Smoother, raw: Raw): Smoother {
    var f := FilterStep(s.filter, raw);
    var a := AdaptStep(s.adapt, Gap(f, raw));
    Smoother(f.(alpha := a.lastAlpha), a)
  }

  function Ticks(s: Smoother, raws: seq<Raw>): Smoother {
    if raws == [] then s else Tick(Ticks(s, raws[..|raws| - 1]), raws[|raws| - 1])
  }

  // ----- every run stays in range -----

  ghost predicate InRange(a: Adapt) {
    && 0.0 <= a.alphaMin <= a.alphaMax <= 1.0
    && a.alphaMin <= a.lastAlpha <= a.alphaMax
    && -0.05 <= a.errI <= 0.05
    && 0 <= a.lowCount <= COUNT_LIMIT
  }

  lemma {:induction false} AdaptKeepsRange(a: Adapt, delta: real)
    requires InRange(a)
    ensures InRange(AdaptStep(a, delta))
    ensures AdaptStep(a, delta).alphaMin == a.alphaMin && AdaptStep(a, delta).alphaMax == a.alphaMax
    ensures delta > 0.15 ==> AdaptStep(a, delta).lastAlpha == a.alphaMax
  {
  }

  /** After any readings the rate lies between its two bounds, and the integral term
      within its window. */
  lemma {:induction false} RatesStayInRange(s: Smoother, raws: seq<Raw>)
    requires InRange(s.adapt)
    ensures var t := Ticks(s, raws);
      && InRange(t.adapt) && t.adapt.alphaMin == s.adapt.alphaMin && t.adapt.alphaMax == s.adapt.alphaMax
      && (raws != [] ==> t.filter.alpha == t.adapt.lastAlpha)
  {
    if raws != [] {
      RatesStayInRange(s, raws[..|raws| - 1]);
      hide AdaptStep, FilterStep, Gap;
      var t := Ticks(s, raws[..|raws| - 1]);
      AdaptKeepsRange(t.adapt, Gap(FilterStep(t.filter, raws[|raws| - 1]), raws[|raws| - 1]));
    }
  }

  // ----- constant readings -----

  /** A blend lies between the old value and the reading, and is closer by the rate. */
  lemma {:induction false} BlendApproaches(alpha: real, x: real, smoothed: real)
    requires 0.0 <= alpha <= 1.0
    ensures Abs(Blend(alpha, x, smoothed) - x) == Scaled(1.0 - alpha, Abs(smoothed - x))
    ensures smoothed <= x ==> smoothed <= Blend(alpha, x, smoothed) <= x
    ensures smoothed >= x ==> smoothed >= Blend(alpha, x, smoothed) >= x
  {
    var d := smoothed - x;
    assert Blend(alpha, x, smoothed) - x == (1.0 - alpha) * d;
    assert Blend(alpha, x, smoothed) - smoothed == -alpha * d;
    Signs(1.0 - alpha, d);
    Signs(alpha, d);
  }

  lemma {:induction false} Signs(k: real, d: real)
    requires k >= 0.0
    ensures d >= 0.0 ==> k * d >= 0.0
    ensures d <= 0.0 ==> k * d <= 0.0
    ensures k * Abs(d) == Abs(k * d)
  {
  }

  /** k times x, a name for the product. */
  function Scaled(k: real, x: real): real {
    k * x
  }

  lemma {:induction false} ScaleOrder(k: real, l: real, a: real, b: real)
    requires 0.0 <= k <= l && 0.0 <= a <= b
    ensures 0.0 <= Scaled(k, a) <= Scaled(l, b)
  {
    assert k * a <= l * a <= l * b;
  }

  /** While the warm-up lasts the smoothed values follow the readings exactly. */
  lemma {:induction false} WarmupFollows(f: Filter, raw: Raw)
    requires f.warmup > 0
    ensures Gap(FilterStep(f, raw), raw) == 0.0 && FilterStep(f, raw).warmup == f.warmup - 1
  {
    hide Blend;
  }

  /** One step past the warm-up shrinks the gap by the rate. */
  lemma {:induction false} StepShrinks(f: Filter, raw: Raw, least: real)
    requires f.warmup <= 0 && 0.0 <= least <= f.alpha <= 1.0
    ensures Gap(FilterStep(f, raw), raw) <= Scaled(1.0 - least, Gap(f, raw))
    ensures FilterStep(f, raw).warmup == f.warmup
  {
    var i, h, c := Sane(raw.influence), Sane(raw.harmony), Sane(raw.consent);
    var g := Gap(f, raw);
    hide Blend, Scaled;
    if f.alpha == 0.0 {
      ScaleOrder(0.0, 1.0 - least, 0.0, g);
    } else {
      BlendApproaches(f.alpha, i, f.influence);
      BlendApproaches(f.alpha, h, f.harmony);
      BlendApproaches(f.alpha, c, f.consent);
      ScaleOrder(1.0 - f.alpha, 1.0 - least, Abs(f.influence - i), g);
      ScaleOrder(1.0 - f.alpha, 1.0 - least, Abs(f.harmony - h), g);
      ScaleOrder(1.0 - f.alpha, 1.0 - least, Abs(f.consent - c), g);
    }
  }

  function Power(b: real, n: nat): real {
    if n == 0 then 1.0 else b * Power(b, n - 1)
  }

  function Same(raw: Raw, n: nat): (raws: seq<Raw>)
    ensures |raws| == n
  {
    seq(n, _ => raw)
  }

  /** The state between ticks once the warm-up is over. */
  ghost predicate Warm(s: Smoother) {
    InRange(s.adapt) && s.filter.alpha == s.adapt.lastAlpha && s.filter.warmup <= 0
  }

  lemma {:induction false} WarmupCounts(s: Smoother, raws: seq<Raw>)
    ensures Ticks(s, raws).filter.warmup <= if s.filter.warmup > |raws| then s.filter.warmup - |raws| else 0
  {
    hide AdaptStep, Gap, Blend, Clamp, Sane;
    if raws != [] { WarmupCounts(s, raws[..|raws| - 1]); }
  }

  /** As many ticks as the warm-up asks for, whatever the readings, end it. */
  lemma {:induction false} WarmsUp(s: Smoother, raws: seq<Raw>)
    requires InRange(s.adapt) && raws != [] && |raws| >= s.filter.warmup
    ensures Warm(Ticks(s, raws))
  {
    RatesStayInRange(s, raws);
    WarmupCounts(s, raws);
    hide Ticks;
  }

  lemma {:induction false} TickShrinks(s: Smoother, raw: Raw)
    requires Warm(s)
    ensures Warm(Tick(s, raw)) && Tick(s, raw).adapt.alphaMin == s.adapt.alphaMin
    ensures Tick(s, raw).adapt.alphaMax == s.adapt.alphaMax
    ensures Gap(Tick(s, raw).filter, raw) <= Scaled(1.0 - s.adapt.alphaMin, Gap(s.filter, raw))
  {
    StepShrinks(s.filter, raw, s.adapt.alphaMin);
    var f := FilterStep(s.filter, raw);
    GapIgnoresRate(s, raw);
    hide FilterStep, Gap, AdaptStep, Scaled;
    AdaptKeepsRange(s.adapt, Gap(f, raw));
  }

  /** Under a constant reading the gap shrinks at least geometrically, whatever rates
      the adaptation chooses. */
  lemma {:induction false} GapShrinks(s: Smoother, raw: Raw, n: nat)
    requires Warm(s)
    ensures Warm(Ticks(s, Same(raw, n))) && Ticks(s, Same(raw, n)).adapt.alphaMin == s.adapt.alphaMin
    ensures Gap(Ticks(s, Same(raw, n)).filter, raw) <= Scaled(Power(1.0 - s.adapt.alphaMin, n), Gap(s.filter, raw))
  {
    hide Tick, Warm, Gap, Scaled;
    if n == 0 {
      assert Same(raw, 0) == [];
      ScaleByOne(1.0 - s.adapt.alphaMin, Gap(s.filter, raw));
    } else {
      GapShrinks(s, raw, n - 1);
      assert Same(raw, n)[..n - 1] == Same(raw, n - 1);
      var t := Ticks(s, Same(raw, n - 1));
      TickShrinks(t, raw);
      WarmBounds(s);
      GapIsPositive(t.filter, raw);
      Compose(1.0 - s.adapt.alphaMin, n - 1, Gap(s.filter, raw), Gap(t.filter, raw));
    }
  }

  lemma {:induction false} ScaleByOne(b: real, x: real)
    ensures Scaled(Power(b, 0), x) == x
  {
  }

  lemma {:induction false} WarmBounds(s: Smoother)
    requires Warm(s)
    ensures 0.0 <= s.adapt.alphaMin <= 1.0
  {
  }

  lemma {:induction false} GapIsPositive(f: Filter, raw: Raw)
    ensures Gap(f, raw) >= 0.0
  {
  }

  lemma {:induction false} Compose(b: real, n: nat, g: real, h: real)
    requires b >= 0.0 && 0.0 <= h <= Scaled(Power(b, n), g)
    ensures Scaled(b, h) <= Scaled(Power(b, n + 1), g)
  {
    var p := Power(b, n);
    ScaleOrder(b, b, h, p * g);
    assert b * (p * g) == (b * p) * g;
  }

  /** A gap that stays above the spike threshold makes the next step the boldest one. */
  lemma {:induction false} SpikesAreChased(s: Smoother, raw: Raw)
    requires Warm(s) && Gap(Tick(s, raw).filter, raw) > 0.15
    ensures var t := Tick(s, raw);
      Gap(Tick(t, raw).filter, raw) <= Scaled(1.0 - s.adapt.alphaMax, Gap(t.filter, raw))
  {
    hide FilterStep, AdaptStep, Scaled, Gap;
    TickShrinks(s, raw);
    GapIgnoresRate(s, raw);
    AdaptKeepsRange(s.adapt, Gap(FilterStep(s.filter, raw), raw));
    var t := Tick(s, raw);
    StepShrinks(t.filter, raw, s.adapt.alphaMax);
    GapIgnoresRate(t, raw);
  }

  lemma {:induction false} GapIgnoresRate(s: Smoother, raw: Raw)
    ensures Gap(Tick(s, raw).filter, raw) == Gap(FilterStep(s.filter, raw), raw)
  {
  }

  // ----- the gap vanishes -----

  lemma {:induction false} PowerBound(a: real, n: nat)
    requires 0.0 < a <= 1.0
    ensures 0.0 <= Power(1.0 - a, n) && Power(1.0 - a, n) * (1.0 + n as real * a) <= 1.0
  {
    if n > 0 {
      PowerBound(a, n - 1);
      BoundStep(a, Power(1.0 - a, n - 1), (n - 1) as real);
    }
  }

  lemma {:induction false} BoundStep(a: real, p: real, m: real)
    requires 0.0 < a <= 1.0 && m >= 0.0 && 0.0 <= p && p * (1.0 + m * a) <= 1.0
    ensures 0.0 <= (1.0 - a) * p && ((1.0 - a) * p) * (1.0 + (m + 1.0) * a) <= 1.0
  {
    Bernoulli(a, m);
    var q, r := (1.0 - a) * (1.0 + (m + 1.0) * a), 1.0 + m * a;
    ScaleOrder(p, p, q, r);
    Signs(1.0 - a, p);
    assert ((1.0 - a) * p) * (1.0 + (m + 1.0) * a) == p * q;
  }

  lemma {:induction false} Bernoulli(a: real, m: real)
    requires 0.0 < a <= 1.0 && m >= 0.0
    ensures 0.0 <= (1.0 - a) * (1.0 + (m + 1.0) * a) <= 1.0 + m * a
  {
    Signs(a, m + 1.0);
    Signs(1.0 - a, 1.0 + (m + 1.0) * a);
    Signs(a, a);
    Signs(a * a, m + 1.0);
    assert (1.0 - a) * (1.0 + (m + 1.0) * a) == 1.0 + m * a - (a * a) * (m + 1.0);
  }

  /** With a positive least rate the smoothed values come, and stay, as close to a
      constant reading as one likes; how long that takes depends only on the gap at
      the start. */
  lemma {:induction false} GapVanishes(s: Smoother, raw: Raw, tolerance: real, n: nat)
    requires Warm(s) && s.adapt.alphaMin > 0.0 && tolerance > 0.0
    requires n as real * s.adapt.alphaMin * tolerance >= Gap(s.filter, raw)
    ensures Gap(Ticks(s, Same(raw, n)).filter, raw) <= tolerance
  {
    hide Gap, Ticks, Scaled, Power;
    GapShrinks(s, raw, n);
    GapIsPositive(s.filter, raw);
    var a, g := s.adapt.alphaMin, Gap(s.filter, raw);
    PowerBound(a, n);
    Small(Power(1.0 - a, n), n as real * a, g, tolerance);
  }

  lemma {:induction false} Small(p: real, x: real, g: real, tolerance: real)
    requires p >= 0.0 && p * (1.0 + x) <= 1.0 && x >= 0.0 && tolerance > 0.0 && 0.0 <= g <= x * tolerance
    ensures Scaled(p, g) <= tolerance
  {
    ScaleOrder(p, p, g, x * tolerance);
    assert p * (x * tolerance) == (p * x) * tolerance;
    assert p * x <= 1.0;
    ScaleOrder(p * x, 1.0, tolerance, tolerance);
  }
}
