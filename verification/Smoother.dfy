/** The smoothing filter, its adaptation and the tick that drives both, as objects
    updated in place. */
module Smoother {
  import opened Signals
  import opened SmootherModel

  class TrsFilter {
    var alpha: real
    var smInfluence: real
    var smHarmony: real
    var smConsent: real
    var warmup: int

    function State(): Filter
      reads this
    {
      Filter(alpha, smInfluence, smHarmony, smConsent, warmup)
    }

    constructor (rate: Signal)
      ensures State() == Filter(ClampSignal(rate, 0.0, 1.0, 0.3), 0.0, 0.0, 0.0, 5)
    {
      alpha := ClampSignal(rate, 0.0, 1.0, 0.3);
      smInfluence, smHarmony, smConsent, warmup := 0.0, 0.0, 0.0, 5;
    }

    method Reset()
      modifies this
      ensures State() == Filter(old(alpha), 0.0, 0.0, 0.0, 5)
    {
      smInfluence, smHarmony, smConsent, warmup := 0.0, 0.0, 0.0, 5;
    }

    /** One step; the result is the greatest distance from the readings afterwards. */
    method Step(raw: Raw) returns (delta: real)
      modifies this
      ensures State() == FilterStep(old(State()), raw)
      ensures delta == Gap(State(), raw)
    {
      var influence, harmony, consent := Sane(raw.influence), Sane(raw.harmony), Sane(raw.consent);
      var rate := Clamp(alpha, 0.0, 1.0);
      if rate == 0.0 && warmup <= 0 {
        smInfluence, smHarmony, smConsent := influence, harmony, consent;
      } else if warmup > 0 {
        smInfluence, smHarmony, smConsent := influence, harmony, consent;
        warmup := warmup - 1;
      } else {
        hide Blend;
        smInfluence := Blend(rate, influence, smInfluence);
        smHarmony := Blend(rate, harmony, smHarmony);
        smConsent := Blend(rate, consent, smConsent);
      }
      delta := Abs(smInfluence - influence);
      var dh, dc := Abs(smHarmony - harmony), Abs(smConsent - consent);
      if dh > delta { delta := dh; }
      if dc > delta { delta := dc; }
    }
  }

  class TrsAdapt {
    var alphaMin: real
    var alphaMax: real
    var targetDelta: real
    var kp: real
    var ki: real
    var kd: real
    var errPrev: real
    var errI: real
    var lastAlpha: real
    var lastErr: real
    var lowDeltaCount: int

    function State(): Adapt
      reads this
    {
      Adapt(alphaMin, alphaMax, targetDelta, kp, ki, kd, errPrev, errI, lastAlpha, lastErr, lowDeltaCount)
    }

    /** Bounds out of [0, 1] or in the wrong order are put right. */
    constructor (lo: Signal, hi: Signal, target: Signal, p: Signal, i: Signal, d: Signal, initial: Signal)
      ensures State() == Fresh(ClampSignal(lo, 0.0, 1.0, 0.0), ClampSignal(hi, 0.0, 1.0, 0.0), Sane(target),
                               Or(p, 0.4), Or(i, 0.05), Or(d, 0.1), initial)
      ensures InRange(State())
    {
      var least, greatest := ClampSignal(lo, 0.0, 1.0, 0.0), ClampSignal(hi, 0.0, 1.0, 0.0);
      if least > greatest { least, greatest := greatest, least; }
      alphaMin, alphaMax := least, greatest;
      targetDelta := Max(0.0, Sane(target));
      kp := if p.Finite? then p.value else 0.4;
      ki := if i.Finite? then i.value else 0.05;
      kd := if d.Finite? then d.value else 0.1;
      errPrev, errI, lastErr, lowDeltaCount := 0.0, 0.0, 0.0, 0;
      lastAlpha := ClampSignal(initial, least, greatest, least);
      new;
      FreshInRange(ClampSignal(lo, 0.0, 1.0, 0.0), ClampSignal(hi, 0.0, 1.0, 0.0), Sane(target),
                   Or(p, 0.4), Or(i, 0.05), Or(d, 0.1), initial);
      hide InRange;
    }

    method Update(delta: real) returns (rate: real)
      modifies this
      ensures State() == AdaptStep(old(State()), delta)
      ensures rate == lastAlpha
      ensures old(InRange(State())) ==> InRange(State())
    {
      ghost var was := State();
      if InRange(was) { AdaptKeepsRange(was, delta); }
      hide InRange, Adjustment;
      var safe := Max(0.0, delta);
      if safe > SPIKE {
        errPrev := safe - targetDelta;
        errI := Clamp(errI + errPrev, -0.05, 0.05);
        lastAlpha := alphaMax;
        lastErr := errPrev;
        lowDeltaCount := 0;
        return lastAlpha;
      }
      if safe < QUIET {
        if lowDeltaCount < COUNT_LIMIT { lowDeltaCount := lowDeltaCount + 1; }
      } else {
        lowDeltaCount := 0;
      }
      var err := safe - targetDelta;
      errI := Clamp(errI + err, -0.05, 0.05);
      var adjustment := Adjustment(kp, ki, kd, err, errI, err - errPrev);
      var next := lastAlpha + adjustment;
      if lowDeltaCount >= QUIET_TICKS { next := next - 0.01; }
      errPrev := err;
      lastAlpha := Clamp(next, alphaMin, alphaMax);
      lastErr := err;
      rate := lastAlpha;
    }
  }

  /** The part of the introspection tick that smooths its readings, with adaptation
      switched on. */
  class Introspection {
    const filter: TrsFilter
    const adapt: TrsAdapt

    function State(): SmootherModel.Smoother
      reads filter, adapt
    {
      SmootherModel.Smoother(filter.State(), adapt.State())
    }

    /** The configuration clamps the rates to working ranges, so that the least rate
        is positive whatever was asked for. */
    constructor (rate: Signal, warmup: int, lo: Signal, hi: Signal, target: Signal, p: Signal, i: Signal, d: Signal)
      ensures fresh(filter) && fresh(adapt)
      ensures filter.State() ==
        Filter(ClampSignal(rate, 0.05, 0.8, 0.3), 0.0, 0.0, 0.0,
               if warmup < 0 then 0 else if warmup > 10 then 10 else warmup)
      ensures adapt.State() ==
        Fresh(ClampSignal(lo, 0.01, 0.95, 0.10), ClampSignal(hi, 0.01, 0.95, 0.60),
              ClampSignal(target, 0.0, 0.5, 0.015),
              Or(p, 0.4), Or(i, 0.05), Or(d, 0.1), Finite(ClampSignal(rate, 0.05, 0.8, 0.3)))
      ensures InRange(adapt.State()) && adapt.alphaMin >= 0.01
    {
      var alpha := ClampSignal(rate, 0.05, 0.8, 0.3);
      var least, greatest := ClampSignal(lo, 0.01, 0.95, 0.10), ClampSignal(hi, 0.01, 0.95, 0.60);
      if least > greatest { least, greatest := greatest, least; }
      var aim := ClampSignal(target, 0.0, 0.5, 0.015);
      var f := new TrsFilter(Finite(alpha));
      f.warmup := if warmup < 0 then 0 else if warmup > 10 then 10 else warmup;
      filter := f;
      adapt := new TrsAdapt(Finite(least), Finite(greatest), Finite(aim), p, i, d, Finite(alpha));
    }

    method Tick(raw: Raw) returns (delta: real)
      requires InRange(adapt.State())
      modifies filter, adapt
      ensures State() == SmootherModel.Tick(old(State()), raw)
      ensures InRange(adapt.State()) && filter.alpha == adapt.lastAlpha
      ensures delta == Gap(filter.State(), raw)
    {
      GapIgnoresRate(State(), raw);
      hide FilterStep, AdaptStep, InRange, Gap;
      delta := filter.Step(raw);
      var rate := adapt.Update(delta);
      filter.alpha := rate;
    }
  }
}
