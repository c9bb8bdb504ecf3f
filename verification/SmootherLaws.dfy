/** What the adaptation of the smoothing rate adds up to over many ticks. */
module SmootherLaws {
  import opened Signals
  import opened SmootherModel

  /** The adaptation after a number of measured distances. */
  function Adapted(a: Adapt, ds: seq<real>): Adapt {
    if ds == [] then a else AdaptStep(Adapted(a, ds[..|ds| - 1]), ds[|ds| - 1])
  }

  // ----- quiet ticks -----

  /** How many of the last distances, without a break, were below 0.002. */
  function QuietRun(ds: seq<real>): nat {
    if ds == [] || ds[|ds| - 1] >= 0.002 then 0 else 1 + QuietRun(ds[..|ds| - 1])
  }

  /** The counter counts the quiet ticks at the end of the run, up to a million. */
  lemma {:induction false} QuietIsCounted(a: Adapt, ds: seq<real>)
    requires a.lowCount == 0
    ensures Adapted(a, ds).lowCount == if QuietRun(ds) < 1000000 then QuietRun(ds) else 1000000
  {
    if ds != [] {
      QuietIsCounted(a, ds[..|ds| - 1]);
      hide Adjustment;
    }
  }

  // ----- the integral -----

  /** The distance in excess of the target. */
  function Excess(a: Adapt, d: real): real {
    (if d < 0.0 then 0.0 else d) - a.targetDelta
  }

  function TotalExcess(a: Adapt, ds: seq<real>): real {
    if ds == [] then 0.0 else TotalExcess(a, ds[..|ds| - 1]) + Excess(a, ds[|ds| - 1])
  }

  lemma {:induction false} SettingsStay(a: Adapt, ds: seq<real>)
    ensures var b := Adapted(a, ds);
      && b.alphaMin == a.alphaMin && b.alphaMax == a.alphaMax && b.targetDelta == a.targetDelta
      && b.kp == a.kp && b.ki == a.ki && b.kd == a.kd
  {
    hide Adjustment;
    if ds != [] { SettingsStay(a, ds[..|ds| - 1]); }
  }

  /** The last error is the last excess, and as long as the total excess stays within
      0.05 of zero, the integral is the total excess. */
  lemma {:induction false} IntegralIsTotal(a: Adapt, ds: seq<real>)
    requires a.errI == 0.0
    ensures ds != [] ==> Adapted(a, ds).errPrev == Adapted(a, ds).lastErr == Excess(a, ds[|ds| - 1])
    ensures (forall n :: 0 <= n <= |ds| ==> -0.05 <= TotalExcess(a, ds[..n]) <= 0.05) ==>
      Adapted(a, ds).errI == TotalExcess(a, ds)
  {
    if ds != [] {
      var before := ds[..|ds| - 1];
      SettingsStay(a, before);
      IntegralIsTotal(a, before);
      assert forall n :: 0 <= n <= |before| ==> before[..n] == ds[..n];
      assert ds[..|ds|] == ds;
      hide Adjustment;
    }
  }

  // ----- the rate -----

  /** The sum of the integral terms after each tick. */
  function TotalIntegral(a: Adapt, ds: seq<real>): real {
    if ds == [] then 0.0 else TotalIntegral(a, ds[..|ds| - 1]) + Adapted(a, ds).errI
  }

  /** The ticks that came at the end of twenty or more quiet ones, themselves included. */
  function Calm(ds: seq<real>): nat {
    if ds == [] then 0 else Calm(ds[..|ds| - 1]) + if QuietRun(ds) >= 20 then 1 else 0
  }

  function LastExcess(a: Adapt, ds: seq<real>): real {
    if ds == [] then a.errPrev else Excess(a, ds[|ds| - 1])
  }

  /** The rate if it met no bound: the start rate plus the proportional part of all
      excess, the integral part of all integral terms, the derivative part, of which
      only the last and the first excess are left, less 0.01 for every calm tick. */
  function Due(a: Adapt, ds: seq<real>): real {
    a.lastAlpha + Scaled(a.kp, TotalExcess(a, ds)) + Scaled(a.ki, TotalIntegral(a, ds))
    + Scaled(a.kd, LastExcess(a, ds) - a.errPrev) - 0.01 * Calm(ds) as real
  }

  /** No distance above 0.15, and the rate due never beyond a bound. */
  ghost predicate Unbounded(a: Adapt, ds: seq<real>) {
    && (forall k :: 0 <= k < |ds| ==> ds[k] <= 0.15)
    && (forall n :: 0 <= n <= |ds| ==> a.alphaMin <= Due(a, ds[..n]) <= a.alphaMax)
  }

  lemma {:induction false} DueGrows(a: Adapt, ds: seq<real>)
    requires ds != []
    ensures var before, b := ds[..|ds| - 1], Adapted(a, ds);
      Due(a, ds) == Due(a, before)
        + Adjustment(a.kp, a.ki, a.kd, Excess(a, ds[|ds| - 1]), b.errI, Excess(a, ds[|ds| - 1]) - LastExcess(a, before))
        - (if QuietRun(ds) >= 20 then 0.01 else 0.0)
  {
    var before, e, i := ds[..|ds| - 1], Excess(a, ds[|ds| - 1]), Adapted(a, ds).errI;
    var last := LastExcess(a, before);
    CalmGrows(ds);
    Distribute(a.kp, TotalExcess(a, before), e);
    Distribute(a.ki, TotalIntegral(a, before), i);
    Distribute(a.kd, last - a.errPrev, e - last);
    AdjustmentIs(a.kp, a.ki, a.kd, e, i, e - last);
    hide Adapted, Excess, QuietRun, Scaled, Adjustment, Calm;
    assert TotalExcess(a, ds) == TotalExcess(a, before) + e;
    assert TotalIntegral(a, ds) == TotalIntegral(a, before) + i;
    assert LastExcess(a, ds) - a.errPrev == (last - a.errPrev) + (e - last);
    hide TotalExcess, TotalIntegral, LastExcess;
  }

  lemma {:induction false} AdjustmentIs(kp: real, ki: real, kd: real, e: real, i: real, d: real)
    ensures Adjustment(kp, ki, kd, e, i, d) == Scaled(kp, e) + Scaled(ki, i) + Scaled(kd, d)
  {
  }

  lemma {:induction false} NothingDue(a: Adapt)
    ensures Due(a, []) == a.lastAlpha
  {
  }

  lemma {:induction false} CalmGrows(ds: seq<real>)
    requires ds != []
    ensures 0.01 * Calm(ds) as real == 0.01 * Calm(ds[..|ds| - 1]) as real + if QuietRun(ds) >= 20 then 0.01 else 0.0
  {
  }

  lemma {:induction false} Distribute(k: real, x: real, y: real)
    ensures Scaled(k, x + y) == Scaled(k, x) + Scaled(k, y)
  {
  }

  /** One tick with no spike and no bound met. */
  lemma {:induction false} FreeStep(a: Adapt, d: real, next: real)
    requires d <= 0.15
    requires var low := if d >= 0.002 then 0 else if a.lowCount < 1000000 then a.lowCount + 1 else a.lowCount;
      var e := Excess(a, d);
      next == a.lastAlpha + Adjustment(a.kp, a.ki, a.kd, e, AdaptStep(a, d).errI, e - a.errPrev)
              - (if low >= 20 then 0.01 else 0.0)
    requires a.alphaMin <= next <= a.alphaMax
    ensures AdaptStep(a, d).lastAlpha == next
  {
    hide Adjustment;
  }

  /** As long as no bound is met the rate is the rate due. */
  lemma {:induction false} RateIsDue(a: Adapt, ds: seq<real>)
    requires a.lowCount == 0 && Unbounded(a, ds)
    ensures Adapted(a, ds).lastAlpha == Due(a, ds)
  {
    NothingDue(a);
    if ds != [] {
      var n := |ds| - 1;
      assert forall k :: 0 <= k <= n ==> ds[..n][..k] == ds[..k];
      RateIsDue(a, ds[..n]);
      SettingsStay(a, ds[..n]);
      QuietIsCounted(a, ds[..n]);
      LastErrorIs(a, ds[..n]);
      DueGrows(a, ds);
      assert ds[..|ds|] == ds && a.alphaMin <= Due(a, ds[..|ds|]) <= a.alphaMax;
      hide Due, Adjustment, AdaptStep, TotalExcess, TotalIntegral, Calm;
      FreeStep(Adapted(a, ds[..n]), ds[n], Due(a, ds));
    }
  }

  lemma {:induction false} LastErrorIs(a: Adapt, ds: seq<real>)
    ensures Adapted(a, ds).errPrev == LastExcess(a, ds)
  {
    if ds != [] {
      SettingsStay(a, ds[..|ds| - 1]);
      hide Adjustment;
    }
  }

  // ----- readings -----

  /** While the warm-up lasts every smoothed value is its reading, and 0 where the
      reading is no number; the tick uses up one step of the warm-up. */
  lemma {:induction false} WarmupCopies(s: Smoother, raw: Raw)
    requires s.filter.warmup > 0
    ensures var f := Tick(s, raw).filter;
      && f.influence == (if raw.influence.Finite? then raw.influence.value else 0.0)
      && f.harmony == (if raw.harmony.Finite? then raw.harmony.value else 0.0)
      && f.consent == (if raw.consent.Finite? then raw.consent.value else 0.0)
      && f.warmup == s.filter.warmup - 1
  {
    hide AdaptStep, Blend;
  }
}
