/** When the consent gate is open, in terms of its readings and thresholds. */
module GateOpenings {
  import opened GateModel
  import opened Signals

  /** All four readings are numbers, consent is at least 0.3, and trust or presence is
      at least 0.5. */
  predicate Fit(x: Input) {
    && x.consent.Finite? && x.trust.Finite? && x.presence.Finite? && x.harmony.Finite?
    && x.consent.value >= 0.3 && (x.trust.value >= 0.5 || x.presence.value >= 0.5)
  }

  /** The readings reach `level`: 30, 30, 20 and 15 percent of consent, trust, harmony
      and presence and 5 percent for a kiss, counted as at least 0 and at most 1. */
  predicate Reaches(x: Input, level: real)
    requires Fit(x)
  {
    && level <= 1.0
    && (|| level <= 0.0
        || 30.0 * x.consent.value + 30.0 * x.trust.value + 20.0 * x.harmony.value + 15.0 * x.presence.value
           + (if x.kiss then 5.0 else 0.0) >= 100.0 * level)
  }

  /** They reach each of the four thresholds, moved by `margin`. */
  predicate ReachesAll(s: Settings, x: Input, margin: real)
    requires Fit(x)
  {
    && Reaches(x, s.thrConsent + margin) && Reaches(x, s.thrTrust + margin)
    && Reaches(x, s.thrPresence + margin) && Reaches(x, s.thrHarmony + margin)
  }

  lemma {:induction false} FitIs(x: Input)
    ensures Fit(x) <==> AllFinite(x) && !Blocked(x)
  {
  }

  lemma {:induction false} ReachesIs(x: Input, level: real)
    requires Fit(x)
    ensures Reaches(x, level) <==> Score(x) >= level
  {
  }

  lemma {:induction false} ReachesAllIs(s: Settings, x: Input, margin: real)
    requires Fit(x)
    ensures ReachesAll(s, x, margin) <==> Score(x) >= MaxThreshold(s) + margin
  {
    ReachesIs(x, s.thrConsent + margin);
    ReachesIs(x, s.thrTrust + margin);
    ReachesIs(x, s.thrPresence + margin);
    ReachesIs(x, s.thrHarmony + margin);
    hide Reaches, Score, Fit;
  }

  // ----- one call in any run -----

  /** After any run, whatever the settings went through, the next call leaves the gate
      open if and only if the readings are fit and, when it was open, come within 0.05
      of every threshold, or, when it was not, reach every threshold plus the bias, the
      warm-up is over and no rest is left. */
  lemma {:induction false} OpenAfterCall(settings: Settings, steps: seq<Step>, x: Input)
    ensures var r := TakeAll(Run(settings, INITIAL, []), steps);
      Take(r, Call(x)).gate.isOpen <==>
        && Fit(x)
        && (if r.gate.isOpen then ReachesAll(r.settings, x, -0.05)
            else ReachesAll(r.settings, x, r.settings.openBias)
                 && r.gate.tick + 1 >= r.settings.warmup && r.gate.countdown <= 0)
  {
    EventsTellState(settings, steps);
    var r := TakeAll(Run(settings, INITIAL, []), steps);
    OneCall(r.settings, r.gate, x);
    hide *;
    TakeCall(r, x);
    ToldMeans(r);
  }

  lemma {:induction false} TakeCall(r: Run, x: Input)
    ensures Take(r, Call(x)).gate == Update(r.settings, r.gate, x)
  {
  }

  lemma {:induction false} ToldMeans(r: Run)
    ensures Told(r) && r.gate.isOpen ==> r.gate.countdown <= 0
  {
  }

  lemma {:induction false} OneCall(s: Settings, g: Gate, x: Input)
    ensures (g.isOpen ==> g.countdown <= 0) ==>
      (Update(s, g, x).isOpen <==>
        && Fit(x)
        && (if g.isOpen then ReachesAll(s, x, -0.05)
            else ReachesAll(s, x, s.openBias) && g.tick + 1 >= s.warmup && g.countdown <= 0))
  {
    FitIs(x);
    if Fit(x) {
      ReachesAllIs(s, x, -0.05);
      ReachesAllIs(s, x, s.openBias);
    }
    hide Fit, Blocked, Score, MaxThreshold, ReachesAll;
  }

  // ----- constant readings -----

  /** With a bias of at least -0.05 a gate under constant readings is open after n calls
      if and only if they are fit, reach every threshold plus the bias, and the warm-up
      is over. */
  lemma {:induction false} OpenUnderConstantInput(s: Settings, x: Input, n: nat)
    requires s.openBias >= -0.05
    ensures var g := After(s, INITIAL, Repeat(x, n));
      g.isOpen <==> Fit(x) && ReachesAll(s, x, s.openBias) && n >= 1 && n >= s.warmup
  {
    ConstantState(s, x, n);
  }

  ghost predicate Constant(s: Settings, x: Input, n: nat, g: Gate) {
    && (g.isOpen <==> Fit(x) && ReachesAll(s, x, s.openBias) && n >= 1 && n >= s.warmup)
    && g.tick == n && (Fit(x) || g.isOpen ==> g.countdown <= 0)
  }

  lemma {:induction false} ConstantStep(s: Settings, x: Input, n: nat, g: Gate)
    requires s.openBias >= -0.05 && Constant(s, x, n, g)
    ensures Constant(s, x, n + 1, Update(s, g, x))
  {
    OneCall(s, g, x);
    CallFacts(s, g, x);
    if Fit(x) { WiderMargin(s, x); }
    hide Update, Fit, ReachesAll;
  }

  lemma {:induction false} ConstantState(s: Settings, x: Input, n: nat)
    requires s.openBias >= -0.05
    ensures Constant(s, x, n, After(s, INITIAL, Repeat(x, n)))
  {
    if n == 0 {
      assert Repeat(x, 0) == [];
    } else {
      hide *;
      ConstantState(s, x, n - 1);
      RepeatStep(s, x, n - 1);
      ConstantStep(s, x, n - 1, After(s, INITIAL, Repeat(x, n - 1)));
    }
  }

  /** What one call does to the count of calls and to the rest. */
  lemma {:induction false} CallFacts(s: Settings, g: Gate, x: Input)
    ensures Update(s, g, x).tick == g.tick + 1
    ensures (Fit(x) && (g.isOpen ==> g.countdown <= 0 && ReachesAll(s, x, -0.05))) ==>
      Update(s, g, x).countdown == if Update(s, g, x).isOpen && !g.isOpen then 0
                                   else if g.countdown > 0 then g.countdown - 1 else g.countdown
    ensures g.isOpen && !Update(s, g, x).isOpen ==>
      Update(s, g, x).countdown == if AllFinite(x) && s.refractory > 0 then s.refractory - 1 else s.refractory
  {
    FitIs(x);
    if Fit(x) { ReachesAllIs(s, x, -0.05); }
    hide Fit, Score, Blocked, MaxThreshold, ReachesAll;
  }

  lemma {:induction false} WiderMargin(s: Settings, x: Input)
    requires Fit(x) && s.openBias >= -0.05
    ensures ReachesAll(s, x, s.openBias) ==> ReachesAll(s, x, -0.05)
  {
    ReachesAllIs(s, x, s.openBias);
    ReachesAllIs(s, x, -0.05);
    hide Score, MaxThreshold, ReachesAll, Fit;
  }

  // ----- opening again -----

  /** Readings that would open a rested gate. */
  predicate Good(s: Settings, x: Input) {
    Fit(x) && ReachesAll(s, x, s.openBias)
  }

  /** Calls a closed gate has to wait: the refractory number, one more after an invalid
      reading, and at least one. */
  function Wait(s: Settings, x: Input): (n: nat)
    ensures n >= 1
  {
    var rest := if AllFinite(x) then s.refractory else s.refractory + 1;
    if rest > 1 then rest else 1
  }

  lemma {:induction false} OpenIsWarm(s: Settings, xs: seq<Input>)
    ensures var g := After(s, INITIAL, xs);
      (g.isOpen ==> g.tick >= s.warmup && g.countdown <= 0) && g.tick == |xs|
  {
    if xs != [] {
      OpenIsWarm(s, xs[..|xs| - 1]);
      hide Score, Blocked, MaxThreshold;
    }
  }

  /** Under good readings a rest of c calls runs down and the gate opens with the next
      call. */
  lemma {:induction false} RestRunsDown(s: Settings, xs: seq<Input>, i: nat, k: nat, c: int)
    requires i < k <= |xs| && k - i <= (if c > 0 then c + 1 else 1)
    requires var g := After(s, INITIAL, xs[..i]); !g.isOpen && g.countdown == c && g.tick + 1 >= s.warmup
    requires forall j :: i <= j < k ==> Good(s, xs[j])
    ensures var g := After(s, INITIAL, xs[..k]);
      && (g.isOpen <==> k - i == if c > 0 then c + 1 else 1)
      && (!g.isOpen ==> g.countdown == c - (k - i)) && g.tick + 1 >= s.warmup
    decreases k - i
  {
    assert xs[..k][..k - 1] == xs[..k - 1];
    if k - 1 > i { RestRunsDown(s, xs, i, k - 1, c); }
    var g := After(s, INITIAL, xs[..k - 1]);
    assert Good(s, xs[k - 1]);
    OneCall(s, g, xs[k - 1]);
    CallFacts(s, g, xs[k - 1]);
    hide Update, Fit, ReachesAll;
  }

  /** Closing leaves the rest that makes up the wait. */
  lemma {:induction false} ClosingRests(s: Settings, xs: seq<Input>, i: nat)
    requires i < |xs| && EventAt(s, INITIAL, xs, i) == -1
    ensures var g := After(s, INITIAL, xs[..i + 1]);
      && !g.isOpen && g.tick + 1 >= s.warmup
      && Wait(s, xs[i]) == if g.countdown > 0 then g.countdown + 1 else 1
  {
    assert xs[..i + 1][..i] == xs[..i];
    OpenIsWarm(s, xs[..i]);
    OpenIsWarm(s, xs[..i + 1]);
    CallFacts(s, After(s, INITIAL, xs[..i]), xs[i]);
    hide Update, Fit, ReachesAll;
  }

  lemma {:induction false} OpeningIs(s: Settings, xs: seq<Input>, k: nat)
    requires k < |xs|
    ensures EventAt(s, INITIAL, xs, k) == 1 <==>
      !After(s, INITIAL, xs[..k]).isOpen && After(s, INITIAL, xs[..k + 1]).isOpen
  {
    hide After;
  }

  /** With fixed settings, a gate that closes at call i opens again, under good
      readings, exactly when its wait is over, and not before. */
  lemma {:induction false} ReopensOnTime(s: Settings, xs: seq<Input>, i: nat, k: nat)
    requires i < |xs| && EventAt(s, INITIAL, xs, i) == -1
    requires i < k < |xs| && k <= i + Wait(s, xs[i])
    requires forall j :: i < j <= k ==> Good(s, xs[j])
    ensures EventAt(s, INITIAL, xs, k) == 1 <==> k == i + Wait(s, xs[i])
  {
    ClosingRests(s, xs, i);
    hide *;
    var c := After(s, INITIAL, xs[..i + 1]).countdown;
    OpeningIs(s, xs, k);
    RestRunsDown(s, xs, i + 1, k + 1, c);
    if k > i + 1 { RestRunsDown(s, xs, i + 1, k, c); }
  }
}
