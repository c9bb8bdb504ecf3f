/** The consent gate: it opens on a high score, closes on a low one or on a block,
    and then rests for a refractory number of calls. */
module GateModel {
  import opened Signals

  datatype Input = Input(consent: Signal, trust: Signal, presence: Signal, harmony: Signal, kiss: bool)

  datatype Settings = Settings(
    thrConsent: real, thrTrust: real, thrPresence: real, thrHarmony: real,
    openBias: real, warmup: int, refractory: int)

  datatype Gate = Gate(tick: int, countdown: int, isOpen: bool, score: real)

  const INITIAL := Gate(0, 0, false, 0.0)
  const DEFAULTS := Settings(0.70, 0.80, 0.70, 0.85, 0.0, 10, 5)

  function Max(a: real, b: real): real {
    if b > a then b else a
  }

  function MaxThreshold(s: Settings): real {
    Max(Max(Max(s.thrConsent, s.thrTrust), s.thrPresence), s.thrHarmony)
  }

  predicate AllFinite(x: Input) {
    x.consent.Finite? && x.trust.Finite? && x.presence.Finite? && x.harmony.Finite?
  }

  function Score(x: Input): real
    requires AllFinite(x)
  {
    var sum := 0.30 * x.consent.value + 0.30 * x.trust.value + 0.20 * x.harmony.value
               + 0.15 * x.presence.value + 0.05 * (if x.kiss then 1.0 else 0.0);
    if sum < 0.0 then 0.0 else if sum > 1.0 then 1.0 else sum
  }

  /** Consent too low, or trust and presence both too low. */
  predicate Blocked(x: Input)
    requires AllFinite(x)
  {
    x.consent.value < 0.3 || (x.trust.value < 0.5 && x.presence.value < 0.5)
  }

  function Closed(s: Settings, g: Gate): Gate {
    if g.isOpen || g.countdown < s.refractory then g.(isOpen := false, countdown := s.refractory) else g
  }

  function Elapsed(g: Gate): Gate {
    if g.countdown > 0 then g.(countdown := g.countdown - 1) else g
  }

  predicate Opens(s: Settings, g: Gate, x: Input)
    requires AllFinite(x)
  {
    && !Blocked(x) && !g.isOpen && g.countdown <= 0
    && g.tick >= s.warmup && Score(x) >= MaxThreshold(s) + s.openBias
  }

  predicate Closes(s: Settings, g: Gate, x: Input)
    requires AllFinite(x)
  {
    Blocked(x) || (g.isOpen && (Score(x) < MaxThreshold(s) - 0.05 || g.countdown > 0))
  }

  /** One call of the gate. */
  function Update(s: Settings, g: Gate, x: Input): Gate {
    var h := g.(tick := g.tick + 1);
    if !AllFinite(x) then Closed(s, h.(score := 0.0))
    else
      var k := h.(score := Score(x));
      if Closes(s, k, x) then Elapsed(Closed(s, k))
      else if Opens(s, k, x) then k.(isOpen := true, countdown := 0)
      else Elapsed(k)
  }

  /** 1 on opening, -1 on closing. */
  function Event(before: Gate, after: Gate): int {
    if !before.isOpen && after.isOpen then 1 else if before.isOpen && !after.isOpen then -1 else 0
  }

  // ----- runs in which the settings may change -----

  datatype Step = Call(x: Input) | Thresholds(c: real, t: real, p: real, h: real)
                | Hysteresis(bias: real, warmup: int, refractory: int)

  datatype Run = Run(settings: Settings, gate: Gate, events: seq<int>)

  function Reset(s: Settings, g: Gate): Gate {
    if g.countdown > s.refractory then g.(countdown := s.refractory) else g
  }

  function Take(r: Run, step: Step): Run {
    match step
    case Call(x) =>
      var g := Update(r.settings, r.gate, x);
      Run(r.settings, g, r.events + [Event(r.gate, g)])
    case Thresholds(c, t, p, h) =>
      r.(settings := r.settings.(thrConsent := c, thrTrust := t, thrPresence := p, thrHarmony := h))
    case Hysteresis(bias, warmup, refractory) =>
      var s := r.settings.(openBias := bias, warmup := warmup, refractory := refractory);
      Run(s, Reset(s, r.gate), r.events)
  }

  function TakeAll(r: Run, steps: seq<Step>): Run {
    if steps == [] then r else Take(TakeAll(r, steps[..|steps| - 1]), steps[|steps| - 1])
  }

  function Sum(events: seq<int>): int {
    if events == [] then 0 else Sum(events[..|events| - 1]) + events[|events| - 1]
  }

  /** The events add up to the state of the gate, and an open gate rests on no
      countdown. */
  ghost predicate Told(r: Run) {
    && Sum(r.events) == (if r.gate.isOpen then 1 else 0)
    && (r.gate.isOpen ==> r.gate.countdown <= 0)
  }

  lemma {:induction false} UpdateTells(s: Settings, g: Gate, x: Input)
    requires g.isOpen ==> g.countdown <= 0
    ensures var h := Update(s, g, x);
      Event(g, h) == (if h.isOpen then 1 else 0) - (if g.isOpen then 1 else 0) && (h.isOpen ==> h.countdown <= 0)
  {
    hide Score, MaxThreshold, Blocked;
  }

  lemma {:induction false} TakeTells(r: Run, step: Step)
    requires Told(r)
    ensures Told(Take(r, step))
  {
    if step.Call? {
      UpdateTells(r.settings, r.gate, step.x);
      hide Update;
      var e := Event(r.gate, Update(r.settings, r.gate, step.x));
      assert (r.events + [e])[..|r.events|] == r.events;
    }
  }

  /** In every run, with settings changed at any time, the events add up to the
      state of the gate, and an open gate has no countdown: the close that tests for
      one while open is never taken. */
  lemma {:induction false} EventsTellState(settings: Settings, steps: seq<Step>)
    ensures Told(TakeAll(Run(settings, INITIAL, []), steps))
  {
    if steps != [] {
      EventsTellState(settings, steps[..|steps| - 1]);
      hide Told, Take;
      TakeTells(TakeAll(Run(settings, INITIAL, []), steps[..|steps| - 1]), steps[|steps| - 1]);
    }
  }

  // ----- runs with fixed settings -----

  function After(s: Settings, g: Gate, xs: seq<Input>): Gate {
    if xs == [] then g else Update(s, After(s, g, xs[..|xs| - 1]), xs[|xs| - 1])
  }

  /** The gate's event at call i. */
  function EventAt(s: Settings, g: Gate, xs: seq<Input>, i: nat): int
    requires i < |xs|
  {
    Event(After(s, g, xs[..i]), After(s, g, xs[..i + 1]))
  }

  /** A closed gate with a countdown stays closed while it runs down. */
  lemma {:induction false} Resting(s: Settings, g: Gate, xs: seq<Input>, i: nat, j: nat, c: int)
    requires 0 < c && i <= j <= |xs| && j - i < c
    requires !After(s, g, xs[..i]).isOpen && After(s, g, xs[..i]).countdown >= c
    ensures !After(s, g, xs[..j]).isOpen && After(s, g, xs[..j]).countdown >= c - (j - i)
    decreases j - i
  {
    if i < j {
      Resting(s, g, xs, i, j - 1, c);
      assert xs[..j][..j - 1] == xs[..j - 1];
    }
  }

  /** After a close or a block, the next opening is at least the refractory number of
      calls away; after an invalid reading, one more. */
  lemma {:induction false} OpeningsAreSpaced(s: Settings, xs: seq<Input>, i: nat, j: nat)
    requires i < j < |xs| && s.refractory >= 0
    requires EventAt(s, INITIAL, xs, j) == 1
    ensures !AllFinite(xs[i]) ==> j - i >= s.refractory + 1
    ensures EventAt(s, INITIAL, xs, i) == -1 ==> j - i >= s.refractory
    ensures AllFinite(xs[i]) && Blocked(xs[i]) ==> j - i >= s.refractory
  {
    var g := After(s, INITIAL, xs[..i + 1]);
    assert xs[..i + 1][..i] == xs[..i] && xs[..j + 1][..j] == xs[..j];
    var bad := !AllFinite(xs[i]);
    if bad || EventAt(s, INITIAL, xs, i) == -1 || Blocked(xs[i]) {
      var c := if bad then s.refractory else s.refractory - 1;
      assert !g.isOpen && g.countdown >= c;
      if j - i <= c { Resting(s, INITIAL, xs, i + 1, j, c); }
    }
  }

  // ----- constant inputs -----

  function Repeat(x: Input, n: nat): (xs: seq<Input>)
    ensures |xs| == n && forall i :: 0 <= i < n ==> xs[i] == x
  {
    seq(n, _ => x)
  }

  /** How many events n calls with the same input bring. */
  function Events(s: Settings, x: Input, n: nat): nat {
    if n == 0 then 0
    else Events(s, x, n - 1) + if EventAt(s, INITIAL, Repeat(x, n), n - 1) != 0 then 1 else 0
  }

  /** The score opens the gate and then, at once, is too low to keep it open. */
  predicate Flaps(s: Settings, x: Input) {
    && AllFinite(x) && !Blocked(x)
    && MaxThreshold(s) + s.openBias <= Score(x) < MaxThreshold(s) - 0.05
  }

  lemma {:induction false} RepeatStep(s: Settings, x: Input, n: nat)
    ensures After(s, INITIAL, Repeat(x, n + 1)) == Update(s, After(s, INITIAL, Repeat(x, n)), x)
    ensures Events(s, x, n + 1) == Events(s, x, n)
      + if Event(After(s, INITIAL, Repeat(x, n)), After(s, INITIAL, Repeat(x, n + 1))) != 0 then 1 else 0
  {
    assert Repeat(x, n + 1)[..n] == Repeat(x, n);
    assert Repeat(x, n + 1)[..n + 1] == Repeat(x, n + 1);
  }

  lemma {:induction false} Settled(s: Settings, x: Input, n: nat)
    requires !Flaps(s, x)
    ensures var g := After(s, INITIAL, Repeat(x, n));
      && Events(s, x, n) == (if g.isOpen then 1 else 0)
      && (g.isOpen ==> g.countdown <= 0 && AllFinite(x) && !Blocked(x) && Score(x) >= MaxThreshold(s) - 0.05)
  {
    if n > 0 {
      Settled(s, x, n - 1);
      RepeatStep(s, x, n - 1);
    } else {
      assert Repeat(x, 0) == [];
    }
  }

  /** Before the warm-up is over nothing happens. */
  lemma {:induction false} Waiting(s: Settings, x: Input, n: nat)
    requires Flaps(s, x) && (n > 0 ==> n < s.warmup)
    ensures After(s, INITIAL, Repeat(x, n)).(score := 0.0) == INITIAL.(tick := n)
    ensures Events(s, x, n) == 0
  {
    if n > 0 {
      Waiting(s, x, n - 1);
      RepeatStep(s, x, n - 1);
    } else {
      assert Repeat(x, 0) == [];
    }
  }

  /** A constant input causes at most one event, however long it lasts, exactly when
      its score is not caught between the two thresholds the wrong way round. */
  lemma {:induction false} ConstantInputSettles(s: Settings, x: Input)
    ensures (forall n: nat :: Events(s, x, n) <= 1) <==> !Flaps(s, x)
  {
    if !Flaps(s, x) {
      forall n: nat ensures Events(s, x, n) <= 1 { Settled(s, x, n); }
    } else {
      var n: nat := if s.warmup > 1 then s.warmup - 1 else 0;
      Waiting(s, x, n);
      RepeatStep(s, x, n);
      RepeatStep(s, x, n + 1);
      assert Events(s, x, n + 2) == 2;
    }
  }

  const EAGER := DEFAULTS.(openBias := -0.2)
  const MIDDLING := Input(Finite(0.7), Finite(0.7), Finite(0.8), Finite(0.8), false)

  /** Default thresholds with a bias of -0.2: a score of 0.7 opens the gate and closes
      it, call after call. */
  lemma {:induction false} EagerGateFlaps()
    ensures Flaps(EAGER, MIDDLING) && exists n: nat :: Events(EAGER, MIDDLING, n) > 1
  {
    assert MaxThreshold(EAGER) == 0.85 && Score(MIDDLING) == 0.7;
    hide Events;
    ConstantInputSettles(EAGER, MIDDLING);
  }

  /** With a bias of at least -0.05 that never happens, whatever the thresholds. */
  lemma {:induction false} SmallBiasNeverFlaps(s: Settings, x: Input)
    requires s.openBias >= -0.05
    ensures forall n: nat :: Events(s, x, n) <= 1
  {
    hide Events;
    ConstantInputSettles(s, x);
  }
}
