/** The consent gate as an object whose fields each call updates. */
module ConsentGate {
  import opened GateModel
  import opened Signals

  class Consent {
    var thrConsent: real
    var thrTrust: real
    var thrPresence: real
    var thrHarmony: real
    var openBias: real
    var warmupCycles: int
    var refractory: int
    var tick: int
    var refrCountdown: int
    var isOpen: bool
    var score: real

    function Config(): Settings
      reads this
    {
      Settings(thrConsent, thrTrust, thrPresence, thrHarmony, openBias, warmupCycles, refractory)
    }

    function State(): Gate
      reads this
    {
      Gate(tick, refrCountdown, isOpen, score)
    }

    constructor ()
      ensures Config() == DEFAULTS == Settings(0.70, 0.80, 0.70, 0.85, 0.0, 10, 5)
      ensures State() == INITIAL == Gate(0, 0, false, 0.0)
    {
      thrConsent, thrTrust, thrPresence, thrHarmony := 0.70, 0.80, 0.70, 0.85;
      openBias, warmupCycles, refractory := 0.0, 10, 5;
      tick, refrCountdown, isOpen, score := 0, 0, false, 0.0;
    }

    method SetThresholds(c: real, t: real, p: real, h: real)
      modifies this
      ensures Run(Config(), State(), []) == Take(Run(old(Config()), old(State()), []), Thresholds(c, t, p, h))
    {
      thrConsent, thrTrust, thrPresence, thrHarmony := c, t, p, h;
    }

    /** A countdown longer than the new refractory time is cut. */
    method SetHysteresis(bias: real, warmup: int, refractoryCalls: int)
      modifies this
      ensures Run(Config(), State(), [])
        == Take(Run(old(Config()), old(State()), []), Hysteresis(bias, warmup, refractoryCalls))
    {
      openBias, warmupCycles, refractory := bias, warmup, refractoryCalls;
      if refrCountdown > refractory { refrCountdown := refractory; }
    }

    /** The greatest of the four thresholds. */
    method GreatestThreshold() returns (m: real)
      ensures m == MaxThreshold(Config())
      ensures m in {thrConsent, thrTrust, thrPresence, thrHarmony}
      ensures thrConsent <= m && thrTrust <= m && thrPresence <= m && thrHarmony <= m
    {
      m := thrConsent;
      if thrTrust > m { m := thrTrust; }
      if thrPresence > m { m := thrPresence; }
      if thrHarmony > m { m := thrHarmony; }
    }

    method CloseGate() returns (event: int)
      modifies `isOpen, `refrCountdown
      ensures State() == Closed(Config(), old(State())) && Config() == old(Config())
      ensures event == if old(isOpen) then -1 else 0
    {
      event := 0;
      if isOpen {
        isOpen := false;
        refrCountdown := refractory;
        event := -1;
      } else if refrCountdown < refractory {
        refrCountdown := refractory;
      }
    }

    method Elapse()
      modifies `refrCountdown
      ensures State() == Elapsed(old(State())) && Config() == old(Config())
    {
      if refrCountdown > 0 {
        refrCountdown := refrCountdown - 1;
      }
    }

    /** The weighted sum of the readings, within [0, 1]. */
    static method Mix(x: Input) returns (sum: real)
      requires AllFinite(x)
      ensures sum == Score(x) && 0.0 <= sum <= 1.0
    {
      var kissLevel := if x.kiss then 1.0 else 0.0;
      sum := 0.30 * x.consent.value + 0.30 * x.trust.value + 0.20 * x.harmony.value
             + 0.15 * x.presence.value + 0.05 * kissLevel;
      if sum < 0.0 { sum := 0.0; } else if sum > 1.0 { sum := 1.0; }
    }

    /** One call with the current readings. */
    method Update(x: Input) returns (event: int)
      modifies this
      ensures Config() == old(Config())
      ensures State() == GateModel.Update(Config(), old(State()), x)
      ensures event == Event(old(State()), State())
    {
      tick := tick + 1;
      event := 0;
      var refractoryActive := refrCountdown > 0;
      if x.consent.NotFinite? || x.trust.NotFinite? || x.presence.NotFinite? || x.harmony.NotFinite? {
        score := 0.0;
        event := CloseGate();
        return;
      }
      score := Mix(x);
      hide Score, MaxThreshold;
      var threshold := GreatestThreshold();
      var warmupReady := tick >= warmupCycles;
      var hardBlock := x.consent.value < 0.3;
      var failsafe := x.trust.value < 0.5 && x.presence.value < 0.5;
      if hardBlock || failsafe {
        event := CloseGate();
      } else if isOpen {
        if score < threshold - 0.05 || refractoryActive {
          event := CloseGate();
        }
      } else if !refractoryActive && warmupReady && score >= threshold + openBias {
        isOpen := true;
        refrCountdown := 0;
        event := 1;
      }
      Elapse();
    }
  }
}
