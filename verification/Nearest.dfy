/** The search of collective memory for the trace whose signature is nearest in
    Hamming distance. */
module Nearest {
  import opened Options
  import opened Crc

  // ----- counting one-bits -----

  /** One-bits among the low n bits. */
  function OneBits(v: bv32, n: nat): nat {
    if n == 0 then 0 else (if Odd(v) then 1 else 0) + OneBits(Half(v), n - 1)
  }

  /** No one-bit above the low n. */
  predicate Fits(v: bv32, n: nat) {
    if n == 0 then v == 0 else Fits(Half(v), n - 1)
  }

  function Lowest(v: bv32): bv32 {
    v & (v - 1)
  }

  /** The loop that clears the lowest one-bit until none is left. */
  method PopCount(v: bv32) returns (count: nat)
    ensures count == OneBits(v, 32)
  {
    hide Half, Odd, Lowest;
    AllFit(v);
    count := 0;
    var value := v;
    while value != 0
      invariant count + OneBits(value, 32) == OneBits(v, 32)
      decreases OneBits(value, 32)
    {
      AllFit(value);
      ClearLowest(value, 32);
      value := Lowest(value);
      count := count + 1;
    }
    ZeroHasNone(32);
  }

  lemma {:induction false} ZeroHasNone(n: nat)
    ensures OneBits(0, n) == 0 && Fits(0, n)
  {
    if n > 0 {
      assert Half(0) == 0;
      ZeroHasNone(n - 1);
    }
  }

  lemma {:induction false} LowestSteps(v: bv32)
    ensures Odd(v) ==> Half(Lowest(v)) == Half(v) && !Odd(Lowest(v))
    ensures !Odd(v) && v != 0 ==> Half(Lowest(v)) == Lowest(Half(v)) && !Odd(Lowest(v)) && Half(v) != 0
  {
  }

  lemma {:induction false} ClearLowest(v: bv32, n: nat)
    requires v != 0 && Fits(v, n)
    ensures OneBits(Lowest(v), n) == OneBits(v, n) - 1
    decreases n
  {
    hide Half, Odd, Lowest;
    LowestSteps(v);
    if !Odd(v) { ClearLowest(Half(v), n - 1); }
  }

  lemma {:induction false} HalfEight(v: bv32)
    ensures Half(Half(Half(Half(Half(Half(Half(Half(v)))))))) == v >> 8
  {
  }

  lemma {:induction false} FitsEight(v: bv32, n: nat)
    requires Fits(v >> 8, n)
    ensures Fits(v, n + 8)
  {
    HalfEight(v);
    hide Half;
    var a := Half(Half(Half(Half(v))));
    assert Fits(Half(a), n + 3) by {
      assert Fits(Half(Half(Half(Half(a)))), n);
      assert Fits(Half(Half(Half(a))), n + 1);
      assert Fits(Half(Half(a)), n + 2);
    }
    assert Fits(a, n + 4);
    assert Fits(Half(Half(Half(v))), n + 5);
    assert Fits(Half(Half(v)), n + 6);
    assert Fits(Half(v), n + 7);
  }

  /** Every word fits in its thirty-two bits. */
  lemma {:induction false} AllFit(v: bv32)
    ensures Fits(v, 32)
  {
    hide Half;
    assert ((v >> 8) >> 8) >> 8 >> 8 == 0;
    assert Fits(((v >> 8) >> 8) >> 8 >> 8, 0);
    FitsEight(((v >> 8) >> 8) >> 8, 0);
    FitsEight((v >> 8) >> 8, 8);
    FitsEight(v >> 8, 16);
    FitsEight(v, 24);
  }

  // ----- the distance is a metric -----

  function Distance(a: bv32, b: bv32): nat {
    OneBits(Add(a, b), 32)
  }

  function Similarity(a: bv32, b: bv32): real {
    var similarity := 1.0 - Distance(a, b) as real / 32.0;
    if similarity < 0.0 then 0.0 else similarity
  }

  lemma {:induction false} OnlyZeroHasNone(v: bv32, n: nat)
    requires Fits(v, n) && OneBits(v, n) == 0
    ensures v == 0
    decreases n
  {
    if n > 0 {
      OnlyZeroHasNone(Half(v), n - 1);
      HalfAndLow(v);
    }
  }

  lemma {:induction false} HalfAndLow(v: bv32)
    requires Half(v) == 0 && !Odd(v)
    ensures v == 0
  {
  }

  lemma {:induction false} OneBitsOfSum(a: bv32, b: bv32, n: nat)
    ensures OneBits(Add(a, b), n) <= OneBits(a, n) + OneBits(b, n)
    ensures OneBits(a, n) <= n
    decreases n
  {
    hide Add, Half, Odd;
    if n > 0 {
      HalfLinear(a, b);
      OneBitsOfSum(Half(a), Half(b), n - 1);
    }
  }

  /** The distance of signatures is a metric, and never more than their width. */
  lemma {:induction false} DistanceIsMetric(a: bv32, b: bv32, c: bv32)
    ensures Distance(a, b) == 0 <==> a == b
    ensures Distance(a, b) == Distance(b, a)
    ensures Distance(a, c) <= Distance(a, b) + Distance(b, c)
    ensures Distance(a, b) <= 32
  {
    hide Add, OneBits, Fits;
    Comm(a, b);
    Neutral(a);
    Neutral(b);
    Neutral(c);
    ZeroHasNone(32);
    if Distance(a, b) == 0 {
      AllFit(Add(a, b));
      OnlyZeroHasNone(Add(a, b), 32);
      Neutral(b);
      Cancel(a, b, b);
    }
    Assoc(a, b, Add(b, c));
    Assoc(b, b, c);
    OneBitsOfSum(Add(a, b), Add(b, c), 32);
  }

  /** The clamp of the similarity is never reached: it orders pairs by distance. */
  lemma {:induction false} SimilarityOrdersByDistance(a: bv32, b: bv32, c: bv32, d: bv32)
    ensures Similarity(a, b) > Similarity(c, d) <==> Distance(a, b) < Distance(c, d)
    ensures 0.0 <= Similarity(a, b) <= 1.0
  {
    DistanceIsMetric(a, b, b);
    DistanceIsMetric(c, d, d);
    hide Distance;
  }

  // ----- the distance counts places -----

  /** The bit of a word at place i, from the lowest. */
  predicate BitAt(v: bv32, i: nat) {
    if i == 0 then Odd(v) else BitAt(Half(v), i - 1)
  }

  /** The places below n at which two words differ. */
  ghost function Differences(a: bv32, b: bv32, n: nat): set<nat> {
    set i: nat | i < n && BitAt(a, i) != BitAt(b, i)
  }

  lemma {:induction false} BitOfSum(a: bv32, b: bv32, i: nat)
    ensures BitAt(Add(a, b), i) <==> BitAt(a, i) != BitAt(b, i)
    decreases i
  {
    hide Add, Half, Odd;
    HalfLinear(a, b);
    if i > 0 { BitOfSum(Half(a), Half(b), i - 1); }
  }

  ghost function Raised(s: set<nat>): set<nat> {
    set i | i in s :: i + 1
  }

  lemma {:induction false} RaisedCount(s: set<nat>)
    ensures |Raised(s)| == |s|
  {
    if s != {} {
      var x :| x in s;
      RaisedCount(s - {x});
      RaisedOneMore(s, x);
      assert x + 1 !in Raised(s - {x});
    }
  }

  lemma {:induction false} RaisedOneMore(s: set<nat>, x: nat)
    requires x in s
    ensures Raised(s) == Raised(s - {x}) + {x + 1}
  {
    forall y | y in Raised(s) ensures y in Raised(s - {x}) + {x + 1} {
      var i :| i in s && i + 1 == y;
      if i != x { assert i in s - {x}; }
    }
    forall y | y in Raised(s - {x}) + {x + 1} ensures y in Raised(s) {
      if y in Raised(s - {x}) {
        var i :| i in s - {x} && i + 1 == y;
        assert i in s;
      }
    }
  }

  lemma {:induction false} DifferencesStep(a: bv32, b: bv32, n: nat)
    requires n > 0
    ensures Differences(a, b, n)
      == Raised(Differences(Half(a), Half(b), n - 1)) + if Odd(a) != Odd(b) then {0} else {}
  {
    hide Half, Odd;
    forall i: nat | i in Differences(a, b, n) && i > 0 ensures i in Raised(Differences(Half(a), Half(b), n - 1)) {
      assert i - 1 in Differences(Half(a), Half(b), n - 1);
    }
  }

  lemma {:induction false} OneBitsAreDifferences(a: bv32, b: bv32, n: nat)
    ensures OneBits(Add(a, b), n) == |Differences(a, b, n)|
    decreases n
  {
    hide Add, Half, Odd;
    if n == 0 {
      assert Differences(a, b, 0) == {};
    } else {
      HalfLinear(a, b);
      OneBitsAreDifferences(Half(a), Half(b), n - 1);
      DifferencesStep(a, b, n);
      RaisedCount(Differences(Half(a), Half(b), n - 1));
      hide Differences;
    }
  }

  /** The distance is the number of the 32 places at which two words differ, and the
      similarity the share of those at which they agree. */
  lemma {:induction false} DistanceIsDifferences(a: bv32, b: bv32)
    ensures Distance(a, b) == |Differences(a, b, 32)|
    ensures 32.0 * Similarity(a, b) == 32.0 - |Differences(a, b, 32)| as real
  {
    hide Add, OneBits, Differences;
    OneBitsAreDifferences(a, b, 32);
    DistanceIsMetric(a, b, b);
  }

  // ----- the search -----

  datatype Trace = Trace(groupCoh: real, adjust: real, volatility: real, signature: bv32, ts: nat)

  /** The first of the traces nearest to a signature. */
  ghost predicate IsNearest(signature: bv32, traces: seq<Trace>, i: nat) {
    && i < |traces|
    && (forall j :: 0 <= j < |traces| ==>
          Distance(signature, traces[i].signature) <= Distance(signature, traces[j].signature))
    && (forall j :: 0 <= j < i ==>
          Distance(signature, traces[i].signature) < Distance(signature, traces[j].signature))
  }

  method SimilarityOf(a: bv32, b: bv32) returns (similarity: real)
    ensures similarity == Similarity(a, b)
  {
    hide Add, OneBits;
    var distance := PopCount(Add(a, b));
    similarity := 1.0 - distance as real / 32.0;
    if similarity < 0.0 { similarity := 0.0; }
  }

  /** The selection loop over the traces read from the store: the first of the
      nearest ones. In particular a stored trace with this very signature is found. */
  method BestMatch(signature: bv32, traces: seq<Trace>) returns (best: Option<Trace>)
    ensures best.None? <==> traces == []
    ensures best.Some? ==> exists i: nat :: IsNearest(signature, traces, i) && traces[i] == best.value
    ensures (exists t :: t in traces && t.signature == signature) ==>
      best.Some? && best.value.signature == signature
  {
    hide Distance, Similarity;
    best := None;
    var bestSimilarity := -1.0;
    ghost var at: nat := 0;
    for i := 0 to |traces|
      invariant best.None? <==> i == 0
      invariant best.None? ==> bestSimilarity == -1.0
      invariant best.Some? ==> at < i && best.value == traces[at]
      invariant best.Some? ==> bestSimilarity == Similarity(signature, traces[at].signature)
      invariant best.Some? ==> (forall j :: 0 <= j < i ==>
        Distance(signature, traces[at].signature) <= Distance(signature, traces[j].signature))
      invariant best.Some? ==> (forall j :: 0 <= j < at ==>
        Distance(signature, traces[at].signature) < Distance(signature, traces[j].signature))
    {
      var similarity := SimilarityOf(signature, traces[i].signature);
      if best.Some? {
        SimilarityOrdersByDistance(signature, traces[i].signature, signature, traces[at].signature);
      }
      SimilarityOrdersByDistance(signature, traces[i].signature, signature, traces[i].signature);
      if similarity > bestSimilarity {
        bestSimilarity := similarity;
        best := Some(traces[i]);
        at := i;
      }
    }
    assert best.Some? ==> IsNearest(signature, traces, at);
    if t :| t in traces && t.signature == signature {
      DistanceIsMetric(signature, t.signature, signature);
      DistanceIsMetric(signature, traces[at].signature, signature);
    }
  }
}
