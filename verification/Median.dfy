/** The weighted median of a resonance graph: the harmony at which half of the flux
    has been seen. */
module Median {

  datatype Edge = Edge(harmony: real, flux: real)
  datatype Graph = Graph(edges: seq<Edge>, groupCoh: real)

  function ClampUnit(x: real): real {
    if x < 0.0 then 0.0 else if x > 1.0 then 1.0 else x
  }

  /** The edges that count: positive flux, harmony clamped to [0, 1]. */
  function Usable(edges: seq<Edge>): seq<Edge> {
    if edges == [] then [] else Usable(edges[..|edges| - 1]) + UsableOne(edges[|edges| - 1])
  }

  function UsableOne(e: Edge): seq<Edge> {
    if e.flux <= 0.0 then [] else [Edge(ClampUnit(e.harmony), e.flux)]
  }

  ghost predicate AllUsable(s: seq<Edge>) {
    forall e :: e in s ==> e.flux > 0.0 && 0.0 <= e.harmony <= 1.0
  }

  lemma {:induction false} UsableIsUsable(edges: seq<Edge>)
    ensures AllUsable(Usable(edges))
  {
    if edges != [] {
      UsableIsUsable(edges[..|edges| - 1]);
    }
  }

  function Total(s: seq<Edge>): real {
    if s == [] then 0.0 else Total(s[..|s| - 1]) + s[|s| - 1].flux
  }

  /** The flux carried by harmonies up to h. */
  function Upto(s: seq<Edge>, h: real): real {
    if s == [] then 0.0
    else Upto(s[..|s| - 1], h) + if s[|s| - 1].harmony <= h then s[|s| - 1].flux else 0.0
  }

  /** The least harmony whose cumulative flux reaches half of the total. */
  ghost predicate IsMedian(s: seq<Edge>, m: real) {
    && 2.0 * Upto(s, m) >= Total(s)
    && forall h: real :: h < m ==> 2.0 * Upto(s, h) < Total(s)
  }

  ghost predicate Sorted(s: seq<Edge>) {
    forall i, j :: 0 <= i < j < |s| ==> s[i].harmony <= s[j].harmony
  }

  // ----- sums -----

  lemma {:induction false} UptoAppend(a: seq<Edge>, b: seq<Edge>, h: real)
    ensures Upto(a + b, h) == Upto(a, h) + Upto(b, h)
    ensures Total(a + b) == Total(a) + Total(b)
  {
    if b == [] {
      assert a + b == a;
    } else {
      var n := |b| - 1;
      UptoAppend(a, b[..n], h);
      assert (a + b)[..|a| + n] == a + b[..n];
    }
  }

  lemma {:induction false} UptoBounds(s: seq<Edge>, h: real)
    requires forall e :: e in s ==> e.flux > 0.0
    ensures 0.0 <= Upto(s, h) <= Total(s)
    ensures (forall e :: e in s ==> e.harmony <= h) ==> Upto(s, h) == Total(s)
    ensures (forall e :: e in s ==> e.harmony > h) ==> Upto(s, h) == 0.0
    ensures s != [] ==> Total(s) > 0.0
  {
    if s != [] {
      var n := |s| - 1;
      forall e | e in s[..n] ensures e in s {}
      assert s[n] in s;
      UptoBounds(s[..n], h);
    }
  }

  /** The last edge of one order, found in another. */
  lemma {:induction false} Matched(a: seq<Edge>, b: seq<Edge>) returns (k: nat)
    requires a != [] && multiset(a) == multiset(b)
    ensures k < |b| && b[k] == a[|a| - 1]
    ensures a == a[..|a| - 1] + [b[k]] && b == b[..k] + ([b[k]] + b[k + 1..])
    ensures multiset(a[..|a| - 1]) == multiset(b[..k] + b[k + 1..])
  {
    var n := |a| - 1;
    var e := a[n];
    assert e in multiset(b);
    k :| 0 <= k < |b| && b[k] == e;
    assert a == a[..n] + [e] && b == b[..k] + ([e] + b[k + 1..]);
    assert multiset(a) == multiset(a[..n]) + multiset{e};
    assert multiset(b) == multiset(b[..k]) + (multiset{e} + multiset(b[k + 1..]));
    TakeOff(multiset(a[..n]), multiset(b[..k]), multiset(b[k + 1..]), e);
  }

  lemma {:induction false} TakeOff(p: multiset<Edge>, q: multiset<Edge>, r: multiset<Edge>, e: Edge)
    requires p + multiset{e} == q + (multiset{e} + r)
    ensures p == q + r
  {
    assert p == p + multiset{e} - multiset{e};
    assert q + r == q + (multiset{e} + r) - multiset{e};
  }

  lemma {:induction false} SameEmpty(a: seq<Edge>, b: seq<Edge>)
    requires multiset(a) == multiset(b)
    ensures a == [] <==> b == []
  {
    if b != [] { assert b[0] in multiset(b); }
    if a != [] { assert a[0] in multiset(a); }
  }

  /** Cumulative flux does not depend on the order of the edges. */
  lemma {:induction false} UptoPermuted(a: seq<Edge>, b: seq<Edge>, h: real)
    requires multiset(a) == multiset(b)
    ensures Upto(a, h) == Upto(b, h) && Total(a) == Total(b)
    decreases |a|
  {
    SameEmpty(a, b);
    if a != [] {
      var k := Matched(a, b);
      var n, e := |a| - 1, b[k];
      UptoPermuted(a[..n], b[..k] + b[k + 1..], h);
      hide Upto, Total;
      UptoAppend(a[..n], [e], h);
      UptoAppend([e], b[k + 1..], h);
      UptoAppend(b[..k], [e] + b[k + 1..], h);
      UptoAppend(b[..k], b[k + 1..], h);
    }
  }

  /** There is at most one median, and reordering the edges does not move it. */
  lemma {:induction false} MedianIsUnique(a: seq<Edge>, b: seq<Edge>, m: real, n: real)
    requires multiset(a) == multiset(b) && IsMedian(a, m) && IsMedian(b, n)
    ensures m == n
  {
    UptoPermuted(a, b, m);
    UptoPermuted(a, b, n);
  }

  lemma {:induction false} MedianPermuted(a: seq<Edge>, b: seq<Edge>, m: real)
    requires multiset(a) == multiset(b) && IsMedian(a, m)
    ensures IsMedian(b, m)
  {
    UptoPermuted(a, b, m);
    forall h: real | h < m ensures 2.0 * Upto(b, h) < Total(b) { UptoPermuted(a, b, h); }
  }

  lemma {:induction false} UsablePermuted(a: seq<Edge>, b: seq<Edge>)
    requires multiset(a) == multiset(b)
    ensures multiset(Usable(a)) == multiset(Usable(b))
    decreases |a|
  {
    SameEmpty(a, b);
    if a != [] {
      var k := Matched(a, b);
      var n, e := |a| - 1, b[k];
      UsablePermuted(a[..n], b[..k] + b[k + 1..]);
      hide Usable;
      UsableAppend(a[..n], [e]);
      UsableAppend([e], b[k + 1..]);
      UsableAppend(b[..k], [e] + b[k + 1..]);
      UsableAppend(b[..k], b[k + 1..]);
    }
  }

  lemma {:induction false} UsableSnoc(s: seq<Edge>, e: Edge)
    ensures Usable(s + [e]) == Usable(s) + UsableOne(e)
  {
    assert (s + [e])[..|s|] == s;
  }

  lemma {:induction false} LastApart(a: seq<Edge>, b: seq<Edge>)
    requires b != []
    ensures var n := |b| - 1; b == b[..n] + [b[n]] && a + b == (a + b[..n]) + [b[n]]
  {
  }

  lemma {:induction false} Regroup(x: seq<Edge>, y: seq<Edge>, z: seq<Edge>)
    ensures (x + y) + z == x + (y + z)
  {
  }

  lemma {:induction false} UsableAppend(a: seq<Edge>, b: seq<Edge>)
    ensures Usable(a + b) == Usable(a) + Usable(b)
  {
    hide UsableOne;
    if b == [] {
      assert a + b == a;
    } else {
      hide Usable;
      var n := |b| - 1;
      LastApart(a, b);
      UsableAppend(a, b[..n]);
      UsableSnoc(a + b[..n], b[n]);
      UsableSnoc(b[..n], b[n]);
      Regroup(Usable(a), Usable(b[..n]), UsableOne(b[n]));
    }
  }

  // ----- the median of the edges as given -----

  /** The flux of the edges whose flux is positive and whose harmony, kept within
      [0, 1], is at most h. */
  function FluxUpto(edges: seq<Edge>, h: real): real {
    if edges == [] then 0.0
    else
      var e := edges[|edges| - 1];
      FluxUpto(edges[..|edges| - 1], h)
      + if e.flux > 0.0 && h >= 0.0 && (e.harmony <= h || h >= 1.0) then e.flux else 0.0
  }

  lemma {:induction false} FluxIs(edges: seq<Edge>, h: real)
    ensures Upto(Usable(edges), h) == FluxUpto(edges, h)
    ensures Total(Usable(edges)) == FluxUpto(edges, 1.0)
    ensures Usable(edges) == [] <==> forall e :: e in edges ==> e.flux <= 0.0
  {
    if edges != [] {
      var n := |edges| - 1;
      FluxIs(edges[..n], h);
      UptoAppend(Usable(edges[..n]), UsableOne(edges[n]), h);
      OneFlux(edges[n], h);
      hide Upto, Total, UsableOne;
      assert edges == edges[..n] + [edges[n]];
    }
  }

  lemma {:induction false} OneFlux(e: Edge, h: real)
    ensures Upto(UsableOne(e), h) == if e.flux > 0.0 && h >= 0.0 && (e.harmony <= h || h >= 1.0) then e.flux else 0.0
    ensures Total(UsableOne(e)) == if e.flux > 0.0 then e.flux else 0.0
    ensures UsableOne(e) == [] <==> e.flux <= 0.0
  {
    var s := UsableOne(e);
    if s != [] { assert s[..0] == []; }
  }

  /** The median in terms of the edges as given: the least harmony up to which at least
      half of all positive flux has been seen. */
  lemma {:induction false} MedianOfEdges(edges: seq<Edge>, m: real)
    ensures IsMedian(Usable(edges), m) <==>
      && 2.0 * FluxUpto(edges, m) >= FluxUpto(edges, 1.0)
      && forall h: real :: h < m ==> 2.0 * FluxUpto(edges, h) < FluxUpto(edges, 1.0)
  {
    hide Total, Usable;
    FluxIs(edges, m);
    if IsMedian(Usable(edges), m) {
      forall h: real | h < m ensures 2.0 * FluxUpto(edges, h) < FluxUpto(edges, 1.0) {
        FluxIs(edges, h);
        assert 2.0 * Upto(Usable(edges), h) < Total(Usable(edges));
      }
    } else if 2.0 * Upto(Usable(edges), m) >= Total(Usable(edges)) {
      var h: real :| h < m && 2.0 * Upto(Usable(edges), h) >= Total(Usable(edges));
      FluxIs(edges, h);
      assert 2.0 * FluxUpto(edges, h) >= FluxUpto(edges, 1.0);
    }
  }

  // ----- the algorithm -----

  method Insert(r: seq<Edge>, e: Edge) returns (q: seq<Edge>)
    requires Sorted(r)
    ensures Sorted(q) && multiset(q) == multiset(r) + multiset{e}
  {
    var k := |r|;
    while k > 0 && r[k - 1].harmony > e.harmony
      invariant 0 <= k <= |r|
      invariant forall j :: k <= j < |r| ==> r[j].harmony > e.harmony
    {
      k := k - 1;
    }
    assert forall j :: 0 <= j < k ==> r[j].harmony <= e.harmony;
    q := r[..k] + [e] + r[k..];
    InsertCounts(r, e, k);
  }

  lemma {:induction false} InsertCounts(r: seq<Edge>, e: Edge, k: nat)
    requires k <= |r|
    ensures multiset(r[..k] + [e] + r[k..]) == multiset(r) + multiset{e}
  {
    assert r == r[..k] + r[k..];
  }

  /** What the library sort promises: ordered by harmony, ties in any order. */
  method SortByHarmony(edges: seq<Edge>) returns (r: seq<Edge>)
    ensures Sorted(r) && multiset(r) == multiset(edges)
  {
    r := [];
    assert Sorted(r);
    hide Sorted;
    for i := 0 to |edges|
      invariant Sorted(r) && multiset(r) == multiset(edges[..i])
    {
      assert edges[..i + 1] == edges[..i] + [edges[i]];
      r := Insert(r, edges[i]);
    }
    assert edges[..|edges|] == edges;
  }

  lemma {:induction false} UsableGrows(edges: seq<Edge>, i: nat)
    requires i < |edges|
    ensures edges[i].flux <= 0.0 ==> Usable(edges[..i + 1]) == Usable(edges[..i])
    ensures edges[i].flux > 0.0 ==>
      Usable(edges[..i + 1]) == Usable(edges[..i]) + [Edge(ClampUnit(edges[i].harmony), edges[i].flux)]
  {
    hide ClampUnit;
    assert edges[..i + 1][..i] == edges[..i];
  }

  lemma {:induction false} TotalGrows(s: seq<Edge>, e: Edge)
    ensures Total(s + [e]) == Total(s) + e.flux
  {
    assert (s + [e])[..|s|] == s;
  }

  method Collect(edges: seq<Edge>) returns (copies: seq<Edge>, totalFlux: real)
    ensures copies == Usable(edges) && totalFlux == Total(copies)
  {
    copies, totalFlux := [], 0.0;
    assert Usable(edges[..0]) == [] && Total(copies) == 0.0;
    hide Usable, Total, ClampUnit;
    for i := 0 to |edges|
      invariant copies == Usable(edges[..i]) && totalFlux == Total(copies)
    {
      UsableGrows(edges, i);
      if edges[i].flux <= 0.0 { continue; }
      var copy := Edge(ClampUnit(edges[i].harmony), edges[i].flux);
      TotalGrows(copies, copy);
      copies := copies + [copy];
      totalFlux := totalFlux + edges[i].flux;
    }
    assert edges[..|edges|] == edges;
  }

  /** The first prefix of the sorted edges that reaches half gives the median. */
  lemma {:induction false} FirstToReachHalf(s: seq<Edge>, i: nat)
    requires Sorted(s) && i < |s| && AllUsable(s)
    requires 2.0 * Total(s[..i]) < Total(s) <= 2.0 * Total(s[..i + 1])
    ensures IsMedian(s, s[i].harmony)
  {
    var m := s[i].harmony;
    hide Upto, Total;
    AtMost(s, i + 1, m);
    forall h: real | h < m ensures 2.0 * Upto(s, h) < Total(s) { Below(s, i, h); }
  }

  lemma {:induction false} AtMost(s: seq<Edge>, i: nat, m: real)
    requires i <= |s| && AllUsable(s) && forall k :: 0 <= k < i ==> s[k].harmony <= m
    ensures Upto(s, m) >= Total(s[..i])
  {
    hide Upto, Total;
    assert s == s[..i] + s[i..];
    UptoAppend(s[..i], s[i..], m);
    UptoBounds(s[..i], m);
    UptoBounds(s[i..], m);
  }

  lemma {:induction false} Below(s: seq<Edge>, i: nat, h: real)
    requires i <= |s| && AllUsable(s) && forall k :: i <= k < |s| ==> s[k].harmony > h
    ensures Upto(s, h) <= Total(s[..i])
  {
    hide Upto, Total;
    assert s == s[..i] + s[i..];
    UptoAppend(s[..i], s[i..], h);
    UptoBounds(s[..i], h);
    UptoBounds(s[i..], h);
  }

  method WeightedMedian(graph: Graph) returns (median: real)
    ensures graph.edges == [] ==> median == 0.0
    ensures graph.edges != [] && Usable(graph.edges) == [] ==> median == graph.groupCoh
    ensures Usable(graph.edges) != [] ==> IsMedian(Usable(graph.edges), median) && 0.0 <= median <= 1.0
  {
    if |graph.edges| == 0 { return 0.0; }
    var copies, totalFlux := Collect(graph.edges);
    UsableIsUsable(graph.edges);
    UptoBounds(copies, 1.0);
    if |copies| == 0 || totalFlux <= 0.0 { return graph.groupCoh; }
    var sorted := SortByHarmony(copies);
    SameEdges(copies, sorted);
    median := FindHalf(sorted, totalFlux);
    MedianPermuted(sorted, copies, median);
    median := ClampUnit(median);
  }

  lemma {:induction false} SameEdges(a: seq<Edge>, b: seq<Edge>)
    requires multiset(a) == multiset(b) && AllUsable(a)
    ensures AllUsable(b) && Total(a) == Total(b) && |a| == |b|
  {
    UptoPermuted(a, b, 1.0);
    forall e | e in b ensures e in a { assert e in multiset(b); }
    assert |multiset(a)| == |a| && |multiset(b)| == |b|;
  }

  /** The accumulating loop over the sorted edges. */
  method FindHalf(sorted: seq<Edge>, totalFlux: real) returns (median: real)
    requires Sorted(sorted) && AllUsable(sorted) && sorted != [] && totalFlux == Total(sorted) > 0.0
    ensures IsMedian(sorted, median) && 0.0 <= median <= 1.0
  {
    hide Sorted, IsMedian;
    var target := totalFlux * 0.5;
    var accum := 0.0;
    median := sorted[|sorted| - 1].harmony;
    assert sorted[..|sorted|] == sorted;
    var i := 0;
    while i < |sorted|
      invariant 0 <= i <= |sorted|
      invariant accum == Total(sorted[..i]) && accum < target
    {
      assert sorted[..i + 1][..i] == sorted[..i];
      accum := accum + sorted[i].flux;
      if accum >= target {
        median := sorted[i].harmony;
        FirstToReachHalf(sorted, i);
        assert sorted[i] in sorted;
        return;
      }
      i := i + 1;
    }
  }

  /** Whatever the order of the edges, and whatever order the sort gives to ties,
      the result is the same. */
  lemma {:induction false} OrderDoesNotMatter(a: seq<Edge>, b: seq<Edge>, m: real, n: real)
    requires multiset(a) == multiset(b) && IsMedian(Usable(a), m) && IsMedian(Usable(b), n)
    ensures m == n
  {
    hide IsMedian, Usable;
    UsablePermuted(a, b);
    MedianIsUnique(Usable(a), Usable(b), m, n);
  }
}
