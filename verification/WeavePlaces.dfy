/** Where on the clock each module of the weave ends up. */
module WeavePlaces {
  import opened WeaveModel

  // ----- the nearest phase -----

  /** A shift in degrees, counted in phases. */
  function Position(shift: real, phases: nat): real {
    shift * phases as real / 360.0
  }

  /** How far position `u` is from phase `p` on a ring of n phases, the shorter way. */
  function Away(u: real, p: int, n: nat): real {
    var d := if u < p as real then p as real - u else u - p as real;
    if d <= n as real - d then d else n as real - d
  }

  lemma {:induction false} TargetIsFloor(shift: real, phases: nat)
    requires 0.0 <= shift < 360.0 && phases > 0
    ensures 0.0 <= Position(shift, phases) < phases as real
    ensures Target(shift, phases) == (Position(shift, phases) + 0.5).Floor % phases
  {
    var n, x := phases as real, shift / 360.0;
    assert shift == 360.0 * x && 0.0 <= x < 1.0;
    Fraction(x, n);
    assert Position(shift, phases) == x * n by { assert shift * n == 360.0 * (x * n); }
  }

  lemma {:induction false} Fraction(x: real, n: real)
    requires 0.0 <= x < 1.0 && n > 0.0
    ensures 0.0 <= x * n < n
  {
  }

  /** The whole number nearest to a position, and the phase it stands for. */
  lemma {:induction false} NearestNumber(u: real, n: nat, m: int, p: nat)
    requires 0.0 <= u < n as real && m as real - 0.5 <= u < m as real + 0.5 && p < n
    ensures var t := if m == n then 0 else m;
      && 0 <= m <= n && Away(u, t, n) <= 0.5
      && (p != t ==> Away(u, p, n) >= 0.5)
      && (u == p as real + 0.5 ==> m == p + 1)
  {
  }

  /** The target of a shift is the phase nearest to it, never more than half a phase
      away; a shift half way between two phases goes to the later one. */
  lemma {:induction false} TargetIsNearest(shift: real, phases: nat, p: nat)
    requires 0.0 <= shift < 360.0 && p < phases
    ensures var u, t := Position(shift, phases), Target(shift, phases);
      && Away(u, t, phases) <= 0.5 && Away(u, t, phases) <= Away(u, p, phases)
      && (u == p as real + 0.5 ==> t == if p + 1 < phases then p + 1 else 0)
  {
    TargetIsFloor(shift, phases);
    var u := Position(shift, phases);
    hide Target, Position, Away;
    var m := (u + 0.5).Floor;
    NearestNumber(u, phases, m, p);
    SmallMod(m, phases);
  }

  lemma {:induction false} SmallMod(m: int, n: nat)
    requires 0 <= m <= n && n > 0
    ensures m % n == if m == n then 0 else m
  {
  }

  // ----- the placed modules -----

  /** Module `j` sits `d` phases after its target, and the phases it passed belong to
      modules placed before it. */
  ghost predicate SitsAt(a: seq<int>, entries: seq<Entry>, target: nat, j: nat, d: nat)
    requires a != [] && j < |entries|
  {
    && a[Ahead(|a|, target, d)] == entries[j].owner
    && forall k :: 0 <= k < d ==> OwnedBefore(a, entries, j, Ahead(|a|, target, k))
  }

  ghost predicate OwnedBefore(a: seq<int>, entries: seq<Entry>, j: nat, p: nat)
    requires p < |a| && j < |entries|
  {
    exists i :: 0 <= i < j && a[p] == entries[i].owner
  }

  ghost predicate OwnedByFirst(a: seq<int>, entries: seq<Entry>, n: nat)
    requires n <= |entries|
  {
    forall p :: 0 <= p < |a| && a[p] >= 0 ==> exists i :: 0 <= i < n && a[p] == entries[i].owner
  }

  lemma {:induction false} PlacedOwners(phases: nat, entries: seq<Entry>, n: nat)
    requires phases > 0 && Turned(entries) && n <= |entries|
    ensures OwnedByFirst(PlaceAll(phases, entries[..n]), entries, n)
  {
    hide Target, Probe;
    if n > 0 {
      PlacedOwners(phases, entries, n - 1);
      assert entries[..n][..n - 1] == entries[..n - 1];
    }
  }

  /** Placing one module: the last one sits at the first free phase after its target,
      and the others stay. */
  lemma {:induction false} PlaceOne(a: seq<int>, entries: seq<Entry>, n: nat, target: nat)
    requires n < |entries| && OwnersAreModules(entries) && target < |a| && n < |a|
    requires Placed(a, entries, n) && OwnedByFirst(a, entries, n)
    ensures exists d :: SitsAt(Place(a, entries[n].owner, target), entries, target, n, d)
    ensures forall p :: 0 <= p < |a| && a[p] >= 0 ==> Place(a, entries[n].owner, target)[p] == a[p]
  {
    ProbeFinds(a, target, 0);
    var p := Probe(a, target, 0);
    assert FREE in a;
    hide Ahead, Probe, Placed, OwnersAreModules;
    var d: nat :| NearestFree(a, target, p, d);
    assert SitsAt(Place(a, entries[n].owner, target), entries, target, n, d);
  }

  lemma {:induction false} StillSits(a: seq<int>, b: seq<int>, entries: seq<Entry>, target: nat, j: nat, d: nat)
    requires |a| == |b| && a != [] && j < |entries| && SitsAt(a, entries, target, j, d)
    requires forall p :: 0 <= p < |a| && a[p] >= 0 ==> b[p] == a[p]
    ensures SitsAt(b, entries, target, j, d)
  {
    hide Ahead;
    forall k | 0 <= k < d ensures OwnedBefore(b, entries, j, Ahead(|b|, target, k)) {
      assert OwnedBefore(a, entries, j, Ahead(|a|, target, k));
    }
  }

  lemma {:induction false} NoneFree(a: seq<int>, entries: seq<Entry>, n: nat, target: nat)
    requires n < |entries| && target < |a| <= n && OwnersAreModules(entries) && Placed(a, entries, n)
    ensures Place(a, entries[n].owner, target) == a
  {
    assert FREE !in multiset(a) && forall i :: 0 <= i < |a| ==> a[i] in multiset(a);
    ProbeFinds(a, target, 0);
    hide Ahead, Probe;
  }

  /** Placing one more module leaves the earlier ones where they sit, and seats the new
      one as long as there are phases. */
  lemma {:induction false} PlaceNext(a: seq<int>, entries: seq<Entry>, n: nat, target: nat)
    requires n < |entries| && OwnersAreModules(entries) && target < |a|
    requires Placed(a, entries, n) && OwnedByFirst(a, entries, n)
    ensures n < |a| ==> exists d :: SitsAt(Place(a, entries[n].owner, target), entries, target, n, d)
    ensures forall p :: 0 <= p < |a| && a[p] >= 0 ==> Place(a, entries[n].owner, target)[p] == a[p]
  {
    hide Place, Placed, OwnersAreModules, OwnedByFirst, SitsAt;
    if n < |a| {
      PlaceOne(a, entries, n, target);
    } else {
      NoneFree(a, entries, n, target);
    }
  }

  /** Each of the first modules by shift, as many as there are phases, sits at its
      target, or as far after it as modules of smaller shift make it. */
  lemma {:induction false} DisplacedByEarlier(phases: nat, entries: seq<Entry>, n: nat, j: nat)
    requires phases > 0 && Turned(entries) && OwnersAreModules(entries) && j < n <= |entries| && j < phases
    ensures exists d :: SitsAt(PlaceAll(phases, entries[..n]), entries, Target(entries[j].shift, phases), j, d)
  {
    var before, last := PlaceAll(phases, entries[..n - 1]), entries[n - 1];
    assert entries[..n][..n - 1] == entries[..n - 1];
    var after, t := PlaceAll(phases, entries[..n]), Target(entries[j].shift, phases);
    assert after == Place(before, last.owner, Target(last.shift, phases));
    assert 0.0 <= last.shift && 0.0 <= entries[j].shift;
    PlacedAll(phases, entries, n - 1);
    PlacedOwners(phases, entries, n - 1);
    hide *;
    PlaceNext(before, entries, n - 1, Target(last.shift, phases));
    if j < n - 1 {
      DisplacedByEarlier(phases, entries, n - 1, j);
      var d :| SitsAt(before, entries, t, j, d);
      StillSits(before, after, entries, t, j, d);
    }
  }

  // ----- the phases left over -----

  /** How many of the phases from `from` to before `to` are free. */
  function FreeBetween(a: seq<int>, from: nat, to: nat): nat
    requires from <= to <= |a|
    decreases |a| - from
  {
    if from == to then 0 else (if a[from] < 0 then 1 else 0) + FreeBetween(a, from + 1, to)
  }

  lemma {:induction false} FreeUnchanged(a: seq<int>, b: seq<int>, from: nat, to: nat)
    requires from <= to <= |a| == |b| && forall i :: from <= i < to ==> a[i] == b[i]
    ensures FreeBetween(a, from, to) == FreeBetween(b, from, to)
    decreases |a| - from
  {
    if from < to { FreeUnchanged(a, b, from + 1, to); }
  }

  /** The entry some steps after `cursor`, round and round. */
  function Onward(n: nat, cursor: nat, steps: nat): (r: nat)
    requires cursor < n
    ensures r < n
    decreases steps
  {
    if steps == 0 then cursor else Onward(n, if cursor + 1 == n then 0 else cursor + 1, steps - 1)
  }

  lemma {:induction false} FillInTurn(a: seq<int>, entries: seq<Entry>, phase: nat, cursor: nat, p: nat)
    requires phase <= p < |a| && cursor < |entries| && a[p] < 0 && OwnersAreModules(entries)
    ensures Fill(a, entries, phase, cursor)[p]
      == entries[Onward(|entries|, cursor, FreeBetween(a, phase, p))].owner
    decreases |a| - phase
  {
    hide OwnersAreModules, Next;
    if a[phase] >= 0 {
      FillInTurn(a, entries, phase + 1, cursor, p);
    } else {
      var b := a[phase := entries[cursor].owner];
      if phase == p {
        FillKeeps(b, entries, phase + 1, Next(cursor, |entries|), p);
      } else {
        FillInTurn(b, entries, phase + 1, Next(cursor, |entries|), p);
        FreeUnchanged(a, b, phase + 1, p);
      }
    }
  }

  /** The whole assignment. The first modules by shift, as many as there are phases,
      sit as DisplacedByEarlier says; the phases they leave free go to the modules in
      the order of their shifts, round and round. */
  lemma {:induction false} AssignmentIs(phases: nat, entries: seq<Entry>, j: nat, p: nat)
    requires phases > 0 && Turned(entries) && OwnersAreModules(entries) && j < |entries| && p < phases
    ensures var a, placed := Assignment(phases, entries), PlaceAll(phases, entries);
      && (j < phases ==> exists d :: SitsAt(a, entries, Target(entries[j].shift, phases), j, d))
      && (placed[p] >= 0 ==> a[p] == placed[p])
      && (placed[p] < 0 ==> a[p] == entries[Onward(|entries|, 0, FreeBetween(placed, 0, p))].owner)
  {
    var a, placed := Assignment(phases, entries), PlaceAll(phases, entries);
    assert entries[..|entries|] == entries;
    forall q | 0 <= q < phases && placed[q] >= 0 ensures a[q] == placed[q] { FillKeeps(placed, entries, 0, 0, q); }
    hide Fill, PlaceAll, OwnersAreModules, SitsAt, Target, Ahead;
    if placed[p] < 0 { FillInTurn(placed, entries, 0, 0, p); }
    if j < phases {
      DisplacedByEarlier(phases, entries, |entries|, j);
      var t := Target(entries[j].shift, phases);
      var d :| SitsAt(placed, entries, t, j, d);
      StillSits(placed, a, entries, t, j, d);
    }
  }
}
