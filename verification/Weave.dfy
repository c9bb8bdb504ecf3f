/** Which module owns which phase of the clock grid: modules sorted by shift, each
    placed on the first free phase from its target on, and the phases left over
    dealt out in turn. Phases and modules are arbitrary in number here. */
module WeaveModel {

  /** A phase that nobody owns yet. */
  const FREE := -1

  datatype Entry = Entry(owner: nat, shift: real)

  ghost predicate SortedByShift(entries: seq<Entry>) {
    forall i, j :: 0 <= i < j < |entries| ==> entries[i].shift <= entries[j].shift
  }

  /** The owners are exactly 0, 1, .. without repetition. */
  ghost predicate OwnersAreModules(entries: seq<Entry>) {
    && (forall i :: 0 <= i < |entries| ==> entries[i].owner < |entries|)
    && (forall i, j :: 0 <= i < j < |entries| ==> entries[i].owner != entries[j].owner)
    && (forall m: nat :: m < |entries| ==> HasOwner(entries, m))
  }

  ghost predicate HasOwner(entries: seq<Entry>, m: nat) {
    exists i :: 0 <= i < |entries| && entries[i].owner == m
  }

  /** The nearest phase of a shift in degrees, a half rounded up; a shift close to a
      full turn wraps to phase 0. */
  function Target(shift: real, phases: nat): (t: nat)
    requires 0.0 <= shift && phases > 0
    ensures t < phases
  {
    ((shift / 360.0) * phases as real + 0.5).Floor % phases
  }

  // ----- placing -----

  /** The phase `steps` after `from` on a ring of n. */
  function Ahead(n: nat, from: nat, steps: nat): (p: nat)
    requires n > 0
    ensures p < n
  {
    (from + steps) % n
  }

  /** The first free phase at `attempt` or more steps after the target, or FREE. */
  function Probe(a: seq<int>, target: nat, attempt: nat): int
    requires attempt <= |a|
    decreases |a| - attempt
  {
    if attempt == |a| then FREE
    else if a[Ahead(|a|, target, attempt)] < 0 then Ahead(|a|, target, attempt)
    else Probe(a, target, attempt + 1)
  }

  function Place(a: seq<int>, module_: nat, target: nat): (r: seq<int>)
    ensures |r| == |a|
  {
    var p := Probe(a, target, 0);
    if 0 <= p < |a| then a[p := module_] else a
  }

  function Empty(phases: nat): (a: seq<int>)
    ensures |a| == phases
  {
    seq(phases, _ => FREE)
  }

  predicate Turned(entries: seq<Entry>) {
    forall i :: 0 <= i < |entries| ==> 0.0 <= entries[i].shift < 360.0
  }

  function PlaceAll(phases: nat, entries: seq<Entry>): (a: seq<int>)
    requires phases > 0 && Turned(entries)
    ensures |a| == phases
  {
    if entries == [] then Empty(phases)
    else
      var last := entries[|entries| - 1];
      Place(PlaceAll(phases, entries[..|entries| - 1]), last.owner, Target(last.shift, phases))
  }

  /** The phases less than `steps` after the target are taken. */
  ghost predicate TakenUpTo(a: seq<int>, target: nat, steps: nat)
    requires a != []
  {
    forall k :: 0 <= k < steps ==> a[Ahead(|a|, target, k)] >= 0
  }

  /** The free phase nearest after the target. */
  ghost predicate NearestFree(a: seq<int>, target: nat, p: int, steps: nat)
    requires a != []
  {
    p == Ahead(|a|, target, steps) && a[p] < 0 && TakenUpTo(a, target, steps)
  }

  /** Probing misses only when every phase is taken; otherwise it stops at the free
      phase nearest after the target. */
  lemma {:induction false} ProbeFinds(a: seq<int>, target: nat, attempt: nat)
    requires attempt <= |a| && target < |a| && TakenUpTo(a, target, attempt)
    ensures Probe(a, target, attempt) == FREE ==> forall i :: 0 <= i < |a| ==> a[i] >= 0
    ensures Probe(a, target, attempt) != FREE ==>
      exists d: nat :: NearestFree(a, target, Probe(a, target, attempt), d)
    decreases |a| - attempt
  {
    hide Ahead;
    if attempt == |a| {
      forall i | 0 <= i < |a| ensures a[i] >= 0 {
        var k := if i >= target then i - target else i + |a| - target;
        Around(target, k, i, |a|);
      }
    } else if a[Ahead(|a|, target, attempt)] < 0 {
      assert NearestFree(a, target, Probe(a, target, attempt), attempt);
    } else {
      ProbeFinds(a, target, attempt + 1);
    }
  }

  lemma {:induction false} Around(target: nat, k: nat, i: nat, n: nat)
    requires i < n && (target + k == i || target + k == i + n)
    ensures Ahead(n, target, k) == i
  {
  }

  /** After placing n modules: each of the first ones, as many as there are phases,
      owns one phase, the others none, and the rest of the phases is free. */
  ghost predicate Placed(a: seq<int>, entries: seq<Entry>, n: nat) {
    && (forall i :: 0 <= i < |a| ==> FREE <= a[i] < |entries|)
    && multiset(a)[FREE] == (if n <= |a| then |a| - n else 0)
    && (forall j :: 0 <= j < |entries| ==> multiset(a)[entries[j].owner] == if j < n && j < |a| then 1 else 0)
  }

  lemma {:induction false} EmptyIsFree(phases: nat, m: nat)
    ensures multiset(Empty(phases))[FREE] == phases && multiset(Empty(phases))[m] == 0
  {
    if phases > 0 {
      EmptyIsFree(phases - 1, m);
      assert Empty(phases) == Empty(phases - 1) + [FREE];
    }
  }

  lemma {:induction false} EmptyIsPlaced(phases: nat, entries: seq<Entry>)
    ensures Placed(Empty(phases), entries, 0)
  {
    EmptyIsFree(phases, 0);
    forall j | 0 <= j < |entries| ensures multiset(Empty(phases))[entries[j].owner] == 0 {
      EmptyIsFree(phases, entries[j].owner);
    }
  }

  /** Taking a free phase moves one count. */
  lemma {:induction false} TakeCounts(a: seq<int>, p: nat, v: nat)
    requires p < |a| && a[p] == FREE
    ensures multiset(a[p := v])[FREE] == multiset(a)[FREE] - 1 >= 0
    ensures multiset(a[p := v])[v] == multiset(a)[v] + 1
    ensures forall u: nat :: u != v ==> multiset(a[p := v])[u] == multiset(a)[u]
  {
    assert FREE in a;
  }

  lemma {:induction false} PlaceStep(a: seq<int>, entries: seq<Entry>, n: nat, target: nat)
    requires n < |entries| && OwnersAreModules(entries) && target < |a| && Placed(a, entries, n)
    ensures Placed(Place(a, entries[n].owner, target), entries, n + 1)
  {
    ProbeFinds(a, target, 0);
    hide Probe, Ahead, TakenUpTo;
    var p := Probe(a, target, 0);
    if p == FREE {
      assert FREE !in a;
    } else {
      assert a[p] == FREE;
      TakeCounts(a, p, entries[n].owner);
    }
  }

  lemma {:induction false} PlacedAll(phases: nat, entries: seq<Entry>, n: nat)
    requires phases > 0 && Turned(entries) && OwnersAreModules(entries) && n <= |entries|
    ensures Placed(PlaceAll(phases, entries[..n]), entries, n)
  {
    hide Target, Place, Placed, OwnersAreModules;
    if n == 0 {
      EmptyIsPlaced(phases, entries);
    } else {
      PlacedAll(phases, entries, n - 1);
      assert entries[..n][..n - 1] == entries[..n - 1];
      PlaceStep(PlaceAll(phases, entries[..n - 1]), entries, n - 1, Target(entries[n - 1].shift, phases));
    }
  }

  // ----- filling -----

  /** The entry after `cursor`, round and round. */
  function Next(cursor: nat, n: nat): (r: nat)
    requires cursor < n
    ensures r == if cursor + 1 == n then 0 else cursor + 1
  {
    (cursor + 1) % n
  }

  /** Deal the free phases from `phase` on to the entries in turn. */
  function Fill(a: seq<int>, entries: seq<Entry>, phase: nat, cursor: nat): (r: seq<int>)
    requires phase <= |a| && cursor < |entries|
    ensures |r| == |a|
    decreases |a| - phase
  {
    if phase == |a| then a
    else if a[phase] >= 0 then Fill(a, entries, phase + 1, cursor)
    else Fill(a[phase := entries[cursor].owner], entries, phase + 1, Next(cursor, |entries|))
  }

  /** How often dealing n cards around a table of `seats`, starting at `cursor`,
      serves seat j. */
  function Dealt(cursor: nat, n: nat, seats: nat, j: nat): nat
    requires cursor < seats
    decreases n
  {
    if n == 0 then 0
    else (if cursor == j then 1 else 0) + Dealt(Next(cursor, seats), n - 1, seats, j)
  }

  lemma {:induction false} FillIsTotal(a: seq<int>, entries: seq<Entry>, phase: nat, cursor: nat)
    requires phase <= |a| && cursor < |entries| && OwnersAreModules(entries)
    requires forall i :: 0 <= i < phase ==> a[i] >= 0
    requires forall i :: 0 <= i < |a| ==> FREE <= a[i] < |entries|
    ensures forall i :: 0 <= i < |a| ==> 0 <= Fill(a, entries, phase, cursor)[i] < |entries|
    decreases |a| - phase
  {
    hide OwnersAreModules;
    if phase < |a| {
      if a[phase] >= 0 {
        FillIsTotal(a, entries, phase + 1, cursor);
      } else {
        OwnersDiffer(entries, cursor, cursor);
        FillIsTotal(a[phase := entries[cursor].owner], entries, phase + 1, Next(cursor, |entries|));
      }
    }
  }

  lemma {:induction false} FillDeals(a: seq<int>, entries: seq<Entry>, phase: nat, cursor: nat, j: nat)
    requires phase <= |a| && cursor < |entries| && j < |entries| && OwnersAreModules(entries)
    requires forall i :: 0 <= i < phase ==> a[i] >= 0
    requires forall i :: 0 <= i < |a| ==> FREE <= a[i]
    ensures multiset(Fill(a, entries, phase, cursor))[entries[j].owner]
      == multiset(a)[entries[j].owner] + Dealt(cursor, multiset(a)[FREE], |entries|, j)
    decreases |a| - phase
  {
    hide OwnersAreModules;
    if phase == |a| {
      assert FREE !in a;
    } else if a[phase] >= 0 {
      FillDeals(a, entries, phase + 1, cursor, j);
    } else {
      OwnersDiffer(entries, cursor, j);
      TakeCounts(a, phase, entries[cursor].owner);
      FillDeals(a[phase := entries[cursor].owner], entries, phase + 1, Next(cursor, |entries|), j);
    }
  }

  lemma {:induction false} OwnersDiffer(entries: seq<Entry>, i: nat, j: nat)
    requires OwnersAreModules(entries) && i < |entries| && j < |entries|
    ensures entries[i].owner == entries[j].owner <==> i == j
    ensures entries[i].owner < |entries|
  {
  }

  // ----- the shares -----

  /** The share of rank j when `phases` phases go round `modules` modules. */
  function Share(phases: nat, modules: nat, j: nat): nat
    requires j < modules
  {
    if phases <= modules then (if j < phases then 1 else 0)
    else 1 + Share(phases - modules, modules, j)
  }

  lemma {:induction false} DealtLap(cursor: nat, n: nat, seats: nat, j: nat)
    requires cursor < seats && j < seats
    ensures n <= seats - cursor ==> Dealt(cursor, n, seats, j) == if cursor <= j < cursor + n then 1 else 0
    ensures n > seats - cursor ==>
      Dealt(cursor, n, seats, j) == (if cursor <= j then 1 else 0) + Dealt(0, n - (seats - cursor), seats, j)
    decreases n
  {
    if n > 0 && cursor + 1 < seats { DealtLap(cursor + 1, n - 1, seats, j); }
  }

  lemma {:induction false} DealtIsShare(n: nat, seats: nat, j: nat)
    requires j < seats
    ensures Dealt(0, n, seats, j) == Share(n, seats, j)
    decreases n
  {
    DealtLap(0, n, seats, j);
    if n > seats { DealtIsShare(n - seats, seats, j); }
  }

  /** Shares differ by at most one, go to the earlier ranks first, and are all
      positive once there is a phase for every module. */
  lemma {:induction false} SharesAreBalanced(phases: nat, modules: nat, j: nat, k: nat)
    requires j < k < modules
    ensures Share(phases, modules, k) <= Share(phases, modules, j) <= Share(phases, modules, k) + 1
    ensures phases >= modules ==> Share(phases, modules, k) >= 1
    decreases phases
  {
    if phases > modules { SharesAreBalanced(phases - modules, modules, j, k); }
  }

  // ----- the assignment -----

  function Assignment(phases: nat, entries: seq<Entry>): (r: seq<int>)
    requires phases > 0 && entries != [] && Turned(entries)
    ensures |r| == phases
  {
    Fill(PlaceAll(phases, entries), entries, 0, 0)
  }

  /** Every phase has a module, and the module of rank j owns exactly its share. */
  lemma {:induction false} AssignmentIsFair(phases: nat, entries: seq<Entry>, j: nat)
    requires phases > 0 && Turned(entries) && OwnersAreModules(entries) && j < |entries|
    ensures forall i :: 0 <= i < phases ==> 0 <= Assignment(phases, entries)[i] < |entries|
    ensures multiset(Assignment(phases, entries))[entries[j].owner] == Share(phases, |entries|, j)
  {
    var a := PlaceAll(phases, entries);
    PlacedAll(phases, entries, |entries|);
    assert entries[..|entries|] == entries;
    hide PlaceAll, Fill, Share, Dealt, OwnersAreModules;
    FillIsTotal(a, entries, 0, 0);
    FillDeals(a, entries, 0, 0, j);
    DealtIsShare(multiset(a)[FREE], |entries|, j);
  }

  /** Any two modules own numbers of phases that differ by at most one, and with at
      least as many phases as modules every module owns one. */
  lemma {:induction false} AssignmentIsBalanced(phases: nat, entries: seq<Entry>, m: nat, n: nat)
    requires phases > 0 && Turned(entries) && OwnersAreModules(entries) && m < |entries| && n < |entries|
    ensures multiset(Assignment(phases, entries))[m] <= multiset(Assignment(phases, entries))[n] + 1
    ensures phases >= |entries| ==> m in Assignment(phases, entries)
  {
    hide Assignment, Share;
    assert HasOwner(entries, m) && HasOwner(entries, n);
    var j :| 0 <= j < |entries| && entries[j].owner == m;
    var k :| 0 <= k < |entries| && entries[k].owner == n;
    AssignmentIsFair(phases, entries, j);
    AssignmentIsFair(phases, entries, k);
    if j < k {
      SharesAreBalanced(phases, |entries|, j, k);
    } else if k < j {
      SharesAreBalanced(phases, |entries|, k, j);
    } else if phases >= |entries| {
      AlonePositive(phases, |entries|, j);
    }
    assert phases >= |entries| ==> multiset(Assignment(phases, entries))[m] >= 1;
  }

  lemma {:induction false} AlonePositive(phases: nat, modules: nat, j: nat)
    requires j < modules <= phases
    ensures Share(phases, modules, j) >= 1
  {
  }

  // ----- when nothing collides -----

  /** If no two targets coincide, every module owns its own target. */
  lemma {:induction false} TargetsAreKept(phases: nat, entries: seq<Entry>, n: nat, j: nat)
    requires phases > 0 && Turned(entries) && j < n <= |entries|
    requires forall i, k :: 0 <= i < k < n ==> Target(entries[i].shift, phases) != Target(entries[k].shift, phases)
    ensures PlaceAll(phases, entries[..n])[Target(entries[j].shift, phases)] == entries[j].owner
    ensures forall p :: 0 <= p < phases && PlaceAll(phases, entries[..n])[p] >= 0
              ==> exists i :: 0 <= i < n && p == Target(entries[i].shift, phases)
  {
    assert entries[..n][..n - 1] == entries[..n - 1];
    var a := PlaceAll(phases, entries[..n - 1]);
    var t := Target(entries[n - 1].shift, phases);
    assert a[t] < 0 by {
      if n > 1 { TargetsAreKept(phases, entries, n - 1, 0); }
    }
    Around(t, 0, t, phases);
    assert Probe(a, t, 0) == t;
    if n > 1 {
      TargetsAreKept(phases, entries, n - 1, if j < n - 1 then j else 0);
    }
  }

  lemma {:induction false} FillKeeps(a: seq<int>, entries: seq<Entry>, phase: nat, cursor: nat, p: nat)
    requires phase <= |a| && cursor < |entries| && p < |a| && a[p] >= 0
    ensures Fill(a, entries, phase, cursor)[p] == a[p]
    decreases |a| - phase
  {
    if phase < |a| {
      if a[phase] >= 0 {
        FillKeeps(a, entries, phase + 1, cursor, p);
      } else {
        FillKeeps(a[phase := entries[cursor].owner], entries, phase + 1, Next(cursor, |entries|), p);
      }
    }
  }

  /** So the module's own phase is the one nearest to its shift. */
  lemma {:induction false} NoCollisionNoDrift(phases: nat, entries: seq<Entry>, j: nat)
    requires phases > 0 && Turned(entries) && j < |entries|
    requires forall i, k :: 0 <= i < k < |entries| ==>
      Target(entries[i].shift, phases) != Target(entries[k].shift, phases)
    ensures Assignment(phases, entries)[Target(entries[j].shift, phases)] == entries[j].owner
  {
    TargetsAreKept(phases, entries, |entries|, j);
    assert entries[..|entries|] == entries;
    FillKeeps(PlaceAll(phases, entries), entries, 0, 0, Target(entries[j].shift, phases));
  }
}
