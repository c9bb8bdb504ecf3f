/** The clock grid of the weave: six modules with a phase shift each, and an array
    that says which module owns which phase. */
module PhaseGrid {
  import opened Signals
  import opened WeaveModel

  const MODULES: nat := 6
  const MIN_PHASES := 4
  const MAX_PHASES := 16
  const DEFAULT_SHIFT: seq<real> := [0.0, 72.0, 144.0, 216.0, 288.0, 330.0]

  function ClampPhases(phases: int): int {
    if phases < MIN_PHASES then MIN_PHASES else if phases > MAX_PHASES then MAX_PHASES else phases
  }

  /** The same angle within one turn. */
  function Normalized(degrees: Signal): real {
    match degrees
    case NotFinite => 0.0
    case Finite(v) => v - 360.0 * (v / 360.0).Floor as real
  }

  method NormalizeDegrees(degrees: Signal) returns (r: real)
    ensures r == Normalized(degrees) && 0.0 <= r < 360.0
  {
    if degrees.NotFinite? { return 0.0; }
    r := degrees.value;
    ghost var turns: int := 0;
    while r < 0.0
      invariant r == degrees.value + 360.0 * turns as real
      decreases -r
    {
      r := r + 360.0;
      turns := turns + 1;
    }
    while r >= 360.0
      invariant r == degrees.value + 360.0 * turns as real && 0.0 <= r
      decreases r
    {
      r := r - 360.0;
      turns := turns - 1;
    }
    Turns(degrees.value, r, turns);
  }

  lemma {:induction false} Turns(v: real, r: real, turns: int)
    requires r == v + 360.0 * turns as real && 0.0 <= r < 360.0
    ensures r == v - 360.0 * (v / 360.0).Floor as real
  {
    assert v / 360.0 == r / 360.0 - turns as real;
    assert 0.0 <= r / 360.0 < 1.0;
    assert (v / 360.0).Floor == -turns;
  }

  predicate TurnsApart(a: real, b: real, turns: int) {
    a == b + 360.0 * turns as real
  }

  /** Normalising keeps the angle: it only adds or takes away full turns. */
  lemma {:induction false} NormalizedIsSameAngle(v: real)
    ensures 0.0 <= Normalized(Finite(v)) < 360.0 && Normalized(NotFinite) == 0.0
    ensures exists turns :: TurnsApart(Normalized(Finite(v)), v, turns)
  {
    assert TurnsApart(Normalized(Finite(v)), v, -(v / 360.0).Floor);
  }

  /** The nested loops that exchange any pair found out of order. */
  method SortEntries(entries: array<Entry>)
    modifies entries
    ensures SortedByShift(entries[..])
    ensures multiset(entries[..]) == multiset(old(entries[..]))
  {
    var n := entries.Length;
    var i := 0;
    while i < n - 1
      invariant 0 <= i <= n
      invariant forall p, q :: 0 <= p < i && p < q < n ==> entries[p].shift <= entries[q].shift
      invariant multiset(entries[..]) == multiset(old(entries[..]))
    {
      var j := i + 1;
      while j < n
        invariant i < j <= n
        invariant forall p, q :: 0 <= p < i && p < q < n ==> entries[p].shift <= entries[q].shift
        invariant forall q :: i < q < j ==> entries[i].shift <= entries[q].shift
        invariant multiset(entries[..]) == multiset(old(entries[..]))
      {
        if entries[j].shift < entries[i].shift {
          entries[i], entries[j] := entries[j], entries[i];
        }
        j := j + 1;
      }
      i := i + 1;
    }
  }

  method FreeAll(a: array<int>, phases: nat)
    requires phases <= a.Length
    modifies a
    ensures a[..phases] == Empty(phases)
    ensures a[phases..] == old(a[phases..])
  {
    for i := 0 to phases
      invariant forall k :: 0 <= k < i ==> a[k] == FREE
      invariant a[phases..] == old(a[phases..])
    {
      a[i] := FREE;
    }
  }

  /** Circular probing for a free phase from the target on. */
  method PlaceModule(a: array<int>, phases: nat, owner: nat, target: nat)
    requires target < phases <= a.Length
    modifies a
    ensures a[..phases] == Place(old(a[..phases]), owner, target)
    ensures a[phases..] == old(a[phases..])
  {
    ghost var was := a[..phases];
    var attempt := 0;
    while attempt < phases
      invariant 0 <= attempt <= phases
      invariant a[..] == old(a[..])
      invariant Probe(was, target, 0) == Probe(was, target, attempt)
    {
      var phase := (target + attempt) % phases;
      assert phase == Ahead(|was|, target, attempt);
      if a[phase] < 0 {
        a[phase] := owner;
        return;
      }
      attempt := attempt + 1;
    }
  }

  /** Placing the modules in the order of their shifts. */
  method PlaceModules(a: array<int>, phases: nat, entries: seq<Entry>)
    requires 0 < phases <= a.Length && Turned(entries) && a[..phases] == Empty(phases)
    modifies a
    ensures a[..phases] == PlaceAll(phases, entries)
    ensures a[phases..] == old(a[phases..])
  {
    hide Target, Place;
    for i := 0 to |entries|
      invariant a[..phases] == PlaceAll(phases, entries[..i])
      invariant a[phases..] == old(a[phases..])
    {
      assert entries[..i + 1][..i] == entries[..i];
      PlaceModule(a, phases, entries[i].owner, Target(entries[i].shift, phases));
    }
    assert entries[..|entries|] == entries;
  }

  /** Dealing the phases that are still free. */
  method FillRest(a: array<int>, phases: nat, entries: seq<Entry>)
    requires phases <= a.Length && entries != []
    modifies a
    ensures a[..phases] == Fill(old(a[..phases]), entries, 0, 0)
    ensures a[phases..] == old(a[phases..])
  {
    var cursor := 0;
    for phase := 0 to phases
      invariant 0 <= cursor < |entries|
      invariant Fill(a[..phases], entries, phase, cursor) == Fill(old(a[..phases]), entries, 0, 0)
      invariant a[phases..] == old(a[phases..])
    {
      if a[phase] >= 0 { continue; }
      ghost var was := a[..phases];
      a[phase] := entries[cursor].owner;
      assert a[..phases] == was[phase := entries[cursor].owner];
      cursor := Next(cursor, |entries|);
    }
  }

  method PlaceAndFill(a: array<int>, phases: nat, entries: seq<Entry>)
    requires 0 < phases <= a.Length && Turned(entries) && entries != [] && a[..phases] == Empty(phases)
    modifies a
    ensures a[..phases] == Assignment(phases, entries)
    ensures a[phases..] == old(a[phases..])
  {
    PlaceModules(a, phases, entries);
    FillRest(a, phases, entries);
  }

  /** A reordering of entries numbered in order still names every module once. */
  lemma {:induction false} ReorderedOwners(numbered: seq<Entry>, entries: seq<Entry>)
    requires forall i :: 0 <= i < |numbered| ==> numbered[i].owner == i
    requires multiset(numbered) == multiset(entries)
    ensures OwnersAreModules(entries)
  {
    SameSize(numbered, entries);
    forall i | 0 <= i < |entries| ensures entries[i] in numbered { assert entries[i] in multiset(entries); }
    forall m: nat | m < |entries| ensures HasOwner(entries, m) {
      assert numbered[m] in multiset(entries);
    }
    forall i, j | 0 <= i < j < |entries| ensures entries[i].owner != entries[j].owner {
      if entries[i].owner == entries[j].owner {
        var e := entries[i];
        assert entries[j] == e;
        assert entries == entries[..j] + entries[j..];
        assert e == entries[..j][i] && e == entries[j..][0];
        assert multiset(entries)[e] >= 2;
        NumberedOnce(numbered, e.owner);
      }
    }
  }

  lemma {:induction false} NumberedOnce(numbered: seq<Entry>, m: nat)
    requires forall i :: 0 <= i < |numbered| ==> numbered[i].owner == i
    requires m < |numbered|
    ensures multiset(numbered)[numbered[m]] == 1
  {
    var e := numbered[m];
    assert numbered == numbered[..m] + [e] + numbered[m + 1..];
    assert e !in numbered[..m] && e !in numbered[m + 1..];
  }

  lemma {:induction false} SameSize(a: seq<Entry>, b: seq<Entry>)
    requires multiset(a) == multiset(b)
    ensures |a| == |b|
  {
    assert |multiset(a)| == |a| && |multiset(b)| == |b|;
  }

  class WeaveGrid {
    var phaseCount: int
    const assignment: array<int>
    const shiftDegrees: array<real>
    const shiftSet: array<bool>

    ghost predicate Valid()
      reads shiftDegrees
    {
      && assignment.Length == MAX_PHASES
      && shiftDegrees.Length == shiftSet.Length == MODULES
      && forall i :: 0 <= i < MODULES ==> 0.0 <= shiftDegrees[i] < 360.0
    }

    /** The shift of a module: its own if one was set, the default otherwise. */
    function ShiftOf(i: nat): real
      requires i < MODULES && shiftDegrees.Length == shiftSet.Length == MODULES
      reads shiftDegrees, shiftSet
    {
      if shiftSet[i] then shiftDegrees[i] else DEFAULT_SHIFT[i]
    }

    /** The entries before sorting. */
    ghost function Numbered(): (entries: seq<Entry>)
      requires shiftDegrees.Length == shiftSet.Length == MODULES
      reads shiftDegrees, shiftSet
    {
      seq(MODULES, i requires 0 <= i < MODULES reads shiftDegrees, shiftSet
                     requires shiftDegrees.Length == shiftSet.Length == MODULES => Entry(i, ShiftOf(i)))
    }

    /** The phase owners are the assignment that some ordering of the modules by
        shift leads to. */
    ghost predicate Assigned(entries: seq<Entry>)
      requires Valid()
      reads this, assignment, shiftDegrees, shiftSet
    {
      && MIN_PHASES <= phaseCount <= MAX_PHASES
      && multiset(entries) == multiset(Numbered())
      && |entries| == MODULES && SortedByShift(entries) && Turned(entries)
      && assignment[..phaseCount] == Assignment(phaseCount, entries)
    }

    /** Every phase has a module, numbers of phases differ by at most one, and with
        six phases or more every module owns one. */
    ghost predicate Fair()
      reads this, assignment
    {
      && MIN_PHASES <= phaseCount <= assignment.Length
      && (forall p :: 0 <= p < phaseCount ==> 0 <= assignment[p] < MODULES)
      && (forall m: nat, n: nat :: m < MODULES && n < MODULES ==>
            multiset(assignment[..phaseCount])[m] <= multiset(assignment[..phaseCount])[n] + 1)
      && (phaseCount >= MODULES ==> forall m: nat :: m < MODULES ==> m in assignment[..phaseCount])
    }

    /** Before any module has a shift of its own. */
    constructor ()
      ensures Valid() && fresh(assignment) && fresh(shiftDegrees) && fresh(shiftSet)
      ensures ShiftOf(0) == 0.0 && ShiftOf(1) == 72.0 && ShiftOf(2) == 144.0
      ensures ShiftOf(3) == 216.0 && ShiftOf(4) == 288.0 && ShiftOf(5) == 330.0
    {
      phaseCount := 8;
      assignment := new int[MAX_PHASES](_ => 0);
      shiftDegrees := new real[MODULES](_ => 0.0);
      shiftSet := new bool[MODULES](_ => false);
    }

    lemma {:induction false} AssignedIsFair(entries: seq<Entry>)
      requires Valid() && Assigned(entries)
      ensures Fair()
    {
      hide Assignment;
      ReorderedOwners(Numbered(), entries);
      AssignmentIsFair(phaseCount, entries, 0);
      forall m: nat, n: nat | m < MODULES && n < MODULES
        ensures multiset(assignment[..phaseCount])[m] <= multiset(assignment[..phaseCount])[n] + 1
        ensures phaseCount >= MODULES ==> m in assignment[..phaseCount]
      {
        AssignmentIsBalanced(phaseCount, entries, m, n);
      }
    }

    method CollectEntries() returns (entries: array<Entry>)
      requires Valid()
      ensures fresh(entries) && entries.Length == MODULES && entries[..] == Numbered()
      ensures Turned(entries[..])
    {
      entries := new Entry[MODULES](_ => Entry(0, 0.0));
      for i := 0 to MODULES
        invariant forall k :: 0 <= k < i ==> entries[k] == Entry(k, ShiftOf(k)) && 0.0 <= entries[k].shift < 360.0
      {
        var shift := if shiftSet[i] then shiftDegrees[i] else DEFAULT_SHIFT[i];
        var normal := NormalizeDegrees(Finite(shift));
        InTurn(shift);
        entries[i] := Entry(i, normal);
      }
    }

    method RebuildAssignment() returns (order: seq<Entry>)
      requires Valid()
      modifies this, assignment
      ensures Valid() && Assigned(order) && Fair()
      ensures phaseCount == ClampPhases(old(phaseCount))
      ensures assignment[phaseCount..] == old(assignment[..])[phaseCount..]
    {
      if phaseCount < MIN_PHASES {
        phaseCount := MIN_PHASES;
      } else if phaseCount > MAX_PHASES {
        phaseCount := MAX_PHASES;
      }
      hide Empty, Fair, Assignment, SortedByShift, Turned, Numbered;
      FreeAll(assignment, phaseCount);
      var entries := CollectEntries();
      SortEntries(entries);
      order := entries[..];
      StillTurned(Numbered(), order);
      PlaceAndFill(assignment, phaseCount, order);
      AssignedIsFair(order);
    }

    method Init(phases: int) returns (order: seq<Entry>)
      requires Valid()
      modifies this, assignment
      ensures Valid() && Assigned(order) && Fair()
      ensures phaseCount == ClampPhases(phases)
    {
      phaseCount := ClampPhases(phases);
      order := RebuildAssignment();
    }

    /** A shift for one module; an unknown module changes nothing. */
    method SetPhaseShift(index: nat, degrees: Signal) returns (order: seq<Entry>)
      requires Valid()
      modifies this, assignment, shiftDegrees, shiftSet
      ensures Valid()
      ensures index >= MODULES ==> phaseCount == old(phaseCount) && assignment[..] == old(assignment[..])
      ensures index >= MODULES ==> forall i: nat :: i < MODULES ==> ShiftOf(i) == old(ShiftOf(i))
      ensures index < MODULES ==> Assigned(order) && Fair() && ShiftOf(index) == Normalized(degrees)
      ensures index < MODULES ==> forall i: nat :: i < MODULES && i != index ==> ShiftOf(i) == old(ShiftOf(i))
    {
      if index >= MODULES { return []; }
      var normal := NormalizeDegrees(degrees);
      shiftDegrees[index] := normal;
      shiftSet[index] := true;
      order := RebuildAssignment();
    }
  }

  lemma {:induction false} InTurn(shift: real)
    requires 0.0 <= shift < 360.0
    ensures Normalized(Finite(shift)) == shift
  {
    Turns(shift, shift, 0);
  }

  lemma {:induction false} StillTurned(numbered: seq<Entry>, entries: seq<Entry>)
    requires multiset(numbered) == multiset(entries) && Turned(numbered)
    ensures Turned(entries) && |entries| == |numbered|
  {
    SameSize(numbered, entries);
    forall i | 0 <= i < |entries| ensures 0.0 <= entries[i].shift < 360.0 {
      assert entries[i] in multiset(entries);
      assert entries[i] in numbered;
    }
  }
}
