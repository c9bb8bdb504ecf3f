/** What applying review events keeps, over single steps and whole runs. */
module ReviewRuns {
  import opened Options
  import opened Text
  import opened ReviewModel

  // ----- the apply step keeps the validator's invariant -----

  lemma {:induction false} DateIsNonBlank(e: Event)
    requires ValidEvent(e)
    ensures NonBlank(DateOf(e))
  {
    assert IsDigit(e.occurredAt.text[0]);
    assert DateOf(e)[0] == e.occurredAt.text[0];
    assert !IsSpace(DateOf(e)[0]);
  }

  /** The event's position and the status it starts from, when no guard fires. */
  lemma {:induction false} GuardMeans(g: Graph, e: Event)
    requires Guard(g, e).None?
    ensures ValidEvent(e) && e.claimId == g.claimId
    ensures var n := FindTarget(g.targets, e.targetId);
            && n < |g.targets| && g.targets[n].id == e.targetId
            && g.targets[n].organization == e.organization && g.targets[n].status.Known?
            && (g.targets[n].status != e.target ==>
                  Rank(g.targets[n].status.status) < Rank(e.target.status)
                  && e.source == Some(g.targets[n].status))
  {
  }

  lemma {:induction false} UpdatedTargetIsValid(g: Graph, e: Event, t: Target)
    requires ValidModel(g.statusModel) && ValidEvent(e) && ValidTarget(t, g.claimId, g.statusModel)
    requires t.status.Known? && Rank(t.status.status) < Rank(e.target.status)
    ensures e.target in g.statusModel && ValidTarget(Updated(t, e, g), g.claimId, g.statusModel)
  {
    StatusInModel(g.statusModel, e.target.status);
    DateIsNonBlank(e);
  }

  lemma {:induction false} StatusInModel(m: map<StatusField, ModelEntry>, s: Status)
    requires ValidModel(m)
    ensures Known(s) in m
  {
    assert Known(s) in STATUSES;
  }

  lemma {:induction false} TargetsAreKnown(g: Graph)
    requires ValidGraph(g)
    ensures Weighed(g.targets, g.statusModel)
    ensures forall i :: 0 <= i < |g.targets| ==> ValidTarget(g.targets[i], g.claimId, g.statusModel)
  {
    hide FilledIn, Ladder, ValidScore;
    forall i | 0 <= i < |g.targets| ensures g.targets[i].status.Known? && g.targets[i].status in g.statusModel {
      assert ValidTarget(g.targets[i], g.claimId, g.statusModel);
    }
  }

  lemma {:induction false} PassedGuardIsValid(g: Graph, e: Event)
    requires ValidGraph(g) && Guard(g, e).None?
    ensures var n := FindTarget(g.targets, e.targetId);
            g.targets[n].status != e.target ==>
              e.target in g.statusModel && Weighed(g.targets[n := Updated(g.targets[n], e, g)], g.statusModel)
              && ValidGraph(Candidate(g, e))
  {
    GuardMeans(g, e);
    TargetsAreKnown(g);
    var n := FindTarget(g.targets, e.targetId);
    if g.targets[n].status != e.target {
      hide ValidTarget, ValidScore, Rescored, ValidEvent, Guard, Candidate;
      UpdatedTargetIsValid(g, e, g.targets[n]);
      CandidateIsValid(g, e);
    }
  }

  /** On a valid graph an event that passes the guards is applied: the candidate
      passes the full validator, so the recheck after applying never fires. */
  lemma {:induction false} ApplyPreserves(g: Graph, e: Event)
    requires ValidGraph(g)
    ensures Apply(g, e).Applied? ==> ValidGraph(Apply(g, e).graph)
    ensures Apply(g, e).Rejected? <==> Guard(g, e).Some?
    ensures Apply(g, e).Rejected? ==> Apply(g, e).reason !in {MissingWeight, InvalidCandidate, UnknownStatus}
  {
    hide ValidGraph, ValidEvent, Candidate;
    TargetsAreKnown(g);
    if Guard(g, e).None? { PassedGuardIsValid(g, e); }
  }

  lemma {:induction false} UpdatedTargetsAreValid(g: Graph, n: nat, t: Target)
    requires ValidTargets(g.targets, g.claimId, g.statusModel) && n < |g.targets|
    requires ValidTarget(t, g.claimId, g.statusModel) && t.id == g.targets[n].id
    ensures ValidTargets(g.targets[n := t], g.claimId, g.statusModel)
    ensures Weighed(g.targets[n := t], g.statusModel)
  {
    hide FilledIn, Ladder;
    var ts := g.targets[n := t];
    forall i | 0 <= i < |ts| ensures ValidTarget(ts[i], g.claimId, g.statusModel) {
      assert i != n ==> ValidTarget(g.targets[i], g.claimId, g.statusModel);
    }
    assert forall i :: 0 <= i < |ts| ==> ts[i].id == g.targets[i].id;
  }

  lemma {:induction false} RescoredIsValid(ts: seq<Target>, m: map<StatusField, ModelEntry>)
    requires Weighed(ts, m)
    ensures ValidScore(Rescored(ts, m), ts, m)
  {
    hide WeightedSum, Percent;
  }

  lemma {:induction false} CandidateIsValid(g: Graph, e: Event)
    requires ValidGraph(g) && ValidEvent(e) && e.target in g.statusModel
    requires FindTarget(g.targets, e.targetId) < |g.targets|
    requires ValidTarget(Updated(g.targets[FindTarget(g.targets, e.targetId)], e, g), g.claimId, g.statusModel)
    ensures var n := FindTarget(g.targets, e.targetId);
            Weighed(g.targets[n := Updated(g.targets[n], e, g)], g.statusModel)
    ensures ValidGraph(Candidate(g, e))
  {
    hide ValidTarget, ValidScore, Rescored, ValidEvent, ValidModel;
    var n := FindTarget(g.targets, e.targetId);
    UpdatedTargetsAreValid(g, n, Updated(g.targets[n], e, g));
    RescoredIsValid(g.targets[n := Updated(g.targets[n], e, g)], g.statusModel);
  }

  // ----- what one applied event changes -----

  function RankOf(t: Target): nat {
    if t.status.Known? then Rank(t.status.status) else 0
  }

  /** `h` is `g` with the status of target `n` raised to what `e` reports. */
  ghost predicate Raises(g: Graph, h: Graph, e: Event, n: nat) {
    && n < |g.targets| == |h.targets|
    && h.claimId == g.claimId && h.statusModel == g.statusModel && h.transitions == g.transitions
    && (forall i :: 0 <= i < |g.targets| && i != n ==> h.targets[i] == g.targets[i])
    && h.targets[n].id == g.targets[n].id == e.targetId
    && h.targets[n].organization == g.targets[n].organization == e.organization
    && h.targets[n].status == e.target && e.target.Known?
    && g.targets[n].status.Known? && RankOf(g.targets[n]) < RankOf(h.targets[n])
  }

  lemma {:induction false} AppliedIsValid(g: Graph, e: Event)
    requires Apply(g, e).Applied?
    ensures ValidEvent(e) && e.claimId == g.claimId && ValidGraph(Apply(g, e).graph) && Guard(g, e).None?
    ensures g.targets[FindTarget(g.targets, e.targetId)].status != e.target
  {
    hide ValidGraph, ValidEvent, Candidate, Updated, FindTarget;
    GuardMeans(g, e);
  }

  lemma {:induction false} UpdatedIs(t: Target, e: Event, g: Graph)
    requires ValidEvent(e) && e.target in g.statusModel
    ensures var u := Updated(t, e, g);
      u.id == t.id && u.organization == t.organization && u.status == e.target && e.target.Known?
  {
  }

  lemma {:induction false} ApplyRaises(g: Graph, e: Event)
    requires Apply(g, e).Applied?
    ensures Raises(g, Apply(g, e).graph, e, FindTarget(g.targets, e.targetId))
    ensures e.claimId == g.claimId && ValidEvent(e) && ValidGraph(Apply(g, e).graph)
  {
    hide Apply, ValidGraph, ValidEvent, Guard, Updated, Rescored, Weighed, FindTarget;
    AppliedIsValid(g, e);
    GuardMeans(g, e);
    ApplyLeaves(g, e);
    UpdatedIs(g.targets[FindTarget(g.targets, e.targetId)], e, g);
  }

  lemma {:induction false} WeightOfUpdate(ts: seq<Target>, n: nat, t: Target, m: map<StatusField, ModelEntry>)
    requires n < |ts| && Weighed(ts, m) && t.status.Known? && t.status in m
    ensures Weighed(ts[n := t], m)
    ensures Weight(ts[n := t], m) == Weight(ts, m) - m[ts[n].status].weight + m[t.status].weight
    decreases |ts|
  {
    var us, k := ts[n := t], |ts| - 1;
    if n == k {
      assert us[..k] == ts[..k];
    } else {
      WeightOfUpdate(ts[..k], n, t, m);
      assert us[..k] == ts[..k][n := t];
    }
  }

  lemma {:induction false} WeightsGrow(m: map<StatusField, ModelEntry>, a: Status, b: Status)
    requires ValidModel(m) && Rank(a) < Rank(b)
    ensures Known(a) in m && Known(b) in m && m[Known(a)].weight < m[Known(b)].weight
  {
    StatusInModel(m, a);
    StatusInModel(m, b);
    assert STATUS_ORDER[Rank(a)] == a && STATUS_ORDER[Rank(b)] == b;
  }

  lemma {:induction false} RaiseIsHeavier(ts: seq<Target>, n: nat, t: Target, m: map<StatusField, ModelEntry>)
    requires n < |ts| && Weighed(ts, m) && ValidModel(m)
    requires t.status.Known? && Rank(ts[n].status.status) < Rank(t.status.status)
    ensures Weighed(ts[n := t], m) && Weight(ts[n := t], m) > Weight(ts, m)
  {
    WeightsGrow(m, ts[n].status.status, t.status.status);
    hide ValidModel, Rank, Weight;
    WeightOfUpdate(ts, n, t, m);
  }

  /** Each applied event strictly raises the exact weighted sum. */
  lemma {:induction false} ApplyRaisesWeight(g: Graph, e: Event)
    requires ValidGraph(g) && Apply(g, e).Applied?
    ensures Weighed(g.targets, g.statusModel) && Weighed(Apply(g, e).graph.targets, g.statusModel)
    ensures Weight(Apply(g, e).graph.targets, g.statusModel) > Weight(g.targets, g.statusModel)
  {
    ApplyRaises(g, e);
    var h, n := Apply(g, e).graph, FindTarget(g.targets, e.targetId);
    assert ValidModel(g.statusModel);
    hide *;
    TargetsAreKnown(g);
    RaisedTargets(g, h, e, n);
    RaiseIsHeavier(g.targets, n, h.targets[n], g.statusModel);
  }

  lemma {:induction false} RaisedTargets(g: Graph, h: Graph, e: Event, n: nat)
    requires Raises(g, h, e, n)
    ensures n < |g.targets| == |h.targets| && h.targets == g.targets[n := h.targets[n]]
    ensures g.targets[n].status.Known? && h.targets[n].status.Known?
    ensures Rank(g.targets[n].status.status) < Rank(h.targets[n].status.status)
  {
  }

  // ----- runs -----

  /** The graph and the events applied so far, oldest first. Rejected events and
      no-ops leave the graph alone. */
  datatype World = World(graph: Graph, applied: seq<Event>)

  function Step(w: World, e: Event): World {
    if Apply(w.graph, e).Applied? then World(Apply(w.graph, e).graph, w.applied + [e]) else w
  }

  function Run(g: Graph, es: seq<Event>): World {
    if es == [] then World(g, []) else Step(Run(g, es[..|es| - 1]), es[|es| - 1])
  }

  function TotalRank(ts: seq<Target>): nat {
    if ts == [] then 0 else TotalRank(ts[..|ts| - 1]) + RankOf(ts[|ts| - 1])
  }

  lemma {:induction false} TotalRankOfUpdate(ts: seq<Target>, n: nat, t: Target)
    requires n < |ts|
    ensures TotalRank(ts[n := t]) == TotalRank(ts) - RankOf(ts[n]) + RankOf(t)
    decreases |ts|
  {
    var us, k := ts[n := t], |ts| - 1;
    if n == k {
      assert us[..k] == ts[..k];
    } else {
      TotalRankOfUpdate(ts[..k], n, t);
      assert us[..k] == ts[..k][n := t];
    }
  }

  lemma {:induction false} TotalRankBound(ts: seq<Target>)
    ensures TotalRank(ts) <= 5 * |ts|
  {
    if ts != [] { TotalRankBound(ts[..|ts| - 1]); }
  }

  /** An event once applied still passes the event validator against the graph. */
  ghost predicate Auditable(w: World) {
    forall k :: 0 <= k < |w.applied| ==> ValidEvent(w.applied[k]) && ConsistentWith(w.applied[k], w.graph)
  }

  lemma {:induction false} SameIds(a: seq<Target>, b: seq<Target>, id: string)
    requires |a| == |b| && forall i :: 0 <= i < |a| ==> a[i].id == b[i].id
    ensures FindTarget(a, id) == FindTarget(b, id)
  {
    if a != [] { SameIds(a[1..], b[1..], id); }
  }

  /** A later raise does not contradict an event that was consistent before. */
  lemma {:induction false} ConsistencyPersists(g: Graph, h: Graph, e: Event, n: nat, past: Event)
    requires Raises(g, h, e, n) && ConsistentWith(past, g)
    ensures ConsistentWith(past, h)
  {
    SameIds(g.targets, h.targets, past.targetId);
    var k := FindTarget(g.targets, past.targetId);
    if k != n { assert h.targets[k] == g.targets[k]; }
  }

  lemma {:induction false} AppliedIsConsistent(g: Graph, h: Graph, e: Event)
    requires Raises(g, h, e, FindTarget(g.targets, e.targetId)) && e.claimId == g.claimId
    ensures ConsistentWith(e, h)
  {
    SameIds(g.targets, h.targets, e.targetId);
  }

  /** Whole runs, for every list of events and every allowed-transition table,
      backward edges included: the graph stays valid, every applied event stays
      auditable, and there are never more than 5 x targets applies. */
  lemma {:induction false} RunKeeps(g: Graph, es: seq<Event>)
    requires ValidGraph(g)
    ensures var w := Run(g, es);
            && ValidGraph(w.graph) && Auditable(w) && |w.graph.targets| == |g.targets|
            && |w.applied| + TotalRank(g.targets) <= TotalRank(w.graph.targets)
            && |w.applied| <= 5 * |g.targets|
  {
    if es == [] {
    } else {
      var w, e := Run(g, es[..|es| - 1]), es[|es| - 1];
      RunKeeps(g, es[..|es| - 1]);
      if Apply(w.graph, e).Applied? {
        StepKeeps(w, e);
      }
    }
    TotalRankBound(Run(g, es).graph.targets);
  }

  lemma {:induction false} StepKeeps(w: World, e: Event)
    requires ValidGraph(w.graph) && Auditable(w) && Apply(w.graph, e).Applied?
    ensures var w' := Step(w, e);
            && ValidGraph(w'.graph) && Auditable(w') && |w'.graph.targets| == |w.graph.targets|
            && TotalRank(w'.graph.targets) > TotalRank(w.graph.targets)
  {
    hide ValidGraph, ValidEvent;
    var w', n := Step(w, e), FindTarget(w.graph.targets, e.targetId);
    ApplyRaises(w.graph, e);
    assert w'.graph.targets == w.graph.targets[n := w'.graph.targets[n]];
    TotalRankOfUpdate(w.graph.targets, n, w'.graph.targets[n]);
    AppliedIsConsistent(w.graph, w'.graph, e);
    forall k | 0 <= k < |w'.applied| ensures ValidEvent(w'.applied[k]) && ConsistentWith(w'.applied[k], w'.graph) {
      if k < |w.applied| { ConsistencyPersists(w.graph, w'.graph, e, n, w.applied[k]); }
    }
  }

  // ----- replay and commutation -----

  /** Applying an applied event again changes nothing and is reported as such. */
  lemma {:induction false} ReplayIsNoop(g: Graph, e: Event)
    requires Apply(g, e).Applied?
    ensures Apply(Apply(g, e).graph, e) == Noop(Apply(g, e).graph)
  {
    hide ValidGraph;
    var h, n := Apply(g, e).graph, FindTarget(g.targets, e.targetId);
    ApplyRaises(g, e);
    SameIds(g.targets, h.targets, e.targetId);
    var r := e.evidence.reference;
    assert h.targets[n].evidenceReference == r;
    assert Contains(r, r);
  }

  lemma {:induction false} OtherTargetSameGuard(g: Graph, h: Graph, e: Event, d: Event, n: nat)
    requires Raises(g, h, d, n) && e.targetId != d.targetId
    ensures FindTarget(h.targets, e.targetId) == FindTarget(g.targets, e.targetId)
    ensures Guard(h, e) == Guard(g, e)
  {
    SameIds(g.targets, h.targets, e.targetId);
    hide FindTarget;
    var k := FindTarget(g.targets, e.targetId);
    assert k < |g.targets| ==> k != n;
  }

  /** The graph an applied event leaves, written out. */
  ghost predicate AppliedTo(g: Graph, e: Event, h: Graph) {
    && ValidEvent(e) && e.target in g.statusModel && FindTarget(g.targets, e.targetId) < |g.targets|
    && h.schema == g.schema && h.claimId == g.claimId
    && h.statusModel == g.statusModel && h.transitions == g.transitions
    && (var n := FindTarget(g.targets, e.targetId); h.targets == g.targets[n := Updated(g.targets[n], e, g)])
    && Weighed(h.targets, h.statusModel) && h.score == Rescored(h.targets, h.statusModel)
  }

  lemma {:induction false} ApplyLeaves(g: Graph, e: Event)
    requires Apply(g, e).Applied?
    ensures AppliedTo(g, e, Apply(g, e).graph)
  {
    hide ValidGraph, Rescored;
    GuardMeans(g, e);
  }

  /** On a valid graph, being applied is decided by the guards alone. */
  lemma {:induction false} AppliedIff(g: Graph, e: Event)
    requires ValidGraph(g)
    ensures Apply(g, e).Applied? <==>
      Guard(g, e).None? && g.targets[FindTarget(g.targets, e.targetId)].status != e.target
  {
    hide ValidGraph, ValidEvent, Guard, Candidate;
    ApplyPreserves(g, e);
    if Guard(g, e).None? { GuardMeans(g, e); }
  }

  lemma {:induction false} AppliedAfterOther(g: Graph, d: Event, e: Event)
    requires ValidGraph(g) && Apply(g, d).Applied? && Apply(g, e).Applied? && d.targetId != e.targetId
    ensures Apply(Apply(g, d).graph, e).Applied?
    ensures FindTarget(Apply(g, d).graph.targets, e.targetId) == FindTarget(g.targets, e.targetId)
    ensures FindTarget(g.targets, e.targetId) != FindTarget(g.targets, d.targetId)
  {
    ApplyRaises(g, d);
    ApplyRaises(g, e);
    hide ValidGraph, Apply, Guard;
    var gd, n := Apply(g, d).graph, FindTarget(g.targets, d.targetId);
    OtherTargetSameGuard(g, gd, e, d, n);
    AppliedIff(g, e);
    AppliedIff(gd, e);
  }

  lemma {:induction false} SameUpdate(t: Target, e: Event, g: Graph, h: Graph)
    requires ValidEvent(e) && e.target in g.statusModel
    requires h.statusModel == g.statusModel && h.transitions == g.transitions
    ensures Updated(t, e, g) == Updated(t, e, h)
  {
  }

  /** Both orders leave the same two targets updated. */
  lemma {:induction false} SameTargets(g: Graph, d: Event, e: Event, gd: Graph, ge: Graph, a: Graph, b: Graph)
    requires AppliedTo(g, d, gd) && AppliedTo(g, e, ge) && AppliedTo(gd, e, a) && AppliedTo(ge, d, b)
    requires var n, k := FindTarget(g.targets, d.targetId), FindTarget(g.targets, e.targetId);
      n != k && FindTarget(gd.targets, e.targetId) == k && FindTarget(ge.targets, d.targetId) == n
    ensures a.targets == b.targets && a.statusModel == b.statusModel == g.statusModel
  {
    var n, k := FindTarget(g.targets, d.targetId), FindTarget(g.targets, e.targetId);
    var x, y := Updated(g.targets[n], d, g), Updated(g.targets[k], e, g);
    SameUpdate(g.targets[n], d, g, ge);
    SameUpdate(g.targets[k], e, g, gd);
    hide Updated, ValidEvent, Weighed, Rescored, FindTarget;
    assert a.targets == g.targets[n := x][k := y];
    assert b.targets == g.targets[k := y][n := x];
    hide AppliedTo;
    SwapUpdates(g.targets, n, k, x, y);
  }

  lemma {:induction false} SwapUpdates(ts: seq<Target>, n: nat, k: nat, x: Target, y: Target)
    requires n < |ts| && k < |ts| && n != k
    ensures ts[n := x][k := y] == ts[k := y][n := x]
  {
  }

  /** Two events accepted for different targets can be applied in either order,
      with the same result up to the date of the last update. */
  lemma {:induction false} ApplyCommutes(g: Graph, d: Event, e: Event)
    requires ValidGraph(g) && Apply(g, d).Applied? && Apply(g, e).Applied? && d.targetId != e.targetId
    ensures var a, b := Apply(Apply(g, d).graph, e), Apply(Apply(g, e).graph, d);
            a.Applied? && b.Applied? && a.graph.(updatedAt := "") == b.graph.(updatedAt := "")
  {
    hide ValidGraph, Apply, Guard, Rescored, ValidEvent, Updated, FindTarget;
    var gd, ge := Apply(g, d).graph, Apply(g, e).graph;
    AppliedAfterOther(g, d, e);
    AppliedAfterOther(g, e, d);
    ApplyLeaves(g, d);   ApplyLeaves(g, e);
    ApplyLeaves(gd, e);  ApplyLeaves(ge, d);
    SameTargets(g, d, e, gd, ge, Apply(gd, e).graph, Apply(ge, d).graph);
  }
}
