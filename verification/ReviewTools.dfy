/** The three review tools step by step: error lists grown in loops, and the apply
    step that changes a copy of the graph field by field. */
module ReviewTools {
  import opened Options
  import opened Text
  import opened ReviewModel
  import opened ReviewRuns

  datatype GraphError =
    | BadSchema | BadClaim | MissingStatus(status: Status) | BadWeight(status: Status)
    | WeightsNotIncreasing | BadMeaning(status: Status) | ExtraStatuses
    | NoTransitions | BadTransition(index: nat) | DuplicateTransition(index: nat)
    | NoTargets | DuplicateTarget(index: nat) | EmptyTargetField(index: nat) | WrongClaimId(index: nat)
    | BadStatus(index: nat) | StaleWeight(index: nat) | BadNextState(index: nat) | BadRepository(index: nat)
    | NoFeedback(index: nat) | NoReproductionEvidence(index: nat) | NoValidationEvidence(index: nat)
    | StaleCount | StaleSum | StalePercent

  // ----- validate_graph -----

  method CheckModel(m: map<StatusField, ModelEntry>) returns (errors: seq<GraphError>)
    ensures errors == [] <==> ValidModel(m)
  {
    errors := [];
    var previous := -1.0;
    ghost var order := STATUS_ORDER;
    for k := 0 to |STATUS_ORDER|
      invariant errors == [] ==> ModelUpTo(m, k)
      invariant errors == [] ==> previous == if k == 0 then -1.0 else m[Known(order[k - 1])].weight
      invariant ValidModel(m) ==> errors == []
    {
      var status := STATUS_ORDER[k];
      StatusRank(k);
      if Known(status) !in m {
        errors := errors + [MissingStatus(status)];
        if ValidModel(m) { StatusInModel(m, status); }
        continue;
      }
      var entry := m[Known(status)];
      ghost var was := errors;
      if !(0.0 <= entry.weight <= 1.0) {
        errors := errors + [BadWeight(status)];
      }
      if entry.weight <= previous {
        errors := errors + [WeightsNotIncreasing];
      }
      if !NonBlank(entry.meaning) {
        errors := errors + [BadMeaning(status)];
      }
      if ValidModel(m) && k > 0 {
        StatusRank(k - 1);
        WeightsGrow(m, STATUS_ORDER[k - 1], status);
      }
      previous := entry.weight;
    }
    if errors == [] { ModelComplete(m); }
    if m.Keys - STATUSES != {} {
      errors := errors + [ExtraStatuses];
    }
  }

  /** The first `k` statuses are present, in range, described and increasing. */
  ghost predicate ModelUpTo(m: map<StatusField, ModelEntry>, k: nat)
    requires k <= |STATUS_ORDER|
  {
    && (forall i :: 0 <= i < k ==> Known(STATUS_ORDER[i]) in m)
    && (forall i :: 0 <= i < k ==>
          0.0 <= m[Known(STATUS_ORDER[i])].weight <= 1.0 && NonBlank(m[Known(STATUS_ORDER[i])].meaning))
    && (forall i, j :: 0 <= i < j < k ==> m[Known(STATUS_ORDER[i])].weight < m[Known(STATUS_ORDER[j])].weight)
  }

  lemma {:induction false} StatusRank(k: nat)
    requires k < |STATUS_ORDER|
    ensures Rank(STATUS_ORDER[k]) == k
  {
  }

  lemma {:induction false} ModelComplete(m: map<StatusField, ModelEntry>)
    requires ModelUpTo(m, |STATUS_ORDER|)
    ensures STATUSES <= m.Keys && (m.Keys <= STATUSES ==> ValidModel(m))
  {
    hide NonBlank;
    forall s: Status ensures Known(s) in m && 0.0 <= m[Known(s)].weight <= 1.0 && NonBlank(m[Known(s)].meaning) {
      assert STATUS_ORDER[Rank(s)] == s;
    }
  }

  method CheckTransitions(ts: seq<Transition>) returns (errors: seq<GraphError>)
    ensures errors == [] <==> ValidTransitions(ts)
  {
    errors := if ts == [] then [NoTransitions] else [];
    var seen: set<(StatusField, StatusField)> := {};
    for k := 0 to |ts|
      invariant forall i :: 0 <= i < k ==> (ts[i].source, ts[i].target) in seen || !EdgeKnown(ts[i])
      invariant forall p :: p in seen ==> exists i :: 0 <= i < k && p == (ts[i].source, ts[i].target)
      invariant errors == [] <==> ts != [] && (k == 0 || ValidTransitions(ts[..k]))
    {
      var t := ts[k];
      ghost var before := errors;
      if !EdgeKnown(t) || t.source == t.target {
        errors := errors + [BadTransition(k)];
      }
      if EdgeKnown(t) {
        if (t.source, t.target) in seen {
          errors := errors + [DuplicateTransition(k)];
        }
        seen := seen + {(t.source, t.target)};
      }
      if !NonBlank(t.evidenceRequired) {
        errors := errors + [BadTransition(k)];
      }
      TransitionsGrow(ts, k);
    }
    assert ts[..|ts|] == ts;
  }

  predicate EdgeKnown(t: Transition) { t.source.Known? && t.target.Known? }

  lemma {:induction false} TransitionsGrow(ts: seq<Transition>, k: nat)
    requires k < |ts|
    ensures ValidTransitions(ts[..k + 1]) <==>
      (k == 0 || ValidTransitions(ts[..k])) && EdgeKnown(ts[k]) && ts[k].source != ts[k].target
      && NonBlank(ts[k].evidenceRequired)
      && forall i :: 0 <= i < k ==> (ts[i].source, ts[i].target) != (ts[k].source, ts[k].target)
  {
    var a, b := ts[..k], ts[..k + 1];
    assert forall i :: 0 <= i < k ==> a[i] == ts[i] && b[i] == ts[i];
    assert b[k] == ts[k];
  }

  /** The fields every target must fill in. */
  method CheckFields(t: Target, k: nat) returns (errors: seq<GraphError>)
    ensures errors == [] <==> FilledIn(t)
  {
    hide NonBlank;
    errors := [];
    if !NonBlank(t.id) { errors := errors + [EmptyTargetField(k)]; }
    if !NonBlank(t.claimId) { errors := errors + [EmptyTargetField(k)]; }
    if !NonBlank(t.organization) { errors := errors + [EmptyTargetField(k)]; }
    if !NonBlank(t.name) { errors := errors + [EmptyTargetField(k)]; }
    if !NonBlank(t.dateUtc) { errors := errors + [EmptyTargetField(k)]; }
    if !NonBlank(t.evidence) { errors := errors + [EmptyTargetField(k)]; }
    if !NonBlank(t.evidenceReference) { errors := errors + [EmptyTargetField(k)]; }
    if !RefGiven(t.repository) { errors := errors + [EmptyTargetField(k)]; }
    if !NonBlank(t.requestedFalsification) { errors := errors + [EmptyTargetField(k)]; }
  }

  /** The evidence a status needs, rung by rung. */
  method CheckLadder(t: Target, status: Status, k: nat) returns (errors: seq<GraphError>)
    ensures errors == [] <==> Ladder(t, Rank(status))
  {
    hide NonBlank;
    errors := [];
    var rank := Rank(status);
    if rank >= Rank(TechnicalFeedback) {
      if t.technicalReference.None? || !NonBlank(t.technicalReference.value) {
        errors := errors + [NoFeedback(k)];
      }
    }
    if rank >= Rank(Reproduced) {
      if t.reproduction.None? {
        errors := errors + [NoReproductionEvidence(k)];
      } else {
        var r := t.reproduction.value;
        if !NonBlank(r.externalReference) { errors := errors + [NoReproductionEvidence(k)]; }
        if !RefGiven(r.repository) { errors := errors + [NoReproductionEvidence(k)]; }
      }
    }
    if status == Validated {
      if t.validation.None? {
        errors := errors + [NoValidationEvidence(k)];
      } else {
        var v := t.validation.value;
        if !NonBlank(v.externalReference) { errors := errors + [NoValidationEvidence(k)]; }
        if !NonBlank(v.reproductionReference) { errors := errors + [NoValidationEvidence(k)]; }
        if !RefGiven(v.repository) { errors := errors + [NoValidationEvidence(k)]; }
      }
    }
  }

  /** One target. A blank claim id of the graph and a status the model lacks are no
      faults of the target: they have been found before. */
  method CheckTarget(t: Target, k: nat, claimId: string, m: map<StatusField, ModelEntry>)
    returns (errors: seq<GraphError>)
    ensures NonBlank(claimId) && (t.status in m || t.status.Unknown?) ==>
      (errors == [] <==> ValidTarget(t, claimId, m))
  {
    hide NonBlank, Ladder;
    errors := CheckFields(t, k);
    if NonBlank(claimId) && t.claimId != claimId { errors := errors + [WrongClaimId(k)]; }
    if t.status.Unknown? {
      return errors + [BadStatus(k)];
    }
    if t.status in m && !IsClose(t.statusWeight, m[t.status].weight, 0.000000000001) {
      errors := errors + [StaleWeight(k)];
    }
    if t.nextState.Unknown? { errors := errors + [BadNextState(k)]; }
    if RefGiven(t.repository) && !t.repository.Github? { errors := errors + [BadRepository(k)]; }
    var ladder := CheckLadder(t, t.status.status, k);
    errors := errors + ladder;
  }

  /** All targets, and their weight. */
  method CheckTargets(ts: seq<Target>, claimId: string, m: map<StatusField, ModelEntry>)
    returns (errors: seq<GraphError>, sum: real)
    ensures ValidModel(m) && NonBlank(claimId) ==> (errors == [] <==> ValidTargets(ts, claimId, m))
    ensures ValidModel(m) && NonBlank(claimId) && errors == [] ==> Weighed(ts, m) && sum == Weight(ts, m)
  {
    errors, sum := if ts == [] then [NoTargets] else [], 0.0;
    var seen: set<string> := {};
    ghost var sound := ValidModel(m) && NonBlank(claimId);
    if sound { AllInModel(m); }
    hide FilledIn, Ladder, ValidTarget, ValidModel, NonBlank, Weight;
    assert EachValid(ts, 0, claimId, m) && ts[..0] == [];
    NoWeight(m);
    hide EachValid, Weighed, ValidTargets;
    for k := 0 to |ts|
      invariant seen == IdsOf(ts, k)
      invariant sound ==> (errors == [] <==> ts != [] && EachValid(ts, k, claimId, m))
      invariant sound && errors == [] ==> Weighed(ts[..k], m) && sum == Weight(ts[..k], m)
    {
      var t := ts[k];
      assert ts[..k + 1][..k] == ts[..k] && ts[..k + 1][k] == t;
      EachGrows(ts, k, claimId, m);
      WeightGrows(ts, k, m);
      if t.id in seen {
        errors := errors + [DuplicateTarget(k)];
      }
      seen := seen + {t.id};
      var more := CheckTarget(t, k, claimId, m);
      errors := errors + more;
      ValidHasStatus(t, claimId, m);
      if t.status.Known? && t.status in m {
        sum := sum + m[t.status].weight;
      }
    }
    assert ts[..|ts|] == ts;
    AllValid(ts, claimId, m);
  }

  lemma {:induction false} AllInModel(m: map<StatusField, ModelEntry>)
    requires ValidModel(m)
    ensures forall s: StatusField :: s.Known? ==> s in m
  {
    forall s: StatusField | s.Known? ensures s in m { StatusInModel(m, s.status); }
  }

  function IdsOf(ts: seq<Target>, k: nat): set<string>
    requires k <= |ts|
  {
    set i | 0 <= i < k :: ts[i].id
  }

  lemma {:induction false} EachGrows(ts: seq<Target>, k: nat, claimId: string, m: map<StatusField, ModelEntry>)
    requires k < |ts|
    ensures EachValid(ts, k + 1, claimId, m) <==>
      && EachValid(ts, k, claimId, m) && ValidTarget(ts[k], claimId, m)
      && ts[k].id !in IdsOf(ts, k)
  {
    hide ValidTarget;
  }

  lemma {:induction false} NoWeight(m: map<StatusField, ModelEntry>)
    ensures Weighed([], m) && Weight([], m) == 0.0
  {
  }

  lemma {:induction false} WeightGrows(ts: seq<Target>, k: nat, m: map<StatusField, ModelEntry>)
    requires k < |ts|
    ensures Weighed(ts[..k], m) && ts[k].status.Known? && ts[k].status in m ==>
      Weighed(ts[..k + 1], m) && Weight(ts[..k + 1], m) == Weight(ts[..k], m) + m[ts[k].status].weight
  {
    assert ts[..k + 1][..k] == ts[..k];
  }

  lemma {:induction false} AllValid(ts: seq<Target>, claimId: string, m: map<StatusField, ModelEntry>)
    ensures ValidTargets(ts, claimId, m) <==> ts != [] && EachValid(ts, |ts|, claimId, m)
  {
    hide ValidTarget;
  }

  lemma {:induction false} ValidHasStatus(t: Target, claimId: string, m: map<StatusField, ModelEntry>)
    ensures ValidTarget(t, claimId, m) ==> t.status.Known? && t.status in m
  {
  }

  ghost predicate EachValid(ts: seq<Target>, k: nat, claimId: string, m: map<StatusField, ModelEntry>)
    requires k <= |ts|
  {
    && (forall i :: 0 <= i < k ==> ValidTarget(ts[i], claimId, m))
    && (forall i, j :: 0 <= i < j < k ==> ts[i].id != ts[j].id)
  }

  method ValidateGraph(g: Graph) returns (errors: seq<GraphError>)
    ensures errors == [] <==> ValidGraph(g)
  {
    hide ValidModel, ValidTransitions, ValidTargets, Weight;
    errors := if g.schema.Expected? then [] else [BadSchema];
    if !NonBlank(g.claimId) {
      errors := errors + [BadClaim];
    }
    var e1 := CheckModel(g.statusModel);
    var e2 := CheckTransitions(g.transitions);
    errors := errors + e1 + e2;
    var e3, sum := CheckTargets(g.targets, g.claimId, g.statusModel);
    errors := errors + e3;
    var count := |g.targets|;
    var weighted := Round8(sum);
    var percent := if count > 0 then Round2(100.0 * weighted / count as real) else 0.0;
    var e4 := CheckScore(g.score, count, weighted, percent);
    errors := errors + e4;
  }

  method CheckScore(s: Score, count: nat, weighted: real, percent: real) returns (errors: seq<GraphError>)
    ensures errors == [] <==>
      s.targetCount == count && IsClose(s.weightedSum, weighted, 0.00000001) && IsClose(s.percent, percent, 0.01)
  {
    errors := [];
    if s.targetCount != count {
      errors := errors + [StaleCount];
    }
    if !IsClose(s.weightedSum, weighted, 0.00000001) {
      errors := errors + [StaleSum];
    }
    if !IsClose(s.percent, percent, 0.01) {
      errors := errors + [StalePercent];
    }
  }

  // ----- validate_event -----

  datatype EventError =
    | SchemaVersion | EmptyField | BadTimestamp | UnknownEventType | EmptySubject
    | UnknownSource | UnknownTarget | TypeMismatch | SentNeedsNoSource | SourceNeeded | NotStronger
    | EmptyEvidence | ThinSummary | NoReproduction | NoValidation
    | WrongRepository | EmptyCommit | EmptyProvenance
    | ClaimMismatch | NotInGraph | OrganizationMismatch | ExceedsGraph

  method ValidateEvent(e: Event, graph: Option<Graph>) returns (errors: seq<EventError>)
    ensures errors == [] <==> ValidEvent(e) && (graph.Some? ==> ConsistentWith(e, graph.value))
  {
    hide NonBlank, Strip, ConsistentWith;
    errors := [];
    if !e.schema.Expected? { errors := errors + [SchemaVersion]; }
    if !(NonBlank(e.eventId) && NonBlank(e.claimId)) { errors := errors + [EmptyField]; }
    if !ValidStamp(e.occurredAt) { errors := errors + [BadTimestamp]; }
    if e.eventType.UnknownType? { errors := errors + [UnknownEventType]; }
    if !(NonBlank(e.organization) && NonBlank(e.targetId)) { errors := errors + [EmptySubject]; }

    var e1 := CheckTransition(e);
    var e2 := CheckEvidence(e.evidence, e.target);
    errors := errors + e1 + e2;

    if !e.repository.LiminalOSAI? { errors := errors + [WrongRepository]; }
    if e.commit.Some? && !NonBlank(e.commit.value) { errors := errors + [EmptyCommit]; }
    if !(NonBlank(e.recordedBy) && NonBlank(e.provenance)) { errors := errors + [EmptyProvenance]; }
    if graph.Some? {
      var e3 := CheckAgainst(e, graph.value);
      errors := errors + e3;
    }
  }

  method CheckTransition(e: Event) returns (errors: seq<EventError>)
    ensures errors == [] && e.eventType.TypeOf? ==> ValidTransition(e)
    ensures ValidTransition(e) ==> errors == []
  {
    errors := [];
    if e.source.Some? && e.source.value.Unknown? { errors := errors + [UnknownSource]; }
    if e.target.Unknown? { errors := errors + [UnknownTarget]; }
    if e.eventType.TypeOf? && e.target != Known(e.eventType.status) { errors := errors + [TypeMismatch]; }
    if e.target.Known? {
      if e.target.status == Sent {
        if e.source.Some? { errors := errors + [SentNeedsNoSource]; }
      } else if e.source.None? {
        errors := errors + [SourceNeeded];
      } else if e.source.value.Known? && Rank(e.source.value.status) >= Rank(e.target.status) {
        errors := errors + [NotStronger];
      }
    }
  }

  method CheckEvidence(v: Evidence, target: StatusField) returns (errors: seq<EventError>)
    ensures target.Known? ==> (errors == [] <==> ValidEvidence(v, Rank(target.status)))
  {
    hide NonBlank, Strip;
    errors := [];
    if !(NonBlank(v.kind) && NonBlank(v.reference) && NonBlank(v.summary)) { errors := errors + [EmptyEvidence]; }
    if target.Known? {
      var rank := Rank(target.status);
      if rank >= 3 && (!NonBlank(v.summary) || |Strip(v.summary)| < 40) { errors := errors + [ThinSummary]; }
      if rank >= 4 && !(Given(v.externalReproducer) && Given(v.reproductionReference)) {
        errors := errors + [NoReproduction];
      }
      if target.status == Validated && !Given(v.validationReference) { errors := errors + [NoValidation]; }
    }
  }

  method CheckAgainst(e: Event, g: Graph) returns (errors: seq<EventError>)
    ensures errors == [] <==> ConsistentWith(e, g)
  {
    errors := [];
    if e.claimId != g.claimId { errors := errors + [ClaimMismatch]; }
    var n := Locate(g.targets, e.targetId);
    if n == |g.targets| {
      errors := errors + [NotInGraph];
    } else {
      var t := g.targets[n];
      if e.organization != t.organization { errors := errors + [OrganizationMismatch]; }
      if e.target.Known? && t.status.Known? && Rank(e.target.status) > Rank(t.status.status) {
        errors := errors + [ExceedsGraph];
      }
    }
  }

  method Locate(ts: seq<Target>, id: string) returns (n: nat)
    ensures n == FindTarget(ts, id)
  {
    n := 0;
    while n < |ts| && ts[n].id != id
      invariant n <= |ts|
      invariant forall i :: 0 <= i < n ==> ts[i].id != id
    {
      n := n + 1;
    }
  }

  // ----- apply_event -----

  /** The allowed transitions between known statuses, as a set of pairs. */
  method AllowedEdges(ts: seq<Transition>) returns (edges: set<(Status, Status)>)
    ensures forall a, b :: (a, b) in edges <==> AllowedEdge(ts, a, b)
  {
    edges := {};
    for k := 0 to |ts|
      invariant forall a, b :: (a, b) in edges <==>
        exists i :: 0 <= i < k && ts[i].source == Known(a) && ts[i].target == Known(b)
    {
      if ts[k].source.Known? && ts[k].target.Known? {
        edges := edges + {(ts[k].source.status, ts[k].target.status)};
      }
    }
  }

  /** The strongest status an edge from `current` leads to; VALIDATED when there is
      no such edge. */
  method NextHighValueState(ts: seq<Transition>, current: Status) returns (best: Status)
    ensures best == NextState(ts, current)
    ensures forall b :: AllowedEdge(ts, current, b) ==> Rank(b) <= Rank(best)
    ensures AllowedEdge(ts, current, best) || (best == Validated && forall b :: !AllowedEdge(ts, current, b))
  {
    var edges := AllowedEdges(ts);
    var left, found := edges, false;
    best := Validated;
    while left != {}
      invariant left <= edges
      invariant forall b :: (current, b) in edges - left ==> found && Rank(b) <= Rank(best)
      invariant if found then (current, best) in edges else best == Validated
    {
      var edge :| edge in left;
      left := left - {edge};
      if edge.0 == current && (!found || Rank(edge.1) > Rank(best)) {
        best, found := edge.1, true;
      }
    }
    assert forall b :: AllowedEdge(ts, current, b) ==> (current, b) in edges - left;
    MaximumIsNextState(ts, current, best);
  }

  lemma {:induction false} MaximumIsNextState(ts: seq<Transition>, current: Status, best: Status)
    requires forall b :: AllowedEdge(ts, current, b) ==> Rank(b) <= Rank(best)
    requires AllowedEdge(ts, current, best) || (best == Validated && forall b :: !AllowedEdge(ts, current, b))
    ensures best == NextState(ts, current)
  {
    hide AllowedEdge;
  }

  method RecomputeScore(ts: seq<Target>, m: map<StatusField, ModelEntry>) returns (score: Score)
    requires Weighed(ts, m)
    ensures score == Rescored(ts, m)
  {
    var sum := SumWeights(ts, m);
    var technical := CountAtLeast(ts, Rank(TechnicalFeedback));
    var reproduced := CountAtLeast(ts, Rank(Reproduced));
    var validated := CountAtLeast(ts, Rank(Validated));
    hide Weight, CountFrom;
    var weighted := Round8(sum);
    var percent := if ts != [] then Round2(100.0 * weighted / |ts| as real) else 0.0;
    score := Score(|ts|, weighted, percent, Counts(technical, reproduced, validated));
  }

  method SumWeights(ts: seq<Target>, m: map<StatusField, ModelEntry>) returns (sum: real)
    requires Weighed(ts, m)
    ensures sum == Weight(ts, m)
  {
    sum := 0.0;
    for k := 0 to |ts|
      invariant sum == Weight(ts[..k], m)
    {
      assert ts[..k + 1][..k] == ts[..k];
      sum := sum + m[ts[k].status].weight;
    }
    assert ts[..|ts|] == ts;
  }

  method CountAtLeast(ts: seq<Target>, rank: nat) returns (n: nat)
    ensures n == CountFrom(ts, rank)
  {
    n := 0;
    for k := 0 to |ts|
      invariant n == CountFrom(ts[..k], rank)
    {
      assert ts[..k + 1][..k] == ts[..k];
      if ts[k].status.Known? && Rank(ts[k].status.status) >= rank { n := n + 1; }
    }
    assert ts[..|ts|] == ts;
  }

  method ApplyEvent(g: Graph, e: Event) returns (r: ApplyResult)
    ensures r == Apply(g, e)
  {
    hide ValidGraph, ValidEvent, Rescored, Weighed, EvidencePresent, Updated;
    var eventErrors := ValidateEvent(e, None);
    if eventErrors != [] { return Rejected(InvalidEvent); }
    if e.claimId != g.claimId { return Rejected(WrongClaim); }
    var n := Locate(g.targets, e.targetId);
    if n == |g.targets| { return Rejected(NoSuchTarget); }
    if e.organization != g.targets[n].organization { return Rejected(WrongOrganization); }
    if g.targets[n].status.Unknown? { return Rejected(UnknownStatus); }
    var current, to := g.targets[n].status.status, TargetStatus(e);
    if to == current {
      return if EvidencePresent(g.targets[n], e) then Noop(g) else Rejected(UnattributedReplay);
    }
    if Rank(to) < Rank(current) { return Rejected(Regressive); }
    if e.source != Some(Known(current)) { return Rejected(WrongSource); }
    var edges := AllowedEdges(g.transitions);
    if (current, to) !in edges { return Rejected(NotAllowed); }
    if e.target !in g.statusModel { return Rejected(MissingWeight); }

    var target := UpdateTarget(g, g.targets[n], e);
    var candidate := g.(targets := g.targets[n := target]);
    candidate := candidate.(updatedAt := DateOf(e));
    if !Weighed(candidate.targets, candidate.statusModel) { return Rejected(MissingWeight); }
    var score := RecomputeScore(candidate.targets, candidate.statusModel);
    candidate := candidate.(score := score);
    var graphErrors := ValidateGraph(candidate);
    r := if graphErrors == [] then Applied(candidate) else Rejected(InvalidCandidate);
  }

  function TargetStatus(e: Event): (s: Status)
    requires ValidEvent(e)
    ensures e.target == Known(s)
  {
    e.target.status
  }

  method UpdateTarget(g: Graph, was: Target, e: Event) returns (t: Target)
    requires ValidEvent(e) && e.target in g.statusModel
    ensures t == Updated(was, e, g)
  {
    var v, to, reference := e.evidence, e.target.status, RepositoryReference(e);
    t := was;
    t := t.(dateUtc := DateOf(e), status := e.target);
    t := t.(statusWeight := g.statusModel[e.target].weight);
    t := t.(evidence := v.summary, evidenceReference := v.reference, repository := reference);
    var next := NextHighValueState(g.transitions, to);
    t := t.(nextState := Known(next));
    t := t.(lastEvent := Some(LastEvent(e.eventId, e.eventType, e.occurredAt.text, v.reference, v.isPublic)));
    if Rank(to) >= Rank(TechnicalFeedback) {
      t := t.(technicalReference := Some(v.reference));
    }
    if Rank(to) >= Rank(Reproduced) {
      t := t.(reproduction := Some(Reproduction(v.reproductionReference.value, v.externalReproducer.value, reference)));
    }
    if to == Validated {
      t := t.(validation := Some(Validation(v.validationReference.value, v.reproductionReference.value, reference)));
    }
  }
}
