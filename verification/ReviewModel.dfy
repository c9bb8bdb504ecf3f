/** The external validation graph and its review events: data, validation rules
    and the apply step, on values. */
module ReviewModel {
  import opened Options
  import opened Text

  // ----- statuses -----

  datatype Status = Sent | Acknowledged | Routed | TechnicalFeedback | Reproduced | Validated

  /** A status field as read: one of the six, or some other text. */
  datatype StatusField = Known(status: Status) | Unknown(text: string)

  const STATUS_ORDER: seq<Status> := [Sent, Acknowledged, Routed, TechnicalFeedback, Reproduced, Validated]

  const STATUSES: set<StatusField> :=
    {Known(Sent), Known(Acknowledged), Known(Routed), Known(TechnicalFeedback), Known(Reproduced), Known(Validated)}

  function Rank(s: Status): (r: nat)
    ensures r < |STATUS_ORDER| && STATUS_ORDER[r] == s
  {
    match s
    case Sent => 0
    case Acknowledged => 1
    case Routed => 2
    case TechnicalFeedback => 3
    case Reproduced => 4
    case Validated => 5
  }

  /** A repository reference: `https://github.com/` and a path, or some other text. */
  datatype RepoRef = Github(path: string) | OtherRef(text: string)

  /** `safal207/LiminalOSAI`, or some other name. */
  datatype RepoName = LiminalOSAI | OtherRepo(text: string)

  // ----- the graph -----

  datatype ModelEntry = ModelEntry(weight: real, meaning: string)
  datatype Transition = Transition(source: StatusField, target: StatusField, evidenceRequired: string)

  datatype Reproduction = Reproduction(externalReference: string, externalReproducer: string, repository: RepoRef)
  datatype Validation = Validation(externalReference: string, reproductionReference: string, repository: RepoRef)
  datatype LastEvent = LastEvent(
    eventId: string, eventType: EventType, occurredAt: string, evidenceReference: string, evidencePublic: bool)

  datatype Target = Target(
    id: string, claimId: string, organization: string, name: string, dateUtc: string,
    status: StatusField, statusWeight: real, evidence: string, evidenceReference: string,
    repository: RepoRef, requestedFalsification: string, nextState: StatusField,
    technicalReference: Option<string>, reproduction: Option<Reproduction>,
    validation: Option<Validation>, lastEvent: Option<LastEvent>)

  datatype Interpretation = FreeText(text: string) | Counts(technical: nat, reproduced: nat, validated: nat)

  datatype Score = Score(targetCount: int, weightedSum: real, percent: real, interpretation: Interpretation)

  datatype Graph = Graph(
    schema: SchemaField, claimId: string, statusModel: map<StatusField, ModelEntry>,
    transitions: seq<Transition>, targets: seq<Target>, score: Score, updatedAt: string)

  // ----- events -----

  /** `review.sent` to `review.validated` name the six statuses. */
  datatype EventType = TypeOf(status: Status) | UnknownType(text: string)

  /** A date-time text together with whether `datetime.fromisoformat` reads it. */
  datatype Stamp = Stamp(text: string, parses: bool)

  datatype Evidence = Evidence(
    kind: string, reference: string, summary: string, isPublic: bool,
    externalReproducer: Option<string>, reproductionReference: Option<string>,
    validationReference: Option<string>)

  datatype Event = Event(
    schema: SchemaField, eventId: string, eventType: EventType, occurredAt: Stamp, claimId: string,
    organization: string, targetId: string, source: Option<StatusField>, target: StatusField,
    evidence: Evidence, repository: RepoName, pr: int, commit: Option<string>,
    recordedBy: string, provenance: string)

  // ----- validating the graph -----

  predicate RefGiven(r: RepoRef) { r.Github? || NonBlank(r.text) }

  function RoundHalfEven(x: real): int {
    var f := x.Floor;
    var d := x - f as real;
    if d < 0.5 then f else if d > 0.5 then f + 1 else if f % 2 == 0 then f else f + 1
  }

  function Round8(x: real): real { RoundHalfEven(x * 100000000.0) as real / 100000000.0 }

  function Round2(x: real): real { RoundHalfEven(x * 100.0) as real / 100.0 }

  predicate IsClose(a: real, b: real, tolerance: real) {
    -tolerance <= a - b <= tolerance
  }

  /** Exactly the six statuses, with weights in [0, 1] that grow with maturity. */
  predicate ValidModel(m: map<StatusField, ModelEntry>) {
    && m.Keys == STATUSES
    && (forall s: Status :: Known(s) in m ==> 0.0 <= m[Known(s)].weight <= 1.0 && NonBlank(m[Known(s)].meaning))
    && (forall i, j :: 0 <= i < j < |STATUS_ORDER| && Known(STATUS_ORDER[i]) in m && Known(STATUS_ORDER[j]) in m ==>
          m[Known(STATUS_ORDER[i])].weight < m[Known(STATUS_ORDER[j])].weight)
  }

  predicate ValidTransitions(ts: seq<Transition>) {
    && ts != []
    && (forall i :: 0 <= i < |ts| ==>
          && ts[i].source.Known? && ts[i].target.Known? && ts[i].source != ts[i].target
          && NonBlank(ts[i].evidenceRequired))
    && (forall i, j :: 0 <= i < j < |ts| ==> (ts[i].source, ts[i].target) != (ts[j].source, ts[j].target))
  }

  /** The evidence a status needs: feedback, then reproduction, then validation. */
  predicate Ladder(t: Target, rank: nat) {
    && (rank >= 3 ==> t.technicalReference.Some? && NonBlank(t.technicalReference.value))
    && (rank >= 4 ==> t.reproduction.Some? && NonBlank(t.reproduction.value.externalReference)
                      && RefGiven(t.reproduction.value.repository))
    && (rank >= 5 ==> t.validation.Some? && NonBlank(t.validation.value.externalReference)
                      && NonBlank(t.validation.value.reproductionReference)
                      && RefGiven(t.validation.value.repository))
  }

  predicate FilledIn(t: Target) {
    && NonBlank(t.id) && NonBlank(t.claimId) && NonBlank(t.organization) && NonBlank(t.name)
    && NonBlank(t.dateUtc) && NonBlank(t.evidence) && NonBlank(t.evidenceReference)
    && RefGiven(t.repository) && NonBlank(t.requestedFalsification)
  }

  predicate ValidTarget(t: Target, claimId: string, m: map<StatusField, ModelEntry>) {
    && FilledIn(t)
    && t.claimId == claimId
    && t.status.Known? && t.status in m
    && IsClose(t.statusWeight, m[t.status].weight, 0.000000000001)
    && t.nextState.Known?
    && t.repository.Github?
    && Ladder(t, Rank(t.status.status))
  }

  predicate Weighed(ts: seq<Target>, m: map<StatusField, ModelEntry>) {
    forall i :: 0 <= i < |ts| ==> ts[i].status.Known? && ts[i].status in m
  }

  /** The exact, unrounded weight of all targets. */
  function Weight(ts: seq<Target>, m: map<StatusField, ModelEntry>): real
    requires Weighed(ts, m)
  {
    if ts == [] then 0.0 else Weight(ts[..|ts| - 1], m) + m[ts[|ts| - 1].status].weight
  }

  function WeightedSum(ts: seq<Target>, m: map<StatusField, ModelEntry>): real
    requires Weighed(ts, m)
  {
    Round8(Weight(ts, m))
  }

  function Percent(ts: seq<Target>, m: map<StatusField, ModelEntry>): real
    requires Weighed(ts, m)
  {
    if ts == [] then 0.0 else Round2(100.0 * WeightedSum(ts, m) / |ts| as real)
  }

  predicate ValidScore(s: Score, ts: seq<Target>, m: map<StatusField, ModelEntry>)
    requires Weighed(ts, m)
  {
    && s.targetCount == |ts|
    && IsClose(s.weightedSum, WeightedSum(ts, m), 0.00000001)
    && IsClose(s.percent, Percent(ts, m), 0.01)
  }

  predicate ValidTargets(ts: seq<Target>, claimId: string, m: map<StatusField, ModelEntry>) {
    && ts != []
    && (forall i :: 0 <= i < |ts| ==> ValidTarget(ts[i], claimId, m))
    && (forall i, j :: 0 <= i < j < |ts| ==> ts[i].id != ts[j].id)
  }

  predicate ValidGraph(g: Graph) {
    && g.schema.Expected? && NonBlank(g.claimId)
    && ValidModel(g.statusModel)
    && ValidTransitions(g.transitions)
    && ValidTargets(g.targets, g.claimId, g.statusModel)
    && ValidScore(g.score, g.targets, g.statusModel)
  }

  // ----- validating an event -----

  predicate IsDigit(c: char) { '0' <= c <= '9' }

  /** Every text `datetime.fromisoformat` reads begins with the digits of a year. */
  predicate ValidStamp(s: Stamp) {
    && NonBlank(s.text) && s.parses && 'T' in s.text
    && |s.text| >= 4 && forall i :: 0 <= i < 4 ==> IsDigit(s.text[i])
  }

  predicate Given(s: Option<string>) { s.Some? && NonBlank(s.value) }

  predicate ValidTransition(e: Event) {
    && e.eventType.TypeOf? && e.target == Known(e.eventType.status)
    && (if e.target == Known(Sent) then e.source.None?
        else e.source.Some? && e.source.value.Known? && Rank(e.source.value.status) < Rank(e.target.status))
  }

  predicate ValidEvidence(v: Evidence, rank: nat) {
    && NonBlank(v.kind) && NonBlank(v.reference) && NonBlank(v.summary)
    && (rank >= 3 ==> |Strip(v.summary)| >= 40)
    && (rank >= 4 ==> Given(v.externalReproducer) && Given(v.reproductionReference))
    && (rank >= 5 ==> Given(v.validationReference))
  }

  predicate ValidEvent(e: Event) {
    && e.schema.Expected? && NonBlank(e.eventId) && NonBlank(e.claimId) && ValidStamp(e.occurredAt)
    && NonBlank(e.organization) && NonBlank(e.targetId)
    && ValidTransition(e)
    && ValidEvidence(e.evidence, Rank(e.target.status))
    && e.repository.LiminalOSAI? && (e.commit.Some? ==> NonBlank(e.commit.value))
    && NonBlank(e.recordedBy) && NonBlank(e.provenance)
  }

  /** Position of the first target with this id, or the number of targets. */
  function FindTarget(ts: seq<Target>, id: string): (n: nat)
    ensures n <= |ts|
    ensures forall i :: 0 <= i < n ==> ts[i].id != id
    ensures n < |ts| ==> ts[n].id == id
  {
    if ts == [] || ts[0].id == id then 0 else 1 + FindTarget(ts[1..], id)
  }

  /** The checks of an event against the canonical graph. */
  predicate ConsistentWith(e: Event, g: Graph) {
    && e.claimId == g.claimId
    && FindTarget(g.targets, e.targetId) < |g.targets|
    && var t := g.targets[FindTarget(g.targets, e.targetId)];
       && e.organization == t.organization
       && (e.target.Known? && t.status.Known? ==> Rank(e.target.status) <= Rank(t.status.status))
  }

  // ----- the apply step -----

  datatype Rejection =
    | InvalidEvent | WrongClaim | NoSuchTarget | WrongOrganization | UnknownStatus
    | UnattributedReplay | Regressive | WrongSource | NotAllowed
    | MissingWeight | InvalidCandidate

  datatype ApplyResult = Applied(graph: Graph) | Noop(graph: Graph) | Rejected(reason: Rejection)

  function DecimalText(n: int): string
    decreases n < 0, if n < 0 then -n else n
  {
    if n < 0 then "-" + DecimalText(-n)
    else if n < 10 then [('0' as int + n) as char]
    else DecimalText(n / 10) + [('0' as int + n % 10) as char]
  }

  function RepoText(r: RepoName): string {
    if r.LiminalOSAI? then "safal207/LiminalOSAI" else r.text
  }

  function RepositoryReference(e: Event): RepoRef {
    Github(RepoText(e.repository)
           + if Given(e.commit) then "/commit/" + e.commit.value else "/pull/" + DecimalText(e.pr))
  }

  predicate AllowedEdge(ts: seq<Transition>, source: Status, target: Status) {
    exists i :: 0 <= i < |ts| && ts[i].source == Known(source) && ts[i].target == Known(target)
  }

  /** The strongest status an allowed transition leads to from here. */
  function NextState(ts: seq<Transition>, current: Status): Status {
    if AllowedEdge(ts, current, Validated) then Validated
    else if AllowedEdge(ts, current, Reproduced) then Reproduced
    else if AllowedEdge(ts, current, TechnicalFeedback) then TechnicalFeedback
    else if AllowedEdge(ts, current, Routed) then Routed
    else if AllowedEdge(ts, current, Acknowledged) then Acknowledged
    else if AllowedEdge(ts, current, Sent) then Sent
    else Validated
  }

  predicate EvidencePresent(t: Target, e: Event) {
    var r := e.evidence.reference;
    && NonBlank(r)
    && (|| (NonBlank(t.evidenceReference) && Contains(t.evidenceReference, r))
        || (NonBlank(t.evidence) && Contains(t.evidence, r))
        || (Given(t.technicalReference) && Contains(t.technicalReference.value, r)))
  }

  function CountFrom(ts: seq<Target>, rank: nat): nat {
    if ts == [] then 0
    else CountFrom(ts[..|ts| - 1], rank)
         + if ts[|ts| - 1].status.Known? && Rank(ts[|ts| - 1].status.status) >= rank then 1 else 0
  }

  function Rescored(ts: seq<Target>, m: map<StatusField, ModelEntry>): Score
    requires Weighed(ts, m)
  {
    Score(|ts|, WeightedSum(ts, m), Percent(ts, m), Counts(CountFrom(ts, 3), CountFrom(ts, 4), CountFrom(ts, 5)))
  }

  function DateOf(e: Event): string {
    if |e.occurredAt.text| > 10 then e.occurredAt.text[..10] else e.occurredAt.text
  }

  function ValueOf(s: Option<string>): string {
    if s.Some? then s.value else ""
  }

  function Updated(t: Target, e: Event, g: Graph): Target
    requires ValidEvent(e) && e.target in g.statusModel
  {
    var v, ref, to := e.evidence, RepositoryReference(e), e.target.status;
    t.(dateUtc := DateOf(e), status := e.target, statusWeight := g.statusModel[e.target].weight,
       evidence := v.summary, evidenceReference := v.reference, repository := ref,
       nextState := Known(NextState(g.transitions, to)),
       lastEvent := Some(LastEvent(e.eventId, e.eventType, e.occurredAt.text, v.reference, v.isPublic)),
       technicalReference := if Rank(to) >= 3 then Some(v.reference) else t.technicalReference,
       reproduction := if Rank(to) >= 4
                       then Some(Reproduction(ValueOf(v.reproductionReference), ValueOf(v.externalReproducer), ref))
                       else t.reproduction,
       validation := if to == Validated
                     then Some(Validation(ValueOf(v.validationReference), ValueOf(v.reproductionReference), ref))
                     else t.validation)
  }

  /** The guards, in the order they are checked; None when all pass and the event
      asks for a new status. */
  function Guard(g: Graph, e: Event): Option<Rejection> {
    if !ValidEvent(e) then Some(InvalidEvent)
    else if e.claimId != g.claimId then Some(WrongClaim)
    else
      var n := FindTarget(g.targets, e.targetId);
      if n == |g.targets| then Some(NoSuchTarget)
      else if e.organization != g.targets[n].organization then Some(WrongOrganization)
      else if g.targets[n].status.Unknown? then Some(UnknownStatus)
      else
        var current, to := g.targets[n].status.status, e.target.status;
        if to == current then (if EvidencePresent(g.targets[n], e) then None else Some(UnattributedReplay))
        else if Rank(to) < Rank(current) then Some(Regressive)
        else if e.source != Some(Known(current)) then Some(WrongSource)
        else if !AllowedEdge(g.transitions, current, to) then Some(NotAllowed)
        else None
  }

  function Candidate(g: Graph, e: Event): Graph
    requires ValidEvent(e) && e.target in g.statusModel && FindTarget(g.targets, e.targetId) < |g.targets|
    requires var n := FindTarget(g.targets, e.targetId);
             Weighed(g.targets[n := Updated(g.targets[n], e, g)], g.statusModel)
  {
    var n := FindTarget(g.targets, e.targetId);
    var ts := g.targets[n := Updated(g.targets[n], e, g)];
    g.(targets := ts, updatedAt := DateOf(e), score := Rescored(ts, g.statusModel))
  }

  function Apply(g: Graph, e: Event): ApplyResult {
    if Guard(g, e).Some? then Rejected(Guard(g, e).value) else
    var n := FindTarget(g.targets, e.targetId);
    if g.targets[n].status == e.target then Noop(g)
    else if e.target !in g.statusModel then Rejected(MissingWeight)
    else if !Weighed(g.targets[n := Updated(g.targets[n], e, g)], g.statusModel) then Rejected(MissingWeight)
    else if ValidGraph(Candidate(g, e)) then Applied(Candidate(g, e))
    else Rejected(InvalidCandidate)
  }
}
