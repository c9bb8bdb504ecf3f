/** The live-session event log and its export as a conversation bundle. */
module SessionModel {
  import opened Options
  import opened Text
  import opened Records
  import B = BundleModel

  datatype Body =
    | UserMessage(text: string)
    | AssistantDraft(response: string, noSignal: bool, intentAlignment: real)
    | Claim(claimDraft: string, claimText: string, claimKind: ClaimKind, confidence: real,
            requiresCurrent: bool, evidence: seq<string>)
    | Source(handle: string, verified: bool, sourceFreshness: Freshness, sourceKind: SourceKind, sourceLocator: string)
    | Tool(tool: string, operation: string, status: ToolStatus, effect: ToolEffect, eligible: bool,
           toolFreshness: Freshness, toolLocator: Option<string>, toolReversible: bool, toolRecovery: Option<string>)
    | Proposal(proposalDraft: string, description: string, reversible: bool, recovery: Option<string>)
    | Contradiction(contradictionDraft: string, contradictionText: string)
    | Authorization(authorizationText: string, authorized: seq<string>)

  datatype Event = Event(id: string, sequence: nat, body: Body)

  datatype Session = Session(
    schema: SchemaField, id: string, request: string, draft: string,
    highStakes: bool, requiresCurrent: bool, captureComplete: bool, events: seq<Event>)

  // ----- validate_session -----

  predicate ValidBody(b: Body) {
    match b
    case UserMessage(text) => NonBlank(text)
    case AssistantDraft(response, noSignal, intent) => (noSignal || NonBlank(response)) && UnitInterval(intent)
    case Claim(draft, text, _, confidence, _, evidence) =>
      NonBlank(draft) && NonBlank(text) && UnitInterval(confidence) && NonBlankList(evidence) && Distinct(evidence)
    case Source(handle, _, _, _, locator) => NonBlank(handle) && NonBlank(locator)
    case Tool(tool, operation, _, _, eligible, _, locator, _, recovery) =>
      NonBlank(tool) && NonBlank(operation) && AbsentOrNonBlank(locator) && (eligible ==> locator.Some?)
      && AbsentOrNonBlank(recovery)
    case Proposal(draft, description, _, recovery) =>
      NonBlank(draft) && NonBlank(description) && AbsentOrNonBlank(recovery)
    case Contradiction(draft, text) => NonBlank(draft) && NonBlank(text)
    case Authorization(text, authorized) => NonBlank(text) && NonBlankList(authorized) && Distinct(authorized)
  }

  predicate ValidEvent(e: Event) { NonBlank(e.id) && ValidBody(e.body) }

  predicate DistinctIds(es: seq<Event>) {
    forall i, j :: 0 <= i < j < |es| ==> es[i].id != es[j].id
  }

  predicate DistinctSequences(es: seq<Event>) {
    forall i, j :: 0 <= i < j < |es| ==> es[i].sequence != es[j].sequence
  }

  /** The draft a claim, proposal or contradiction belongs to. */
  function BoundDraft(b: Body): Option<string> {
    match b
    case Claim(draft, _, _, _, _, _) => Some(draft)
    case Proposal(draft, _, _, _) => Some(draft)
    case Contradiction(draft, _) => Some(draft)
    case _ => None
  }

  predicate HasMessage(es: seq<Event>, id: string) { exists e :: e in es && e.id == id && e.body.UserMessage? }

  predicate HasDraft(es: seq<Event>, id: string) { exists e :: e in es && e.id == id && e.body.AssistantDraft? }

  /** `id` names a tool event or a proposal later than `sequence`. */
  predicate Authorizable(es: seq<Event>, id: string, sequence: nat) {
    exists e :: e in es && e.id == id && (e.body.Tool? || e.body.Proposal?) && sequence < e.sequence
  }

  predicate ValidReferences(es: seq<Event>) {
    && (forall e :: e in es && BoundDraft(e.body).Some? ==> HasDraft(es, BoundDraft(e.body).value))
    && (forall e, f :: e in es && f in es && e.body.Source? && f.body.Source? && e.id != f.id ==>
          e.body.handle != f.body.handle)
    && (forall e, f :: e in es && f in es && e.body.Source? && f.body.Tool? ==> e.body.handle != f.id)
    && (forall e :: e in es && e.body.Authorization? ==>
          forall i :: 0 <= i < |e.body.authorized| ==> Authorizable(es, e.body.authorized[i], e.sequence))
  }

  predicate ValidSession(s: Session) {
    && s.schema.Expected? && s.captureComplete && NonBlank(s.id) && NonBlank(s.request) && NonBlank(s.draft)
    && (forall e :: e in s.events ==> ValidEvent(e))
    && DistinctIds(s.events) && DistinctSequences(s.events)
    && HasMessage(s.events, s.request) && HasDraft(s.events, s.draft)
    && ValidReferences(s.events)
  }

  // ----- sorting -----

  ghost predicate InSequence(es: seq<Event>) {
    forall i, j :: 0 <= i < j < |es| ==> es[i].sequence < es[j].sequence
  }

  function InsertEvent(es: seq<Event>, e: Event): (r: seq<Event>)
    ensures multiset(r) == multiset(es) + multiset{e}
  {
    if es == [] || e.sequence < es[0].sequence then
      [e] + es
    else
      assert es == [es[0]] + es[1..];
      [es[0]] + InsertEvent(es[1..], e)
  }

  /** The events by sequence number. */
  function SortEvents(es: seq<Event>): (r: seq<Event>)
    ensures multiset(r) == multiset(es)
  {
    if es == [] then []
    else
      assert es == es[..|es| - 1] + [es[|es| - 1]];
      InsertEvent(SortEvents(es[..|es| - 1]), es[|es| - 1])
  }

  // ----- export_session -----

  function Find(es: seq<Event>, id: string): Option<Event> {
    if es == [] then None else if es[0].id == id then Some(es[0]) else Find(es[1..], id)
  }

  /** Some authorization names this event. */
  predicate IsAuthorized(es: seq<Event>, id: string) {
    exists e :: e in es && e.body.Authorization? && id in e.body.authorized
  }

  function Unresolved(reference: string): string { "unresolved:" + reference }

  /** The handle a cited event id is exported under. */
  function HandleOf(es: seq<Event>, reference: string): string {
    var e := Find(es, reference);
    if e.Some? && e.value.body.Source? then e.value.body.handle
    else if e.Some? && e.value.body.Tool? && e.value.body.eligible then reference
    else Unresolved(reference)
  }

  predicate BoundClaim(e: Event, draft: string) { e.body.Claim? && e.body.claimDraft == draft }

  predicate BoundProposal(e: Event, draft: string) { e.body.Proposal? && e.body.proposalDraft == draft }

  predicate BoundContradiction(e: Event, draft: string) {
    e.body.Contradiction? && e.body.contradictionDraft == draft
  }

  function ExportClaim(e: Event, es: seq<Event>): B.Claim
    requires e.body.Claim?
  {
    B.Claim(e.id, e.body.claimText, e.body.claimKind, e.body.confidence, e.body.requiresCurrent,
            Map(e.body.evidence, (r: string) => HandleOf(es, r)))
  }

  function ExportProposal(e: Event, es: seq<Event>): B.Action
    requires e.body.Proposal?
  {
    B.Action(e.id, e.body.description, e.body.reversible, IsAuthorized(es, e.id), e.body.recovery)
  }

  function ExportSource(e: Event): B.Source
    requires e.body.Source?
  {
    B.Source(e.body.handle, e.body.verified, e.body.sourceFreshness, e.body.sourceKind, e.body.sourceLocator)
  }

  function ExportTool(e: Event, es: seq<Event>): B.Tool
    requires e.body.Tool?
  {
    B.Tool(e.id, e.body.tool, e.body.operation, e.body.status, e.body.effect, e.body.eligible, e.body.toolFreshness,
           e.body.toolLocator, e.body.toolReversible, IsAuthorized(es, e.id), e.body.toolRecovery)
  }

  // The selections of the export, as functions on events.
  function ClaimOf(draft: string): Event -> bool { (e: Event) => BoundClaim(e, draft) }

  function ProposalOf(draft: string): Event -> bool { (e: Event) => BoundProposal(e, draft) }

  function ContradictionOf(draft: string): Event -> bool { (e: Event) => BoundContradiction(e, draft) }

  const SOURCE_EVENT: Event -> bool := (e: Event) => e.body.Source?
  const TOOL_EVENT: Event -> bool := (e: Event) => e.body.Tool?

  function Claims(es: seq<Event>, draft: string): seq<Event> { Filter(es, ClaimOf(draft)) }

  function Proposals(es: seq<Event>, draft: string): seq<Event> { Filter(es, ProposalOf(draft)) }

  function Contradictions(es: seq<Event>, draft: string): seq<Event> { Filter(es, ContradictionOf(draft)) }

  function Sources(es: seq<Event>): seq<Event> { Filter(es, SOURCE_EVENT) }

  function Tools(es: seq<Event>): seq<Event> { Filter(es, TOOL_EVENT) }

  function ExportedClaims(es: seq<Event>, draft: string): seq<B.Claim> {
    Map(Claims(es, draft), (e: Event) requires e.body.Claim? => ExportClaim(e, es))
  }

  function ExportedProposals(es: seq<Event>, draft: string): seq<B.Action> {
    Map(Proposals(es, draft), (e: Event) requires e.body.Proposal? => ExportProposal(e, es))
  }

  function ExportedContradictions(es: seq<Event>, draft: string): seq<string> {
    Map(Contradictions(es, draft), (e: Event) requires e.body.Contradiction? => e.body.contradictionText)
  }

  function ExportedSources(es: seq<Event>): seq<B.Source> {
    Map(Sources(es), (e: Event) requires e.body.Source? => ExportSource(e))
  }

  function ExportedTools(es: seq<Event>): seq<B.Tool> {
    Map(Tools(es), (e: Event) requires e.body.Tool? => ExportTool(e, es))
  }

  /** The bundle for events already in sequence. */
  function Bundled(s: Session, es: seq<Event>): B.Bundle
    requires Find(es, s.request).Some? && Find(es, s.request).value.body.UserMessage?
    requires Find(es, s.draft).Some? && Find(es, s.draft).value.body.AssistantDraft?
  {
    var draft := Find(es, s.draft).value.body;
    B.Bundle(
      Expected, s.id, Find(es, s.request).value.body.text, s.highStakes, s.requiresCurrent,
      draft.response, draft.noSignal, draft.intentAlignment,
      ExportedClaims(es, s.draft), ExportedProposals(es, s.draft), ExportedContradictions(es, s.draft),
      ExportedSources(es), ExportedTools(es))
  }
}
