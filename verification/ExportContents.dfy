/** What an exported bundle says, told from the events of the session, and what its
    translation makes of it. */
module ExportContents {
  import opened Options
  import opened Text
  import opened Records
  import opened SessionModel
  import opened SessionProofs
  import opened PipelineProofs
  import EndToEnd
  import A = AdapterModel
  import B = BundleModel

  // ----- the header -----

  /** The bundle carries the text of the requested message, the selected draft, and
      the flags and id of the session. */
  lemma {:induction false} HeaderIsCarried(s: Session)
    requires ValidSession(s)
    ensures var b := Export(s).value;
      && b.requestId == s.id && b.highStakes == s.highStakes && b.requiresCurrent == s.requiresCurrent
      && (forall e :: e in s.events && e.id == s.request ==> e.body.UserMessage? && b.text == e.body.text)
      && (forall e :: e in s.events && e.id == s.draft ==>
            && e.body.AssistantDraft? && b.response == e.body.response && b.noSignal == e.body.noSignal
            && b.intentAlignment == e.body.intentAlignment)
  {
    var es := SortEvents(s.events);
    EndToEnd.ExportIs(s);
    FindMeans(es, s.request);
    FindMeans(es, s.draft);
    hide Ready, SortEvents, DistinctIds, ValidSession, Find;
    assert forall e :: e in s.events && e.id == s.request ==> Find(es, s.request) == Some(e);
    assert forall e :: e in s.events && e.id == s.draft ==> Find(es, s.draft) == Some(e);
  }

  // ----- the lists -----

  lemma {:induction false} FilterInSequence(es: seq<Event>, p: Event -> bool)
    requires InSequence(es)
    ensures InSequence(Filter(es, p))
  {
    if es != [] {
      InSequenceRest(es);
      FilterInSequence(es[1..], p);
      var t := Filter(es[1..], p);
      forall x | x in t ensures es[0].sequence < x.sequence {
        var i :| 0 <= i < |es| - 1 && es[1..][i] == x;
        assert x == es[i + 1];
      }
      if p(es[0]) { ConsInSequence(es[0], t); }
      assert Filter(es, p) == if p(es[0]) then [es[0]] + t else t;
    }
  }

  /** `xs` are the events of the session that satisfy `p`, by their numbers. */
  ghost predicate Selected(s: Session, p: Event -> bool, xs: seq<Event>) {
    InSequence(xs) && forall e :: e in xs <==> e in s.events && p(e)
  }

  lemma {:induction false} FilterSelects(s: Session, p: Event -> bool)
    requires ValidSession(s)
    ensures Selected(s, p, Filter(SortEvents(s.events), p))
  {
    EndToEnd.ExportIs(s);
    assert InSequence(SortEvents(s.events));
    hide Ready, SortEvents, Find, DistinctIds, ValidSession, InSequence;
    FilterInSequence(SortEvents(s.events), p);
    FilterMembers(SortEvents(s.events), p);
  }

  /** The handle of a citation: that of the source it names, the id of the eligible
      tool event it names, or else the id marked as unresolved. */
  ghost predicate HandleFor(es: seq<Event>, reference: string, h: string) {
    if exists e :: e in es && e.id == reference && e.body.Source?
    then exists e :: e in es && e.id == reference && e.body.Source? && h == e.body.handle
    else if exists e :: e in es && e.id == reference && e.body.Tool? && e.body.eligible
    then h == reference
    else h == "unresolved:" + reference
  }

  lemma {:induction false} HandleIsFor(s: Session, reference: string)
    requires ValidSession(s)
    ensures HandleFor(s.events, reference, HandleOf(SortEvents(s.events), reference))
  {
    EndToEnd.ExportIs(s);
    hide Ready, SortEvents, Find, ValidSession, HandleOf, DistinctIds;
    HandleIs(SortEvents(s.events), reference);
  }

  /** Some authorization names the event, whenever it was given. */
  ghost predicate NamedByUser(s: Session, id: string) {
    exists a :: a in s.events && a.body.Authorization? && id in a.body.authorized
  }

  lemma {:induction false} NamedIs(s: Session, id: string)
    requires ValidSession(s)
    ensures IsAuthorized(SortEvents(s.events), id) <==> NamedByUser(s, id)
  {
    EndToEnd.ExportIs(s);
    hide Ready, SortEvents, Find, ValidSession, DistinctIds;
  }

  ghost predicate ClaimCarries(c: B.Claim, e: Event, s: Session) {
    && e.body.Claim? && c.id == e.id && c.text == e.body.claimText && c.kind == e.body.claimKind
    && c.confidence == e.body.confidence && c.requiresCurrent == e.body.requiresCurrent
    && |c.handles| == |e.body.evidence|
    && forall i :: 0 <= i < |c.handles| ==> HandleFor(s.events, e.body.evidence[i], c.handles[i])
  }

  ghost predicate ToolCarries(t: B.Tool, e: Event, s: Session) {
    && e.body.Tool? && t.id == e.id && t.tool == e.body.tool && t.operation == e.body.operation
    && t.status == e.body.status && t.effect == e.body.effect && t.eligible == e.body.eligible
    && t.freshness == e.body.toolFreshness && t.locator == e.body.toolLocator
    && t.reversible == e.body.toolReversible && t.recovery == e.body.toolRecovery
    && (t.authorized <==> NamedByUser(s, e.id))
  }

  ghost predicate ProposalCarries(a: B.Action, e: Event, s: Session) {
    && e.body.Proposal? && a.id == e.id && a.description == e.body.description
    && a.reversible == e.body.reversible && a.recovery == e.body.recovery && (a.authorized <==> NamedByUser(s, e.id))
  }

  predicate SourceCarries(x: B.Source, e: Event) {
    && e.body.Source? && x.handle == e.body.handle && x.verified == e.body.verified
    && x.freshness == e.body.sourceFreshness && x.kind == e.body.sourceKind && x.locator == e.body.sourceLocator
  }

  lemma {:induction false} BundleLists(s: Session)
    requires ValidSession(s)
    ensures var b, es := Export(s).value, SortEvents(s.events);
      && b.claims == ExportedClaims(es, s.draft) && b.actions == ExportedProposals(es, s.draft)
      && b.contradictions == ExportedContradictions(es, s.draft)
      && b.sources == ExportedSources(es) && b.tools == ExportedTools(es)
  {
    EndToEnd.ExportIs(s);
    hide Ready, SortEvents, Find, ValidSession, DistinctIds;
  }

  lemma {:induction false} ClaimIs(s: Session, e: Event)
    requires ValidSession(s) && e.body.Claim?
    ensures ClaimCarries(ExportClaim(e, SortEvents(s.events)), e, s)
  {
    var refs := e.body.evidence;
    forall k | 0 <= k < |refs| ensures HandleFor(s.events, refs[k], HandleOf(SortEvents(s.events), refs[k])) {
      HandleIsFor(s, refs[k]);
    }
    hide HandleFor, HandleOf, SortEvents, ValidSession;
  }

  lemma {:induction false} ToolIs(s: Session, e: Event)
    requires ValidSession(s) && e.body.Tool?
    ensures ToolCarries(ExportTool(e, SortEvents(s.events)), e, s)
  {
    NamedIs(s, e.id);
    hide IsAuthorized, NamedByUser, SortEvents, ValidSession;
  }

  lemma {:induction false} ProposalIs(s: Session, e: Event)
    requires ValidSession(s) && e.body.Proposal?
    ensures ProposalCarries(ExportProposal(e, SortEvents(s.events)), e, s)
  {
    NamedIs(s, e.id);
    hide IsAuthorized, NamedByUser, SortEvents, ValidSession;
  }

  /** The events of each list of the bundle. */
  function ClaimsOfDraft(s: Session): Event -> bool {
    (e: Event) => e.body.Claim? && e.body.claimDraft == s.draft
  }

  function ProposalsOfDraft(s: Session): Event -> bool {
    (e: Event) => e.body.Proposal? && e.body.proposalDraft == s.draft
  }

  function ContradictionsOfDraft(s: Session): Event -> bool {
    (e: Event) => e.body.Contradiction? && e.body.contradictionDraft == s.draft
  }

  function AllSources(): Event -> bool { (e: Event) => e.body.Source? }

  function AllTools(): Event -> bool { (e: Event) => e.body.Tool? }

  ghost predicate CarriesClaims(s: Session, cs: seq<B.Claim>, xs: seq<Event>) {
    Selected(s, ClaimsOfDraft(s), xs) && |cs| == |xs| && forall i :: 0 <= i < |xs| ==> ClaimCarries(cs[i], xs[i], s)
  }

  ghost predicate CarriesProposals(s: Session, as_: seq<B.Action>, xs: seq<Event>) {
    && Selected(s, ProposalsOfDraft(s), xs) && |as_| == |xs|
    && forall i :: 0 <= i < |xs| ==> ProposalCarries(as_[i], xs[i], s)
  }

  ghost predicate CarriesContradictions(s: Session, ts: seq<string>, xs: seq<Event>) {
    && Selected(s, ContradictionsOfDraft(s), xs) && |ts| == |xs|
    && forall i :: 0 <= i < |xs| ==> xs[i].body.Contradiction? && ts[i] == xs[i].body.contradictionText
  }

  ghost predicate CarriesSources(s: Session, ys: seq<B.Source>, xs: seq<Event>) {
    Selected(s, AllSources(), xs) && |ys| == |xs| && forall i :: 0 <= i < |xs| ==> SourceCarries(ys[i], xs[i])
  }

  ghost predicate CarriesTools(s: Session, ts: seq<B.Tool>, xs: seq<Event>) {
    Selected(s, AllTools(), xs) && |ts| == |xs| && forall i :: 0 <= i < |xs| ==> ToolCarries(ts[i], xs[i], s)
  }

  // Each list, position by position.
  lemma {:induction false} ClaimsByPlace(es: seq<Event>, draft: string)
    ensures var xs, cs := Claims(es, draft), ExportedClaims(es, draft);
      |cs| == |xs| && forall i :: 0 <= i < |xs| ==> xs[i].body.Claim? && cs[i] == ExportClaim(xs[i], es)
  {
    hide ExportClaim;
    var xs := Claims(es, draft);
    assert forall i :: 0 <= i < |xs| ==> xs[i] in xs;
  }

  lemma {:induction false} ProposalsByPlace(es: seq<Event>, draft: string)
    ensures var xs, cs := Proposals(es, draft), ExportedProposals(es, draft);
      |cs| == |xs| && forall i :: 0 <= i < |xs| ==> xs[i].body.Proposal? && cs[i] == ExportProposal(xs[i], es)
  {
    hide ExportProposal;
    var xs := Proposals(es, draft);
    assert forall i :: 0 <= i < |xs| ==> xs[i] in xs;
  }

  lemma {:induction false} ContradictionsByPlace(es: seq<Event>, draft: string)
    ensures var xs, ts := Contradictions(es, draft), ExportedContradictions(es, draft);
      |ts| == |xs| && forall i :: 0 <= i < |xs| ==> xs[i].body.Contradiction? && ts[i] == xs[i].body.contradictionText
  {
    var xs := Contradictions(es, draft);
    assert forall i :: 0 <= i < |xs| ==> xs[i] in xs;
  }

  lemma {:induction false} SourcesByPlace(es: seq<Event>)
    ensures var xs, ys := Sources(es), ExportedSources(es);
      |ys| == |xs| && forall i :: 0 <= i < |xs| ==> xs[i].body.Source? && SourceCarries(ys[i], xs[i])
  {
    var xs := Sources(es);
    assert forall i :: 0 <= i < |xs| ==> xs[i] in xs;
  }

  lemma {:induction false} ToolsByPlace(es: seq<Event>)
    ensures var xs, ts := Tools(es), ExportedTools(es);
      |ts| == |xs| && forall i :: 0 <= i < |xs| ==> xs[i].body.Tool? && ts[i] == ExportTool(xs[i], es)
  {
    hide ExportTool;
    var xs := Tools(es);
    assert forall i :: 0 <= i < |xs| ==> xs[i] in xs;
  }

  lemma {:induction false} AllSelected(s: Session)
    requires ValidSession(s)
    ensures var es := SortEvents(s.events);
      && Selected(s, ClaimsOfDraft(s), Claims(es, s.draft)) && Selected(s, ProposalsOfDraft(s), Proposals(es, s.draft))
      && Selected(s, ContradictionsOfDraft(s), Contradictions(es, s.draft))
      && Selected(s, AllSources(), Sources(es)) && Selected(s, AllTools(), Tools(es))
  {
    var es := SortEvents(s.events);
    hide ValidSession, SortEvents, Selected, Filter;
    SelectSame(s, ClaimOf(s.draft), ClaimsOfDraft(s));
    SelectSame(s, ProposalOf(s.draft), ProposalsOfDraft(s));
    SelectSame(s, ContradictionOf(s.draft), ContradictionsOfDraft(s));
    SelectSame(s, SOURCE_EVENT, AllSources());
    SelectSame(s, TOOL_EVENT, AllTools());
  }

  lemma {:induction false} SelectSame(s: Session, p: Event -> bool, q: Event -> bool)
    requires ValidSession(s) && forall e :: p(e) == q(e)
    ensures Selected(s, q, Filter(SortEvents(s.events), p))
  {
    FilterSelects(s, p);
    hide ValidSession, SortEvents, InSequence, Filter;
  }

  lemma {:induction false} ListsAreCarried(s: Session)
    requires ValidSession(s)
    ensures var es := SortEvents(s.events);
      && CarriesClaims(s, ExportedClaims(es, s.draft), Claims(es, s.draft))
      && CarriesProposals(s, ExportedProposals(es, s.draft), Proposals(es, s.draft))
      && CarriesContradictions(s, ExportedContradictions(es, s.draft), Contradictions(es, s.draft))
      && CarriesSources(s, ExportedSources(es), Sources(es)) && CarriesTools(s, ExportedTools(es), Tools(es))
  {
    var es := SortEvents(s.events);
    hide ValidSession, SortEvents, Selected, ClaimCarries, ProposalCarries, SourceCarries, ToolCarries,
         Claims, Proposals, Contradictions, Sources, Tools, ExportedClaims, ExportedProposals,
         ExportedContradictions, ExportedSources, ExportedTools, ExportClaim, ExportProposal, ExportTool;
    AllSelected(s);
    ClaimsByPlace(es, s.draft);
    ProposalsByPlace(es, s.draft);
    ContradictionsByPlace(es, s.draft);
    SourcesByPlace(es);
    ToolsByPlace(es);
    var cs, ps, ts := Claims(es, s.draft), Proposals(es, s.draft), Tools(es);
    forall i | 0 <= i < |cs| ensures ClaimCarries(ExportClaim(cs[i], es), cs[i], s) { ClaimIs(s, cs[i]); }
    forall i | 0 <= i < |ps| ensures ProposalCarries(ExportProposal(ps[i], es), ps[i], s) { ProposalIs(s, ps[i]); }
    forall i | 0 <= i < |ts| ensures ToolCarries(ExportTool(ts[i], es), ts[i], s) { ToolIs(s, ts[i]); }
  }

  /** The bundle lists the claims, proposals and contradictions of the selected draft
      and all sources and tool events of the session, each list by the numbers of the
      events, field for field, each citation under its handle and each action with
      whether the user named it. */
  lemma {:induction false} BundleCarriesSession(s: Session)
    requires ValidSession(s)
    ensures exists xs :: CarriesClaims(s, Export(s).value.claims, xs)
    ensures exists xs :: CarriesProposals(s, Export(s).value.actions, xs)
    ensures exists xs :: CarriesContradictions(s, Export(s).value.contradictions, xs)
    ensures exists xs :: CarriesSources(s, Export(s).value.sources, xs)
    ensures exists xs :: CarriesTools(s, Export(s).value.tools, xs)
  {
    BundleLists(s);
    ListsAreCarried(s);
    hide CarriesClaims, CarriesProposals, CarriesContradictions, CarriesSources, CarriesTools, Export, ValidSession;
  }

  // ----- the packet -----

  /** The packet offers the sources first, under "source:" and the handle, and then the
      eligible tool events, under "tool:" and the id, verified when they succeeded. */
  lemma {:induction false} EvidenceIsCarried(b: B.Bundle, i: nat)
    requires i < |B.Normal(b).evidence|
    ensures var e, n, tools := B.Normal(b).evidence[i], |b.sources|, Filter(b.tools, (t: B.Tool) => t.eligible);
      && |B.Normal(b).evidence| == n + |tools|
      && (i < n ==>
            && e.id == "source:" + b.sources[i].handle && e.verified == b.sources[i].verified
            && e.freshness == b.sources[i].freshness && e.kind == b.sources[i].kind
            && e.locator == b.sources[i].locator)
      && (i >= n ==>
            && e.id == "tool:" + tools[i - n].id && (e.verified <==> tools[i - n].status == Success)
            && e.freshness == tools[i - n].freshness && e.kind == ToolSource
            && (tools[i - n].locator.Some? ==> e.locator == tools[i - n].locator.value))
  {
    hide Filter;
    assert B.EligibleTools(b.tools) == Filter(b.tools, (t: B.Tool) => t.eligible);
  }

  /** Its actions are the proposed ones and then the writes that succeeded, described by
      tool and operation. */
  lemma {:induction false} ActionsAreCarried(b: B.Bundle, i: nat)
    requires i < |B.Normal(b).actions|
    ensures var a, n := B.Normal(b).actions[i], |b.actions|;
      var written := Filter(b.tools, (t: B.Tool) => B.IsPerformed(t));
      && |B.Normal(b).actions| == n + |written|
      && (i < n ==>
            && a.id == b.actions[i].id && a.description == b.actions[i].description && a.mode == A.Proposed
            && a.reversible == b.actions[i].reversible && a.authorized == b.actions[i].authorized
            && a.recovery == b.actions[i].recovery)
      && (i >= n ==>
            && written[i - n].effect == Write && written[i - n].status == Success && a.mode == A.Performed
            && a.id == written[i - n].id && a.description == written[i - n].tool + ":" + written[i - n].operation
            && a.reversible == written[i - n].reversible && a.authorized == written[i - n].authorized
            && a.recovery == written[i - n].recovery)
  {
    hide Filter;
    assert B.PerformedTools(b.tools) == Filter(b.tools, (t: B.Tool) => B.IsPerformed(t));
    var written := Filter(b.tools, (t: B.Tool) => B.IsPerformed(t));
    if i >= |b.actions| { assert written[i - |b.actions|] in written; }
  }
}
