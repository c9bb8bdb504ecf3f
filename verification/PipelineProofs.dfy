/** The pipeline end to end: what the stages hand on, and what a verdict means for
    the events of the original session. */
module PipelineProofs {
  import opened Options
  import opened Text
  import opened Records
  import opened SessionModel
  import opened SessionProofs
  import B = BundleModel
  import P = BundleProofs
  import A = AdapterModel

  // ----- handles -----

  predicate IsSourceEvent(es: seq<Event>, id: string) { exists e :: e in es && e.id == id && e.body.Source? }

  predicate IsEligibleEvent(es: seq<Event>, id: string) {
    exists e :: e in es && e.id == id && e.body.Tool? && e.body.eligible
  }

  /** A citation the export cannot resolve. */
  predicate IsUnresolved(es: seq<Event>, reference: string) {
    !IsSourceEvent(es, reference) && !IsEligibleEvent(es, reference)
  }

  /** Some source handle or eligible tool id is this text. */
  predicate IsHandle(es: seq<Event>, h: string) {
    (exists e :: e in es && e.body.Source? && e.body.handle == h) || IsEligibleEvent(es, h)
  }

  /** An unresolved citation whose placeholder happens to name real evidence. */
  predicate Shadowed(es: seq<Event>, reference: string) {
    IsUnresolved(es, reference) && IsHandle(es, Unresolved(reference))
  }

  lemma {:induction false} HandleIs(es: seq<Event>, reference: string)
    requires DistinctIds(es)
    ensures IsUnresolved(es, reference) ==> HandleOf(es, reference) == Unresolved(reference)
    ensures !IsUnresolved(es, reference) ==> IsHandle(es, HandleOf(es, reference))
    ensures IsSourceEvent(es, reference) ==>
      exists e :: e in es && e.id == reference && e.body.Source? && HandleOf(es, reference) == e.body.handle
    ensures IsEligibleEvent(es, reference) ==> HandleOf(es, reference) == reference
  {
    FindMeans(es, reference);
    var found := Find(es, reference);
    if IsSourceEvent(es, reference) {
      var e :| e in es && e.id == reference && e.body.Source?;
      assert found == Some(e);
    }
    if IsEligibleEvent(es, reference) {
      var e :| e in es && e.id == reference && e.body.Tool? && e.body.eligible;
      assert found == Some(e);
    }
    if found.Some? { assert found.value in es && found.value.id == reference; }
  }

  lemma {:induction false} UnresolvedInjective(a: string, b: string)
    requires Unresolved(a) == Unresolved(b)
    ensures a == b
  {
    assert Unresolved(a)[11..] == a && Unresolved(b)[11..] == b;
  }

  lemma {:induction false} UnresolvedNonBlank(a: string)
    ensures NonBlank(Unresolved(a))
  {
    assert Unresolved(a)[0] == 'u' && !IsSpace('u');
  }

  /** Two citations get the same handle only if one is unresolved and the other
      resolves to the placeholder of the first. */
  ghost predicate Clash(es: seq<Event>, a: string, b: string) {
    IsUnresolved(es, a) && !IsUnresolved(es, b) && HandleOf(es, b) == Unresolved(a)
  }

  lemma {:induction false} SameHandle(es: seq<Event>, a: string, b: string)
    requires DistinctIds(es) && ValidReferences(es) && a != b
    ensures HandleOf(es, a) == HandleOf(es, b) <==> Clash(es, a, b) || Clash(es, b, a)
  {
    HandleIs(es, a);
    HandleIs(es, b);
    if IsUnresolved(es, a) && IsUnresolved(es, b) && HandleOf(es, a) == HandleOf(es, b) {
      UnresolvedInjective(a, b);
    }
    hide Unresolved, HandleOf;
  }

  // ----- the exported bundle, member by member -----

  lemma {:induction false} FilterMembers<T>(s: seq<T>, p: T -> bool)
    ensures forall x :: x in Filter(s, p) <==> x in s && p(x)
  {
    forall x | x in s && p(x) ensures x in Filter(s, p) { FilterKeeps(s, p, x); }
  }

  /** The members of an exported list are the exports of the selected events. */
  lemma {:induction false} ListMembers<T>(xs: seq<T>, es: seq<Event>, f: Event --> T)
    requires |xs| == |es| && forall i :: 0 <= i < |es| ==> f.requires(es[i]) && xs[i] == f(es[i])
    ensures forall x :: x in xs <==> exists e :: e in es && f.requires(e) && f(e) == x
  {
    forall e | e in es ensures f.requires(e) && f(e) in xs {
      var i :| 0 <= i < |es| && es[i] == e;
      assert xs[i] == f(e);
    }
  }

  lemma {:induction false} ClaimMembers(es: seq<Event>, draft: string)
    ensures forall c :: c in ExportedClaims(es, draft) <==>
      exists e :: e in es && BoundClaim(e, draft) && ExportClaim(e, es) == c
  {
    FilterMembers(es, ClaimOf(draft));
    var f := (e: Event) requires e.body.Claim? => ExportClaim(e, es);
    ListMembers(ExportedClaims(es, draft), Claims(es, draft), f);
    hide ExportClaim, ExportedClaims;
  }

  lemma {:induction false} ProposalMembers(es: seq<Event>, draft: string)
    ensures forall a :: a in ExportedProposals(es, draft) <==>
      exists e :: e in es && BoundProposal(e, draft) && ExportProposal(e, es) == a
  {
    FilterMembers(es, ProposalOf(draft));
    var f := (e: Event) requires e.body.Proposal? => ExportProposal(e, es);
    ListMembers(ExportedProposals(es, draft), Proposals(es, draft), f);
    hide ExportProposal, ExportedProposals;
  }

  lemma {:induction false} SourceMembers(es: seq<Event>)
    ensures forall x :: x in ExportedSources(es) <==> exists e :: e in es && e.body.Source? && ExportSource(e) == x
  {
    FilterMembers(es, SOURCE_EVENT);
    var f := (e: Event) requires e.body.Source? => ExportSource(e);
    ListMembers(ExportedSources(es), Sources(es), f);
    hide ExportSource, ExportedSources;
  }

  lemma {:induction false} ToolMembers(es: seq<Event>)
    ensures forall x :: x in ExportedTools(es) <==> exists e :: e in es && e.body.Tool? && ExportTool(e, es) == x
  {
    FilterMembers(es, TOOL_EVENT);
    var f := (e: Event) requires e.body.Tool? => ExportTool(e, es);
    ListMembers(ExportedTools(es), Tools(es), f);
    hide ExportTool, ExportedTools;
  }

  lemma {:induction false} NoContradictions(es: seq<Event>, draft: string)
    ensures ExportedContradictions(es, draft) == [] <==> forall e :: e in es ==> !BoundContradiction(e, draft)
  {
    FilterMembers(es, ContradictionOf(draft));
    var cs := Contradictions(es, draft);
    assert cs != [] ==> cs[0] in cs;
  }

  // ----- when an exported bundle is accepted -----

  /** No claim of the draft cites both an unresolved id and real evidence whose
      handle is the placeholder of that id. */
  ghost predicate NoClash(es: seq<Event>, draft: string) {
    forall e :: e in es && BoundClaim(e, draft) ==> ClaimClashFree(es, e.body.evidence)
  }

  ghost predicate ClaimClashFree(es: seq<Event>, evidence: seq<string>) {
    forall i, j :: 0 <= i < |evidence| && 0 <= j < |evidence| ==> !Clash(es, evidence[i], evidence[j])
  }

  lemma {:induction false} HandlesDistinctIff(es: seq<Event>, evidence: seq<string>)
    requires DistinctIds(es) && ValidReferences(es) && Distinct(evidence)
    ensures Distinct(Map(evidence, (r: string) => HandleOf(es, r))) <==> ClaimClashFree(es, evidence)
  {
    hide ValidReferences, HandleOf, Clash, DistinctIds;
    var hs := Map(evidence, (r: string) => HandleOf(es, r));
    forall i, j | 0 <= i < |evidence| && 0 <= j < |evidence| && i != j
      ensures hs[i] == hs[j] <==> Clash(es, evidence[i], evidence[j]) || Clash(es, evidence[j], evidence[i])
    {
      assert evidence[i] != evidence[j];
      SameHandle(es, evidence[i], evidence[j]);
    }
    forall i | 0 <= i < |evidence| ensures !Clash(es, evidence[i], evidence[i]) { NoSelfClash(es, evidence[i]); }
  }

  lemma {:induction false} NoSelfClash(es: seq<Event>, a: string)
    ensures !Clash(es, a, a)
  {
  }

  lemma {:induction false} HandleNonBlank(es: seq<Event>, reference: string)
    requires DistinctIds(es) && (forall e :: e in es ==> ValidEvent(e)) && NonBlank(reference)
    ensures NonBlank(HandleOf(es, reference))
  {
    HandleIs(es, reference);
    UnresolvedNonBlank(reference);
    hide Unresolved, NonBlank, HandleOf, DistinctIds;
  }

  lemma {:induction false} ClaimAcceptedIff(es: seq<Event>, e: Event)
    requires DistinctIds(es) && ValidReferences(es) && (forall x :: x in es ==> ValidEvent(x))
    requires e in es && e.body.Claim?
    ensures B.ValidClaim(ExportClaim(e, es)) <==> ClaimClashFree(es, e.body.evidence)
  {
    assert ValidEvent(e);
    HandlesDistinctIff(es, e.body.evidence);
    var c := ExportClaim(e, es);
    forall i | 0 <= i < |c.handles| ensures NonBlank(c.handles[i]) { HandleNonBlank(es, e.body.evidence[i]); }
    hide NonBlank, HandleOf, ValidReferences, DistinctIds, ClaimClashFree;
    var f := (r: string) => HandleOf(es, r);
    assert c.handles == Map(e.body.evidence, (r: string) => HandleOf(es, r));
  }

  /** Events selected from a log with distinct ids have distinct ids. */
  lemma {:induction false} SelectedIds(es: seq<Event>, p: Event -> bool)
    requires DistinctIds(es)
    ensures DistinctIds(Filter(es, p))
  {
    var id := (e: Event) => e.id;
    FilterDistinct(es, p, id);
    var r := Filter(es, p);
    forall i, j | 0 <= i < j < |r| ensures r[i].id != r[j].id { assert id(r[i]) != id(r[j]); }
  }

  lemma {:induction false} HandlesStayDistinct(es: seq<Event>)
    requires DistinctIds(es) && ValidReferences(es)
    ensures var xs := ExportedSources(es); forall i, j :: 0 <= i < j < |xs| ==> xs[i].handle != xs[j].handle
  {
    SelectedIds(es, SOURCE_EVENT);
    var ss := Sources(es);
    assert DistinctIds(ss);
    forall i, j | 0 <= i < j < |ss| ensures ExportedSources(es)[i].handle != ExportedSources(es)[j].handle {
      assert ss[i].id != ss[j].id;
      assert ss[i] in es && ss[j] in es && ss[i].body.Source? && ss[j].body.Source?;
    }
  }

  lemma {:induction false} ToolIdsStayDistinct(es: seq<Event>)
    requires DistinctIds(es)
    ensures var ts := ExportedTools(es); forall i, j :: 0 <= i < j < |ts| ==> ts[i].id != ts[j].id
  {
    SelectedIds(es, TOOL_EVENT);
    assert DistinctIds(Tools(es));
    hide IsAuthorized;
    var ts := Tools(es);
    forall i | 0 <= i < |ts| ensures ExportedTools(es)[i].id == ts[i].id { assert ts[i] in ts; }
  }

  lemma {:induction false} DraftIdsStayDistinct(es: seq<Event>, draft: string)
    requires DistinctIds(es)
    ensures var cs := ExportedClaims(es, draft); forall i, j :: 0 <= i < j < |cs| ==> cs[i].id != cs[j].id
    ensures var ps := ExportedProposals(es, draft); forall i, j :: 0 <= i < j < |ps| ==> ps[i].id != ps[j].id
  {
    SelectedIds(es, ClaimOf(draft));
    SelectedIds(es, ProposalOf(draft));
    assert DistinctIds(Claims(es, draft)) && DistinctIds(Proposals(es, draft));
    hide IsAuthorized, HandleOf;
    var cs, ps := Claims(es, draft), Proposals(es, draft);
    forall i | 0 <= i < |cs| ensures ExportedClaims(es, draft)[i].id == cs[i].id { assert cs[i] in cs; }
    forall i | 0 <= i < |ps| ensures ExportedProposals(es, draft)[i].id == ps[i].id { assert ps[i] in ps; }
  }

  lemma {:induction false} EvidenceAccepted(es: seq<Event>, b: B.Bundle)
    requires DistinctIds(es) && ValidReferences(es) && forall e :: e in es ==> ValidEvent(e)
    requires b.sources == ExportedSources(es) && b.tools == ExportedTools(es)
    ensures B.ValidEvidence(b)
  {
    HandlesStayDistinct(es);
    ToolIdsStayDistinct(es);
    SourceMembers(es);
    ToolMembers(es);
    hide NonBlank, ExportedSources, ExportedTools, IsAuthorized, DistinctIds;
    forall x | x in b.sources ensures B.ValidSource(x) {
      var e :| e in es && e.body.Source? && ExportSource(e) == x;
      assert ValidEvent(e);
    }
    forall t | t in b.tools ensures B.ValidTool(t) {
      var e :| e in es && e.body.Tool? && ExportTool(e, es) == t;
      assert ValidEvent(e);
    }
    forall x, t | x in b.sources && t in b.tools ensures x.handle != t.id {
      var e :| e in es && e.body.Source? && ExportSource(e) == x;
      var f :| f in es && f.body.Tool? && ExportTool(f, es) == t;
    }
    hide B.ValidSource, B.ValidTool, ValidReferences, ValidEvent;
  }

  lemma {:induction false} ActionsAccepted(es: seq<Event>, draft: string)
    requires DistinctIds(es) && forall e :: e in es ==> ValidEvent(e)
    ensures forall a :: a in ExportedProposals(es, draft) ==> B.ValidAction(a)
    ensures forall a, t :: a in ExportedProposals(es, draft) && t in ExportedTools(es) ==> a.id != t.id
  {
    ProposalMembers(es, draft);
    ToolMembers(es);
    hide NonBlank, ExportedProposals, ExportedTools, IsAuthorized;
    forall a | a in ExportedProposals(es, draft) ensures B.ValidAction(a) {
      var e :| e in es && BoundProposal(e, draft) && ExportProposal(e, es) == a;
      assert ValidEvent(e);
    }
    forall a, t | a in ExportedProposals(es, draft) && t in ExportedTools(es) ensures a.id != t.id {
      var e :| e in es && BoundProposal(e, draft) && ExportProposal(e, es) == a;
      var f :| f in es && f.body.Tool? && ExportTool(f, es) == t;
    }
  }

  lemma {:induction false} ClaimsAcceptedIff(es: seq<Event>, draft: string)
    requires DistinctIds(es) && ValidReferences(es) && forall e :: e in es ==> ValidEvent(e)
    ensures (forall c :: c in ExportedClaims(es, draft) ==> B.ValidClaim(c)) <==> NoClash(es, draft)
  {
    ClaimMembers(es, draft);
    forall e | e in es && BoundClaim(e, draft)
      ensures B.ValidClaim(ExportClaim(e, es)) <==> ClaimClashFree(es, e.body.evidence)
    {
      ClaimAcceptedIff(es, e);
    }
    hide ExportedClaims, ExportClaim, B.ValidClaim, ClaimClashFree, ValidReferences, ValidEvent, DistinctIds;
  }

  lemma {:induction false} ContradictionsNonBlank(es: seq<Event>, draft: string)
    requires forall e :: e in es ==> ValidEvent(e)
    ensures NonBlankList(ExportedContradictions(es, draft))
  {
    hide NonBlank;
    var cs := Contradictions(es, draft);
    assert forall i :: 0 <= i < |cs| ==> cs[i] in es && ValidEvent(cs[i]);
  }

  lemma {:induction false} BundleAcceptedIff(es: seq<Event>, draft: string, b: B.Bundle)
    requires DistinctIds(es) && ValidReferences(es) && forall e :: e in es ==> ValidEvent(e)
    requires b.sources == ExportedSources(es) && b.tools == ExportedTools(es)
    requires b.claims == ExportedClaims(es, draft) && b.actions == ExportedProposals(es, draft)
    requires b.contradictions == ExportedContradictions(es, draft)
    requires NonBlank(b.requestId) && NonBlank(b.text) && b.schema.Expected?
    requires (b.noSignal || NonBlank(b.response)) && UnitInterval(b.intentAlignment)
    ensures B.ValidBundle(b) <==> Distinct(b.contradictions) && NoClash(es, draft)
  {
    EvidenceAccepted(es, b);
    ActionsAccepted(es, draft);
    ClaimsAcceptedIff(es, draft);
    ContradictionsNonBlank(es, draft);
    DraftIdsStayDistinct(es, draft);
    hide ExportedSources, ExportedTools, ExportedClaims, ExportedProposals, ExportedContradictions, ValidEvent,
         NonBlank, DistinctIds, UnitInterval, ValidReferences, NoClash, B.ValidClaim, B.ValidAction,
         B.ValidEvidence, NonBlankList, Distinct;
  }

  lemma {:induction false} HeaderAccepted(s: Session, es: seq<Event>)
    requires Ready(s, es)
    ensures Find(es, s.request).Some? && Find(es, s.request).value.body.UserMessage?
    ensures Find(es, s.draft).Some? && Find(es, s.draft).value.body.AssistantDraft?
    ensures var b := Bundled(s, es);
      && NonBlank(b.requestId) && NonBlank(b.text) && b.schema.Expected?
      && (b.noSignal || NonBlank(b.response)) && UnitInterval(b.intentAlignment)
  {
    ReadyFacts(s, es);
    hide NonBlank, ValidReferences, DistinctIds, DistinctSequences, HasMessage, HasDraft, Find;
    assert ValidEvent(Find(es, s.request).value) && ValidEvent(Find(es, s.draft).value);
  }

  /** An exported bundle is accepted by the next stage exactly when the texts of the
      draft's contradictions are distinct and no claim of the draft has a clash. */
  lemma {:induction false} ExportAcceptedIff(s: Session)
    requires ValidSession(s)
    ensures var es := SortEvents(s.events);
      B.ValidBundle(Export(s).value) <==> Distinct(ExportedContradictions(es, s.draft)) && NoClash(es, s.draft)
  {
    var es := SortEvents(s.events);
    SortedIsReady(s);
    ReadyFacts(s, es);
    HeaderAccepted(s, es);
    hide Ready, ValidEvent, NonBlank, DistinctIds, UnitInterval, ValidReferences, ValidSession, SortEvents;
    BundleAcceptedIff(es, s.draft, Bundled(s, es));
  }

  /** No source handle and no tool id looks like a placeholder. */
  ghost predicate NoReservedNames(es: seq<Event>) {
    forall e :: e in es ==>
      && (e.body.Source? ==> !StartsWith(e.body.handle, "unresolved:"))
      && (e.body.Tool? ==> !StartsWith(e.id, "unresolved:"))
  }

  lemma {:induction false} NoReservedNoShadow(es: seq<Event>, reference: string)
    requires NoReservedNames(es)
    ensures !IsHandle(es, Unresolved(reference))
  {
    assert StartsWith(Unresolved(reference), "unresolved:") by {
      assert Unresolved(reference)[..11] == "unresolved:";
    }
  }
}
