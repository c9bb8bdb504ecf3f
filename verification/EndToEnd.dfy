/** What ALLOW means in terms of the events of the original session. */
module EndToEnd {
  import opened Options
  import opened Text
  import opened Records
  import opened SessionModel
  import opened SessionProofs
  import opened PipelineProofs
  import B = BundleModel
  import P = BundleProofs
  import A = AdapterModel

  /** The three stages in a row: None when one of them rejects its input. */
  ghost function Pipeline(s: Session): Option<A.Decision> {
    var b := Export(s);
    if b.None? then None else
    var p := B.Normalize(b.value);
    if p.None? then None else
    var advice := A.Evaluate(p.value);
    if advice.None? then None else Some(advice.value.decision)
  }

  // ----- evidence, as the session records it -----

  /** `id` is a verified source or a successful tool event offered as evidence. */
  predicate VouchedFor(es: seq<Event>, id: string) {
    exists e :: e in es && e.id == id && Vouches(e)
  }

  predicate Vouches(e: Event) {
    || (e.body.Source? && e.body.verified)
    || (e.body.Tool? && e.body.eligible && e.body.status.Success?)
  }

  predicate CurrentFor(es: seq<Event>, id: string) {
    exists e :: e in es && e.id == id && Vouches(e) && IsCurrent(e.body)
  }

  predicate IsCurrent(b: Body) {
    (b.Source? && b.sourceFreshness.Current?) || (b.Tool? && b.toolFreshness.Current?)
  }

  lemma {:induction false} SourceHandleIff(es: seq<Event>, b: B.Bundle, h: string)
    requires b.sources == ExportedSources(es)
    ensures B.IsSource(h, b.sources) <==> exists e :: e in es && e.body.Source? && e.body.handle == h
    ensures (forall i :: 0 <= i < |b.sources| && b.sources[i].handle == h ==> b.sources[i].verified) <==>
            (forall e :: e in es && e.body.Source? && e.body.handle == h ==> e.body.verified)
    ensures (exists i :: 0 <= i < |b.sources| && b.sources[i].handle == h && b.sources[i].verified
                         && b.sources[i].freshness.Current?) <==>
            (exists e :: e in es && e.body.Source? && e.body.handle == h && e.body.verified
                         && e.body.sourceFreshness.Current?)
  {
    SourceMembers(es);
    hide ExportedSources;
    var xs := b.sources;
    forall e | e in es && e.body.Source? ensures exists i :: 0 <= i < |xs| && xs[i] == ExportSource(e) {
      assert ExportSource(e) in xs;
    }
    assert forall i :: 0 <= i < |xs| ==> xs[i] in xs;
  }

  lemma {:induction false} ToolHandleIff(es: seq<Event>, b: B.Bundle, h: string)
    requires b.tools == ExportedTools(es)
    ensures B.IsEligibleTool(h, b.tools) <==> IsEligibleEvent(es, h)
    ensures (forall i :: 0 <= i < |b.tools| && b.tools[i].eligible && b.tools[i].id == h ==> b.tools[i].status.Success?)
        <==> (forall e :: e in es && e.body.Tool? && e.body.eligible && e.id == h ==> e.body.status.Success?)
    ensures (exists i :: 0 <= i < |b.tools| && b.tools[i].eligible && b.tools[i].id == h && b.tools[i].status.Success?
                         && b.tools[i].freshness.Current?)
        <==> (exists e :: e in es && e.body.Tool? && e.body.eligible && e.id == h && e.body.status.Success?
                          && e.body.toolFreshness.Current?)
  {
    ToolMembers(es);
    hide ExportedTools, IsAuthorized;
    var ts := b.tools;
    forall e | e in es && e.body.Tool? ensures exists i :: 0 <= i < |ts| && ts[i] == ExportTool(e, es) {
      assert ExportTool(e, es) in ts;
    }
    assert forall i :: 0 <= i < |ts| ==> ts[i] in ts;
  }

  /** What a handle stands for in the bundle, told from the events. */
  lemma {:induction false} HandleIff(es: seq<Event>, b: B.Bundle, h: string)
    requires b.sources == ExportedSources(es) && b.tools == ExportedTools(es)
    ensures P.KnownHandle(h, b) && P.VerifiedHandle(h, b) <==>
      && (IsEligibleEvent(es, h) || exists e :: e in es && e.body.Source? && e.body.handle == h)
      && (forall e :: e in es && e.body.Source? && e.body.handle == h ==> e.body.verified)
      && (forall e :: e in es && e.body.Tool? && e.body.eligible && e.id == h ==> e.body.status.Success?)
    ensures P.CurrentHandle(h, b) <==>
      || (exists e :: e in es && e.body.Source? && e.body.handle == h && e.body.verified
                      && e.body.sourceFreshness.Current?)
      || (exists e :: e in es && e.body.Tool? && e.body.eligible && e.id == h && e.body.status.Success?
                      && e.body.toolFreshness.Current?)
  {
    SourceHandleIff(es, b, h);
    ToolHandleIff(es, b, h);
    hide ExportedSources, ExportedTools, B.IsSource, B.IsEligibleTool, IsEligibleEvent;
  }

  /** A citation that is not shadowed is backed in the bundle exactly when the
      session backs it. */
  lemma {:induction false} CitationIff(es: seq<Event>, b: B.Bundle, r: string)
    requires DistinctIds(es) && ValidReferences(es) && !Shadowed(es, r)
    requires b.sources == ExportedSources(es) && b.tools == ExportedTools(es)
    ensures var h := HandleOf(es, r);
      && (P.KnownHandle(h, b) && P.VerifiedHandle(h, b) <==> VouchedFor(es, r))
      && (P.CurrentHandle(h, b) <==> CurrentFor(es, r))
  {
    var h := HandleOf(es, r);
    HandleIs(es, r);
    HandleIff(es, b, h);
    FindMeans(es, r);
    hide HandleOf, Unresolved, ExportedSources, ExportedTools, Find, P.KnownHandle, P.VerifiedHandle, P.CurrentHandle;
    UniqueById(es, r);
    if IsSourceEvent(es, r) {
      var e :| e in es && e.id == r && e.body.Source? && h == e.body.handle;
      assert forall f :: f in es && f.body.Source? && f.body.handle == h ==> f == e by {
        hide DistinctIds;
        UniqueByHandle(es, e);
      }
      assert !IsEligibleEvent(es, h);
    } else if IsEligibleEvent(es, r) {
      var e :| e in es && e.id == r && e.body.Tool? && e.body.eligible;
      assert forall f :: f in es && f.body.Source? ==> f.body.handle != h;
    }
  }

  lemma {:induction false} UniqueById(es: seq<Event>, id: string)
    requires DistinctIds(es)
    ensures forall e, f :: e in es && f in es && e.id == id && f.id == id ==> e == f
  {
    FindMeans(es, id);
  }

  lemma {:induction false} UniqueByHandle(es: seq<Event>, e: Event)
    requires ValidReferences(es) && e in es && e.body.Source?
    requires forall f :: f in es && f.id == e.id ==> f == e
    ensures forall f :: f in es && f.body.Source? && f.body.handle == e.body.handle ==> f == e
  {
  }

  // ----- the verdict on the session -----

  /** A claim event nothing can be held against. */
  ghost predicate Justified(c: Body, s: Session)
    requires c.Claim?
  {
    && (forall i :: 0 <= i < |c.evidence| ==> VouchedFor(s.events, c.evidence[i]))
    && (c.claimKind.Fact? || (c.claimKind.Recommendation? && s.highStakes) ==> c.evidence != [])
    && (c.requiresCurrent || (s.requiresCurrent && c.claimKind.Fact?) ==>
          exists i :: 0 <= i < |c.evidence| && CurrentFor(s.events, c.evidence[i]))
    && ((c.claimKind.Reasoning? || c.claimKind.Uncertainty?) && c.evidence == [] ==>
          c.confidence <= 0.90)
  }

  /** Some user authorization names the event and comes before it. */
  ghost predicate AuthorizedBefore(es: seq<Event>, t: Event) {
    exists a :: a in es && a.body.Authorization? && t.id in a.body.authorized && a.sequence < t.sequence
  }

  /** The session gives every ground for letting its selected draft through. */
  ghost predicate SessionAllows(s: Session) {
    var es, draft := s.events, s.draft;
    && (forall d :: d in es && d.id == draft && d.body.AssistantDraft? ==>
          !d.body.noSignal && d.body.intentAlignment >= 0.65)
    && (forall e :: e in es ==> !BoundContradiction(e, draft))
    && (s.highStakes ==> exists e :: e in es && BoundClaim(e, draft))
    && (s.requiresCurrent ==> exists e :: e in es && BoundClaim(e, draft) && e.body.claimKind.Fact?)
    && (forall e :: e in es && BoundClaim(e, draft) ==> Justified(e.body, s))
    && (forall e :: e in es && BoundProposal(e, draft) && s.highStakes ==>
          P.Recoverable(e.body.reversible, e.body.recovery))
    && (forall t :: t in es && t.body.Tool? && t.body.effect.Write? && t.body.status.Success? ==>
          AuthorizedBefore(es, t) && P.Recoverable(t.body.toolReversible, t.body.toolRecovery))
  }

  /** No claim of the draft cites an id whose placeholder names real evidence. */
  ghost predicate NoShadow(s: Session) {
    forall e :: e in s.events && BoundClaim(e, s.draft) ==>
      forall i :: 0 <= i < |e.body.evidence| ==> !Shadowed(s.events, e.body.evidence[i])
  }

  lemma {:induction false} SameEvidence(a: seq<Event>, b: seq<Event>, r: string)
    requires forall e :: e in a <==> e in b
    ensures VouchedFor(a, r) <==> VouchedFor(b, r)
    ensures CurrentFor(a, r) <==> CurrentFor(b, r)
    ensures Shadowed(a, r) <==> Shadowed(b, r)
  {
  }

  lemma {:induction false} ClaimIff(s: Session, es: seq<Event>, b: B.Bundle, e: Event)
    requires DistinctIds(es) && ValidReferences(es) && (forall x :: x in es <==> x in s.events)
    requires b.sources == ExportedSources(es) && b.tools == ExportedTools(es)
    requires b.highStakes == s.highStakes && b.requiresCurrent == s.requiresCurrent
    requires e.body.Claim? && forall i :: 0 <= i < |e.body.evidence| ==> !Shadowed(s.events, e.body.evidence[i])
    ensures P.Supported(ExportClaim(e, es), b) <==> Justified(e.body, s)
  {
    var refs, c := e.body.evidence, ExportClaim(e, es);
    forall i | 0 <= i < |refs|
      ensures P.KnownHandle(c.handles[i], b) && P.VerifiedHandle(c.handles[i], b) <==> VouchedFor(s.events, refs[i])
      ensures P.CurrentHandle(c.handles[i], b) <==> CurrentFor(s.events, refs[i])
    {
      SameEvidence(es, s.events, refs[i]);
      CitationIff(es, b, refs[i]);
    }
    hide P.KnownHandle, P.VerifiedHandle, P.CurrentHandle, VouchedFor, CurrentFor, Shadowed, HandleOf,
         ValidReferences, DistinctIds;
  }

  lemma {:induction false} AuthorizedIff(es: seq<Event>, t: Event)
    requires DistinctIds(es) && ValidReferences(es) && t in es
    ensures IsAuthorized(es, t.id) <==> AuthorizedBefore(es, t)
  {
    UniqueById(es, t.id);
    if IsAuthorized(es, t.id) {
      var a :| a in es && a.body.Authorization? && t.id in a.body.authorized;
      var i :| 0 <= i < |a.body.authorized| && a.body.authorized[i] == t.id;
      assert Authorizable(es, a.body.authorized[i], a.sequence);
    }
  }

  lemma {:induction false} ToolsIff(s: Session, es: seq<Event>, ts: seq<B.Tool>)
    requires DistinctIds(es) && ValidReferences(es) && (forall x :: x in es <==> x in s.events)
    requires ts == ExportedTools(es)
    ensures (forall t :: t in ts && B.IsPerformed(t) ==> t.authorized && P.Recoverable(t.reversible, t.recovery)) <==>
            (forall t :: t in s.events && t.body.Tool? && t.body.effect.Write? && t.body.status.Success? ==>
               AuthorizedBefore(s.events, t) && P.Recoverable(t.body.toolReversible, t.body.toolRecovery))
  {
    ToolMembers(es);
    forall e | e in es ensures IsAuthorized(es, e.id) <==> AuthorizedBefore(s.events, e) {
      AuthorizedIff(es, e);
    }
    hide ExportedTools, IsAuthorized, AuthorizedBefore, P.Recoverable, ValidReferences, DistinctIds;
    forall e | e in es && e.body.Tool? ensures ExportTool(e, es) in ts {}
  }

  lemma {:induction false} ClaimsIff(s: Session, es: seq<Event>, b: B.Bundle)
    requires DistinctIds(es) && ValidReferences(es) && (forall x :: x in es <==> x in s.events) && NoShadow(s)
    requires b.sources == ExportedSources(es) && b.tools == ExportedTools(es) && b.claims == ExportedClaims(es, s.draft)
    requires b.highStakes == s.highStakes && b.requiresCurrent == s.requiresCurrent
    ensures (forall c :: c in b.claims ==> P.Supported(c, b)) <==>
            (forall e :: e in s.events && BoundClaim(e, s.draft) ==> Justified(e.body, s))
    ensures b.claims != [] <==> exists e :: e in s.events && BoundClaim(e, s.draft)
    ensures (exists c :: c in b.claims && c.kind.Fact?) <==>
            (exists e :: e in s.events && BoundClaim(e, s.draft) && e.body.claimKind.Fact?)
  {
    ClaimMembers(es, s.draft);
    forall e | e in es && BoundClaim(e, s.draft)
      ensures P.Supported(ExportClaim(e, es), b) <==> Justified(e.body, s)
    {
      ClaimIff(s, es, b, e);
    }
    hide ExportedClaims, P.Supported, Justified, HandleOf, ValidReferences, DistinctIds, ExportedSources, ExportedTools;
    assert b.claims != [] ==> b.claims[0] in b.claims;
    forall e | e in es && BoundClaim(e, s.draft) ensures ExportClaim(e, es) in b.claims {}
  }

  lemma {:induction false} ProposalsIff(s: Session, es: seq<Event>, xs: seq<B.Action>)
    requires (forall x :: x in es <==> x in s.events) && xs == ExportedProposals(es, s.draft)
    ensures (forall a :: a in xs && s.highStakes ==> P.Recoverable(a.reversible, a.recovery)) <==>
            (forall e :: e in s.events && BoundProposal(e, s.draft) && s.highStakes ==>
               P.Recoverable(e.body.reversible, e.body.recovery))
  {
    ProposalMembers(es, s.draft);
    hide ExportedProposals, IsAuthorized, P.Recoverable;
    forall e | e in es && BoundProposal(e, s.draft) ensures ExportProposal(e, es) in xs {}
  }

  /** The equivalences above put together, for a bundle with the right members. */
  lemma {:induction false} MembersIff(s: Session, es: seq<Event>, b: B.Bundle, d: Event)
    requires DistinctIds(es) && ValidReferences(es) && (forall x :: x in es <==> x in s.events) && NoShadow(s)
    requires b.sources == ExportedSources(es) && b.tools == ExportedTools(es) && b.claims == ExportedClaims(es, s.draft)
    requires b.actions == ExportedProposals(es, s.draft) && b.contradictions == ExportedContradictions(es, s.draft)
    requires b.highStakes == s.highStakes && b.requiresCurrent == s.requiresCurrent
    requires d in es && d.id == s.draft && d.body.AssistantDraft?
    requires b.noSignal == d.body.noSignal && b.intentAlignment == d.body.intentAlignment
    ensures P.Deliverable(b) <==> SessionAllows(s)
  {
    UniqueById(es, s.draft);
    ToolsIff(s, es, b.tools);
    ClaimsIff(s, es, b);
    ProposalsIff(s, es, b.actions);
    NoContradictions(es, s.draft);
    hide P.Supported, Justified, P.Recoverable, AuthorizedBefore, DistinctIds, ValidReferences, ExportedSources,
         ExportedTools, ExportedClaims, ExportedProposals, ExportedContradictions, NoShadow, B.IsPerformed;
  }

  lemma {:induction false} DeliverableIff(s: Session, es: seq<Event>)
    requires Ready(s, es) && NoShadow(s)
    ensures Find(es, s.request).Some? && Find(es, s.request).value.body.UserMessage?
    ensures Find(es, s.draft).Some? && Find(es, s.draft).value.body.AssistantDraft?
    ensures P.Deliverable(Bundled(s, es)) <==> SessionAllows(s)
  {
    ReadyFacts(s, es);
    FindMeans(es, s.draft);
    hide Ready, Find, P.Deliverable, SessionAllows, NoShadow, DistinctIds, ValidReferences, ValidEvent;
    MembersIff(s, es, Bundled(s, es), Find(es, s.draft).value);
  }

  lemma {:induction false} NoShadowNoClash(s: Session, es: seq<Event>)
    requires (forall e :: e in es <==> e in s.events) && NoShadow(s) && DistinctIds(es)
    ensures NoClash(es, s.draft)
  {
    forall e, i, j | e in es && BoundClaim(e, s.draft) && 0 <= i < |e.body.evidence| && 0 <= j < |e.body.evidence|
      ensures !Clash(es, e.body.evidence[i], e.body.evidence[j])
    {
      SameEvidence(es, s.events, e.body.evidence[i]);
      HandleIs(es, e.body.evidence[j]);
    }
  }

  lemma {:induction false} PipelineRuns(s: Session)
    requires Export(s).Some? && B.ValidBundle(Export(s).value)
    ensures Pipeline(s) == Some(A.Decide(B.Normal(Export(s).value)))
  {
    hide Export, B.ValidBundle, A.ValidPacket, A.Decide, B.Normal, A.Revision, A.Verification;
    P.NormalizedIsAccepted(Export(s).value);
  }

  lemma {:induction false} ExportIs(s: Session)
    requires ValidSession(s)
    ensures Ready(s, SortEvents(s.events)) && DistinctIds(SortEvents(s.events))
    ensures forall e :: e in SortEvents(s.events) <==> e in s.events
    ensures Find(SortEvents(s.events), s.request).Some? && Find(SortEvents(s.events), s.request).value.body.UserMessage?
    ensures Find(SortEvents(s.events), s.draft).Some? && Find(SortEvents(s.events), s.draft).value.body.AssistantDraft?
    ensures Export(s) == Some(Bundled(s, SortEvents(s.events)))
  {
    hide Ready, Bundled, SortEvents, Find, DistinctIds, ValidReferences, ValidEvent;
    SortedIsReady(s);
    ReadyFacts(s, SortEvents(s.events));
  }

  lemma {:induction false} PipelineStops(s: Session)
    requires Export(s).Some? && !B.ValidBundle(Export(s).value)
    ensures Pipeline(s).None?
  {
    hide Export, B.ValidBundle;
  }

  lemma {:induction false} RepeatedTextsForbid(s: Session)
    requires ValidSession(s) && !Distinct(ExportedContradictions(SortEvents(s.events), s.draft))
    ensures !SessionAllows(s)
  {
    var es := SortEvents(s.events);
    ExportIs(s);
    hide ExportedContradictions, ValidSession, SortEvents;
    NoContradictions(es, s.draft);
  }

  /** End to end, for every session the exporter accepts that has no shadowed
      citation: all three stages run exactly when the draft's contradiction texts are
      distinct, and the verdict is ALLOW if and only if the session itself justifies
      it. */
  lemma {:induction false} AllowIff(s: Session)
    requires ValidSession(s) && NoShadow(s)
    ensures Pipeline(s).Some? <==> Distinct(ExportedContradictions(SortEvents(s.events), s.draft))
    ensures Pipeline(s) == Some(A.Allow) <==> SessionAllows(s)
  {
    hide *;
    ExportIs(s);
    NoShadowNoClash(s, SortEvents(s.events));
    ExportAcceptedIff(s);
    if Distinct(ExportedContradictions(SortEvents(s.events), s.draft)) {
      PipelineRuns(s);
      DeliverableIff(s, SortEvents(s.events));
      P.AllowMeans(Export(s).value);
    } else {
      PipelineStops(s);
      RepeatedTextsForbid(s);
    }
  }

  // ----- shadowed citations -----

  /** Every citation of the draft's claims is backed by the session. */
  ghost predicate AllVouched(s: Session) {
    forall e :: e in s.events && BoundClaim(e, s.draft) ==>
      forall i :: 0 <= i < |e.body.evidence| ==> VouchedFor(s.events, e.body.evidence[i])
  }

  lemma {:induction false} AllowedBundle(s: Session)
    requires Pipeline(s) == Some(A.Allow)
    ensures Export(s).Some? && B.ValidBundle(Export(s).value) && P.Deliverable(Export(s).value) && ValidSession(s)
  {
    var b := Export(s).value;
    P.AllowMeans(b);
    hide ValidSession, B.ValidBundle, P.Deliverable, A.ValidPacket, A.Decide, B.Normal;
  }

  lemma {:induction false} VouchedIsUnshadowed(s: Session)
    requires AllVouched(s)
    ensures NoShadow(s)
  {
  }

  /** Whatever the citations, ALLOW means that every successful write was authorized
      beforehand, no contradiction was declared and every fact claim cites something. */
  lemma {:induction false} AllowAlways(s: Session)
    requires Pipeline(s) == Some(A.Allow)
    ensures forall t :: t in s.events && t.body.Tool? && t.body.effect.Write? && t.body.status.Success? ==>
      AuthorizedBefore(s.events, t)
    ensures forall e :: e in s.events ==> !BoundContradiction(e, s.draft)
    ensures forall e :: e in s.events && BoundClaim(e, s.draft) && e.body.claimKind.Fact? ==> e.body.evidence != []
  {
    var es, b := SortEvents(s.events), Export(s).value;
    AllowedBundle(s);
    ExportIs(s);
    ReadyFacts(s, es);
    assert b.tools == ExportedTools(es) && b.claims == ExportedClaims(es, s.draft);
    assert b.contradictions == ExportedContradictions(es, s.draft);
    hide Ready, Bundled, SortEvents, Find, DistinctIds, ValidReferences, ValidEvent, Export, Pipeline, ValidSession,
         B.ValidBundle, ExportedTools, ExportedClaims, ExportedContradictions, HandleOf, IsAuthorized, AuthorizedBefore,
         P.Recoverable;
    ToolsIff(s, es, b.tools);
    NoContradictions(es, s.draft);
    ClaimMembers(es, s.draft);
    forall e | e in es && BoundClaim(e, s.draft) && e.body.claimKind.Fact? ensures e.body.evidence != [] {
      assert P.Supported(ExportClaim(e, es), b);
    }
  }

  /** That the citations behind an ALLOW are real holds exactly when none of them
      is shadowed. */
  lemma {:induction false} AllowVouchedIff(s: Session)
    requires Pipeline(s) == Some(A.Allow)
    ensures AllVouched(s) <==> NoShadow(s)
  {
    hide *;
    if NoShadow(s) {
      AllowedBundle(s);
      ExportAcceptedIff(s);
      AllowIff(s);
      AllowsVouches(s);
    } else if AllVouched(s) {
      VouchedIsUnshadowed(s);
    }
  }

  lemma {:induction false} AllowsVouches(s: Session)
    requires SessionAllows(s)
    ensures AllVouched(s)
  {
    hide VouchedFor, CurrentFor;
  }

  /** Reserved prefixes rule shadowing out. */
  lemma {:induction false} NoReservedNamesNoShadow(s: Session)
    requires NoReservedNames(s.events)
    ensures NoShadow(s)
  {
    forall e, i | e in s.events && BoundClaim(e, s.draft) && 0 <= i < |e.body.evidence|
      ensures !Shadowed(s.events, e.body.evidence[i])
    {
      NoReservedNoShadow(s.events, e.body.evidence[i]);
    }
  }
}
