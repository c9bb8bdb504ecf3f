/** When the gate gives each of its verdicts on a packet. */
module PacketVerdicts {
  import opened Options
  import opened Text
  import opened Records
  import opened AdapterModel

  /** A claim that lacks no evidence: every citation is there and verified, there is
      one where one is needed, and a current one where that is asked for. */
  ghost predicate Backed(c: Claim, p: Packet) {
    && (forall r :: r in c.refs ==> exists e :: e in p.evidence && e.id == r)
    && (forall e :: e in p.evidence && e.id in c.refs ==> e.verified)
    && (c.kind.Fact? || (c.kind.Recommendation? && p.highStakes) ==> c.refs != [])
    && (c.requiresCurrent || (p.requiresCurrent && c.kind.Fact?) ==>
          exists e :: e in p.evidence && e.id in c.refs && e.verified && e.freshness.Current?)
  }

  /** More than 0.9 sure of something that is no fact, with no verified evidence. */
  ghost predicate Bold(c: Claim, p: Packet) {
    && (c.kind.Reasoning? || c.kind.Uncertainty?) && c.confidence > 0.9
    && forall e :: e in p.evidence && e.id in c.refs ==> !e.verified
  }

  /** Done without leave, or done, or proposed with much at stake, with no way back. */
  predicate Harmful(a: Action, highStakes: bool) {
    || (a.mode.Performed? && !a.authorized)
    || ((a.mode.Performed? || highStakes) && !a.reversible && (a.recovery.None? || a.recovery.value == ""))
  }

  /** The draft has to be revised. */
  ghost predicate Faulty(p: Packet) {
    || p.intentAlignment < 0.65
    || p.contradictions != []
    || (p.noSignal && (NonBlank(p.response) || p.claims != [] || p.actions != []))
    || (exists c :: c in p.claims && Bold(c, p))
    || (exists a :: a in p.actions && Harmful(a, p.highStakes))
  }

  /** The draft lacks evidence. */
  ghost predicate Wanting(p: Packet) {
    || (p.highStakes && !p.noSignal && p.claims == [])
    || (p.requiresCurrent && !p.noSignal && forall c :: c in p.claims ==> !c.kind.Fact?)
    || (exists c :: c in p.claims && !Backed(c, p))
  }

  lemma {:induction false} CitedIs(refs: seq<string>, evidence: seq<Evidence>, q: Evidence -> bool)
    ensures AnyCited(refs, evidence, q) <==> exists e :: e in evidence && e.id in refs && q(e)
  {
    if e :| e in evidence && e.id in refs && q(e) {
      var i :| 0 <= i < |evidence| && evidence[i] == e;
    }
  }

  lemma {:induction false} KnownIs(id: string, evidence: seq<Evidence>)
    ensures Exists(id, evidence) <==> exists e :: e in evidence && e.id == id
  {
    if e :| e in evidence && e.id == id {
      var i :| 0 <= i < |evidence| && evidence[i] == e;
    }
  }

  lemma {:induction false} BoldIs(c: Claim, p: Packet)
    ensures IsOverconfident(c, p) <==> Bold(c, p)
  {
    CitedIs(c.refs, p.evidence, (e: Evidence) => e.verified);
    hide AnyCited;
  }

  lemma {:induction false} BackedIs(c: Claim, p: Packet)
    ensures IssuesOf(c, p) == [] <==> Backed(c, p)
  {
    var d := c.(confidence := 0.0);
    SupportedMeans(d, p);
    IssuesIgnoreConfidence(c, p);
    BackedIfSupported(c, p);
    assert !IsOverconfident(d, p);
    hide IssuesOf, IsOverconfident, Supported, Backed;
  }

  lemma {:induction false} BackedIfSupported(c: Claim, p: Packet)
    ensures Supported(c.(confidence := 0.0), p) <==> Backed(c, p)
  {
    CitedIs(c.refs, p.evidence, (e: Evidence) => e.verified && e.freshness.Current?);
    forall r ensures Exists(r, p.evidence) <==> exists e :: e in p.evidence && e.id == r { KnownIs(r, p.evidence); }
    hide AnyCited, Exists;
    assert AllKnown(c.refs, p.evidence) <==> forall r :: r in c.refs ==> Exists(r, p.evidence);
    hide AllKnown;
    assert forall e :: e in p.evidence <==> exists i :: 0 <= i < |p.evidence| && p.evidence[i] == e;
  }

  lemma {:induction false} IssuesIgnoreConfidence(c: Claim, p: Packet)
    ensures IssuesOf(c.(confidence := 0.0), p) == IssuesOf(c, p)
  {
    var d := c.(confidence := 0.0);
    forall issue: Issue ensures HasIssue(d, p, issue) <==> HasIssue(c, p, issue) {
      hide AllKnown, AnyCited;
    }
    hide HasIssue;
  }

  lemma {:induction false} HarmfulIs(a: Action, highStakes: bool)
    ensures Harmful(a, highStakes) <==> !Harmless(a, highStakes)
  {
  }

  lemma {:induction false} FaultyIs(p: Packet)
    ensures Revision(p) != [] <==> Faulty(p)
  {
    NoRevision(p);
    forall c ensures IsOverconfident(c, p) <==> Bold(c, p) { BoldIs(c, p); }
    forall a ensures Harmful(a, p.highStakes) <==> !Harmless(a, p.highStakes) { HarmfulIs(a, p.highStakes); }
    hide Revision, IsOverconfident, Bold, Harmful, Harmless, NonBlank;
    assert forall c :: c in p.claims <==> exists i :: 0 <= i < |p.claims| && p.claims[i] == c;
    assert forall a :: a in p.actions <==> exists i :: 0 <= i < |p.actions| && p.actions[i] == a;
  }

  lemma {:induction false} WantingIs(p: Packet)
    requires p.noSignal ==> p.claims == []
    ensures Verification(p) != [] <==> Wanting(p)
  {
    forall c ensures IssuesOf(c, p) == [] <==> Backed(c, p) { BackedIs(c, p); }
    hide IssuesOf, Backed;
    if p.noSignal {
      assert Concat(p.claims, (c: Claim) => IssuesOf(c, p)) == [];
    } else {
      NoVerification(p);
      hide Verification;
      assert forall c :: c in p.claims <==> exists i :: 0 <= i < |p.claims| && p.claims[i] == c;
    }
  }

  // ----- the reasons given -----

  predicate NoWayBack(a: Action) {
    !a.reversible && (a.recovery.None? || a.recovery.value == "")
  }

  /** A ground for revising the draft, told from the packet. */
  ghost predicate Ground(p: Packet, r: Reason) {
    match r
    case IntentBelowMinimum => p.intentAlignment < 0.65
    case DeclaredContradiction(text) => text in p.contradictions
    case NoSignalWithContent => p.noSignal && (NonBlank(p.response) || p.claims != [] || p.actions != [])
    case Overconfident(id) => exists c :: c in p.claims && c.id == id && Bold(c, p)
    case Unauthorized(id) => exists a :: a in p.actions && a.id == id && a.mode.Performed? && !a.authorized
    case NoRecoveryPlan(id) => exists a :: a in p.actions && a.id == id && a.mode.Performed? && NoWayBack(a)
    case RiskyProposal(id) =>
      exists a :: a in p.actions && a.id == id && a.mode.Proposed? && p.highStakes && NoWayBack(a)
    case _ => false
  }

  /** A reason that an action gives. */
  ghost predicate GivenBy(a: Action, highStakes: bool, r: Reason) {
    || (r == Unauthorized(a.id) && a.mode.Performed? && !a.authorized)
    || (r == NoRecoveryPlan(a.id) && a.mode.Performed? && NoWayBack(a))
    || (r == RiskyProposal(a.id) && a.mode.Proposed? && highStakes && NoWayBack(a))
  }

  lemma {:induction false} FindingIs(a: Action, highStakes: bool, r: Reason)
    ensures r in FindingsOf(a, highStakes) <==> GivenBy(a, highStakes, r)
  {
  }

  lemma {:induction false} BoldReason(p: Packet, r: Reason)
    ensures r in Concat(p.claims, (c: Claim) => When(IsOverconfident(c, p), Overconfident(c.id))) <==>
      r.Overconfident? && exists c :: c in p.claims && c.id == r.claim && Bold(c, p)
  {
    InConcat(p.claims, (c: Claim) => When(IsOverconfident(c, p), Overconfident(c.id)), r);
    forall i | 0 <= i < |p.claims| ensures IsOverconfident(p.claims[i], p) <==> Bold(p.claims[i], p) {
      BoldIs(p.claims[i], p);
    }
    hide IsOverconfident, Bold, Concat;
    assert forall i :: 0 <= i < |p.claims| ==> p.claims[i] in p.claims;
  }

  lemma {:induction false} HarmReason(p: Packet, r: Reason)
    ensures r in Concat(p.actions, (a: Action) => FindingsOf(a, p.highStakes)) <==>
      exists a :: a in p.actions && GivenBy(a, p.highStakes, r)
  {
    InConcat(p.actions, (a: Action) => FindingsOf(a, p.highStakes), r);
    forall i | 0 <= i < |p.actions|
      ensures r in FindingsOf(p.actions[i], p.highStakes) <==> GivenBy(p.actions[i], p.highStakes, r)
    {
      FindingIs(p.actions[i], p.highStakes, r);
    }
    hide FindingsOf, GivenBy, Concat;
    assert forall i :: 0 <= i < |p.actions| ==> p.actions[i] in p.actions;
  }

  /** The reasons for revising are exactly the grounds there are, with the claims and
      actions they are about. */
  lemma {:induction false} RevisionGrounds(p: Packet, r: Reason)
    ensures r in Revision(p) <==> Ground(p, r)
  {
    RevisionParts(p, r);
    BoldReason(p, r);
    HarmReason(p, r);
    hide Revision, IsOverconfident, Bold, FindingsOf, Concat, NoWayBack, NonBlank;
  }

  lemma {:induction false} RevisionParts(p: Packet, r: Reason)
    ensures r in Revision(p) <==>
      || (r == IntentBelowMinimum && p.intentAlignment < 0.65)
      || (exists t :: t in p.contradictions && r == DeclaredContradiction(t))
      || (r == NoSignalWithContent && p.noSignal && (NonBlank(p.response) || p.claims != [] || p.actions != []))
      || r in Concat(p.claims, (c: Claim) => When(IsOverconfident(c, p), Overconfident(c.id)))
      || r in Concat(p.actions, (a: Action) => FindingsOf(a, p.highStakes))
  {
    hide Concat, IsOverconfident, FindingsOf, NonBlank;
    var ds := Map(p.contradictions, (t: string) => DeclaredContradiction(t));
    assert forall i :: 0 <= i < |ds| ==> ds[i] == DeclaredContradiction(p.contradictions[i]);
    forall t | t in p.contradictions ensures DeclaredContradiction(t) in ds {
      var i :| 0 <= i < |p.contradictions| && p.contradictions[i] == t;
      assert ds[i] == DeclaredContradiction(t);
    }
  }

  /** What a claim lacks, told from the packet. */
  ghost predicate Lacks(c: Claim, p: Packet, issue: Issue) {
    var needed := c.kind.Fact? || (c.kind.Recommendation? && p.highStakes);
    match issue
    case NoReferences => needed && c.refs == []
    case UnknownReferences => exists r :: r in c.refs && forall e :: e in p.evidence ==> e.id != r
    case NoVerifiedEvidence => needed && c.refs != [] && forall e :: e in p.evidence && e.id in c.refs ==> !e.verified
    case UnverifiedEvidence => exists e :: e in p.evidence && e.id in c.refs && !e.verified
    case NoCurrentEvidence =>
      (c.requiresCurrent || (p.requiresCurrent && c.kind.Fact?))
      && forall e :: e in p.evidence && e.id in c.refs ==> !(e.verified && e.freshness.Current?)
  }

  lemma {:induction false} IssueIs(c: Claim, p: Packet, issue: Issue)
    ensures HasIssue(c, p, issue) <==> Lacks(c, p, issue)
  {
    CitedIs(c.refs, p.evidence, (e: Evidence) => e.verified);
    CitedIs(c.refs, p.evidence, (e: Evidence) => !e.verified);
    CitedIs(c.refs, p.evidence, (e: Evidence) => e.verified && e.freshness.Current?);
    forall r ensures Exists(r, p.evidence) <==> exists e :: e in p.evidence && e.id == r { KnownIs(r, p.evidence); }
    hide AnyCited, Exists;
    assert AllKnown(c.refs, p.evidence) <==> forall r :: r in c.refs ==> Exists(r, p.evidence);
    hide AllKnown;
  }

  lemma {:induction false} VerificationParts(p: Packet, r: Reason)
    ensures r in Verification(p) <==>
      || (r == NoClaims && !p.noSignal && p.highStakes && p.claims == [])
      || (r == NoFactClaim && !p.noSignal && p.requiresCurrent && forall c :: c in p.claims ==> !c.kind.Fact?)
      || r in Concat(p.claims, (c: Claim) => IssuesOf(c, p))
  {
    hide Concat, IssuesOf;
    assert (forall c :: c in p.claims ==> !c.kind.Fact?) <==>
      forall i :: 0 <= i < |p.claims| ==> !p.claims[i].kind.Fact?;
  }

  lemma {:induction false} IssuesAre(c: Claim, p: Packet, r: Reason)
    ensures r in IssuesOf(c, p) <==> r.ClaimIssue? && r.claim == c.id && Lacks(c, p, r.issue)
  {
    if r.ClaimIssue? { IssueIs(c, p, r.issue); }
    hide HasIssue, Lacks;
    var a, b := When(HasIssue(c, p, NoReferences), ClaimIssue(c.id, NoReferences)),
                When(HasIssue(c, p, UnknownReferences), ClaimIssue(c.id, UnknownReferences));
    var d, e := When(HasIssue(c, p, NoVerifiedEvidence), ClaimIssue(c.id, NoVerifiedEvidence)),
                When(HasIssue(c, p, UnverifiedEvidence), ClaimIssue(c.id, UnverifiedEvidence));
    var f := When(HasIssue(c, p, NoCurrentEvidence), ClaimIssue(c.id, NoCurrentEvidence));
    assert r in IssuesOf(c, p) <==> r in a || r in b || r in d || r in e || r in f;
  }

  /** The reasons for verifying are exactly what the draft and its claims lack. */
  lemma {:induction false} VerificationGrounds(p: Packet, r: Reason)
    ensures r in Verification(p) <==>
      || (r == NoClaims && !p.noSignal && p.highStakes && p.claims == [])
      || (r == NoFactClaim && !p.noSignal && p.requiresCurrent && forall c :: c in p.claims ==> !c.kind.Fact?)
      || (r.ClaimIssue? && exists c :: c in p.claims && r.claim == c.id && Lacks(c, p, r.issue))
  {
    VerificationParts(p, r);
    InConcat(p.claims, (c: Claim) => IssuesOf(c, p), r);
    forall i | 0 <= i < |p.claims|
      ensures r in IssuesOf(p.claims[i], p) <==>
        r.ClaimIssue? && r.claim == p.claims[i].id && Lacks(p.claims[i], p, r.issue)
    {
      IssuesAre(p.claims[i], p, r);
    }
    hide IssuesOf, Lacks, Concat, Verification;
    assert forall i :: 0 <= i < |p.claims| ==> p.claims[i] in p.claims;
  }

  // ----- the verdict -----

  /** The gate says REVISE to exactly the faulty packets, VERIFY to those that only
      lack evidence, and to the rest NO_SIGNAL or ALLOW, as the draft carries no
      signal or does. */
  lemma {:induction false} VerdictMeans(p: Packet)
    ensures Decide(p) == Revise <==> Faulty(p)
    ensures Decide(p) == Verify <==> !Faulty(p) && Wanting(p)
    ensures Decide(p) == NoSignal <==> !Faulty(p) && !Wanting(p) && p.noSignal
    ensures Decide(p) == Allow <==> !Faulty(p) && !Wanting(p) && !p.noSignal
  {
    FaultyIs(p);
    if !Faulty(p) { WantingIs(p); }
    hide Revision, Verification, Bold, Harmful, Backed;
  }
}

/** When the gate gives each verdict on a translated bundle. */
module BundleVerdicts {
  import opened Options
  import opened Text
  import opened Records
  import opened BundleModel
  import opened BundleProofs
  import A = AdapterModel
  import V = PacketVerdicts

  /** Everything under the handle is verified evidence, and there is some. */
  ghost predicate Vouched(h: string, b: Bundle) {
    KnownHandle(h, b) && VerifiedHandle(h, b)
  }

  ghost predicate Backed(c: Claim, b: Bundle) {
    && (forall h :: h in c.handles ==> Vouched(h, b))
    && (c.kind.Fact? || (c.kind.Recommendation? && b.highStakes) ==> c.handles != [])
    && (c.requiresCurrent || (b.requiresCurrent && c.kind.Fact?) ==> exists h :: h in c.handles && CurrentHandle(h, b))
  }

  ghost predicate Bold(c: Claim, b: Bundle) {
    && (c.kind.Reasoning? || c.kind.Uncertainty?) && c.confidence > 0.9
    && forall h :: h in c.handles ==> !Vouched(h, b)
  }

  ghost predicate Faulty(b: Bundle) {
    || b.intentAlignment < 0.65
    || b.contradictions != []
    || (b.noSignal && (NonBlank(b.response) || b.claims != [] || b.actions != []
                       || exists t :: t in b.tools && IsPerformed(t)))
    || (exists c :: c in b.claims && Bold(c, b))
    || (exists a :: a in b.actions && b.highStakes && !Recoverable(a.reversible, a.recovery))
    || (exists t :: t in b.tools && IsPerformed(t) && !(t.authorized && Recoverable(t.reversible, t.recovery)))
  }

  ghost predicate Wanting(b: Bundle) {
    || (b.highStakes && !b.noSignal && b.claims == [])
    || (b.requiresCurrent && !b.noSignal && forall c :: c in b.claims ==> !c.kind.Fact?)
    || (exists c :: c in b.claims && !Backed(c, b))
  }

  lemma {:induction false} OneItem(h: string, d: A.Evidence, e: A.Evidence, b: Bundle)
    requires ValidEvidence(b) && StandsFor(h, d, b) && StandsFor(h, e, b)
    ensures d == e
  {
    ResolvesTo(h, d, b);
    ResolvesTo(h, e, b);
    EvidenceIdsDistinct(b);
    hide ValidEvidence, StandsFor, Normal;
  }

  lemma {:induction false} KnownStands(h: string, b: Bundle)
    ensures KnownHandle(h, b) <==> exists e :: StandsFor(h, e, b)
  {
    if i :| 0 <= i < |b.sources| && b.sources[i].handle == h {
      assert StandsFor(h, SourceEvidence(b.sources[i]), b);
    } else if i :| 0 <= i < |b.tools| && b.tools[i].eligible && b.tools[i].id == h {
      assert StandsFor(h, ToolEvidence(b.tools[i]), b);
    }
  }

  lemma {:induction false} VouchedIff(h: string, b: Bundle)
    requires ValidEvidence(b)
    ensures Vouched(h, b) <==> exists e :: StandsFor(h, e, b) && e.verified
  {
    VerifiedIff(h, b);
    KnownStands(h, b);
    hide ValidEvidence, StandsFor, KnownHandle, VerifiedHandle;
    forall d, e | StandsFor(h, d, b) && StandsFor(h, e, b) ensures d == e { OneItem(h, d, e, b); }
  }

  /** Some cited item is verified exactly when some cited handle is vouched for. */
  lemma {:induction false} VerifiedCitationIff(c: Claim, b: Bundle)
    requires ValidEvidence(b)
    ensures (exists e :: e in Normal(b).evidence && e.id in NormalClaim(c, b).refs && e.verified) <==>
            exists h :: h in c.handles && Vouched(h, b)
  {
    hide Vouched, StandsFor, Normal, NormalClaim, ValidEvidence;
    if e :| e in Normal(b).evidence && e.id in NormalClaim(c, b).refs && e.verified {
      CitedIffStandsFor(c, e, b);
      var i :| 0 <= i < |c.handles| && StandsFor(c.handles[i], e, b);
      VouchedIff(c.handles[i], b);
    }
    if h :| h in c.handles && Vouched(h, b) {
      VouchedIff(h, b);
      var e :| StandsFor(h, e, b) && e.verified;
      ResolvesTo(h, e, b);
      CitedIffStandsFor(c, e, b);
    }
  }

  lemma {:induction false} BoldIff(c: Claim, b: Bundle)
    requires ValidEvidence(b)
    ensures V.Bold(NormalClaim(c, b), Normal(b)) <==> Bold(c, b)
  {
    VerifiedCitationIff(c, b);
    NormalClaimIs(c, b);
    hide Vouched, Normal, NormalClaim, ValidEvidence;
  }

  lemma {:induction false} NormalClaimIs(c: Claim, b: Bundle)
    ensures var d := NormalClaim(c, b);
      d.kind == c.kind && d.confidence == c.confidence && d.requiresCurrent == c.requiresCurrent && d.id == c.id
    ensures NormalClaim(c.(confidence := 0.0), b) == NormalClaim(c, b).(confidence := 0.0)
  {
  }

  lemma {:induction false} BackedIff(c: Claim, b: Bundle)
    requires ValidEvidence(b)
    ensures V.Backed(NormalClaim(c, b), Normal(b)) <==> Backed(c, b)
  {
    SupportedIff(c.(confidence := 0.0), b);
    NormalClaimIs(c, b);
    V.BackedIfSupported(NormalClaim(c, b), Normal(b));
    BackedIfSupported(c, b);
    hide V.Backed, A.Supported, Supported, Backed, Normal, NormalClaim;
  }

  lemma {:induction false} BackedIfSupported(c: Claim, b: Bundle)
    ensures Supported(c.(confidence := 0.0), b) <==> Backed(c, b)
  {
    hide KnownHandle, VerifiedHandle, CurrentHandle;
    var d := c.(confidence := 0.0);
    assert forall i :: 0 <= i < |c.handles| ==> c.handles[i] in d.handles && d.handles[i] in c.handles;
  }

  lemma {:induction false} NormalIs(b: Bundle)
    ensures var p := Normal(b);
      && p.intentAlignment == b.intentAlignment && p.contradictions == b.contradictions && p.noSignal == b.noSignal
      && p.response == b.response && p.highStakes == b.highStakes && p.requiresCurrent == b.requiresCurrent
      && p.intent == b.text && p.requestId == b.requestId
      && |p.claims| == |b.claims| && (forall i :: 0 <= i < |b.claims| ==> p.claims[i] == NormalClaim(b.claims[i], b))
    ensures Normal(b).actions == [] <==> b.actions == [] && forall t :: t in b.tools ==> !IsPerformed(t)
  {
    ActionsAre(b);
    PerformedMembers(b);
    var ts := PerformedTools(b.tools);
    assert ts != [] ==> ts[0] in ts;
  }

  lemma {:induction false} ClaimsIff(b: Bundle)
    requires ValidEvidence(b)
    ensures (exists c :: c in Normal(b).claims && V.Bold(c, Normal(b))) <==> exists c :: c in b.claims && Bold(c, b)
    ensures (exists c :: c in Normal(b).claims && !V.Backed(c, Normal(b))) <==>
            exists c :: c in b.claims && !Backed(c, b)
    ensures (forall c :: c in Normal(b).claims ==> !c.kind.Fact?) <==> forall c :: c in b.claims ==> !c.kind.Fact?
  {
    var p := Normal(b);
    NormalIs(b);
    forall c | c in b.claims
      ensures V.Bold(NormalClaim(c, b), p) <==> Bold(c, b)
      ensures V.Backed(NormalClaim(c, b), p) <==> Backed(c, b)
      ensures NormalClaim(c, b).kind == c.kind && NormalClaim(c, b) in p.claims
    {
      BoldIff(c, b);
      BackedIff(c, b);
      NormalClaimIs(c, b);
      var i :| 0 <= i < |b.claims| && b.claims[i] == c;
      assert p.claims[i] == NormalClaim(c, b);
    }
    hide V.Bold, V.Backed, Bold, Backed, Normal, NormalClaim, ValidEvidence;
    forall d | d in p.claims ensures exists c :: c in b.claims && NormalClaim(c, b) == d {
      var i :| 0 <= i < |p.claims| && p.claims[i] == d;
      assert b.claims[i] in b.claims;
    }
  }

  lemma {:induction false} HarmIff(b: Bundle)
    ensures (exists a :: a in Normal(b).actions && V.Harmful(a, b.highStakes)) <==>
      || (exists a :: a in b.actions && b.highStakes && !Recoverable(a.reversible, a.recovery))
      || (exists t :: t in b.tools && IsPerformed(t) && !(t.authorized && Recoverable(t.reversible, t.recovery)))
  {
    ActionsIff(b);
    var xs := Normal(b).actions;
    forall a ensures V.Harmful(a, b.highStakes) <==> !A.Harmless(a, b.highStakes) { V.HarmfulIs(a, b.highStakes); }
    hide V.Harmful, A.Harmless, Normal, Recoverable, IsPerformed;
    assert forall a :: a in xs <==> exists i :: 0 <= i < |xs| && xs[i] == a;
  }

  /** A bundle and its packet are faulty alike and wanting alike. */
  lemma {:induction false} SameGrounds(b: Bundle)
    requires ValidBundle(b)
    ensures V.Faulty(Normal(b)) <==> Faulty(b)
    ensures V.Wanting(Normal(b)) <==> Wanting(b)
  {
    NormalIs(b);
    ClaimsIff(b);
    HarmIff(b);
    hide V.Bold, V.Backed, V.Harmful, Bold, Backed, Normal, NormalClaim, ValidBundle, Recoverable, IsPerformed,
         NonBlank;
  }
}

/** When a session ends in each verdict, told from its events. */
module SessionVerdicts {
  import opened Options
  import opened Text
  import opened Records
  import opened SessionModel
  import opened SessionProofs
  import opened PipelineProofs
  import opened EndToEnd
  import B = BundleModel
  import P = BundleProofs
  import A = AdapterModel
  import V = BundleVerdicts
  import PacketVerdicts

  /** A claim whose citations the session vouches for, with enough of them and
      current ones where asked for. */
  ghost predicate Backed(c: Body, s: Session)
    requires c.Claim?
  {
    && (forall r :: r in c.evidence ==> VouchedFor(s.events, r))
    && (c.claimKind.Fact? || (c.claimKind.Recommendation? && s.highStakes) ==> c.evidence != [])
    && (c.requiresCurrent || (s.requiresCurrent && c.claimKind.Fact?) ==>
          exists r :: r in c.evidence && CurrentFor(s.events, r))
  }

  /** More than 0.9 sure of something that is no fact, with nothing vouched for. */
  ghost predicate Bold(c: Body, s: Session)
    requires c.Claim?
  {
    && (c.claimKind.Reasoning? || c.claimKind.Uncertainty?) && c.confidence > 0.9
    && forall r :: r in c.evidence ==> !VouchedFor(s.events, r)
  }

  predicate Written(t: Event) {
    t.body.Tool? && t.body.effect.Write? && t.body.status.Success?
  }

  ghost predicate Silent(s: Session) {
    exists d :: d in s.events && d.id == s.draft && d.body.AssistantDraft? && d.body.noSignal
  }

  /** A silent draft that says, claims, proposes or has done something. */
  ghost predicate SilentWithContent(s: Session) {
    && Silent(s)
    && (|| (exists d :: d in s.events && d.id == s.draft && d.body.AssistantDraft? && NonBlank(d.body.response))
        || (exists e :: e in s.events && (BoundClaim(e, s.draft) || BoundProposal(e, s.draft) || Written(e))))
  }

  /** The draft strays from what was asked. */
  ghost predicate Misaligned(s: Session) {
    exists d :: d in s.events && d.id == s.draft && d.body.AssistantDraft? && d.body.intentAlignment < 0.65
  }

  ghost predicate Contradicted(s: Session) {
    exists e :: e in s.events && BoundContradiction(e, s.draft)
  }

  ghost predicate Overclaims(s: Session) {
    exists e :: e in s.events && BoundClaim(e, s.draft) && Bold(e.body, s)
  }

  /** Something is proposed, with much at stake, that could not be undone. */
  ghost predicate ProposesRisk(s: Session) {
    exists e :: e in s.events && BoundProposal(e, s.draft) && s.highStakes
                && !P.Recoverable(e.body.reversible, e.body.recovery)
  }

  /** Something was done without leave given before, or that cannot be undone. */
  ghost predicate ActedAtWill(s: Session) {
    exists t :: t in s.events && Written(t)
                && !(AuthorizedBefore(s.events, t) && P.Recoverable(t.body.toolReversible, t.body.toolRecovery))
  }

  /** The session gives a ground for revising its draft. */
  ghost predicate Faulty(s: Session) {
    Misaligned(s) || Contradicted(s) || SilentWithContent(s) || Overclaims(s) || ProposesRisk(s) || ActedAtWill(s)
  }

  /** The session leaves its draft without evidence it needs. */
  ghost predicate Wanting(s: Session) {
    || (s.highStakes && !Silent(s) && forall e :: e in s.events ==> !BoundClaim(e, s.draft))
    || (s.requiresCurrent && !Silent(s) &&
          forall e :: e in s.events && BoundClaim(e, s.draft) ==> !e.body.claimKind.Fact?)
    || (exists e :: e in s.events && BoundClaim(e, s.draft) && !Backed(e.body, s))
  }

  /** Two contradictions of the draft have the same text. */
  ghost predicate RepeatsItself(s: Session) {
    exists e, f :: e in s.events && f in s.events && e.id != f.id
      && BoundContradiction(e, s.draft) && BoundContradiction(f, s.draft)
      && e.body.contradictionText == f.body.contradictionText
  }

  // ----- claims -----

  lemma {:induction false} BackedIff(s: Session, es: seq<Event>, b: B.Bundle, e: Event)
    requires DistinctIds(es) && ValidReferences(es) && (forall x :: x in es <==> x in s.events)
    requires b.sources == ExportedSources(es) && b.tools == ExportedTools(es)
    requires b.highStakes == s.highStakes && b.requiresCurrent == s.requiresCurrent
    requires e.body.Claim? && forall i :: 0 <= i < |e.body.evidence| ==> !Shadowed(s.events, e.body.evidence[i])
    ensures V.Backed(ExportClaim(e, es), b) <==> Backed(e.body, s)
  {
    var e0 := e.(body := e.body.(confidence := 0.0));
    ClaimIff(s, es, b, e0);
    V.BackedIfSupported(ExportClaim(e, es), b);
    assert ExportClaim(e0, es) == ExportClaim(e, es).(confidence := 0.0);
    hide V.Backed, P.Supported, ExportClaim, VouchedFor, CurrentFor, Shadowed, ValidReferences, DistinctIds,
         ExportedSources, ExportedTools;
    var refs := e.body.evidence;
    assert forall i :: 0 <= i < |refs| ==> refs[i] in refs;
  }

  lemma {:induction false} BoldIff(s: Session, es: seq<Event>, b: B.Bundle, e: Event)
    requires DistinctIds(es) && ValidReferences(es) && (forall x :: x in es <==> x in s.events)
    requires b.sources == ExportedSources(es) && b.tools == ExportedTools(es)
    requires e.body.Claim? && forall i :: 0 <= i < |e.body.evidence| ==> !Shadowed(s.events, e.body.evidence[i])
    ensures V.Bold(ExportClaim(e, es), b) <==> Bold(e.body, s)
  {
    var refs, hs := e.body.evidence, ExportClaim(e, es).handles;
    forall i | 0 <= i < |refs| ensures V.Vouched(hs[i], b) <==> VouchedFor(s.events, refs[i]) {
      SameEvidence(es, s.events, refs[i]);
      CitationIff(es, b, refs[i]);
    }
    hide V.Vouched, VouchedFor, Shadowed, HandleOf, ValidReferences, DistinctIds, ExportedSources, ExportedTools;
    assert forall i :: 0 <= i < |refs| ==> refs[i] in refs && hs[i] in hs;
  }

  lemma {:induction false} ClaimGrounds(s: Session, es: seq<Event>, b: B.Bundle)
    requires DistinctIds(es) && ValidReferences(es) && (forall x :: x in es <==> x in s.events) && NoShadow(s)
    requires b.sources == ExportedSources(es) && b.tools == ExportedTools(es) && b.claims == ExportedClaims(es, s.draft)
    requires b.highStakes == s.highStakes && b.requiresCurrent == s.requiresCurrent
    ensures (exists c :: c in b.claims && V.Bold(c, b)) <==> Overclaims(s)
    ensures (exists c :: c in b.claims && !V.Backed(c, b)) <==>
            exists e :: e in s.events && BoundClaim(e, s.draft) && !Backed(e.body, s)
    ensures (forall c :: c in b.claims ==> !c.kind.Fact?) <==>
            forall e :: e in s.events && BoundClaim(e, s.draft) ==> !e.body.claimKind.Fact?
    ensures b.claims == [] <==> forall e :: e in s.events ==> !BoundClaim(e, s.draft)
  {
    ClaimMembers(es, s.draft);
    forall e | e in es && BoundClaim(e, s.draft)
      ensures V.Bold(ExportClaim(e, es), b) <==> Bold(e.body, s)
      ensures V.Backed(ExportClaim(e, es), b) <==> Backed(e.body, s)
      ensures ExportClaim(e, es).kind == e.body.claimKind
    {
      BoldIff(s, es, b, e);
      BackedIff(s, es, b, e);
    }
    hide ExportedClaims, V.Bold, V.Backed, Bold, Backed, ExportClaim, ValidReferences, DistinctIds, ExportedSources,
         ExportedTools, NoShadow;
    assert b.claims != [] ==> b.claims[0] in b.claims;
    forall e | e in es && BoundClaim(e, s.draft) ensures ExportClaim(e, es) in b.claims {}
  }

  // ----- actions and contradictions -----

  lemma {:induction false} WrittenIff(s: Session, es: seq<Event>, ts: seq<B.Tool>)
    requires (forall x :: x in es <==> x in s.events) && ts == ExportedTools(es)
    ensures (exists t :: t in ts && B.IsPerformed(t)) <==> exists t :: t in s.events && Written(t)
  {
    ToolMembers(es);
    hide ExportedTools, IsAuthorized;
    forall e | e in es && e.body.Tool? ensures ExportTool(e, es) in ts {}
  }

  lemma {:induction false} ProposedIff(s: Session, es: seq<Event>, xs: seq<B.Action>)
    requires (forall x :: x in es <==> x in s.events) && xs == ExportedProposals(es, s.draft)
    ensures xs == [] <==> forall e :: e in s.events ==> !BoundProposal(e, s.draft)
  {
    ProposalMembers(es, s.draft);
    hide ExportedProposals, ExportProposal;
    assert xs != [] ==> xs[0] in xs;
    forall e | e in es && BoundProposal(e, s.draft) ensures ExportProposal(e, es) in xs {}
  }

  /** The contradictions of the draft, and their texts in the same order. */
  lemma {:induction false} TextsAre(s: Session, es: seq<Event>)
    requires DistinctIds(es) && (forall x :: x in es <==> x in s.events)
    ensures var cs, ts := Contradictions(es, s.draft), ExportedContradictions(es, s.draft);
      && (forall e :: e in cs <==> e in s.events && BoundContradiction(e, s.draft))
      && DistinctIds(cs) && |ts| == |cs|
      && (forall i :: 0 <= i < |cs| ==> cs[i].body.Contradiction? && ts[i] == cs[i].body.contradictionText)
  {
    SelectedIds(es, ContradictionOf(s.draft));
    FilterMembers(es, ContradictionOf(s.draft));
    var cs := Contradictions(es, s.draft);
    assert forall i :: 0 <= i < |cs| ==> cs[i] in cs;
  }

  lemma {:induction false} OtherIds(es: seq<Event>, i: nat, j: nat)
    requires DistinctIds(es) && i < j < |es|
    ensures es[i].id != es[j].id
  {
  }

  lemma {:induction false} TextsDistinctIff(s: Session, es: seq<Event>)
    requires DistinctIds(es) && (forall x :: x in es <==> x in s.events)
    ensures Distinct(ExportedContradictions(es, s.draft)) <==> !RepeatsItself(s)
  {
    TextsAre(s, es);
    hide Contradictions, ExportedContradictions, DistinctIds;
    if RepeatsItself(s) {
      RepeatsInList(s, Contradictions(es, s.draft), ExportedContradictions(es, s.draft));
    } else {
      RepeatsInSession(s, Contradictions(es, s.draft), ExportedContradictions(es, s.draft));
    }
  }

  lemma {:induction false} RepeatsInList(s: Session, cs: seq<Event>, ts: seq<string>)
    requires (forall e :: e in cs <==> e in s.events && BoundContradiction(e, s.draft)) && RepeatsItself(s)
    requires |ts| == |cs|
    requires forall i :: 0 <= i < |cs| ==> cs[i].body.Contradiction? && ts[i] == cs[i].body.contradictionText
    ensures !Distinct(ts)
  {
    var e, f :| e in cs && f in cs && e.id != f.id && e.body.contradictionText == f.body.contradictionText;
    var i :| 0 <= i < |cs| && cs[i] == e;
    var j :| 0 <= j < |cs| && cs[j] == f;
    assert ts[i] == ts[j];
  }

  lemma {:induction false} RepeatsInSession(s: Session, cs: seq<Event>, ts: seq<string>)
    requires (forall e :: e in cs <==> e in s.events && BoundContradiction(e, s.draft)) && !RepeatsItself(s)
    requires DistinctIds(cs)
    requires |ts| == |cs|
    requires forall i :: 0 <= i < |cs| ==> cs[i].body.Contradiction? && ts[i] == cs[i].body.contradictionText
    ensures Distinct(ts)
  {
    hide DistinctIds;
    forall i, j | 0 <= i < j < |ts| ensures ts[i] != ts[j] {
      OtherIds(cs, i, j);
      assert cs[i] in s.events && cs[j] in s.events;
    }
  }

  lemma {:induction false} ContradictedIff(s: Session, es: seq<Event>)
    requires forall x :: x in es <==> x in s.events
    ensures ExportedContradictions(es, s.draft) != [] <==> Contradicted(s)
  {
    NoContradictions(es, s.draft);
  }

  // ----- the grounds of a bundle are those of its session -----

  /** What the one event of the draft says. */
  lemma {:induction false} DraftSays(s: Session, es: seq<Event>, d: Event)
    requires DistinctIds(es) && (forall x :: x in es <==> x in s.events)
    requires d in es && d.id == s.draft && d.body.AssistantDraft?
    ensures Silent(s) <==> d.body.noSignal
    ensures Misaligned(s) <==> d.body.intentAlignment < 0.65
    ensures (exists x :: x in s.events && x.id == s.draft && x.body.AssistantDraft? && NonBlank(x.body.response))
      <==> NonBlank(d.body.response)
  {
    UniqueById(es, s.draft);
    hide NonBlank, DistinctIds;
  }

  lemma {:induction false} SilenceIff(s: Session, es: seq<Event>, b: B.Bundle, d: Event)
    requires DistinctIds(es) && (forall x :: x in es <==> x in s.events)
    requires b.tools == ExportedTools(es) && b.actions == ExportedProposals(es, s.draft)
    requires b.claims == [] <==> forall e :: e in s.events ==> !BoundClaim(e, s.draft)
    requires d in es && d.id == s.draft && d.body.AssistantDraft?
    requires b.noSignal == d.body.noSignal && b.response == d.body.response
    ensures (b.noSignal && (NonBlank(b.response) || b.claims != [] || b.actions != []
                            || exists t :: t in b.tools && B.IsPerformed(t)))
      <==> SilentWithContent(s)
  {
    DraftSays(s, es, d);
    ProposedIff(s, es, b.actions);
    WrittenIff(s, es, b.tools);
    hide Silent, B.IsPerformed, NonBlank, DistinctIds, ExportedTools, ExportedProposals, BoundClaim, BoundProposal,
         Written;
  }

  lemma {:induction false} HarmIff(s: Session, es: seq<Event>, b: B.Bundle)
    requires DistinctIds(es) && ValidReferences(es) && (forall x :: x in es <==> x in s.events)
    requires b.tools == ExportedTools(es) && b.actions == ExportedProposals(es, s.draft)
    ensures (exists a :: a in b.actions && s.highStakes && !P.Recoverable(a.reversible, a.recovery)) <==>
            ProposesRisk(s)
    ensures (exists t :: t in b.tools && B.IsPerformed(t) && !(t.authorized && P.Recoverable(t.reversible, t.recovery)))
      <==> ActedAtWill(s)
  {
    ToolsIff(s, es, b.tools);
    ProposalsIff(s, es, b.actions);
    hide P.Recoverable, AuthorizedBefore, DistinctIds, ValidReferences, ExportedTools, ExportedProposals, B.IsPerformed;
  }

  lemma {:induction false} FaultyIff(s: Session, es: seq<Event>, b: B.Bundle, d: Event)
    requires DistinctIds(es) && ValidReferences(es) && (forall x :: x in es <==> x in s.events) && NoShadow(s)
    requires b.sources == ExportedSources(es) && b.tools == ExportedTools(es) && b.claims == ExportedClaims(es, s.draft)
    requires b.highStakes == s.highStakes && b.requiresCurrent == s.requiresCurrent
    requires d in es && d.id == s.draft && d.body.AssistantDraft? && b.noSignal == d.body.noSignal
    requires b.actions == ExportedProposals(es, s.draft) && b.contradictions == ExportedContradictions(es, s.draft)
    requires b.intentAlignment == d.body.intentAlignment && b.response == d.body.response
    ensures V.Faulty(b) <==> Faulty(s)
  {
    DraftSays(s, es, d);
    ClaimGrounds(s, es, b);
    SilenceIff(s, es, b, d);
    HarmIff(s, es, b);
    ContradictedIff(s, es);
    hide V.Bold, V.Backed, P.Recoverable, DistinctIds, ValidReferences, ExportedSources, ExportedTools, ExportedClaims,
         ExportedProposals, ExportedContradictions, NoShadow, B.IsPerformed, NonBlank,
         Misaligned, Contradicted, SilentWithContent, Overclaims, ProposesRisk, ActedAtWill;
  }

  lemma {:induction false} WantingIff(s: Session, es: seq<Event>, b: B.Bundle, d: Event)
    requires DistinctIds(es) && ValidReferences(es) && (forall x :: x in es <==> x in s.events) && NoShadow(s)
    requires b.sources == ExportedSources(es) && b.tools == ExportedTools(es) && b.claims == ExportedClaims(es, s.draft)
    requires b.highStakes == s.highStakes && b.requiresCurrent == s.requiresCurrent
    requires d in es && d.id == s.draft && d.body.AssistantDraft? && b.noSignal == d.body.noSignal
    ensures V.Wanting(b) <==> Wanting(s)
    ensures b.noSignal <==> Silent(s)
  {
    DraftSays(s, es, d);
    ClaimGrounds(s, es, b);
    hide V.Bold, V.Backed, Bold, Backed, DistinctIds, ValidReferences, ExportedSources, ExportedTools, ExportedClaims,
         NoShadow, NonBlank, Silent, BoundClaim;
  }

  lemma {:induction false} SessionGrounds(s: Session, es: seq<Event>)
    requires Ready(s, es) && NoShadow(s)
    ensures Find(es, s.request).Some? && Find(es, s.request).value.body.UserMessage?
    ensures Find(es, s.draft).Some? && Find(es, s.draft).value.body.AssistantDraft?
    ensures V.Faulty(Bundled(s, es)) <==> Faulty(s)
    ensures V.Wanting(Bundled(s, es)) <==> Wanting(s)
    ensures Bundled(s, es).noSignal <==> Silent(s)
  {
    ReadyFacts(s, es);
    FindMeans(es, s.draft);
    hide Ready, Find, V.Faulty, V.Wanting, Faulty, Wanting, Silent, NoShadow, DistinctIds, ValidReferences, ValidEvent;
    FaultyIff(s, es, Bundled(s, es), Find(es, s.draft).value);
    WantingIff(s, es, Bundled(s, es), Find(es, s.draft).value);
  }

  /** The verdict on a bundle the next stages accept. */
  lemma {:induction false} BundleVerdict(s: Session)
    requires Export(s).Some? && B.ValidBundle(Export(s).value)
    ensures var b := Export(s).value;
      && Pipeline(s).Some?
      && (Pipeline(s) == Some(A.Revise) <==> V.Faulty(b))
      && (Pipeline(s) == Some(A.Verify) <==> !V.Faulty(b) && V.Wanting(b))
      && (Pipeline(s) == Some(A.NoSignal) <==> !V.Faulty(b) && !V.Wanting(b) && b.noSignal)
      && (Pipeline(s) == Some(A.Allow) <==> !V.Faulty(b) && !V.Wanting(b) && !b.noSignal)
  {
    var b := Export(s).value;
    PipelineRuns(s);
    V.SameGrounds(b);
    V.NormalIs(b);
    PacketVerdicts.VerdictMeans(B.Normal(b));
    hide *;
  }

  /** End to end, for every session the exporter accepts that has no shadowed
      citation: which verdict it ends in, and when it ends in none. */
  lemma {:induction false} VerdictIff(s: Session)
    requires ValidSession(s) && NoShadow(s)
    ensures Pipeline(s).None? <==> RepeatsItself(s)
    ensures Pipeline(s) == Some(A.Revise) <==> Faulty(s) && !RepeatsItself(s)
    ensures Pipeline(s) == Some(A.Verify) <==> !Faulty(s) && Wanting(s)
    ensures Pipeline(s) == Some(A.NoSignal) <==> !Faulty(s) && !Wanting(s) && Silent(s)
    ensures Pipeline(s) == Some(A.Allow) <==> !Faulty(s) && !Wanting(s) && !Silent(s)
  {
    var es := SortEvents(s.events);
    hide *;
    ExportIs(s);
    SessionGrounds(s, es);
    TextsDistinctIff(s, es);
    NoShadowNoClash(s, es);
    ExportAcceptedIff(s);
    if RepeatsItself(s) {
      PipelineStops(s);
      RepeatsIsFaulty(s);
    } else {
      BundleVerdict(s);
    }
  }

  lemma {:induction false} RepeatsIsFaulty(s: Session)
    requires RepeatsItself(s)
    ensures Faulty(s)
  {
  }
}
