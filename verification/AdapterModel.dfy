/** The response gate: the packet it accepts and the verdict it gives. */
module AdapterModel {
  import opened Options
  import opened Text
  import opened Records

  datatype ActionMode = Proposed | Performed

  datatype Evidence = Evidence(id: string, verified: bool, freshness: Freshness, kind: SourceKind, locator: string)

  datatype Claim = Claim(
    id: string, text: string, kind: ClaimKind, confidence: real, requiresCurrent: bool, refs: seq<string>)

  datatype Action = Action(
    id: string, description: string, mode: ActionMode, reversible: bool, authorized: bool, recovery: Option<string>)

  datatype Packet = Packet(
    schema: SchemaField, requestId: string, intent: string, highStakes: bool, requiresCurrent: bool,
    response: string, noSignal: bool, intentAlignment: real,
    claims: seq<Claim>, actions: seq<Action>, contradictions: seq<string>, evidence: seq<Evidence>)

  // ----- validate_input -----

  predicate ValidClaim(c: Claim) {
    NonBlank(c.id) && NonBlank(c.text) && UnitInterval(c.confidence) && NonBlankList(c.refs) && Distinct(c.refs)
  }

  predicate ValidAction(a: Action) {
    NonBlank(a.id) && NonBlank(a.description) && AbsentOrNonBlank(a.recovery)
  }

  predicate ValidPacket(p: Packet) {
    && p.schema.Expected? && NonBlank(p.requestId) && NonBlank(p.intent)
    && (p.noSignal || NonBlank(p.response)) && UnitInterval(p.intentAlignment)
    && (forall i :: 0 <= i < |p.evidence| ==> NonBlank(p.evidence[i].id) && NonBlank(p.evidence[i].locator))
    && (forall i, j :: 0 <= i < j < |p.evidence| ==> p.evidence[i].id != p.evidence[j].id)
    && (forall i :: 0 <= i < |p.claims| ==> ValidClaim(p.claims[i]))
    && (forall i, j :: 0 <= i < j < |p.claims| ==> p.claims[i].id != p.claims[j].id)
    && (forall i :: 0 <= i < |p.actions| ==> ValidAction(p.actions[i]))
    && (forall i, j :: 0 <= i < j < |p.actions| ==> p.actions[i].id != p.actions[j].id)
    && NonBlankList(p.contradictions)
  }

  // ----- evaluate_packet -----

  const INTENT_ALIGNMENT_MIN: real := 0.65
  const UNSUPPORTED_CONFIDENCE_MAX: real := 0.90

  datatype Issue =
    | NoReferences | UnknownReferences | NoVerifiedEvidence | UnverifiedEvidence | NoCurrentEvidence

  datatype Reason =
    | IntentBelowMinimum | DeclaredContradiction(text: string) | NoSignalWithContent
    | Overconfident(claim: string) | Unauthorized(action: string) | NoRecoveryPlan(action: string)
    | RiskyProposal(action: string)
    | NoClaims | NoFactClaim | ClaimIssue(claim: string, issue: Issue)

  datatype Decision = Allow | Revise | Verify | NoSignal

  datatype Advice = Advice(decision: Decision, revision: seq<Reason>, verification: seq<Reason>)

  /** Some cited evidence item satisfies `p`. */
  predicate AnyCited(refs: seq<string>, evidence: seq<Evidence>, p: Evidence -> bool) {
    exists i :: 0 <= i < |evidence| && evidence[i].id in refs && p(evidence[i])
  }

  predicate Exists(id: string, evidence: seq<Evidence>) {
    exists j :: 0 <= j < |evidence| && evidence[j].id == id
  }

  predicate AllKnown(refs: seq<string>, evidence: seq<Evidence>) {
    forall i :: 0 <= i < |refs| ==> Exists(refs[i], evidence)
  }

  predicate NeedsEvidence(c: Claim, highStakes: bool) {
    c.kind.Fact? || (c.kind.Recommendation? && highStakes)
  }

  predicate NeedsCurrent(c: Claim, requiresCurrent: bool) {
    c.requiresCurrent || (requiresCurrent && c.kind.Fact?)
  }

  /** Which issue a claim has. */
  predicate HasIssue(c: Claim, p: Packet, issue: Issue) {
    match issue
    case NoReferences => NeedsEvidence(c, p.highStakes) && c.refs == []
    case UnknownReferences => !AllKnown(c.refs, p.evidence)
    case NoVerifiedEvidence =>
      NeedsEvidence(c, p.highStakes) && c.refs != [] && !AnyCited(c.refs, p.evidence, (e: Evidence) => e.verified)
    case UnverifiedEvidence => AnyCited(c.refs, p.evidence, (e: Evidence) => !e.verified)
    case NoCurrentEvidence =>
      NeedsCurrent(c, p.requiresCurrent)
      && !AnyCited(c.refs, p.evidence, (e: Evidence) => e.verified && e.freshness.Current?)
  }

  predicate IsOverconfident(c: Claim, p: Packet) {
    && (c.kind.Reasoning? || c.kind.Uncertainty?)
    && c.confidence > UNSUPPORTED_CONFIDENCE_MAX
    && !AnyCited(c.refs, p.evidence, (e: Evidence) => e.verified)
  }

  function When(condition: bool, reason: Reason): seq<Reason> {
    if condition then [reason] else []
  }

  function IssuesOf(c: Claim, p: Packet): seq<Reason> {
    When(HasIssue(c, p, NoReferences), ClaimIssue(c.id, NoReferences))
    + When(HasIssue(c, p, UnknownReferences), ClaimIssue(c.id, UnknownReferences))
    + When(HasIssue(c, p, NoVerifiedEvidence), ClaimIssue(c.id, NoVerifiedEvidence))
    + When(HasIssue(c, p, UnverifiedEvidence), ClaimIssue(c.id, UnverifiedEvidence))
    + When(HasIssue(c, p, NoCurrentEvidence), ClaimIssue(c.id, NoCurrentEvidence))
  }

  predicate NoPlan(a: Action) { !a.reversible && (a.recovery.None? || a.recovery.value == "") }

  function FindingsOf(a: Action, highStakes: bool): seq<Reason> {
    When(a.mode.Performed? && !a.authorized, Unauthorized(a.id))
    + When(a.mode.Performed? && NoPlan(a), NoRecoveryPlan(a.id))
    + When(a.mode.Proposed? && highStakes && NoPlan(a), RiskyProposal(a.id))
  }

  function Concat<T>(s: seq<T>, f: T -> seq<Reason>): seq<Reason> {
    if s == [] then [] else Concat(s[..|s| - 1], f) + f(s[|s| - 1])
  }

  function Revision(p: Packet): seq<Reason> {
    When(p.intentAlignment < INTENT_ALIGNMENT_MIN, IntentBelowMinimum)
    + Map(p.contradictions, (t: string) => DeclaredContradiction(t))
    + When(p.noSignal && (NonBlank(p.response) || p.claims != [] || p.actions != []), NoSignalWithContent)
    + Concat(p.claims, (c: Claim) => When(IsOverconfident(c, p), Overconfident(c.id)))
    + Concat(p.actions, (a: Action) => FindingsOf(a, p.highStakes))
  }

  function Verification(p: Packet): seq<Reason> {
    When(!p.noSignal && p.highStakes && p.claims == [], NoClaims)
    + When(!p.noSignal && p.requiresCurrent && forall i :: 0 <= i < |p.claims| ==> !p.claims[i].kind.Fact?, NoFactClaim)
    + Concat(p.claims, (c: Claim) => IssuesOf(c, p))
  }

  function Decide(p: Packet): Decision {
    if Revision(p) != [] then Revise
    else if Verification(p) != [] then Verify
    else if p.noSignal then NoSignal
    else Allow
  }

  /** The whole gate: None when the packet is not valid. */
  function Evaluate(p: Packet): Option<Advice> {
    if ValidPacket(p) then Some(Advice(Decide(p), Revision(p), Verification(p))) else None
  }

  // ----- what a verdict means -----

  lemma {:induction false} ConcatEmpty<T>(s: seq<T>, f: T -> seq<Reason>)
    ensures Concat(s, f) == [] <==> forall i :: 0 <= i < |s| ==> f(s[i]) == []
  {
    if s != [] { ConcatEmpty(s[..|s| - 1], f); }
  }

  lemma {:induction false} InConcat<T>(s: seq<T>, f: T -> seq<Reason>, r: Reason)
    ensures r in Concat(s, f) <==> exists i :: 0 <= i < |s| && r in f(s[i])
  {
    if s != [] { InConcat(s[..|s| - 1], f, r); }
  }

  /** A claim nothing can be held against. */
  predicate Supported(c: Claim, p: Packet) {
    && AllKnown(c.refs, p.evidence)
    && (forall i :: 0 <= i < |p.evidence| && p.evidence[i].id in c.refs ==> p.evidence[i].verified)
    && (NeedsEvidence(c, p.highStakes) ==> c.refs != [])
    && (NeedsCurrent(c, p.requiresCurrent) ==>
          AnyCited(c.refs, p.evidence, (e: Evidence) => e.verified && e.freshness.Current?))
    && ((c.kind.Reasoning? || c.kind.Uncertainty?) && c.refs == [] ==> c.confidence <= 0.90)
  }

  predicate Harmless(a: Action, highStakes: bool) {
    && (a.mode.Performed? ==> a.authorized && !NoPlan(a))
    && (a.mode.Proposed? && highStakes ==> !NoPlan(a))
  }

  /** When the gate lets a draft through. */
  ghost predicate Deliverable(p: Packet) {
    && !p.noSignal
    && p.intentAlignment >= 0.65
    && p.contradictions == []
    && (p.highStakes ==> p.claims != [])
    && (p.requiresCurrent ==> exists i :: 0 <= i < |p.claims| && p.claims[i].kind.Fact?)
    && (forall i :: 0 <= i < |p.claims| ==> Supported(p.claims[i], p))
    && (forall i :: 0 <= i < |p.actions| ==> Harmless(p.actions[i], p.highStakes))
  }

  lemma {:induction false} FirstKnown(c: Claim, p: Packet)
    requires AllKnown(c.refs, p.evidence) && c.refs != []
    ensures exists i :: 0 <= i < |p.evidence| && p.evidence[i].id in c.refs
  {
    assert Exists(c.refs[0], p.evidence);
    var j :| 0 <= j < |p.evidence| && p.evidence[j].id == c.refs[0];
    assert p.evidence[j].id in c.refs;
  }

  lemma {:induction false} SupportedMeans(c: Claim, p: Packet)
    ensures IssuesOf(c, p) == [] && !IsOverconfident(c, p) <==> Supported(c, p)
  {
    if AllKnown(c.refs, p.evidence) && c.refs != [] { FirstKnown(c, p); }
    if c.refs == [] { assert !AnyCited(c.refs, p.evidence, (e: Evidence) => e.verified); }
  }

  lemma {:induction false} NoRevision(p: Packet)
    ensures Revision(p) == [] <==>
      && p.intentAlignment >= 0.65 && p.contradictions == []
      && !(p.noSignal && (NonBlank(p.response) || p.claims != [] || p.actions != []))
      && (forall i :: 0 <= i < |p.claims| ==> !IsOverconfident(p.claims[i], p))
      && (forall i :: 0 <= i < |p.actions| ==> Harmless(p.actions[i], p.highStakes))
  {
    hide IsOverconfident, FindingsOf, Harmless, NonBlank;
    var f, g := (c: Claim) => When(IsOverconfident(c, p), Overconfident(c.id)),
                (a: Action) => FindingsOf(a, p.highStakes);
    ConcatEmpty(p.claims, f);
    ConcatEmpty(p.actions, g);
    forall i | 0 <= i < |p.actions| ensures g(p.actions[i]) == [] <==> Harmless(p.actions[i], p.highStakes) {
      NoFindings(p.actions[i], p.highStakes);
    }
    hide Concat;
    assert |Map(p.contradictions, (t: string) => DeclaredContradiction(t))| == |p.contradictions|;
  }

  lemma {:induction false} NoFindings(a: Action, highStakes: bool)
    ensures FindingsOf(a, highStakes) == [] <==> Harmless(a, highStakes)
  {
  }

  lemma {:induction false} NoVerification(p: Packet)
    requires !p.noSignal
    ensures Verification(p) == [] <==>
      && (p.highStakes ==> p.claims != [])
      && (p.requiresCurrent ==> exists i :: 0 <= i < |p.claims| && p.claims[i].kind.Fact?)
      && (forall i :: 0 <= i < |p.claims| ==> IssuesOf(p.claims[i], p) == [])
  {
    ConcatEmpty(p.claims, (c: Claim) => IssuesOf(c, p));
    hide Concat, IssuesOf;
  }

  /** ALLOW is given to exactly the deliverable packets. */
  lemma {:induction false} AllowMeans(p: Packet)
    ensures Decide(p) == Allow <==> Deliverable(p)
  {
    NoRevision(p);
    if !p.noSignal { NoVerification(p); }
    forall i | 0 <= i < |p.claims|
      ensures IssuesOf(p.claims[i], p) == [] && !IsOverconfident(p.claims[i], p) <==> Supported(p.claims[i], p)
    {
      SupportedMeans(p.claims[i], p);
    }
    hide Revision, Verification, IssuesOf, IsOverconfident, Supported, Harmless, NonBlank;
  }

  // ----- better evidence -----

  /** `q` is `p` with some evidence items turned verified or current. */
  ghost predicate BetterEvidence(p: Packet, q: Packet) {
    && q == p.(evidence := q.evidence) && |q.evidence| == |p.evidence|
    && forall i :: 0 <= i < |p.evidence| ==>
         && q.evidence[i].id == p.evidence[i].id
         && (p.evidence[i].verified ==> q.evidence[i].verified)
         && (p.evidence[i].freshness.Current? ==> q.evidence[i].freshness.Current?)
  }

  function Severity(d: Decision): nat {
    match d case Revise => 2 case Verify => 1 case NoSignal => 0 case Allow => 0
  }

  lemma {:induction false} BetterAny(refs: seq<string>, p: Packet, q: Packet)
    requires BetterEvidence(p, q)
    ensures AllKnown(refs, p.evidence) ==> AllKnown(refs, q.evidence)
    ensures AnyCited(refs, p.evidence, (e: Evidence) => e.verified) ==>
            AnyCited(refs, q.evidence, (e: Evidence) => e.verified)
    ensures AnyCited(refs, q.evidence, (e: Evidence) => !e.verified) ==>
            AnyCited(refs, p.evidence, (e: Evidence) => !e.verified)
    ensures AnyCited(refs, p.evidence, (e: Evidence) => e.verified && e.freshness.Current?) ==>
            AnyCited(refs, q.evidence, (e: Evidence) => e.verified && e.freshness.Current?)
  {
    forall id | Exists(id, p.evidence) ensures Exists(id, q.evidence) {
      var j :| 0 <= j < |p.evidence| && p.evidence[j].id == id;
      assert q.evidence[j].id == id;
    }
  }

  lemma {:induction false} BetterIssues(c: Claim, p: Packet, q: Packet)
    requires BetterEvidence(p, q)
    ensures forall r :: r in IssuesOf(c, q) ==> r in IssuesOf(c, p)
    ensures IsOverconfident(c, q) ==> IsOverconfident(c, p)
  {
    BetterAny(c.refs, p, q);
    assert NeedsEvidence(c, q.highStakes) == NeedsEvidence(c, p.highStakes);
    assert NeedsCurrent(c, q.requiresCurrent) == NeedsCurrent(c, p.requiresCurrent);
    hide AllKnown, AnyCited, BetterEvidence, NeedsEvidence, NeedsCurrent;
  }

  /** Verifying evidence or making it current only ever removes reasons, and the
      verdict only moves from REVISE to VERIFY to ALLOW or NO_SIGNAL. */
  lemma {:induction false} BetterEvidenceHelps(p: Packet, q: Packet)
    requires BetterEvidence(p, q)
    ensures forall r :: r in Revision(q) ==> r in Revision(p)
    ensures forall r :: r in Verification(q) ==> r in Verification(p)
    ensures Severity(Decide(q)) <= Severity(Decide(p))
    ensures Severity(Decide(p)) == 0 ==> Decide(q) == Decide(p)
  {
    hide Revision, Verification, BetterEvidence;
    forall r | r in Revision(q) ensures r in Revision(p) {
      BetterRevision(p, q, r);
    }
    forall r | r in Verification(q) ensures r in Verification(p) {
      BetterVerification(p, q, r);
    }
    NoMore(Revision(q), Revision(p));
    NoMore(Verification(q), Verification(p));
    assert q.noSignal == p.noSignal by { SameSignal(p, q); }
  }

  lemma {:induction false} SameSignal(p: Packet, q: Packet)
    requires BetterEvidence(p, q)
    ensures q.noSignal == p.noSignal
  {
  }

  lemma {:induction false} NoMore(a: seq<Reason>, b: seq<Reason>)
    requires forall r :: r in a ==> r in b
    ensures b == [] ==> a == []
  {
    if a != [] { assert a[0] in b; }
  }

  lemma {:induction false} BetterRevision(p: Packet, q: Packet, r: Reason)
    requires BetterEvidence(p, q) && r in Revision(q)
    ensures r in Revision(p)
  {
    var f, g := (c: Claim) => When(IsOverconfident(c, p), Overconfident(c.id)),
                (c: Claim) => When(IsOverconfident(c, q), Overconfident(c.id));
    InConcat(p.claims, f, r);
    InConcat(q.claims, g, r);
    forall i | 0 <= i < |p.claims| ensures r in g(p.claims[i]) ==> r in f(p.claims[i]) {
      BetterIssues(p.claims[i], p, q);
    }
    hide Concat, IsOverconfident, FindingsOf;
  }

  lemma {:induction false} BetterVerification(p: Packet, q: Packet, r: Reason)
    requires BetterEvidence(p, q) && r in Verification(q)
    ensures r in Verification(p)
  {
    InConcat(q.claims, (c: Claim) => IssuesOf(c, q), r);
    InConcat(p.claims, (c: Claim) => IssuesOf(c, p), r);
    forall i | 0 <= i < |p.claims| ensures r in IssuesOf(p.claims[i], q) ==> r in IssuesOf(p.claims[i], p) {
      BetterIssues(p.claims[i], p, q);
    }
    hide Concat, IssuesOf;
  }
}
