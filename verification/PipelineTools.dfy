/** The three tools step by step: lists, sets and maps grown in loops. Each is
    proved to compute the stage it implements. */
module PipelineTools {
  import opened Options
  import opened Text
  import opened Records
  import opened SessionModel
  import opened SessionProofs
  import B = BundleModel
  import A = AdapterModel

  // ----- shared checks -----

  /** Are all entries different? One pass with the set of those seen. */
  method AllDifferent(ids: seq<string>) returns (ok: bool)
    ensures ok <==> Distinct(ids)
  {
    var seen: set<string> := {};
    for k := 0 to |ids|
      invariant forall x :: x in seen <==> exists i :: 0 <= i < k && ids[i] == x
      invariant Distinct(ids[..k])
    {
      assert ids[..k + 1] == ids[..k] + [ids[k]];
      if ids[k] in seen {
        return false;
      }
      seen := seen + {ids[k]};
    }
    assert ids[..|ids|] == ids;
    return true;
  }

  method AllSatisfy<T>(xs: seq<T>, p: T -> bool) returns (ok: bool)
    ensures ok <==> forall i :: 0 <= i < |xs| ==> p(xs[i])
  {
    for k := 0 to |xs|
      invariant forall i :: 0 <= i < k ==> p(xs[i])
    {
      if !p(xs[k]) {
        return false;
      }
    }
    return true;
  }

  // ----- the gate -----

  method ValidateInput(p: A.Packet) returns (ok: bool)
    ensures ok <==> A.ValidPacket(p)
  {
    hide NonBlank, A.ValidClaim, A.ValidAction, NonBlankList;
    var evidence := AllSatisfy(p.evidence, (e: A.Evidence) => NonBlank(e.id) && NonBlank(e.locator));
    var evidenceIds := AllDifferent(Map(p.evidence, (e: A.Evidence) => e.id));
    var claims := AllSatisfy(p.claims, (c: A.Claim) => A.ValidClaim(c));
    var claimIds := AllDifferent(Map(p.claims, (c: A.Claim) => c.id));
    var actions := AllSatisfy(p.actions, (a: A.Action) => A.ValidAction(a));
    var actionIds := AllDifferent(Map(p.actions, (a: A.Action) => a.id));
    ok := p.schema.Expected? && NonBlank(p.requestId) && NonBlank(p.intent)
      && evidence && evidenceIds && (p.noSignal || NonBlank(p.response))
      && claims && claimIds && actions && actionIds && NonBlankList(p.contradictions)
      && UnitInterval(p.intentAlignment);
  }

  /** What the references of one claim resolve to. */
  method ResolveRefs(refs: seq<string>, evidence: seq<A.Evidence>, byId: map<string, A.Evidence>)
    returns (missing: bool, verified: bool, unverified: bool, current: bool)
    requires ById(byId, evidence)
    ensures missing <==> !A.AllKnown(refs, evidence)
    ensures verified <==> A.AnyCited(refs, evidence, (e: A.Evidence) => e.verified)
    ensures unverified <==> A.AnyCited(refs, evidence, (e: A.Evidence) => !e.verified)
    ensures current <==> A.AnyCited(refs, evidence, (e: A.Evidence) => e.verified && e.freshness.Current?)
  {
    missing, verified, unverified, current := false, false, false, false;
    for k := 0 to |refs|
      invariant missing <==> exists i :: 0 <= i < k && refs[i] !in byId
      invariant verified <==> exists i :: 0 <= i < k && refs[i] in byId && byId[refs[i]].verified
      invariant unverified <==> exists i :: 0 <= i < k && refs[i] in byId && !byId[refs[i]].verified
      invariant current <==> exists i :: 0 <= i < k && refs[i] in byId && byId[refs[i]].verified
                                         && byId[refs[i]].freshness.Current?
    {
      if refs[k] !in byId {
        missing := true;
      } else {
        var e := byId[refs[k]];
        if e.verified { verified := true; } else { unverified := true; }
        if e.verified && e.freshness.Current? { current := true; }
      }
    }
    CitedIff(refs, evidence, byId, (e: A.Evidence) => e.verified);
    CitedIff(refs, evidence, byId, (e: A.Evidence) => !e.verified);
    CitedIff(refs, evidence, byId, (e: A.Evidence) => e.verified && e.freshness.Current?);
    KnownIff(refs, evidence, byId);
    hide A.AnyCited, A.AllKnown, ById;
  }

  method ClaimIssues(c: A.Claim, p: A.Packet, byId: map<string, A.Evidence>)
    returns (issues: seq<A.Reason>, verified: bool)
    requires ById(byId, p.evidence)
    ensures issues == A.IssuesOf(c, p)
    ensures verified == A.AnyCited(c.refs, p.evidence, (e: A.Evidence) => e.verified)
  {
    hide A.AnyCited, A.AllKnown, ById;
    var missing, unverified, current;
    missing, verified, unverified, current := ResolveRefs(c.refs, p.evidence, byId);
    issues := [];
    if A.NeedsEvidence(c, p.highStakes) && c.refs == [] {
      issues := issues + [A.ClaimIssue(c.id, A.NoReferences)];
    }
    if missing {
      issues := issues + [A.ClaimIssue(c.id, A.UnknownReferences)];
    }
    if A.NeedsEvidence(c, p.highStakes) && c.refs != [] && !verified {
      issues := issues + [A.ClaimIssue(c.id, A.NoVerifiedEvidence)];
    }
    if unverified {
      issues := issues + [A.ClaimIssue(c.id, A.UnverifiedEvidence)];
    }
    if A.NeedsCurrent(c, p.requiresCurrent) && !current {
      issues := issues + [A.ClaimIssue(c.id, A.NoCurrentEvidence)];
    }
  }

  /** The dictionary of evidence items by id. */
  ghost predicate ById(m: map<string, A.Evidence>, es: seq<A.Evidence>) {
    && (forall id :: id in m ==> m[id] in es && m[id].id == id)
    && (forall e :: e in es ==> e.id in m && m[e.id] == e)
  }

  lemma {:induction false} CitedIff(
      refs: seq<string>, es: seq<A.Evidence>, m: map<string, A.Evidence>, q: A.Evidence -> bool)
    requires ById(m, es)
    ensures A.AnyCited(refs, es, q) <==> exists i :: 0 <= i < |refs| && refs[i] in m && q(m[refs[i]])
  {
    if A.AnyCited(refs, es, q) {
      var j :| 0 <= j < |es| && es[j].id in refs && q(es[j]);
      var i :| 0 <= i < |refs| && refs[i] == es[j].id;
      assert es[j] in es;
      assert refs[i] in m && q(m[refs[i]]);
    }
    if i :| 0 <= i < |refs| && refs[i] in m && q(m[refs[i]]) {
      var j :| 0 <= j < |es| && es[j] == m[refs[i]];
      assert es[j].id in refs;
    }
  }

  lemma {:induction false} KnownIff(refs: seq<string>, es: seq<A.Evidence>, m: map<string, A.Evidence>)
    requires ById(m, es)
    ensures A.AllKnown(refs, es) <==> !exists i :: 0 <= i < |refs| && refs[i] !in m
  {
    forall id ensures A.Exists(id, es) <==> id in m {
      if id in m { var j :| 0 <= j < |es| && es[j] == m[id]; }
      if A.Exists(id, es) { var j :| 0 <= j < |es| && es[j].id == id; assert es[j] in es; }
    }
  }

  method EvaluatePacket(p: A.Packet) returns (r: Option<A.Advice>)
    ensures r == A.Evaluate(p)
  {
    hide A.ValidPacket;
    var ok := ValidateInput(p);
    if !ok {
      return None;
    }
    var byId := EvidenceById(p);
    var revision, verification := HeaderReasons(p);
    var r1, v1 := ClaimReasons(p, byId);
    var r2 := ActionReasons(p);
    revision, verification := revision + r1 + r2, verification + v1;
    assert revision == A.Revision(p) && verification == A.Verification(p);
    hide A.Revision, A.Verification;
    var decision := if revision != [] then A.Revise
                    else if verification != [] then A.Verify
                    else if p.noSignal then A.NoSignal else A.Allow;
    r := Some(A.Advice(decision, revision, verification));
  }

  method EvidenceById(p: A.Packet) returns (byId: map<string, A.Evidence>)
    requires A.ValidPacket(p)
    ensures ById(byId, p.evidence)
  {
    byId := map[];
    for k := 0 to |p.evidence|
      invariant forall id :: id in byId ==> byId[id] in p.evidence && byId[id].id == id
      invariant forall i :: 0 <= i < k ==> p.evidence[i].id in byId && byId[p.evidence[i].id] == p.evidence[i]
      invariant forall id :: id in byId ==> exists i :: 0 <= i < k && p.evidence[i].id == id
    {
      byId := byId[p.evidence[k].id := p.evidence[k]];
    }
  }

  /** The reasons that come before the claims are looked at. */
  method HeaderReasons(p: A.Packet) returns (revision: seq<A.Reason>, verification: seq<A.Reason>)
    ensures revision == A.When(p.intentAlignment < A.INTENT_ALIGNMENT_MIN, A.IntentBelowMinimum)
      + Map(p.contradictions, (t: string) => A.DeclaredContradiction(t))
      + A.When(p.noSignal && (NonBlank(p.response) || p.claims != [] || p.actions != []), A.NoSignalWithContent)
    ensures verification == A.When(!p.noSignal && p.highStakes && p.claims == [], A.NoClaims)
      + A.When(!p.noSignal && p.requiresCurrent && forall i :: 0 <= i < |p.claims| ==> !p.claims[i].kind.Fact?,
               A.NoFactClaim)
  {
    revision, verification := [], [];
    if p.intentAlignment < A.INTENT_ALIGNMENT_MIN {
      revision := revision + [A.IntentBelowMinimum];
    }
    ghost var first := revision;
    for k := 0 to |p.contradictions|
      invariant revision == first + Map(p.contradictions[..k], (t: string) => A.DeclaredContradiction(t))
    {
      revision := revision + [A.DeclaredContradiction(p.contradictions[k])];
    }
    assert p.contradictions[..|p.contradictions|] == p.contradictions;
    if p.noSignal {
      if NonBlank(p.response) || p.claims != [] || p.actions != [] {
        revision := revision + [A.NoSignalWithContent];
      }
    } else {
      if p.highStakes && p.claims == [] {
        verification := verification + [A.NoClaims];
      }
      var noFact := AllSatisfy(p.claims, (c: A.Claim) => !c.kind.Fact?);
      if p.requiresCurrent && noFact {
        verification := verification + [A.NoFactClaim];
      }
    }
  }

  method ClaimReasons(p: A.Packet, byId: map<string, A.Evidence>)
    returns (revision: seq<A.Reason>, verification: seq<A.Reason>)
    requires ById(byId, p.evidence)
    ensures revision == A.Concat(p.claims, (c: A.Claim) => A.When(A.IsOverconfident(c, p), A.Overconfident(c.id)))
    ensures verification == A.Concat(p.claims, (c: A.Claim) => A.IssuesOf(c, p))
  {
    hide A.IssuesOf, ById, A.AnyCited;
    revision, verification := [], [];
    for k := 0 to |p.claims|
      invariant revision ==
        A.Concat(p.claims[..k], (c: A.Claim) => A.When(A.IsOverconfident(c, p), A.Overconfident(c.id)))
      invariant verification == A.Concat(p.claims[..k], (c: A.Claim) => A.IssuesOf(c, p))
    {
      var c := p.claims[k];
      assert p.claims[..k + 1][..k] == p.claims[..k];
      var issues, verified := ClaimIssues(c, p, byId);
      if (c.kind.Reasoning? || c.kind.Uncertainty?) && !verified && c.confidence > A.UNSUPPORTED_CONFIDENCE_MAX {
        revision := revision + [A.Overconfident(c.id)];
      }
      verification := verification + issues;
    }
    assert p.claims[..|p.claims|] == p.claims;
  }

  method ActionFindings(a: A.Action, highStakes: bool) returns (findings: seq<A.Reason>)
    ensures findings == A.FindingsOf(a, highStakes)
  {
    findings := [];
    if a.mode.Performed? && !a.authorized {
      findings := findings + [A.Unauthorized(a.id)];
    }
    if a.mode.Performed? && A.NoPlan(a) {
      findings := findings + [A.NoRecoveryPlan(a.id)];
    }
    if a.mode.Proposed? && highStakes && A.NoPlan(a) {
      findings := findings + [A.RiskyProposal(a.id)];
    }
  }

  method ActionReasons(p: A.Packet) returns (revision: seq<A.Reason>)
    ensures revision == A.Concat(p.actions, (a: A.Action) => A.FindingsOf(a, p.highStakes))
  {
    hide A.FindingsOf;
    revision := [];
    for k := 0 to |p.actions|
      invariant revision == A.Concat(p.actions[..k], (a: A.Action) => A.FindingsOf(a, p.highStakes))
    {
      assert p.actions[..k + 1][..k] == p.actions[..k];
      var findings := ActionFindings(p.actions[k], p.highStakes);
      revision := revision + findings;
    }
    assert p.actions[..|p.actions|] == p.actions;
  }

  // ----- the normalizer -----

  method ValidateBundle(b: B.Bundle) returns (ok: bool)
    ensures ok <==> B.ValidBundle(b)
  {
    hide NonBlank, B.ValidClaim, B.ValidAction, B.ValidSource, B.ValidTool, NonBlankList;
    var claims := AllSatisfy(b.claims, (c: B.Claim) => B.ValidClaim(c));
    var claimIds := AllDifferent(Map(b.claims, (c: B.Claim) => c.id));
    var actions := AllSatisfy(b.actions, (a: B.Action) => B.ValidAction(a));
    var actionIds := AllDifferent(Map(b.actions, (a: B.Action) => a.id));
    var sources := AllSatisfy(b.sources, (x: B.Source) => B.ValidSource(x));
    var handles := AllDifferent(Map(b.sources, (x: B.Source) => x.handle));
    var tools := AllSatisfy(b.tools, (t: B.Tool) => B.ValidTool(t));
    var toolIds := AllDifferent(Map(b.tools, (t: B.Tool) => t.id));
    var overlap := (set x | x in b.sources :: x.handle) * (set t | t in b.tools :: t.id);
    var taken := (set a | a in b.actions :: a.id) * (set t | t in b.tools && B.IsPerformed(t) :: t.id);
    OverlapMeans(b);
    ok := b.schema.Expected? && NonBlank(b.requestId) && NonBlank(b.text) && (b.noSignal || NonBlank(b.response))
      && claims && claimIds && actions && actionIds && sources && handles && tools && toolIds
      && overlap == {} && taken == {} && UnitInterval(b.intentAlignment)
      && NonBlankList(b.contradictions) && Distinct(b.contradictions);
  }

  /** Two lists of names have none in common. */
  lemma {:induction false} ApartIff(a: seq<string>, b: seq<string>)
    ensures (set x | x in a) * (set x | x in b) == {} <==>
      forall i, j :: 0 <= i < |a| && 0 <= j < |b| ==> a[i] != b[j]
  {
    var s, t := set x | x in a, set x | x in b;
    if s * t == {} {
      forall i, j | 0 <= i < |a| && 0 <= j < |b| ensures a[i] != b[j] { assert a[i] !in s * t; }
    } else {
      var x :| x in s * t;
    }
  }

  lemma {:induction false} OverlapMeans(b: B.Bundle)
    ensures (set x | x in b.sources :: x.handle) * (set t | t in b.tools :: t.id) == {} <==>
      forall i, j :: 0 <= i < |b.sources| && 0 <= j < |b.tools| ==> b.sources[i].handle != b.tools[j].id
    ensures (set a | a in b.actions :: a.id) * (set t | t in b.tools && B.IsPerformed(t) :: t.id) == {} <==>
      forall i, j :: 0 <= i < |b.actions| && 0 <= j < |b.tools| && B.IsPerformed(b.tools[j]) ==>
        b.actions[i].id != b.tools[j].id
  {
    HandlesApart(b);
    ActionsApart(b);
  }

  lemma {:induction false} HandlesApart(b: B.Bundle)
    ensures (set x | x in b.sources :: x.handle) * (set t | t in b.tools :: t.id) == {} <==>
      forall i, j :: 0 <= i < |b.sources| && 0 <= j < |b.tools| ==> b.sources[i].handle != b.tools[j].id
  {
    var hs, ids := Map(b.sources, (x: B.Source) => x.handle), Map(b.tools, (t: B.Tool) => t.id);
    assert (set x | x in b.sources :: x.handle) == set h | h in hs by {
      assert forall i :: 0 <= i < |b.sources| ==> hs[i] == b.sources[i].handle && b.sources[i] in b.sources;
    }
    assert (set t | t in b.tools :: t.id) == set h | h in ids by {
      assert forall i :: 0 <= i < |b.tools| ==> ids[i] == b.tools[i].id && b.tools[i] in b.tools;
    }
    ApartIff(hs, ids);
  }

  lemma {:induction false} ActionsApart(b: B.Bundle)
    ensures (set a | a in b.actions :: a.id) * (set t | t in b.tools && B.IsPerformed(t) :: t.id) == {} <==>
      forall i, j :: 0 <= i < |b.actions| && 0 <= j < |b.tools| && B.IsPerformed(b.tools[j]) ==>
        b.actions[i].id != b.tools[j].id
  {
    hide B.IsPerformed;
    var as_, ws := set a | a in b.actions :: a.id, set t | t in b.tools && B.IsPerformed(t) :: t.id;
    if as_ * ws == {} {
      forall i, j | 0 <= i < |b.actions| && 0 <= j < |b.tools| && B.IsPerformed(b.tools[j])
        ensures b.actions[i].id != b.tools[j].id
      {
        assert b.actions[i] in b.actions && b.tools[j] in b.tools;
        assert b.actions[i].id in as_ && b.tools[j].id in ws;
        assert b.actions[i].id !in as_ * ws;
      }
    } else {
      var x :| x in as_ * ws;
    }
  }

  /** Which evidence id each known handle stands for. */
  ghost predicate Resolves(m: map<string, string>, b: B.Bundle) {
    forall h :: (if h in m then m[h] else B.MissingId(h)) == B.Resolve(h, b)
  }

  method SourceItems(b: B.Bundle) returns (evidence: seq<A.Evidence>, references: map<string, string>)
    ensures evidence == Map(b.sources, (x: B.Source) => B.SourceEvidence(x))
    ensures forall h :: h in references <==> B.IsSource(h, b.sources)
    ensures forall h :: h in references ==> references[h] == B.SourceId(h)
  {
    hide B.SourceId;
    evidence, references := [], map[];
    for k := 0 to |b.sources|
      invariant evidence == Map(b.sources[..k], (x: B.Source) => B.SourceEvidence(x))
      invariant forall h :: h in references <==> exists i :: 0 <= i < k && b.sources[i].handle == h
      invariant forall h :: h in references ==> references[h] == B.SourceId(h)
    {
      var x := b.sources[k];
      references := references[x.handle := B.SourceId(x.handle)];
      evidence := evidence + [B.SourceEvidence(x)];
    }
    assert b.sources[..|b.sources|] == b.sources;
  }

  /** The references after the tool events `ts`, on top of those there at the start. */
  ghost predicate ToolReferences(references: map<string, string>, start: map<string, string>, ts: seq<B.Tool>) {
    && (forall h :: h in references <==> h in start || B.IsEligibleTool(h, ts))
    && (forall h :: h in references ==>
          references[h] == if B.IsEligibleTool(h, ts) then B.ToolId(h) else if h in start then start[h] else "")
  }

  function EvidenceOf(ts: seq<B.Tool>): seq<A.Evidence> {
    Map(B.EligibleTools(ts), (t: B.Tool) => B.ToolEvidence(t))
  }

  method ToolItems(b: B.Bundle, start: map<string, string>)
    returns (evidence: seq<A.Evidence>, references: map<string, string>)
    ensures evidence == EvidenceOf(b.tools)
    ensures ToolReferences(references, start, b.tools)
  {
    evidence, references := [], start;
    NoEligibleTools(b.tools, start);
    hide B.ToolId, B.ToolEvidence, EvidenceOf, ToolReferences;
    for k := 0 to |b.tools|
      invariant evidence == EvidenceOf(b.tools[..k])
      invariant ToolReferences(references, start, b.tools[..k])
    {
      var t := b.tools[k];
      EvidenceGrows(b.tools, k);
      ReferencesGrow(references, start, b.tools, k);
      if t.eligible {
        references := references[t.id := B.ToolId(t.id)];
        evidence := evidence + [B.ToolEvidence(t)];
      }
    }
    assert b.tools[..|b.tools|] == b.tools;
  }

  lemma {:induction false} NoEligibleTools(ts: seq<B.Tool>, start: map<string, string>)
    ensures EvidenceOf(ts[..0]) == [] && ToolReferences(start, start, ts[..0])
  {
  }

  lemma {:induction false} EvidenceGrows(ts: seq<B.Tool>, k: nat)
    requires k < |ts|
    ensures ts[k].eligible ==> EvidenceOf(ts[..k + 1]) == EvidenceOf(ts[..k]) + [B.ToolEvidence(ts[k])]
    ensures !ts[k].eligible ==> EvidenceOf(ts[..k + 1]) == EvidenceOf(ts[..k])
  {
    hide B.ToolEvidence;
    assert ts[..k + 1] == ts[..k] + [ts[k]];
    FilterAppend(ts[..k], [ts[k]], (t: B.Tool) => t.eligible);
  }

  lemma {:induction false} ReferencesGrow(m: map<string, string>, start: map<string, string>, ts: seq<B.Tool>, k: nat)
    requires k < |ts| && ToolReferences(m, start, ts[..k])
    ensures ts[k].eligible ==> ToolReferences(m[ts[k].id := B.ToolId(ts[k].id)], start, ts[..k + 1])
    ensures !ts[k].eligible ==> ToolReferences(m, start, ts[..k + 1])
  {
    EligibleGrows(ts, k);
    hide B.IsEligibleTool, B.ToolId;
  }

  lemma {:induction false} EligibleGrows(ts: seq<B.Tool>, k: nat)
    requires k < |ts|
    ensures forall h :: B.IsEligibleTool(h, ts[..k + 1]) <==>
      B.IsEligibleTool(h, ts[..k]) || (ts[k].eligible && ts[k].id == h)
  {
    var a, b := ts[..k], ts[..k + 1];
    forall h | B.IsEligibleTool(h, a) ensures B.IsEligibleTool(h, b) {
      var i :| 0 <= i < |a| && a[i].eligible && a[i].id == h;
      assert b[i] == a[i];
    }
    assert b[k] == ts[k];
  }

  method NormalizeBundle(b: B.Bundle) returns (r: Option<A.Packet>)
    ensures r == B.Normalize(b)
  {
    hide B.ValidBundle;
    var ok := ValidateBundle(b);
    if !ok {
      return None;
    }
    var e1, known := SourceItems(b);
    var e2, references := ToolItems(b, known);
    ReferencesResolve(b, known, references);
    var claims := NormalClaims(b, references);
    var actions := NormalActions(b);
    r := Some(A.Packet(Expected, b.requestId, b.text, b.highStakes, b.requiresCurrent, b.response, b.noSignal,
                       b.intentAlignment, claims, actions, b.contradictions, e1 + e2));
  }

  lemma {:induction false} ReferencesResolve(b: B.Bundle, known: map<string, string>, references: map<string, string>)
    requires B.ValidBundle(b)
    requires forall h :: h in known <==> B.IsSource(h, b.sources)
    requires forall h :: h in known ==> known[h] == B.SourceId(h)
    requires ToolReferences(references, known, b.tools)
    ensures Resolves(references, b)
  {
    hide B.SourceId, B.ToolId, B.MissingId, B.ValidDraft;
    forall h ensures !(B.IsSource(h, b.sources) && B.IsEligibleTool(h, b.tools)) {
    }
  }

  method NormalClaims(b: B.Bundle, references: map<string, string>) returns (claims: seq<A.Claim>)
    requires Resolves(references, b)
    ensures claims == Map(b.claims, (c: B.Claim) => B.NormalClaim(c, b))
  {
    hide B.Resolve, B.MissingId;
    claims := [];
    for k := 0 to |b.claims|
      invariant claims == Map(b.claims[..k], (c: B.Claim) => B.NormalClaim(c, b))
    {
      var c := b.claims[k];
      var refs: seq<string> := [];
      for n := 0 to |c.handles|
        invariant |refs| == n && forall i :: 0 <= i < n ==> refs[i] == B.Resolve(c.handles[i], b)
      {
        var h := c.handles[n];
        refs := refs + [if h in references then references[h] else B.MissingId(h)];
      }
      assert refs == B.NormalClaim(c, b).refs;
      claims := claims + [A.Claim(c.id, c.text, c.kind, c.confidence, c.requiresCurrent, refs)];
    }
    assert b.claims[..|b.claims|] == b.claims;
  }

  method NormalActions(b: B.Bundle) returns (actions: seq<A.Action>)
    ensures actions == Map(b.actions, (a: B.Action) => B.ProposedAction(a))
      + Map(B.PerformedTools(b.tools), (t: B.Tool) => B.PerformedAction(t))
  {
    hide B.PerformedAction, B.ProposedAction;
    actions := [];
    for k := 0 to |b.actions|
      invariant actions == Map(b.actions[..k], (a: B.Action) => B.ProposedAction(a))
    {
      actions := actions + [B.ProposedAction(b.actions[k])];
    }
    assert b.actions[..|b.actions|] == b.actions;
    ghost var proposed := actions;
    hide B.PerformedTools, B.IsPerformed;
    NoPerformedTools(b.tools);
    for k := 0 to |b.tools|
      invariant actions == proposed + Map(B.PerformedTools(b.tools[..k]), (t: B.Tool) => B.PerformedAction(t))
    {
      var t := b.tools[k];
      PerformedToolsGrow(b.tools, k);
      if t.effect.Write? && t.status.Success? {
        actions := actions + [B.PerformedAction(t)];
      }
    }
    assert b.tools[..|b.tools|] == b.tools;
  }

  lemma {:induction false} NoPerformedTools(ts: seq<B.Tool>)
    ensures B.PerformedTools(ts[..0]) == []
  {
  }

  lemma {:induction false} PerformedToolsGrow(ts: seq<B.Tool>, k: nat)
    requires k < |ts|
    ensures ts[k].effect.Write? && ts[k].status.Success? ==>
      B.PerformedTools(ts[..k + 1]) == B.PerformedTools(ts[..k]) + [ts[k]]
    ensures !(ts[k].effect.Write? && ts[k].status.Success?) ==>
      B.PerformedTools(ts[..k + 1]) == B.PerformedTools(ts[..k])
  {
    assert ts[..k + 1] == ts[..k] + [ts[k]];
    FilterAppend(ts[..k], [ts[k]], (t: B.Tool) => B.IsPerformed(t));
  }

  // ----- the exporter -----

  /** The authorization edges of the events, in order. */
  function Edges(es: seq<Event>): seq<(string, string)> {
    if es == [] then [] else Edges(es[..|es| - 1]) + EdgesOf(es[|es| - 1])
  }

  function EdgesOf(e: Event): seq<(string, string)> {
    if e.body.Authorization? then Map(e.body.authorized, (t: string) => (e.id, t)) else []
  }

  /** The targets of the edges are exactly the authorized events. */
  lemma {:induction false} EdgeTargets(es: seq<Event>)
    ensures forall id :: IsAuthorized(es, id) <==> exists p :: p in Edges(es) && p.1 == id
  {
    if es != [] {
      var k := |es| - 1;
      EdgeTargets(es[..k]);
      forall id ensures IsAuthorized(es, id) <==>
        IsAuthorized(es[..k], id) || (es[k].body.Authorization? && id in es[k].body.authorized)
      {
        assert forall e :: e in es <==> e in es[..k] || e == es[k];
      }
      EdgesOfMeans(es[k]);
      hide EdgesOf, IsAuthorized;
      assert Edges(es) == Edges(es[..k]) + EdgesOf(es[k]);
    }
  }

  lemma {:induction false} EdgesOfMeans(e: Event)
    ensures forall id :: (exists p :: p in EdgesOf(e) && p.1 == id) <==>
      e.body.Authorization? && id in e.body.authorized
  {
    if e.body.Authorization? {
      var ps, ts := EdgesOf(e), e.body.authorized;
      assert forall i :: 0 <= i < |ts| ==> ps[i] == (e.id, ts[i]);
      forall id | id in ts ensures (e.id, id) in ps {
        var i :| 0 <= i < |ts| && ts[i] == id;
        assert ps[i] == (e.id, id);
      }
    }
  }

  method CheckBound(es: seq<Event>) returns (ok: bool)
    ensures ok <==> forall e :: e in es && BoundDraft(e.body).Some? ==> HasDraft(es, BoundDraft(e.body).value)
  {
    var drafts := set e | e in es && e.body.AssistantDraft? :: e.id;
    assert forall id :: id in drafts <==> HasDraft(es, id);
    hide HasDraft;
    for k := 0 to |es|
      invariant forall i :: 0 <= i < k && BoundDraft(es[i].body).Some? ==> HasDraft(es, BoundDraft(es[i].body).value)
    {
      if BoundDraft(es[k].body).Some? && BoundDraft(es[k].body).value !in drafts {
        assert es[k] in es;
        return false;
      }
    }
    return true;
  }

  method CheckHandles(es: seq<Event>) returns (ok: bool)
    requires DistinctIds(es)
    ensures ok <==>
      && (forall e, f :: e in es && f in es && e.body.Source? && f.body.Source? && e.id != f.id ==>
            e.body.handle != f.body.handle)
      && (forall e, f :: e in es && f in es && e.body.Source? && f.body.Tool? ==> e.body.handle != f.id)
  {
    var ss := Sources(es);
    var distinct := AllDifferent(Map(ss, (e: Event) requires e.body.Source? => e.body.handle));
    var tools := set e | e in es && e.body.Tool? :: e.id;
    var overlap := (set e | e in es && e.body.Source? :: e.body.handle) * tools;
    HandlesDifferIff(es);
    OverlapIff(es);
    return distinct && overlap == {};
  }

  lemma {:induction false} OverlapIff(es: seq<Event>)
    ensures (set e | e in es && e.body.Source? :: e.body.handle) * (set e | e in es && e.body.Tool? :: e.id) == {} <==>
      forall e, f :: e in es && f in es && e.body.Source? && f.body.Tool? ==> e.body.handle != f.id
  {
    var hs, ids := set e | e in es && e.body.Source? :: e.body.handle, set e | e in es && e.body.Tool? :: e.id;
    forall e, f | e in es && f in es && e.body.Source? && f.body.Tool? ensures e.body.handle in hs && f.id in ids {}
    if hs * ids == {} {
      forall e, f | e in es && f in es && e.body.Source? && f.body.Tool? ensures e.body.handle != f.id {
        assert e.body.handle !in hs * ids;
      }
    } else {
      var x :| x in hs * ids;
    }
  }

  lemma {:induction false} HandlesDifferIff(es: seq<Event>)
    requires DistinctIds(es)
    ensures Distinct(Map(Sources(es), (e: Event) requires e.body.Source? => e.body.handle)) <==>
      forall e, f :: e in es && f in es && e.body.Source? && f.body.Source? && e.id != f.id ==>
        e.body.handle != f.body.handle
  {
    var ss := Sources(es);
    var id := (e: Event) => e.id;
    FilterDistinct(es, SOURCE_EVENT, id);
    forall i, j | 0 <= i < j < |ss| ensures ss[i].id != ss[j].id { assert id(ss[i]) != id(ss[j]); }
    forall e | e in es && e.body.Source? ensures e in ss { FilterKeeps(es, SOURCE_EVENT, e); }
    assert forall e :: e in ss ==> e in es && e.body.Source?;
    hide Sources, DistinctIds;
    HandlesOf(es, ss);
  }

  lemma {:induction false} HandlesOf(es: seq<Event>, ss: seq<Event>)
    requires forall e :: e in ss <==> e in es && e.body.Source?
    requires forall i, j :: 0 <= i < j < |ss| ==> ss[i].id != ss[j].id
    ensures Distinct(Map(ss, (e: Event) requires e.body.Source? => e.body.handle)) <==>
      forall e, f :: e in es && f in es && e.body.Source? && f.body.Source? && e.id != f.id ==>
        e.body.handle != f.body.handle
  {
    var hs := Map(ss, (e: Event) requires e.body.Source? => e.body.handle);
    if Distinct(hs) {
      forall e, f | e in es && f in es && e.body.Source? && f.body.Source? && e.id != f.id
        ensures e.body.handle != f.body.handle
      {
        var i :| 0 <= i < |ss| && ss[i] == e;
        var j :| 0 <= j < |ss| && ss[j] == f;
        assert hs[i] == e.body.handle && hs[j] == f.body.handle;
      }
    } else {
      var i, j :| 0 <= i < j < |hs| && hs[i] == hs[j];
      assert ss[i] in ss && ss[j] in ss && ss[i].body.handle == ss[j].body.handle && ss[i].id != ss[j].id;
    }
  }

  /** The edges, or None when one of them is not allowed. */
  method CollectEdges(es: seq<Event>) returns (r: Option<seq<(string, string)>>)
    requires DistinctIds(es)
    ensures r.Some? <==> forall e :: e in es && e.body.Authorization? ==>
      forall i :: 0 <= i < |e.body.authorized| ==> Authorizable(es, e.body.authorized[i], e.sequence)
    ensures r.Some? ==> r.value == Edges(es)
  {
    var edges: seq<(string, string)> := [];
    for k := 0 to |es|
      invariant edges == Edges(es[..k])
      invariant forall n :: 0 <= n < k && es[n].body.Authorization? ==>
        forall i :: 0 <= i < |es[n].body.authorized| ==> Authorizable(es, es[n].body.authorized[i], es[n].sequence)
    {
      assert es[..k + 1][..k] == es[..k] && es[k] in es;
      if es[k].body.Authorization? {
        var ok := CheckTargets(es, es[k].body.authorized, es[k].sequence);
        if !ok {
          return None;
        }
        edges := edges + EdgesOf(es[k]);
      }
    }
    assert es[..|es|] == es;
    return Some(edges);
  }

  method CheckTargets(es: seq<Event>, ids: seq<string>, sequence: nat) returns (ok: bool)
    requires DistinctIds(es)
    ensures ok <==> forall i :: 0 <= i < |ids| ==> Authorizable(es, ids[i], sequence)
  {
    for k := 0 to |ids|
      invariant forall i :: 0 <= i < k ==> Authorizable(es, ids[i], sequence)
    {
      var target := Find(es, ids[k]);
      FindMeans(es, ids[k]);
      if target.None? || !(target.value.body.Tool? || target.value.body.Proposal?)
         || sequence >= target.value.sequence {
        return false;
      }
    }
    return true;
  }

  /** Insertion sort by sequence number. */
  method Sort(es: seq<Event>) returns (r: seq<Event>)
    ensures r == SortEvents(es)
  {
    r := [];
    for k := 0 to |es|
      invariant r == SortEvents(es[..k])
    {
      assert es[..k + 1][..k] == es[..k];
      r := InsertEvent(r, es[k]);
    }
    assert es[..|es|] == es;
  }

  /** The validated events in sequence and the authorization edges. */
  method ValidateSession(s: Session) returns (r: Option<(seq<Event>, seq<(string, string)>)>)
    ensures r.Some? <==> ValidSession(s)
    ensures r.Some? ==> r.value == (SortEvents(s.events), Edges(SortEvents(s.events)))
  {
    hide NonBlank, ValidEvent, SortEvents;
    if !(s.schema.Expected? && s.captureComplete && NonBlank(s.id) && NonBlank(s.request) && NonBlank(s.draft)) {
      return None;
    }
    var fields := AllSatisfy(s.events, (e: Event) => ValidEvent(e));
    var ids := AllDifferent(Map(s.events, (e: Event) => e.id));
    var sequences := DifferentSequences(s.events);
    if !(fields && ids && sequences) {
      return None;
    }
    var es := Sort(s.events);
    PermutedEvents(es, s.events);
    SameSession(s, es);
    var selected := CheckSelection(es, s.request, s.draft);
    if !selected {
      return None;
    }
    hide HasMessage, HasDraft;
    var bound := CheckBound(es);
    var handles := CheckHandles(es);
    var edges := CollectEdges(es);
    if !bound || !handles || edges.None? {
      return None;
    }
    return Some((es, edges.value));
  }

  /** The selected request and draft are events of the right kinds. */
  method CheckSelection(es: seq<Event>, requestId: string, draftId: string) returns (ok: bool)
    requires DistinctIds(es)
    ensures ok <==> HasMessage(es, requestId) && HasDraft(es, draftId)
  {
    FindMeans(es, requestId);
    FindMeans(es, draftId);
    hide Find, DistinctIds;
    var request, draft := Find(es, requestId), Find(es, draftId);
    return request.Some? && request.value.body.UserMessage? && draft.Some? && draft.value.body.AssistantDraft?;
  }

  lemma {:induction false} SameSession(s: Session, es: seq<Event>)
    requires forall e :: e in es <==> e in s.events
    ensures ValidReferences(es) <==> ValidReferences(s.events)
    ensures HasMessage(es, s.request) <==> HasMessage(s.events, s.request)
    ensures HasDraft(es, s.draft) <==> HasDraft(s.events, s.draft)
  {
    if ValidReferences(es) { SameReferences(s.events, es); }
    if ValidReferences(s.events) { SameReferences(es, s.events); }
  }

  method DifferentSequences(es: seq<Event>) returns (ok: bool)
    ensures ok <==> DistinctSequences(es)
  {
    var seen: set<nat> := {};
    for k := 0 to |es|
      invariant forall x :: x in seen <==> exists i :: 0 <= i < k && es[i].sequence == x
      invariant forall i, j :: 0 <= i < j < k ==> es[i].sequence != es[j].sequence
    {
      if es[k].sequence in seen {
        return false;
      }
      seen := seen + {es[k].sequence};
    }
    return true;
  }

  /** The handles of the claims' citations, looked up one by one. */
  method ExportClaims(es: seq<Event>, draft: string) returns (claims: seq<B.Claim>)
    ensures claims == ExportedClaims(es, draft)
  {
    hide HandleOf;
    claims := [];
    var cs := Claims(es, draft);
    for k := 0 to |cs|
      invariant |claims| == k
      invariant forall i :: 0 <= i < k ==> cs[i] in cs && claims[i] == ExportClaim(cs[i], es)
    {
      assert cs[k] in cs;
      var c := cs[k].body;
      var handles: seq<string> := [];
      for n := 0 to |c.evidence|
        invariant |handles| == n && forall i :: 0 <= i < n ==> handles[i] == HandleOf(es, c.evidence[i])
      {
        var h := ExportHandle(es, c.evidence[n]);
        handles := handles + [h];
      }
      assert handles == ExportClaim(cs[k], es).handles;
      claims := claims + [B.Claim(cs[k].id, c.claimText, c.claimKind, c.confidence, c.requiresCurrent, handles)];
    }
  }

  method ExportHandle(es: seq<Event>, reference: string) returns (h: string)
    ensures h == HandleOf(es, reference)
  {
    var e := Find(es, reference);
    if e.Some? && e.value.body.Source? {
      return e.value.body.handle;
    } else if e.Some? && e.value.body.Tool? && e.value.body.eligible {
      return reference;
    }
    return Unresolved(reference);
  }

  method ExportSession(s: Session) returns (r: Option<B.Bundle>)
    ensures r == Export(s)
  {
    hide ValidSession, SortEvents, Edges, HandleOf, IsAuthorized;
    var valid := ValidateSession(s);
    if valid.None? {
      return None;
    }
    var (es, edges) := valid.value;
    SortedIsReady(s);
    ReadyFacts(s, es);
    EdgeTargets(es);
    var targets := set p | p in edges :: p.1;
    assert forall id :: id in targets <==> IsAuthorized(es, id);
    var claims := ExportClaims(es, s.draft);
    var proposals := ExportActions(Proposals(es, s.draft), es, targets);
    var tools := ExportTools(es, targets);
    var request, draft := Find(es, s.request).value.body, Find(es, s.draft).value.body;
    assert proposals == ExportedProposals(es, s.draft);
    r := Some(B.Bundle(Expected, s.id, request.text, s.highStakes, s.requiresCurrent,
                       draft.response, draft.noSignal, draft.intentAlignment,
                       claims, proposals, ExportedContradictions(es, s.draft), ExportedSources(es), tools));
    hide ExportedClaims, ExportedProposals, ExportedTools, ExportedSources, ExportedContradictions, Ready;
  }

  method ExportActions(ps: seq<Event>, es: seq<Event>, targets: set<string>) returns (actions: seq<B.Action>)
    requires forall id :: id in targets <==> IsAuthorized(es, id)
    requires forall e :: e in ps ==> e.body.Proposal?
    ensures |actions| == |ps| && forall i :: 0 <= i < |ps| ==> ps[i] in ps && actions[i] == ExportProposal(ps[i], es)
  {
    hide IsAuthorized;
    actions := [];
    for k := 0 to |ps|
      invariant |actions| == k
      invariant forall i :: 0 <= i < k ==> ps[i] in ps && actions[i] == ExportProposal(ps[i], es)
    {
      assert ps[k] in ps;
      var p := ps[k].body;
      actions := actions + [B.Action(ps[k].id, p.description, p.reversible, ps[k].id in targets, p.recovery)];
    }
  }

  method ExportTools(es: seq<Event>, targets: set<string>) returns (tools: seq<B.Tool>)
    requires forall id :: id in targets <==> IsAuthorized(es, id)
    ensures tools == ExportedTools(es)
  {
    hide IsAuthorized;
    tools := [];
    var ts := Tools(es);
    for k := 0 to |ts|
      invariant |tools| == k
      invariant forall i :: 0 <= i < k ==> ts[i] in ts && tools[i] == ExportTool(ts[i], es)
    {
      assert ts[k] in ts;
      var t := ts[k].body;
      tools := tools + [B.Tool(ts[k].id, t.tool, t.operation, t.status, t.effect, t.eligible, t.toolFreshness,
                               t.toolLocator, t.toolReversible, ts[k].id in targets, t.toolRecovery)];
    }
  }
}
