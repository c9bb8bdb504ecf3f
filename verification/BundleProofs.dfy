/** What the translation of a bundle into a packet preserves. */
module BundleProofs {
  import opened Options
  import opened Text
  import opened Records
  import opened BundleModel
  import A = AdapterModel

  // ----- every translated bundle is a valid packet -----

  lemma {:induction false} EvidenceIsFilledIn(b: Bundle)
    requires ValidEvidence(b)
    ensures var es := Normal(b).evidence;
            forall i :: 0 <= i < |es| ==> NonBlank(es[i].id) && NonBlank(es[i].locator)
  {
    hide NonBlank, SourceId, ToolId, MissingId;
    var es, n, ts := Normal(b).evidence, |b.sources|, EligibleTools(b.tools);
    forall i | 0 <= i < |es| ensures NonBlank(es[i].id) && NonBlank(es[i].locator) {
      if i < n {
        assert ValidSource(b.sources[i]);
        IdsApart(b.sources[i].handle, "");
      } else {
        assert ts[i - n] in b.tools && ts[i - n].eligible;
        IdsApart(ts[i - n].id, "");
      }
    }
  }

  lemma {:induction false} EvidenceIdsDistinct(b: Bundle)
    requires ValidEvidence(b)
    ensures var es := Normal(b).evidence; forall i, j :: 0 <= i < j < |es| ==> es[i].id != es[j].id
  {
    hide NonBlank, SourceId, ToolId, MissingId, ValidTool, ValidSource;
    var es, n, ts := Normal(b).evidence, |b.sources|, EligibleTools(b.tools);
    FilterDistinct(b.tools, (t: Tool) => t.eligible, (t: Tool) => t.id);
    forall i, j | 0 <= i < j < |es| ensures es[i].id != es[j].id {
      if j < n {
        IdsApart(b.sources[i].handle, b.sources[j].handle);
      } else if i < n {
        IdsApart(b.sources[i].handle, ts[j - n].id);
      } else {
        assert ts[i - n].id != ts[j - n].id;
        IdsApart(ts[i - n].id, ts[j - n].id);
      }
    }
  }

  lemma {:induction false} ClaimIsValid(c: Claim, b: Bundle)
    requires ValidClaim(c)
    ensures A.ValidClaim(NormalClaim(c, b))
  {
    var refs := NormalClaim(c, b).refs;
    forall i | 0 <= i < |refs| ensures NonBlank(refs[i]) {
      IdsApart(c.handles[i], "");
    }
    forall i, j | 0 <= i < j < |refs| ensures refs[i] != refs[j] {
      if refs[i] == refs[j] { ResolveInjective(c.handles[i], c.handles[j], b); }
    }
  }

  lemma {:induction false} ActionsAreValid(b: Bundle)
    requires ValidBundle(b)
    ensures var xs := Normal(b).actions;
            && (forall i :: 0 <= i < |xs| ==> A.ValidAction(xs[i]))
            && (forall i, j :: 0 <= i < j < |xs| ==> xs[i].id != xs[j].id)
  {
    hide UnitInterval, NonBlankList, Distinct;
    var xs, n, ts := Normal(b).actions, |b.actions|, PerformedTools(b.tools);
    FilterDistinct(b.tools, (t: Tool) => IsPerformed(t), (t: Tool) => t.id);
    forall i | 0 <= i < |xs| ensures A.ValidAction(xs[i]) {
      if i < n {
        assert ValidAction(b.actions[i]);
      } else {
        var t := ts[i - n];
        assert t in b.tools && ValidTool(t);
        NonBlankPart(t.tool, ":");
        NonBlankPart(t.tool + ":", t.operation);
      }
    }
    forall i, j | 0 <= i < j < |xs| ensures xs[i].id != xs[j].id {
      if i >= n {
        assert ts[i - n].id != ts[j - n].id;
      } else if j >= n {
        assert ts[j - n] in b.tools && IsPerformed(ts[j - n]);
      }
    }
  }

  /** Every translated bundle is accepted by the gate's validator. */
  lemma {:induction false} NormalizedIsAccepted(b: Bundle)
    requires Normalize(b).Some?
    ensures A.ValidPacket(Normalize(b).value)
  {
    EvidenceIsFilledIn(b);
    EvidenceIdsDistinct(b);
    ActionsAreValid(b);
    forall i | 0 <= i < |b.claims| ensures A.ValidClaim(Normal(b).claims[i]) {
      ClaimIsValid(b.claims[i], b);
    }
    hide A.ValidClaim, A.ValidAction, NormalClaim, ValidClaim, ValidAction;
  }

  // ----- the verdict in terms of handles -----

  predicate KnownHandle(h: string, b: Bundle) {
    IsSource(h, b.sources) || IsEligibleTool(h, b.tools)
  }

  /** Everything known under the handle is verified. */
  predicate VerifiedHandle(h: string, b: Bundle) {
    && (forall i :: 0 <= i < |b.sources| && b.sources[i].handle == h ==> b.sources[i].verified)
    && (forall i :: 0 <= i < |b.tools| && b.tools[i].eligible && b.tools[i].id == h ==> b.tools[i].status.Success?)
  }

  predicate CurrentHandle(h: string, b: Bundle) {
    || (exists i :: 0 <= i < |b.sources| && b.sources[i].handle == h && b.sources[i].verified
                    && b.sources[i].freshness.Current?)
    || (exists i :: 0 <= i < |b.tools| && b.tools[i].eligible && b.tools[i].id == h && b.tools[i].status.Success?
                    && b.tools[i].freshness.Current?)
  }

  predicate Supported(c: Claim, b: Bundle) {
    && (forall i :: 0 <= i < |c.handles| ==> KnownHandle(c.handles[i], b) && VerifiedHandle(c.handles[i], b))
    && (c.kind.Fact? || (c.kind.Recommendation? && b.highStakes) ==> c.handles != [])
    && (c.requiresCurrent || (b.requiresCurrent && c.kind.Fact?) ==>
          exists i :: 0 <= i < |c.handles| && CurrentHandle(c.handles[i], b))
    && ((c.kind.Reasoning? || c.kind.Uncertainty?) && c.handles == [] ==> c.confidence <= 0.90)
  }

  /** The evidence items a handle stands for. */
  ghost predicate StandsFor(h: string, e: A.Evidence, b: Bundle) {
    || (exists i :: 0 <= i < |b.sources| && b.sources[i].handle == h && e == SourceEvidence(b.sources[i]))
    || (exists i :: 0 <= i < |b.tools| && b.tools[i].eligible && b.tools[i].id == h && e == ToolEvidence(b.tools[i]))
  }

  lemma {:induction false} EligibleIsThere(b: Bundle, i: nat)
    requires i < |b.tools| && b.tools[i].eligible
    ensures ToolEvidence(b.tools[i]) in Normal(b).evidence
  {
    hide SourceEvidence, ToolEvidence;
    var ts := EligibleTools(b.tools);
    FilterKeeps(b.tools, (t: Tool) => t.eligible, b.tools[i]);
    var j :| 0 <= j < |ts| && ts[j] == b.tools[i];
    assert Normal(b).evidence[|b.sources| + j] == ToolEvidence(ts[j]);
  }

  lemma {:induction false} ItemIsFrom(e: A.Evidence, b: Bundle)
    requires e in Normal(b).evidence
    ensures (exists i :: 0 <= i < |b.sources| && e == SourceEvidence(b.sources[i]))
         || (exists i :: 0 <= i < |b.tools| && b.tools[i].eligible && e == ToolEvidence(b.tools[i]))
  {
    hide SourceEvidence, ToolEvidence;
    var es, n, ts := Normal(b).evidence, |b.sources|, EligibleTools(b.tools);
    var i :| 0 <= i < |es| && es[i] == e;
    if i < n {
      assert e == SourceEvidence(b.sources[i]);
    } else {
      assert ts[i - n] in b.tools && e == ToolEvidence(ts[i - n]);
      var j :| 0 <= j < |b.tools| && b.tools[j] == ts[i - n];
    }
  }

  /** A handle resolves to the id of exactly the items it stands for. */
  lemma {:induction false} ResolvesTo(h: string, e: A.Evidence, b: Bundle)
    requires ValidEvidence(b)
    ensures e in Normal(b).evidence && e.id == Resolve(h, b) <==> StandsFor(h, e, b)
  {
    hide NonBlank, SourceId, ToolId, MissingId, ValidTool, ValidSource, EligibleTools, Normal;
    if StandsFor(h, e, b) {
      if i :| 0 <= i < |b.sources| && b.sources[i].handle == h && e == SourceEvidence(b.sources[i]) {
        SourceIsThere(b, i);
      } else {
        var i :| 0 <= i < |b.tools| && b.tools[i].eligible && b.tools[i].id == h && e == ToolEvidence(b.tools[i]);
        EligibleIsThere(b, i);
      }
    }
    if e in Normal(b).evidence && e.id == Resolve(h, b) {
      ItemIsFrom(e, b);
      forall g: string ensures g != h ==> Resolve(h, b) != SourceId(g) && Resolve(h, b) != ToolId(g) {
        IdsApart(g, h);
        IdsApart(h, g);
      }
      IdsApart(h, h);
    }
  }

  lemma {:induction false} SourceIsThere(b: Bundle, i: nat)
    requires i < |b.sources|
    ensures SourceEvidence(b.sources[i]) in Normal(b).evidence
  {
    assert Normal(b).evidence[i] == SourceEvidence(b.sources[i]);
  }

  lemma {:induction false} CitedIffStandsFor(c: Claim, e: A.Evidence, b: Bundle)
    requires ValidEvidence(b) && e in Normal(b).evidence
    ensures e.id in NormalClaim(c, b).refs <==> exists i :: 0 <= i < |c.handles| && StandsFor(c.handles[i], e, b)
  {
    var refs := NormalClaim(c, b).refs;
    forall i | 0 <= i < |c.handles| ensures e.id == refs[i] <==> StandsFor(c.handles[i], e, b) {
      ResolvesTo(c.handles[i], e, b);
    }
  }

  lemma {:induction false} KnownIffExists(h: string, b: Bundle)
    requires ValidEvidence(b)
    ensures KnownHandle(h, b) <==> A.Exists(Resolve(h, b), Normal(b).evidence)
  {
    var es := Normal(b).evidence;
    if KnownHandle(h, b) {
      var e;
      if i :| 0 <= i < |b.sources| && b.sources[i].handle == h {
        e := SourceEvidence(b.sources[i]);
      } else {
        var i :| 0 <= i < |b.tools| && b.tools[i].eligible && b.tools[i].id == h;
        e := ToolEvidence(b.tools[i]);
      }
      assert StandsFor(h, e, b);
      ResolvesTo(h, e, b);
      var j :| 0 <= j < |es| && es[j] == e;
    }
    if A.Exists(Resolve(h, b), es) {
      var j :| 0 <= j < |es| && es[j].id == Resolve(h, b);
      ResolvesTo(h, es[j], b);
    }
  }

  lemma {:induction false} VerifiedIff(h: string, b: Bundle)
    requires ValidEvidence(b)
    ensures VerifiedHandle(h, b) <==> forall e :: StandsFor(h, e, b) ==> e.verified
    ensures CurrentHandle(h, b) <==> exists e :: StandsFor(h, e, b) && e.verified && e.freshness.Current?
  {
    hide ValidEvidence;
    forall i | 0 <= i < |b.sources| && b.sources[i].handle == h ensures StandsFor(h, SourceEvidence(b.sources[i]), b) {
    }
    forall i | 0 <= i < |b.tools| && b.tools[i].eligible && b.tools[i].id == h
      ensures StandsFor(h, ToolEvidence(b.tools[i]), b)
    {
    }
  }

  lemma {:induction false} SupportedIff(c: Claim, b: Bundle)
    requires ValidEvidence(b)
    ensures Supported(c, b) <==> A.Supported(NormalClaim(c, b), Normal(b))
  {
    var p, n := Normal(b), NormalClaim(c, b);
    forall i | 0 <= i < |c.handles| ensures KnownHandle(c.handles[i], b) <==> A.Exists(n.refs[i], p.evidence) {
      KnownIffExists(c.handles[i], b);
    }
    VerifiedClaimIff(c, b);
    CurrentClaimIff(c, b);
    hide KnownHandle, VerifiedHandle, CurrentHandle, A.Exists, A.AnyCited;
  }

  lemma {:induction false} VerifiedClaimIff(c: Claim, b: Bundle)
    requires ValidEvidence(b)
    ensures (forall i :: 0 <= i < |c.handles| ==> VerifiedHandle(c.handles[i], b)) <==>
            (forall i :: 0 <= i < |Normal(b).evidence| && Normal(b).evidence[i].id in NormalClaim(c, b).refs ==>
               Normal(b).evidence[i].verified)
  {
    var es, refs := Normal(b).evidence, NormalClaim(c, b).refs;
    forall e | e in es ensures e.id in refs <==> exists i :: 0 <= i < |c.handles| && StandsFor(c.handles[i], e, b) {
      CitedIffStandsFor(c, e, b);
    }
    forall i | 0 <= i < |c.handles|
      ensures VerifiedHandle(c.handles[i], b) <==> forall e :: e in es && StandsFor(c.handles[i], e, b) ==> e.verified
    {
      VerifiedIff(c.handles[i], b);
      forall e | StandsFor(c.handles[i], e, b) ensures e in es { ResolvesTo(c.handles[i], e, b); }
    }
    hide VerifiedHandle, StandsFor, Normal, NormalClaim, ValidEvidence;
    assert forall i :: 0 <= i < |es| ==> es[i] in es;
  }

  lemma {:induction false} CurrentClaimIff(c: Claim, b: Bundle)
    requires ValidEvidence(b)
    ensures (exists i :: 0 <= i < |c.handles| && CurrentHandle(c.handles[i], b)) <==>
            A.AnyCited(NormalClaim(c, b).refs, Normal(b).evidence,
                       (e: A.Evidence) => e.verified && e.freshness.Current?)
  {
    var es, refs := Normal(b).evidence, NormalClaim(c, b).refs;
    forall e | e in es ensures e.id in refs <==> exists i :: 0 <= i < |c.handles| && StandsFor(c.handles[i], e, b) {
      CitedIffStandsFor(c, e, b);
    }
    forall i | 0 <= i < |c.handles|
      ensures CurrentHandle(c.handles[i], b) <==>
              exists e :: e in es && StandsFor(c.handles[i], e, b) && e.verified && e.freshness.Current?
    {
      VerifiedIff(c.handles[i], b);
      forall e | StandsFor(c.handles[i], e, b) ensures e in es { ResolvesTo(c.handles[i], e, b); }
    }
    hide CurrentHandle, StandsFor, Normal, NormalClaim, ValidEvidence;
    assert forall i :: 0 <= i < |es| ==> es[i] in es;
  }

  // ----- the verdict on a bundle -----

  predicate Recoverable(reversible: bool, recovery: Option<string>) {
    reversible || (recovery.Some? && recovery.value != "")
  }

  /** When the gate lets the draft of a bundle through. */
  ghost predicate Deliverable(b: Bundle) {
    && !b.noSignal && b.intentAlignment >= 0.65 && b.contradictions == []
    && (b.highStakes ==> b.claims != [])
    && (b.requiresCurrent ==> exists c :: c in b.claims && c.kind.Fact?)
    && (forall c :: c in b.claims ==> Supported(c, b))
    && (forall a :: a in b.actions && b.highStakes ==> Recoverable(a.reversible, a.recovery))
    && (forall t :: t in b.tools && IsPerformed(t) ==> t.authorized && Recoverable(t.reversible, t.recovery))
  }

  lemma {:induction false} ProposedIff(a: Action, highStakes: bool)
    ensures A.Harmless(ProposedAction(a), highStakes) <==> (highStakes ==> Recoverable(a.reversible, a.recovery))
  {
  }

  lemma {:induction false} PerformedIff(t: Tool, highStakes: bool)
    ensures A.Harmless(PerformedAction(t), highStakes) <==> t.authorized && Recoverable(t.reversible, t.recovery)
  {
  }

  /** The actions of the packet, position by position. */
  lemma {:induction false} ActionsAre(b: Bundle)
    ensures var xs, n, ts := Normal(b).actions, |b.actions|, PerformedTools(b.tools);
      && |xs| == n + |ts|
      && (forall i :: 0 <= i < n ==> xs[i] == ProposedAction(b.actions[i]))
      && (forall i :: n <= i < |xs| ==> xs[i] == PerformedAction(ts[i - n]))
  {
    hide ProposedAction, PerformedAction, PerformedTools;
  }

  lemma {:induction false} PerformedMembers(b: Bundle)
    ensures forall t :: t in PerformedTools(b.tools) <==> t in b.tools && IsPerformed(t)
  {
    forall t | t in b.tools && IsPerformed(t) ensures t in PerformedTools(b.tools) {
      FilterKeeps(b.tools, (t: Tool) => IsPerformed(t), t);
    }
  }

  lemma {:induction false} ActionsIff(b: Bundle)
    ensures (forall i :: 0 <= i < |Normal(b).actions| ==> A.Harmless(Normal(b).actions[i], b.highStakes)) <==>
            && (forall a :: a in b.actions && b.highStakes ==> Recoverable(a.reversible, a.recovery))
            && (forall t :: t in b.tools && IsPerformed(t) ==> t.authorized && Recoverable(t.reversible, t.recovery))
  {
    hide *;
    var xs, n, ts, hs := Normal(b).actions, |b.actions|, PerformedTools(b.tools), b.highStakes;
    ActionsAre(b);
    PerformedMembers(b);
    forall i | 0 <= i < n
      ensures A.Harmless(xs[i], hs) <==> (hs ==> Recoverable(b.actions[i].reversible, b.actions[i].recovery))
    {
      ProposedIff(b.actions[i], hs);
    }
    forall i | n <= i < |xs|
      ensures A.Harmless(xs[i], hs) <==> ts[i - n].authorized && Recoverable(ts[i - n].reversible, ts[i - n].recovery)
    {
      PerformedIff(ts[i - n], hs);
    }
    HarmlessIff(xs, b.actions, ts, hs);
  }

  /** Harmless throughout is harmless in both parts. */
  lemma {:induction false} HarmlessIff(xs: seq<A.Action>, as_: seq<Action>, ts: seq<Tool>, hs: bool)
    requires |xs| == |as_| + |ts|
    requires forall i :: 0 <= i < |as_| ==>
      (A.Harmless(xs[i], hs) <==> (hs ==> Recoverable(as_[i].reversible, as_[i].recovery)))
    requires forall i :: |as_| <= i < |xs| ==>
      (A.Harmless(xs[i], hs) <==>
        ts[i - |as_|].authorized && Recoverable(ts[i - |as_|].reversible, ts[i - |as_|].recovery))
    ensures (forall i :: 0 <= i < |xs| ==> A.Harmless(xs[i], hs)) <==>
            && (forall a :: a in as_ && hs ==> Recoverable(a.reversible, a.recovery))
            && (forall t :: t in ts ==> t.authorized && Recoverable(t.reversible, t.recovery))
  {
    hide A.Harmless, Recoverable;
    if forall i :: 0 <= i < |xs| ==> A.Harmless(xs[i], hs) {
      forall t | t in ts ensures t.authorized && Recoverable(t.reversible, t.recovery) {
        var k :| 0 <= k < |ts| && ts[k] == t;
        assert A.Harmless(xs[|as_| + k], hs);
      }
    }
  }

  /** The gate says ALLOW to a translated bundle exactly when it is deliverable. */
  lemma {:induction false} AllowMeans(b: Bundle)
    requires ValidBundle(b)
    ensures A.Evaluate(Normal(b)).Some?
    ensures A.Decide(Normal(b)) == A.Allow <==> Deliverable(b)
  {
    NormalizedIsAccepted(b);
    A.AllowMeans(Normal(b));
    DeliverableIff(b);
  }

  lemma {:induction false} NormalKind(c: Claim, b: Bundle)
    ensures NormalClaim(c, b).kind == c.kind
  {
  }

  lemma {:induction false} DeliverableIff(b: Bundle)
    requires ValidBundle(b)
    ensures A.Deliverable(Normal(b)) <==> Deliverable(b)
  {
    hide ValidDraft, NormalClaim;
    ActionsIff(b);
    var p := Normal(b);
    forall i | 0 <= i < |b.claims|
      ensures Supported(b.claims[i], b) <==> A.Supported(p.claims[i], p)
      ensures p.claims[i].kind == b.claims[i].kind
    {
      SupportedIff(b.claims[i], b);
      NormalKind(b.claims[i], b);
    }
    hide ValidEvidence;
    assert |p.claims| == |b.claims| && p.noSignal == b.noSignal && p.intentAlignment == b.intentAlignment;
    assert p.contradictions == b.contradictions;
    assert p.highStakes == b.highStakes && p.requiresCurrent == b.requiresCurrent;
    hide Supported, A.Supported, A.Harmless, ValidBundle, Recoverable, A.Decide, A.ValidPacket, Normal, IsPerformed;
    assert A.Deliverable(p) <==> Deliverable(b);
  }
}
