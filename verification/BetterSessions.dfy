/** Better evidence in the session never makes the verdict worse. */
module BetterSessions {
  import opened Options
  import opened Text
  import opened Records
  import opened SessionModel
  import opened SessionProofs
  import opened PipelineProofs
  import opened EndToEnd
  import B = BundleModel
  import P = BundleProofs
  import A = AdapterModel

  // ----- lists that agree position by position -----

  ghost predicate Parallel<T>(a: seq<T>, b: seq<T>, r: (T, T) -> bool) {
    |a| == |b| && forall i :: 0 <= i < |a| ==> r(a[i], b[i])
  }

  lemma {:induction false} ParallelCons<T>(x: T, a: seq<T>, y: T, b: seq<T>, r: (T, T) -> bool)
    requires r(x, y) && Parallel(a, b, r)
    ensures Parallel([x] + a, [y] + b, r)
  {
  }

  lemma {:induction false} FilterParallel<T>(a: seq<T>, b: seq<T>, r: (T, T) -> bool, p: T -> bool)
    requires Parallel(a, b, r) && forall i :: 0 <= i < |a| ==> p(a[i]) == p(b[i])
    ensures Parallel(Filter(a, p), Filter(b, p), r)
  {
    if a != [] {
      FilterParallel(a[1..], b[1..], r, p);
      if p(a[0]) { ParallelCons(a[0], Filter(a[1..], p), b[0], Filter(b[1..], p), r); }
    }
  }

  // ----- better events -----

  /** A source turned verified or current; a tool event turned current, or a success
      when it does not write. Everything else stays. */
  predicate BetterBody(a: Body, b: Body) {
    match a
    case Source(_, verified, freshness, _, _) =>
      && b.Source? && b == a.(verified := b.verified, sourceFreshness := b.sourceFreshness)
      && (verified ==> b.verified) && (freshness.Current? ==> b.sourceFreshness.Current?)
    case Tool(_, _, status, effect, _, freshness, _, _, _) =>
      && b.Tool? && b == a.(status := b.status, toolFreshness := b.toolFreshness)
      && (b.status == status || (!effect.Write? && b.status.Success?))
      && (freshness.Current? ==> b.toolFreshness.Current?)
    case _ => b == a
  }

  predicate BetterEvent(e: Event, f: Event) {
    f == e.(body := f.body) && BetterBody(e.body, f.body)
  }

  /** What a better event has in common with the first. */
  ghost predicate Alike(e: Event, f: Event) {
    && f.id == e.id && f.sequence == e.sequence && BoundDraft(f.body) == BoundDraft(e.body)
    && (f.body.Source? <==> e.body.Source?) && (e.body.Source? ==> f.body.handle == e.body.handle)
    && (f.body.Tool? <==> e.body.Tool?) && (e.body.Tool? ==> f.body.eligible == e.body.eligible)
    && (!e.body.Source? && !e.body.Tool? ==> f == e)
  }

  lemma {:induction false} BetterIsAlike(e: Event, f: Event)
    requires BetterEvent(e, f)
    ensures Alike(e, f) && (ValidEvent(e) ==> ValidEvent(f))
  {
    hide NonBlank;
  }

  ghost predicate BetterEvents(es: seq<Event>, fs: seq<Event>) {
    Parallel(es, fs, BetterEvent)
  }

  lemma {:induction false} AllAlike(es: seq<Event>, fs: seq<Event>)
    requires BetterEvents(es, fs)
    ensures |es| == |fs| && forall i :: 0 <= i < |es| ==> Alike(es[i], fs[i])
    ensures (forall e :: e in es ==> ValidEvent(e)) ==> (forall f :: f in fs ==> ValidEvent(f))
  {
    forall i | 0 <= i < |es| ensures Alike(es[i], fs[i]) && (ValidEvent(es[i]) ==> ValidEvent(fs[i])) {
      BetterIsAlike(es[i], fs[i]);
    }
    hide ValidEvent, Alike, BetterEvent;
    assert forall i :: 0 <= i < |es| ==> es[i] in es;
  }

  /** The better form of an event. */
  lemma {:induction false} BetterOf(es: seq<Event>, fs: seq<Event>, e: Event) returns (f: Event)
    requires BetterEvents(es, fs) && e in es
    ensures f in fs && Alike(e, f)
  {
    AllAlike(es, fs);
    hide Alike, BetterEvents;
    var i :| 0 <= i < |es| && es[i] == e;
    f := fs[i];
  }

  /** The event a better one comes from. */
  lemma {:induction false} OriginOf(es: seq<Event>, fs: seq<Event>, f: Event) returns (e: Event)
    requires BetterEvents(es, fs) && f in fs
    ensures e in es && Alike(e, f)
  {
    AllAlike(es, fs);
    hide Alike, BetterEvents;
    var i :| 0 <= i < |fs| && fs[i] == f;
    e := es[i];
  }

  // ----- validity -----

  lemma {:induction false} BetterHasDraft(es: seq<Event>, fs: seq<Event>, id: string)
    requires BetterEvents(es, fs)
    ensures HasDraft(es, id) ==> HasDraft(fs, id)
    ensures HasMessage(es, id) ==> HasMessage(fs, id)
  {
    hide BetterEvents;
    if HasDraft(es, id) {
      var d :| d in es && d.id == id && d.body.AssistantDraft?;
      var f := BetterOf(es, fs, d);
    }
    if HasMessage(es, id) {
      var d :| d in es && d.id == id && d.body.UserMessage?;
      var f := BetterOf(es, fs, d);
    }
  }

  lemma {:induction false} BetterAuthorizable(es: seq<Event>, fs: seq<Event>, id: string, sequence: nat)
    requires BetterEvents(es, fs) && Authorizable(es, id, sequence)
    ensures Authorizable(fs, id, sequence)
  {
    hide BetterEvents;
    var t :| t in es && t.id == id && (t.body.Tool? || t.body.Proposal?) && sequence < t.sequence;
    var u := BetterOf(es, fs, t);
  }

  lemma {:induction false} BetterHandles(es: seq<Event>, fs: seq<Event>, f: Event, g: Event)
    requires BetterEvents(es, fs) && ValidReferences(es) && f in fs && g in fs && f.body.Source?
    ensures g.body.Source? && f.id != g.id ==> f.body.handle != g.body.handle
    ensures g.body.Tool? ==> f.body.handle != g.id
  {
    hide BetterEvents, HasDraft, Authorizable, BoundDraft;
    var d := OriginOf(es, fs, f);
    var e := OriginOf(es, fs, g);
  }

  lemma {:induction false} BetterBindings(es: seq<Event>, fs: seq<Event>, f: Event)
    requires BetterEvents(es, fs) && ValidReferences(es) && f in fs
    ensures BoundDraft(f.body).Some? ==> HasDraft(fs, BoundDraft(f.body).value)
    ensures f.body.Authorization? ==>
      forall i :: 0 <= i < |f.body.authorized| ==> Authorizable(fs, f.body.authorized[i], f.sequence)
  {
    hide BetterEvents, HasDraft, Authorizable, BoundDraft;
    var e := OriginOf(es, fs, f);
    if BoundDraft(f.body).Some? { BetterHasDraft(es, fs, BoundDraft(f.body).value); }
    if f.body.Authorization? {
      forall i | 0 <= i < |f.body.authorized| ensures Authorizable(fs, f.body.authorized[i], f.sequence) {
        BetterAuthorizable(es, fs, f.body.authorized[i], f.sequence);
      }
    }
  }

  lemma {:induction false} BetterReferences(es: seq<Event>, fs: seq<Event>)
    requires BetterEvents(es, fs) && ValidReferences(es)
    ensures ValidReferences(fs)
  {
    forall f | f in fs
      ensures BoundDraft(f.body).Some? ==> HasDraft(fs, BoundDraft(f.body).value)
      ensures f.body.Authorization? ==>
        forall i :: 0 <= i < |f.body.authorized| ==> Authorizable(fs, f.body.authorized[i], f.sequence)
    {
      BetterBindings(es, fs, f);
    }
    forall f, g | f in fs && g in fs && f.body.Source?
      ensures g.body.Source? && f.id != g.id ==> f.body.handle != g.body.handle
      ensures g.body.Tool? ==> f.body.handle != g.id
    {
      BetterHandles(es, fs, f, g);
    }
    hide BetterEvents, HasDraft, Authorizable, BoundDraft;
  }

  /** `t` is `s` with better events. */
  ghost predicate BetterSession(s: Session, t: Session) {
    t == s.(events := t.events) && BetterEvents(s.events, t.events)
  }

  lemma {:induction false} BetterIsValid(s: Session, t: Session)
    requires BetterSession(s, t) && ValidSession(s)
    ensures ValidSession(t)
  {
    AllAlike(s.events, t.events);
    hide BetterEvents, ValidReferences, HasMessage, HasDraft, NonBlank, ValidEvent;
    BetterReferences(s.events, t.events);
    BetterHasDraft(s.events, t.events, s.request);
    BetterHasDraft(s.events, t.events, s.draft);
  }

  // ----- the export -----

  lemma {:induction false} InsertBetter(es: seq<Event>, fs: seq<Event>, e: Event, f: Event)
    requires BetterEvents(es, fs) && BetterEvent(e, f)
    ensures BetterEvents(InsertEvent(es, e), InsertEvent(fs, f))
  {
    hide BetterEvent;
    if es != [] { BetterIsAlike(es[0], fs[0]); }
    BetterIsAlike(e, f);
    if es == [] || e.sequence < es[0].sequence {
      ParallelCons(e, es, f, fs, BetterEvent);
    } else {
      InsertBetter(es[1..], fs[1..], e, f);
      ParallelCons(es[0], InsertEvent(es[1..], e), fs[0], InsertEvent(fs[1..], f), BetterEvent);
    }
  }

  lemma {:induction false} SortBetter(es: seq<Event>, fs: seq<Event>)
    requires BetterEvents(es, fs)
    ensures BetterEvents(SortEvents(es), SortEvents(fs))
  {
    hide BetterEvent, InsertEvent;
    if es != [] {
      var n := |es| - 1;
      SortBetter(es[..n], fs[..n]);
      InsertBetter(SortEvents(es[..n]), SortEvents(fs[..n]), es[n], fs[n]);
    }
  }

  lemma {:induction false} FindBetter(es: seq<Event>, fs: seq<Event>, id: string)
    requires BetterEvents(es, fs)
    ensures Find(es, id).Some? <==> Find(fs, id).Some?
    ensures Find(es, id).Some? ==> Alike(Find(es, id).value, Find(fs, id).value)
  {
    if es != [] {
      BetterIsAlike(es[0], fs[0]);
      FindBetter(es[1..], fs[1..], id);
    }
  }

  lemma {:induction false} SameHandles(es: seq<Event>, fs: seq<Event>, r: string)
    requires BetterEvents(es, fs)
    ensures HandleOf(es, r) == HandleOf(fs, r)
  {
    FindBetter(es, fs, r);
    hide Find, BetterEvents, Unresolved;
  }

  lemma {:induction false} SameAuthorized(es: seq<Event>, fs: seq<Event>, id: string)
    requires BetterEvents(es, fs)
    ensures IsAuthorized(es, id) <==> IsAuthorized(fs, id)
  {
    hide BetterEvents;
    if IsAuthorized(es, id) {
      var a :| a in es && a.body.Authorization? && id in a.body.authorized;
      var b := BetterOf(es, fs, a);
    }
    if IsAuthorized(fs, id) {
      var b :| b in fs && b.body.Authorization? && id in b.body.authorized;
      var a := OriginOf(es, fs, b);
    }
  }

  /** A selection that takes neither sources nor tool events is the same from both. */
  lemma {:induction false} SameSelection(es: seq<Event>, fs: seq<Event>, p: Event -> bool)
    requires BetterEvents(es, fs)
    requires forall e: Event :: e.body.Source? || e.body.Tool? ==> !p(e)
    ensures Filter(es, p) == Filter(fs, p)
  {
    if es != [] {
      BetterIsAlike(es[0], fs[0]);
      SameSelection(es[1..], fs[1..], p);
    }
  }

  lemma {:induction false} SameClaims(es: seq<Event>, fs: seq<Event>, draft: string)
    requires BetterEvents(es, fs)
    ensures ExportedClaims(es, draft) == ExportedClaims(fs, draft)
  {
    SameSelection(es, fs, ClaimOf(draft));
    assert Claims(es, draft) == Claims(fs, draft);
    var cs := Claims(es, draft);
    assert forall c :: c in cs ==> c.body.Claim?;
    hide BetterEvents, HandleOf, Claims;
    assert forall i :: 0 <= i < |cs| ==> cs[i] in cs && cs[i].body.Claim?;
    forall i | 0 <= i < |cs| ensures ExportClaim(cs[i], es) == ExportClaim(cs[i], fs) {
      SameExport(es, fs, cs[i]);
    }
  }

  lemma {:induction false} SameExport(es: seq<Event>, fs: seq<Event>, c: Event)
    requires BetterEvents(es, fs) && c.body.Claim?
    ensures ExportClaim(c, es) == ExportClaim(c, fs)
  {
    hide HandleOf, BetterEvents;
    var rs := c.body.evidence;
    forall i | 0 <= i < |rs| ensures HandleOf(es, rs[i]) == HandleOf(fs, rs[i]) { SameHandles(es, fs, rs[i]); }
    assert ExportClaim(c, es).handles == ExportClaim(c, fs).handles;
  }

  lemma {:induction false} SameProposals(es: seq<Event>, fs: seq<Event>, draft: string)
    requires BetterEvents(es, fs)
    ensures ExportedProposals(es, draft) == ExportedProposals(fs, draft)
  {
    SameSelection(es, fs, ProposalOf(draft));
    assert Proposals(es, draft) == Proposals(fs, draft);
    var ps := Proposals(es, draft);
    assert forall p :: p in ps ==> p.body.Proposal?;
    assert forall i :: 0 <= i < |ps| ==> ps[i] in ps;
    hide BetterEvents, IsAuthorized, Proposals;
    forall i | 0 <= i < |ps| ensures ExportProposal(ps[i], es) == ExportProposal(ps[i], fs) {
      SameAuthorized(es, fs, ps[i].id);
    }
  }

  lemma {:induction false} SameContradictions(es: seq<Event>, fs: seq<Event>, draft: string)
    requires BetterEvents(es, fs)
    ensures ExportedContradictions(es, draft) == ExportedContradictions(fs, draft)
  {
    SameSelection(es, fs, ContradictionOf(draft));
  }

  predicate BetterSource(x: B.Source, y: B.Source) {
    && y == x.(verified := y.verified, freshness := y.freshness)
    && (x.verified ==> y.verified) && (x.freshness.Current? ==> y.freshness.Current?)
  }

  predicate BetterTool(t: B.Tool, u: B.Tool) {
    && u == t.(status := u.status, freshness := u.freshness)
    && (u.status == t.status || (!t.effect.Write? && u.status.Success?))
    && (t.freshness.Current? ==> u.freshness.Current?)
  }

  lemma {:induction false} OneBetterSource(e: Event, f: Event)
    requires BetterEvent(e, f) && e.body.Source?
    ensures f.body.Source? && BetterSource(ExportSource(e), ExportSource(f))
  {
  }

  lemma {:induction false} OneBetterTool(e: Event, f: Event, es: seq<Event>, fs: seq<Event>)
    requires BetterEvent(e, f) && e.body.Tool? && BetterEvents(es, fs)
    ensures f.body.Tool? && BetterTool(ExportTool(e, es), ExportTool(f, fs))
  {
    SameAuthorized(es, fs, e.id);
    hide IsAuthorized, BetterEvents;
  }

  /** A selection by kind from both. */
  lemma {:induction false} BetterSelection(es: seq<Event>, fs: seq<Event>, p: Event -> bool)
    requires BetterEvents(es, fs) && forall e, f :: Alike(e, f) ==> p(e) == p(f)
    ensures BetterEvents(Filter(es, p), Filter(fs, p))
  {
    AllAlike(es, fs);
    hide BetterEvent, Alike, Filter;
    FilterParallel(es, fs, BetterEvent, p);
  }

  lemma {:induction false} BetterSources(es: seq<Event>, fs: seq<Event>)
    requires BetterEvents(es, fs)
    ensures Parallel(ExportedSources(es), ExportedSources(fs), BetterSource)
  {
    var a, b := Sources(es), Sources(fs);
    BetterSelection(es, fs, SOURCE_EVENT);
    assert forall x :: x in a ==> x.body.Source?;
    hide BetterEvent, Filter, BetterSource, Sources;
    forall i | 0 <= i < |a|
      ensures a[i].body.Source? && b[i].body.Source? && BetterSource(ExportSource(a[i]), ExportSource(b[i]))
    {
      assert a[i] in a && BetterEvent(a[i], b[i]);
      OneBetterSource(a[i], b[i]);
    }
  }

  lemma {:induction false} BetterTools(es: seq<Event>, fs: seq<Event>)
    requires BetterEvents(es, fs)
    ensures Parallel(ExportedTools(es), ExportedTools(fs), BetterTool)
  {
    var a, b := Tools(es), Tools(fs);
    BetterSelection(es, fs, TOOL_EVENT);
    assert forall x :: x in a ==> x.body.Tool?;
    hide BetterEvent, Filter, BetterTool, Tools, IsAuthorized;
    forall i | 0 <= i < |a|
      ensures a[i].body.Tool? && b[i].body.Tool? && BetterTool(ExportTool(a[i], es), ExportTool(b[i], fs))
    {
      assert a[i] in a && BetterEvent(a[i], b[i]);
      OneBetterTool(a[i], b[i], es, fs);
    }
  }

  /** `c` is `b` with better sources and tool events. */
  ghost predicate BetterBundle(b: B.Bundle, c: B.Bundle) {
    && c == b.(sources := c.sources, tools := c.tools)
    && Parallel(b.sources, c.sources, BetterSource) && Parallel(b.tools, c.tools, BetterTool)
  }

  lemma {:induction false} BundledBetter(s: Session, t: Session, es: seq<Event>, fs: seq<Event>)
    requires t == s.(events := t.events) && BetterEvents(es, fs)
    requires Find(es, s.request).Some? && Find(es, s.request).value.body.UserMessage?
    requires Find(es, s.draft).Some? && Find(es, s.draft).value.body.AssistantDraft?
    ensures Find(fs, t.request).Some? && Find(fs, t.request).value.body.UserMessage?
    ensures Find(fs, t.draft).Some? && Find(fs, t.draft).value.body.AssistantDraft?
    ensures BetterBundle(Bundled(s, es), Bundled(t, fs))
  {
    FindBetter(es, fs, s.request);
    FindBetter(es, fs, s.draft);
    SameClaims(es, fs, s.draft);
    SameProposals(es, fs, s.draft);
    SameContradictions(es, fs, s.draft);
    BetterSources(es, fs);
    BetterTools(es, fs);
    hide Find, ExportedClaims, ExportedProposals, ExportedContradictions, ExportedSources, ExportedTools,
         BetterEvents, Parallel;
  }

  lemma {:induction false} ExportBetter(s: Session, t: Session)
    requires BetterSession(s, t) && ValidSession(s)
    ensures Export(s).Some? && Export(t).Some? && BetterBundle(Export(s).value, Export(t).value)
  {
    assert t == s.(events := t.events) && BetterEvents(s.events, t.events);
    hide *;
    BetterIsValid(s, t);
    ExportIs(s);
    ExportIs(t);
    SortBetter(s.events, t.events);
    BundledBetter(s, t, SortEvents(s.events), SortEvents(t.events));
  }

  // ----- the packet -----

  lemma {:induction false} BetterBundleIsValid(b: B.Bundle, c: B.Bundle)
    requires BetterBundle(b, c) && B.ValidBundle(b)
    ensures B.ValidBundle(c)
  {
    assert forall i :: 0 <= i < |b.sources| ==> BetterSource(b.sources[i], c.sources[i]);
    assert forall i :: 0 <= i < |b.tools| ==> BetterTool(b.tools[i], c.tools[i]);
    hide NonBlank, B.ValidClaim, B.ValidAction, NonBlankList, UnitInterval;
  }

  lemma {:induction false} SameResolution(b: B.Bundle, c: B.Bundle, h: string)
    requires BetterBundle(b, c)
    ensures B.Resolve(h, b) == B.Resolve(h, c)
  {
    assert forall i :: 0 <= i < |b.sources| ==> BetterSource(b.sources[i], c.sources[i]);
    assert forall i :: 0 <= i < |b.tools| ==> BetterTool(b.tools[i], c.tools[i]);
    hide B.SourceId, B.ToolId, B.MissingId;
  }

  lemma {:induction false} SameNormalClaims(b: B.Bundle, c: B.Bundle)
    requires BetterBundle(b, c)
    ensures B.Normal(b).claims == B.Normal(c).claims
  {
    assert c.claims == b.claims;
    hide B.Resolve, BetterBundle;
    forall i | 0 <= i < |b.claims| ensures B.NormalClaim(b.claims[i], b) == B.NormalClaim(b.claims[i], c) {
      var hs := b.claims[i].handles;
      forall k | 0 <= k < |hs| ensures B.Resolve(hs[k], b) == B.Resolve(hs[k], c) { SameResolution(b, c, hs[k]); }
      assert B.NormalClaim(b.claims[i], b).refs == B.NormalClaim(b.claims[i], c).refs;
    }
  }

  lemma {:induction false} SameNormalActions(b: B.Bundle, c: B.Bundle)
    requires BetterBundle(b, c)
    ensures B.Normal(b).actions == B.Normal(c).actions
  {
    var p := (t: B.Tool) => B.IsPerformed(t);
    assert forall i :: 0 <= i < |b.tools| ==> BetterTool(b.tools[i], c.tools[i]);
    FilterParallel(b.tools, c.tools, BetterTool, p);
    var a, d := B.PerformedTools(b.tools), B.PerformedTools(c.tools);
    forall i | 0 <= i < |a| ensures B.PerformedAction(a[i]) == B.PerformedAction(d[i]) {
      assert BetterTool(a[i], d[i]);
    }
    P.ActionsAre(b);
    P.ActionsAre(c);
    hide B.Normal, B.PerformedTools, B.PerformedAction, B.ProposedAction;
  }

  predicate BetterItem(x: A.Evidence, y: A.Evidence) {
    y.id == x.id && (x.verified ==> y.verified) && (x.freshness.Current? ==> y.freshness.Current?)
  }

  lemma {:induction false} BetterNormalEvidence(b: B.Bundle, c: B.Bundle)
    requires BetterBundle(b, c)
    ensures Parallel(B.Normal(b).evidence, B.Normal(c).evidence, BetterItem)
  {
    BetterEligible(b, c);
    var a, d := B.EligibleTools(b.tools), B.EligibleTools(c.tools);
    var es, fs := B.Normal(b).evidence, B.Normal(c).evidence;
    hide B.SourceEvidence, B.ToolEvidence, B.EligibleTools, BetterItem, BetterSource, BetterTool;
    assert |es| == |b.sources| + |a| && |fs| == |c.sources| + |d|;
    forall i | 0 <= i < |es| ensures BetterItem(es[i], fs[i]) {
      if i < |b.sources| {
        BetterSourceItem(b.sources[i], c.sources[i]);
      } else {
        BetterToolItem(a[i - |b.sources|], d[i - |b.sources|]);
      }
    }
  }

  lemma {:induction false} BetterEligible(b: B.Bundle, c: B.Bundle)
    requires BetterBundle(b, c)
    ensures Parallel(B.EligibleTools(b.tools), B.EligibleTools(c.tools), BetterTool)
  {
    assert forall i :: 0 <= i < |b.tools| ==> BetterTool(b.tools[i], c.tools[i]);
    FilterParallel(b.tools, c.tools, BetterTool, (t: B.Tool) => t.eligible);
  }

  lemma {:induction false} BetterSourceItem(x: B.Source, y: B.Source)
    requires BetterSource(x, y)
    ensures BetterItem(B.SourceEvidence(x), B.SourceEvidence(y))
  {
    hide B.SourceId;
  }

  lemma {:induction false} BetterToolItem(t: B.Tool, u: B.Tool)
    requires BetterTool(t, u)
    ensures BetterItem(B.ToolEvidence(t), B.ToolEvidence(u))
  {
    hide B.ToolId;
  }

  lemma {:induction false} NormalBetter(b: B.Bundle, c: B.Bundle)
    requires BetterBundle(b, c)
    ensures A.BetterEvidence(B.Normal(b), B.Normal(c))
  {
    SameNormalClaims(b, c);
    SameNormalActions(b, c);
    BetterNormalEvidence(b, c);
    NormalFrame(b, c);
    hide B.Normal, BetterBundle;
    var p, q := B.Normal(b), B.Normal(c);
    assert forall i :: 0 <= i < |p.evidence| ==> BetterItem(p.evidence[i], q.evidence[i]);
    assert q == p.(evidence := q.evidence);
  }

  lemma {:induction false} NormalFrame(b: B.Bundle, c: B.Bundle)
    requires BetterBundle(b, c)
    ensures var p, q := B.Normal(b), B.Normal(c);
      q == p.(claims := q.claims, actions := q.actions, evidence := q.evidence)
  {
    hide Parallel;
  }

  // ----- the verdict -----

  lemma {:induction false} PipelineIs(s: Session)
    requires Pipeline(s).Some?
    ensures ValidSession(s) && Export(s).Some? && B.ValidBundle(Export(s).value)
  {
    hide ValidSession, B.ValidBundle, B.Normal, A.ValidPacket;
  }

  /** Verifying a source, making evidence current or making a tool event that does
      not write succeed leaves every stage running, and moves the verdict only from
      REVISE to VERIFY to ALLOW or NO_SIGNAL; shadowed citations make no difference. */
  lemma {:induction false} BetterSessionHelps(s: Session, t: Session)
    requires BetterSession(s, t) && Pipeline(s).Some?
    ensures Pipeline(t).Some? && A.Severity(Pipeline(t).value) <= A.Severity(Pipeline(s).value)
    ensures A.Severity(Pipeline(s).value) == 0 ==> Pipeline(t) == Pipeline(s)
  {
    hide *;
    PipelineIs(s);
    ExportBetter(s, t);
    var b, c := Export(s).value, Export(t).value;
    BetterBundleIsValid(b, c);
    PipelineRuns(s);
    PipelineRuns(t);
    NormalBetter(b, c);
    A.BetterEvidenceHelps(B.Normal(b), B.Normal(c));
  }
}
