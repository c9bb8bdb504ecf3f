/** The conversation bundle and its translation into a packet for the gate. */
module BundleModel {
  import opened Options
  import opened Text
  import opened Records
  import A = AdapterModel

  datatype Claim = Claim(
    id: string, text: string, kind: ClaimKind, confidence: real, requiresCurrent: bool, handles: seq<string>)

  datatype Action = Action(
    id: string, description: string, reversible: bool, authorized: bool, recovery: Option<string>)

  datatype Source = Source(
    handle: string, verified: bool, freshness: Freshness, kind: SourceKind, locator: string)

  datatype Tool = Tool(
    id: string, tool: string, operation: string, status: ToolStatus, effect: ToolEffect, eligible: bool,
    freshness: Freshness, locator: Option<string>, reversible: bool, authorized: bool, recovery: Option<string>)

  datatype Bundle = Bundle(
    schema: SchemaField, requestId: string, text: string, highStakes: bool, requiresCurrent: bool,
    response: string, noSignal: bool, intentAlignment: real,
    claims: seq<Claim>, actions: seq<Action>, contradictions: seq<string>,
    sources: seq<Source>, tools: seq<Tool>)

  // ----- validate_bundle -----

  predicate ValidClaim(c: Claim) {
    NonBlank(c.id) && NonBlank(c.text) && UnitInterval(c.confidence) && NonBlankList(c.handles) && Distinct(c.handles)
  }

  predicate ValidAction(a: Action) {
    NonBlank(a.id) && NonBlank(a.description) && AbsentOrNonBlank(a.recovery)
  }

  predicate ValidSource(s: Source) { NonBlank(s.handle) && NonBlank(s.locator) }

  predicate ValidTool(t: Tool) {
    && NonBlank(t.id) && NonBlank(t.tool) && NonBlank(t.operation)
    && AbsentOrNonBlank(t.locator) && (t.eligible ==> t.locator.Some?) && AbsentOrNonBlank(t.recovery)
  }

  predicate IsPerformed(t: Tool) { t.effect.Write? && t.status.Success? }

  predicate ValidDraft(b: Bundle) {
    && (b.noSignal || NonBlank(b.response)) && UnitInterval(b.intentAlignment)
    && (forall i :: 0 <= i < |b.claims| ==> ValidClaim(b.claims[i]))
    && (forall i, j :: 0 <= i < j < |b.claims| ==> b.claims[i].id != b.claims[j].id)
    && (forall i :: 0 <= i < |b.actions| ==> ValidAction(b.actions[i]))
    && (forall i, j :: 0 <= i < j < |b.actions| ==> b.actions[i].id != b.actions[j].id)
    && NonBlankList(b.contradictions) && Distinct(b.contradictions)
  }

  predicate ValidEvidence(b: Bundle) {
    && (forall i :: 0 <= i < |b.sources| ==> ValidSource(b.sources[i]))
    && (forall i, j :: 0 <= i < j < |b.sources| ==> b.sources[i].handle != b.sources[j].handle)
    && (forall i :: 0 <= i < |b.tools| ==> ValidTool(b.tools[i]))
    && (forall i, j :: 0 <= i < j < |b.tools| ==> b.tools[i].id != b.tools[j].id)
    && (forall i, j :: 0 <= i < |b.sources| && 0 <= j < |b.tools| ==> b.sources[i].handle != b.tools[j].id)
  }

  predicate ValidBundle(b: Bundle) {
    && b.schema.Expected? && NonBlank(b.requestId) && NonBlank(b.text)
    && ValidDraft(b)
    && ValidEvidence(b)
    && (forall i, j :: 0 <= i < |b.actions| && 0 <= j < |b.tools| && IsPerformed(b.tools[j]) ==>
          b.actions[i].id != b.tools[j].id)
  }

  // ----- normalize_bundle -----

  function SourceId(handle: string): string { "source:" + handle }

  function ToolId(id: string): string { "tool:" + id }

  function MissingId(handle: string): string { "missing:" + handle }

  predicate IsSource(handle: string, ss: seq<Source>) {
    exists i :: 0 <= i < |ss| && ss[i].handle == handle
  }

  predicate IsEligibleTool(handle: string, ts: seq<Tool>) {
    exists i :: 0 <= i < |ts| && ts[i].eligible && ts[i].id == handle
  }

  /** The evidence id a handle stands for. */
  function Resolve(handle: string, b: Bundle): string {
    if IsSource(handle, b.sources) then SourceId(handle)
    else if IsEligibleTool(handle, b.tools) then ToolId(handle)
    else MissingId(handle)
  }

  function SourceEvidence(s: Source): A.Evidence {
    A.Evidence(SourceId(s.handle), s.verified, s.freshness, s.kind, s.locator)
  }

  function ToolEvidence(t: Tool): A.Evidence {
    A.Evidence(ToolId(t.id), t.status.Success?, t.freshness, ToolSource,
               if t.locator.Some? then t.locator.value else "")
  }

  function EligibleTools(ts: seq<Tool>): seq<Tool> { Filter(ts, (t: Tool) => t.eligible) }

  function PerformedTools(ts: seq<Tool>): seq<Tool> { Filter(ts, (t: Tool) => IsPerformed(t)) }

  function NormalClaim(c: Claim, b: Bundle): A.Claim {
    A.Claim(c.id, c.text, c.kind, c.confidence, c.requiresCurrent, Map(c.handles, (h: string) => Resolve(h, b)))
  }

  function ProposedAction(a: Action): A.Action {
    A.Action(a.id, a.description, A.Proposed, a.reversible, a.authorized, a.recovery)
  }

  function PerformedAction(t: Tool): A.Action {
    A.Action(t.id, t.tool + ":" + t.operation, A.Performed, t.reversible, t.authorized, t.recovery)
  }

  function Normal(b: Bundle): A.Packet {
    A.Packet(
      Expected, b.requestId, b.text, b.highStakes, b.requiresCurrent, b.response, b.noSignal, b.intentAlignment,
      Map(b.claims, (c: Claim) => NormalClaim(c, b)),
      Map(b.actions, (a: Action) => ProposedAction(a)) + Map(PerformedTools(b.tools), (t: Tool) => PerformedAction(t)),
      b.contradictions,
      Map(b.sources, (s: Source) => SourceEvidence(s)) + Map(EligibleTools(b.tools), (t: Tool) => ToolEvidence(t)))
  }

  /** The stage: None when the bundle is not valid. */
  function Normalize(b: Bundle): Option<A.Packet> {
    if ValidBundle(b) then Some(Normal(b)) else None
  }

  // ----- evidence ids do not collide -----

  lemma {:induction false} IdsApart(a: string, b: string)
    ensures SourceId(a) != ToolId(b) && SourceId(a) != MissingId(b) && ToolId(a) != MissingId(b)
    ensures SourceId(a) == SourceId(b) ==> a == b
    ensures ToolId(a) == ToolId(b) ==> a == b
    ensures MissingId(a) == MissingId(b) ==> a == b
    ensures NonBlank(SourceId(a)) && NonBlank(ToolId(a)) && NonBlank(MissingId(a))
  {
    assert SourceId(a)[0] == 's' && ToolId(b)[0] == 't' && MissingId(b)[0] == 'm' && ToolId(a)[0] == 't';
    assert SourceId(a)[7..] == a && SourceId(b)[7..] == b;
    assert ToolId(a)[5..] == a && ToolId(b)[5..] == b;
    assert MissingId(a)[0] == 'm' && MissingId(a)[8..] == a && MissingId(b)[8..] == b;
    assert !IsSpace('s') && !IsSpace('t') && !IsSpace('m');
  }

  lemma {:induction false} ResolveInjective(g: string, h: string, b: Bundle)
    requires Resolve(g, b) == Resolve(h, b)
    ensures g == h
  {
    IdsApart(g, h);
    IdsApart(h, g);
    hide SourceId, ToolId, MissingId;
  }

}
