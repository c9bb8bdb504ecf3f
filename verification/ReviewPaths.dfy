/** Exactly which review events are applied, and what a run of them leaves. */
module ReviewPaths {
  import opened Options
  import opened Text
  import opened ReviewModel
  import opened ReviewRuns

  // ----- which events are applied -----

  /** The transition table of the graph lists a step from `a` to `b`. */
  ghost predicate Listed(g: Graph, a: StatusField, b: StatusField) {
    exists t :: t in g.transitions && t.source == a && t.target == b
  }

  /** How mature a status is, from SENT to VALIDATED. */
  function Maturity(f: StatusField): int {
    if f == Known(Sent) then 0 else if f == Known(Acknowledged) then 1 else if f == Known(Routed) then 2
    else if f == Known(TechnicalFeedback) then 3 else if f == Known(Reproduced) then 4
    else if f == Known(Validated) then 5 else -1
  }

  /** Target `t` is the one the event is about. */
  predicate Concerns(e: Event, t: Target) {
    t.id == e.targetId && t.organization == e.organization
  }

  lemma {:induction false} ListedIs(g: Graph, a: Status, b: Status)
    ensures AllowedEdge(g.transitions, a, b) <==> Listed(g, Known(a), Known(b))
  {
    if t :| t in g.transitions && t.source == Known(a) && t.target == Known(b) {
      var i :| 0 <= i < |g.transitions| && g.transitions[i] == t;
    }
  }

  lemma {:induction false} MaturityIsRank(s: Status)
    ensures Maturity(Known(s)) == Rank(s)
  {
  }

  /** The position of the one target with the event's id. */
  lemma {:induction false} OneTarget(g: Graph, id: string, n: nat)
    requires ValidGraph(g) && n < |g.targets| && g.targets[n].id == id
    ensures FindTarget(g.targets, id) == n
  {
    var k := FindTarget(g.targets, id);
    assert k <= n;
  }

  /** What the guards ask of the event's own target. */
  lemma {:induction false} GuardExactly(g: Graph, e: Event, n: nat)
    requires n == FindTarget(g.targets, e.targetId) < |g.targets| && g.targets[n].status.Known?
    requires ValidEvent(e) && e.claimId == g.claimId
    ensures Guard(g, e).None? && g.targets[n].status != e.target <==>
      && Concerns(e, g.targets[n]) && e.source == Some(g.targets[n].status)
      && Maturity(g.targets[n].status) < Maturity(e.target) && Listed(g, g.targets[n].status, e.target)
  {
    assert e.target.Known?;
    var current, to := g.targets[n].status.status, e.target.status;
    MaturityIsRank(current);
    MaturityIsRank(to);
    ListedIs(g, current, to);
    RanksDiffer(current, to);
    assert g.targets[n].status == Known(current) && e.target == Known(to);
    hide AllowedEdge, Listed, Maturity, Rank, FindTarget, EvidencePresent, ValidEvent;
  }

  /** An event is applied to a valid graph if and only if it is valid, for the
      graph's claim, about a target of the same organization whose status is where
      the event starts from and less mature than where it ends, and the table lists
      that step. */
  lemma {:induction false} AppliedExactly(g: Graph, e: Event)
    requires ValidGraph(g)
    ensures Apply(g, e).Applied? <==>
      && ValidEvent(e) && e.claimId == g.claimId
      && exists n: nat :: n < |g.targets| && Concerns(e, g.targets[n]) && e.source == Some(g.targets[n].status)
           && Maturity(g.targets[n].status) < Maturity(e.target) && Listed(g, g.targets[n].status, e.target)
  {
    TargetsAreKnown(g);
    AppliedIff(g, e);
    var n := FindTarget(g.targets, e.targetId);
    hide ValidGraph, Apply, AllowedEdge, Listed, Maturity, Rank, FindTarget, ValidEvent, ValidTarget;
    forall k: nat | k < |g.targets| && g.targets[k].id == e.targetId ensures k == n { OneTarget(g, e.targetId, k); }
    if Guard(g, e).None? { GuardMeans(g, e); }
    if n < |g.targets| && ValidEvent(e) && e.claimId == g.claimId {
      TargetKnown(g, n);
      GuardExactly(g, e, n);
    }
    hide Guard;
  }

  lemma {:induction false} TargetKnown(g: Graph, n: nat)
    requires ValidGraph(g) && n < |g.targets|
    ensures g.targets[n].status.Known?
  {
    assert ValidTarget(g.targets[n], g.claimId, g.statusModel);
  }

  lemma {:induction false} RanksDiffer(a: Status, b: Status)
    ensures Rank(a) == Rank(b) <==> a == b
  {
  }

  // ----- which events are no news -----

  predicate StandsAt(text: string, part: string, i: nat) {
    i + |part| <= |text| && text[i..i + |part|] == part
  }

  /** `part` stands somewhere in `text`. */
  ghost predicate Mentions(text: string, part: string) {
    exists i: nat :: StandsAt(text, part, i)
  }

  lemma {:induction false} ContainsMeans(text: string, part: string)
    ensures Contains(text, part) <==> Mentions(text, part)
  {
    assert StartsWith(text, part) <==> StandsAt(text, part, 0);
    if text != "" {
      ContainsMeans(text[1..], part);
      forall i: nat ensures StandsAt(text, part, i + 1) <==> StandsAt(text[1..], part, i) {
        if i + 1 + |part| <= |text| { assert text[1..][i..i + |part|] == text[i + 1..i + 1 + |part|]; }
      }
      hide StandsAt, StartsWith;
      if i: nat :| StandsAt(text, part, i) && i > 0 {
        assert StandsAt(text[1..], part, i - 1);
      }
      if i: nat :| StandsAt(text[1..], part, i) {
        assert StandsAt(text, part, i + 1);
      }
    }
  }

  lemma {:induction false} MentionIsNonBlank(text: string, part: string)
    requires NonBlank(part) && Mentions(text, part)
    ensures NonBlank(text)
  {
    var i: nat :| StandsAt(text, part, i);
    var k :| 0 <= k < |part| && !IsSpace(part[k]);
    assert text[i..i + |part|][k] == part[k];
    assert text[i + k] == part[k];
  }

  /** Some part of target `t` mentions the event's evidence. */
  ghost predicate KnowsEvidence(t: Target, e: Event) {
    || Mentions(t.evidenceReference, e.evidence.reference) || Mentions(t.evidence, e.evidence.reference)
    || (t.technicalReference.Some? && Mentions(t.technicalReference.value, e.evidence.reference))
  }

  lemma {:induction false} PresentMeans(t: Target, e: Event)
    requires NonBlank(e.evidence.reference)
    ensures EvidencePresent(t, e) <==> KnowsEvidence(t, e)
  {
    var r := e.evidence.reference;
    ContainsMeans(t.evidenceReference, r);
    ContainsMeans(t.evidence, r);
    if Mentions(t.evidenceReference, r) { MentionIsNonBlank(t.evidenceReference, r); }
    if Mentions(t.evidence, r) { MentionIsNonBlank(t.evidence, r); }
    if t.technicalReference.Some? {
      ContainsMeans(t.technicalReference.value, r);
      if Mentions(t.technicalReference.value, r) { MentionIsNonBlank(t.technicalReference.value, r); }
    }
    hide NonBlank, Contains, Mentions;
  }

  lemma {:induction false} NoopGuard(g: Graph, e: Event, n: nat)
    requires n == FindTarget(g.targets, e.targetId) < |g.targets| && g.targets[n].status.Known?
    requires ValidEvent(e) && e.claimId == g.claimId
    ensures Apply(g, e).Noop? <==>
      Concerns(e, g.targets[n]) && g.targets[n].status == e.target && KnowsEvidence(g.targets[n], e)
  {
    PresentMeans(g.targets[n], e);
    assert e.target.Known?;
    RanksDiffer(g.targets[n].status.status, e.target.status);
    hide AllowedEdge, Rank, FindTarget, EvidencePresent, ValidEvent, Mentions, Candidate, Weighed, ValidGraph, Updated;
  }

  lemma {:induction false} NoopIs(g: Graph, e: Event)
    requires Apply(g, e).Noop?
    ensures ValidEvent(e) && e.claimId == g.claimId && FindTarget(g.targets, e.targetId) < |g.targets|
    ensures Apply(g, e).graph == g
  {
    GuardMeans(g, e);
    hide Guard, ValidEvent, Candidate, Weighed, ValidGraph, Updated;
  }

  /** An event is no news to a valid graph if and only if it is valid, for the graph's
      claim, about a target of the same organization that already has the event's
      status and mentions its evidence. */
  lemma {:induction false} NoopExactly(g: Graph, e: Event)
    requires ValidGraph(g)
    ensures Apply(g, e).Noop? <==>
      && ValidEvent(e) && e.claimId == g.claimId
      && exists n: nat :: n < |g.targets| && Concerns(e, g.targets[n]) && g.targets[n].status == e.target
           && KnowsEvidence(g.targets[n], e)
    ensures Apply(g, e).Noop? ==> Apply(g, e).graph == g
  {
    var n := FindTarget(g.targets, e.targetId);
    hide ValidGraph, Apply, ValidEvent, KnowsEvidence, FindTarget;
    forall k: nat | k < |g.targets| && g.targets[k].id == e.targetId ensures k == n { OneTarget(g, e.targetId, k); }
    if Apply(g, e).Noop? { NoopIs(g, e); }
    if n < |g.targets| && ValidEvent(e) && e.claimId == g.claimId {
      TargetKnown(g, n);
      NoopGuard(g, e, n);
    }
  }

  // ----- what a run leaves -----

  /** A path of listed transitions from `a` to `b`, each to a more mature status. */
  ghost predicate Leads(g: Graph, path: seq<StatusField>, a: StatusField, b: StatusField) {
    && path != [] && path[0] == a && path[|path| - 1] == b
    && forall k :: 0 <= k < |path| - 1 ==> Listed(g, path[k], path[k + 1]) && Maturity(path[k]) < Maturity(path[k + 1])
  }

  lemma {:induction false} PathGrows(g: Graph, path: seq<StatusField>, a: StatusField, b: StatusField, c: StatusField)
    requires Leads(g, path, a, b) && Listed(g, b, c) && Maturity(b) < Maturity(c)
    ensures Leads(g, path + [c], a, c)
  {
    hide Listed, Maturity;
    var longer := path + [c];
    forall k | 0 <= k < |longer| - 1
      ensures Listed(g, longer[k], longer[k + 1]) && Maturity(longer[k]) < Maturity(longer[k + 1])
    {
      assert longer[k] == path[k];
    }
  }

  /** One applied event moves its target one listed step and leaves the others. */
  lemma {:induction false} AppliedMoves(g: Graph, e: Event)
    requires ValidGraph(g) && Apply(g, e).Applied?
    ensures var h, n := Apply(g, e).graph, FindTarget(g.targets, e.targetId);
      && n < |g.targets| == |h.targets| && g.targets[n].id == e.targetId
      && h.targets == g.targets[n := Updated(g.targets[n], e, g)]
      && h.transitions == g.transitions && h.statusModel == g.statusModel && h.claimId == g.claimId
      && h.targets[n].status == e.target && ValidGraph(h)
      && Listed(g, g.targets[n].status, e.target) && Maturity(g.targets[n].status) < Maturity(e.target)
    ensures ValidEvent(e) && e.target in g.statusModel
  {
    ApplyRaises(g, e);
    ApplyLeaves(g, e);
    AppliedExactly(g, e);
    hide ValidGraph, Apply, Updated, Listed, Maturity, ValidEvent, Concerns, Rescored, Weighed;
    forall k: nat | k < |g.targets| && Concerns(e, g.targets[k]) ensures k == FindTarget(g.targets, e.targetId) {
      assert g.targets[k].id == e.targetId by { ConcernsId(e, g.targets[k]); }
      OneTarget(g, e.targetId, k);
    }
  }

  lemma {:induction false} ConcernsId(e: Event, t: Target)
    requires Concerns(e, t)
    ensures t.id == e.targetId
  {
  }

  lemma {:induction false} RunFrame(g: Graph, es: seq<Event>)
    requires ValidGraph(g)
    ensures var h := Run(g, es).graph;
      && ValidGraph(h) && |h.targets| == |g.targets| && h.transitions == g.transitions
      && h.statusModel == g.statusModel && h.claimId == g.claimId
      && forall i :: 0 <= i < |g.targets| ==> h.targets[i].id == g.targets[i].id
  {
    hide ValidGraph, Apply;
    if es != [] {
      var w, e := Run(g, es[..|es| - 1]), es[|es| - 1];
      RunFrame(g, es[..|es| - 1]);
      if Apply(w.graph, e).Applied? {
        AppliedMoves(w.graph, e);
        UpdatedIs(w.graph.targets[FindTarget(w.graph.targets, e.targetId)], e, w.graph);
      }
    }
  }

  /** In every run every target goes from its first status to its last by listed
      transitions only, each to a more mature status. */
  lemma {:induction false} StatusesFollowTheTable(g: Graph, es: seq<Event>, i: nat)
    requires ValidGraph(g) && i < |g.targets|
    ensures |Run(g, es).graph.targets| == |g.targets|
    ensures exists path :: Leads(g, path, g.targets[i].status, Run(g, es).graph.targets[i].status)
  {
    hide ValidGraph, Apply, Leads;
    RunFrame(g, es);
    if es == [] {
      Trivial(g, g.targets[i].status);
    } else {
      var before, e := es[..|es| - 1], es[|es| - 1];
      RunFrame(g, before);
      StatusesFollowTheTable(g, before, i);
      var path :| Leads(g, path, g.targets[i].status, Run(g, before).graph.targets[i].status);
      StepFollows(g, Run(g, before), e, i, path, g.targets[i].status);
    }
  }

  lemma {:induction false} StepFollows(g: Graph, w: World, e: Event, i: nat, path: seq<StatusField>, a: StatusField)
    requires ValidGraph(w.graph) && i < |w.graph.targets| && w.graph.transitions == g.transitions
    requires Leads(g, path, a, w.graph.targets[i].status)
    ensures i < |Step(w, e).graph.targets|
    ensures exists longer :: Leads(g, longer, a, Step(w, e).graph.targets[i].status)
  {
    hide ValidGraph, Apply, Leads, Updated, Listed, Maturity, FindTarget, ValidEvent;
    var from, h := w.graph.targets[i].status, Step(w, e).graph;
    if Apply(w.graph, e).Applied? {
      AppliedMoves(w.graph, e);
      if i == FindTarget(w.graph.targets, e.targetId) {
        SameTable(g, w.graph, from, e.target);
        PathGrows(g, path, a, from, e.target);
        assert Leads(g, path + [e.target], a, h.targets[i].status);
      } else {
        assert Leads(g, path, a, h.targets[i].status);
      }
    }
  }

  lemma {:induction false} Trivial(g: Graph, status: StatusField)
    ensures Leads(g, [status], status, status)
  {
  }

  lemma {:induction false} SameTable(g: Graph, h: Graph, a: StatusField, b: StatusField)
    requires g.transitions == h.transitions
    ensures Listed(g, a, b) <==> Listed(h, a, b)
  {
  }

  // ----- the record of a target -----

  /** The last of the events about the target with this id. */
  function LastAbout(es: seq<Event>, id: string): Option<Event> {
    if es == [] then None
    else if es[|es| - 1].targetId == id then Some(es[|es| - 1])
    else LastAbout(es[..|es| - 1], id)
  }

  /** An update by a later stage hides an update by an earlier one. */
  lemma {:induction false} UpdateHides(t: Target, d: Event, e: Event, g: Graph)
    requires ValidEvent(d) && ValidEvent(e) && d.target in g.statusModel && e.target in g.statusModel
    requires Maturity(d.target) < Maturity(e.target)
    ensures Updated(Updated(t, d, g), e, g) == Updated(t, e, g)
  {
    MaturityIsRank(d.target.status);
    MaturityIsRank(e.target.status);
    hide Maturity, NextState, DateOf, RepositoryReference;
  }

  /** However many events were applied, a target is what the last one about it makes
      of the target as it was at the start. */
  lemma {:induction false} LastEventDecides(g: Graph, es: seq<Event>, i: nat)
    requires ValidGraph(g) && i < |g.targets|
    ensures var w, last := Run(g, es), LastAbout(Run(g, es).applied, g.targets[i].id);
      && |w.graph.targets| == |g.targets|
      && (last.None? ==> w.graph.targets[i] == g.targets[i])
      && (last.Some? ==> ValidEvent(last.value) && last.value.target in g.statusModel
                         && w.graph.targets[i] == Updated(g.targets[i], last.value, g))
  {
    hide ValidGraph, Apply, Updated, ValidEvent;
    RunFrame(g, es);
    if es != [] {
      var before, e := es[..|es| - 1], es[|es| - 1];
      var w, w' := Run(g, before), Run(g, es);
      RunFrame(g, before);
      LastEventDecides(g, before, i);
      if Apply(w.graph, e).Applied? {
        AppliedMoves(w.graph, e);
        assert w'.applied[..|w'.applied| - 1] == w.applied;
        var n := FindTarget(w.graph.targets, e.targetId);
        assert w.graph.targets[i].id == e.targetId <==> i == n by { SameIdSamePlace(w.graph, i, n); }
        if i == n {
          NewestDecides(g, w.graph, i, e, LastAbout(w.applied, g.targets[i].id));
        }
      }
    }
  }

  lemma {:induction false} SameIdSamePlace(g: Graph, i: nat, n: nat)
    requires ValidGraph(g) && i < |g.targets| && n < |g.targets|
    ensures g.targets[i].id == g.targets[n].id <==> i == n
  {
    hide ValidTarget;
  }

  lemma {:induction false} NewestDecides(g: Graph, h: Graph, i: nat, e: Event, last: Option<Event>)
    requires i < |g.targets| == |h.targets| && h.transitions == g.transitions && h.statusModel == g.statusModel
    requires ValidEvent(e) && e.target in g.statusModel && Maturity(h.targets[i].status) < Maturity(e.target)
    requires last.None? ==> h.targets[i] == g.targets[i]
    requires last.Some? ==> ValidEvent(last.value) && last.value.target in g.statusModel
                            && h.targets[i] == Updated(g.targets[i], last.value, g)
    ensures Updated(h.targets[i], e, h) == Updated(g.targets[i], e, g)
  {
    SameUpdate(h.targets[i], e, h, g);
    if last.Some? {
      UpdatedIs(g.targets[i], last.value, g);
      UpdateHides(g.targets[i], last.value, e, g);
    }
  }

  /** The number some digits stand for. */
  function Value(digits: string): int {
    if digits == "" then 0 else Value(digits[..|digits| - 1]) * 10 + (digits[|digits| - 1] as int - '0' as int)
  }

  /** `digits` is the number n as it is written. */
  ghost predicate Writes(digits: string, n: nat) {
    && Value(digits) == n && digits != "" && (forall i :: 0 <= i < |digits| ==> IsDigit(digits[i]))
    && (n > 0 ==> digits[0] != '0') && (n == 0 ==> digits == "0")
  }

  lemma {:induction false} DecimalWrites(n: nat)
    ensures Writes(DecimalText(n), n)
    decreases n
  {
    if n >= 10 {
      DecimalWrites(n / 10);
      var d := DecimalText(n / 10);
      assert DecimalText(n) == d + [('0' as int + n % 10) as char];
      assert DecimalText(n)[..|d|] == d;
    } else {
      assert DecimalText(n)[..0] == "";
    }
  }

  ghost predicate PullRequest(r: RepoRef, n: nat) {
    exists digits :: r == Github("safal207/LiminalOSAI/pull/" + digits) && Writes(digits, n)
  }

  lemma {:induction false} RepositoryIs(e: Event)
    requires ValidEvent(e)
    ensures e.commit.Some? ==> RepositoryReference(e) == Github("safal207/LiminalOSAI/commit/" + e.commit.value)
    ensures e.commit.None? && e.pr >= 0 ==> PullRequest(RepositoryReference(e), e.pr)
  {
    hide Writes, DecimalText, NonBlank;
    if e.commit.Some? {
      assert "safal207/LiminalOSAI" + ("/commit/" + e.commit.value)
          == "safal207/LiminalOSAI/commit/" + e.commit.value;
    } else if e.pr >= 0 {
      DecimalWrites(e.pr);
      assert "safal207/LiminalOSAI" + ("/pull/" + DecimalText(e.pr))
          == "safal207/LiminalOSAI/pull/" + DecimalText(e.pr);
    }
  }

  /** Target `t` is `was` with the findings of event `e` written into it. */
  ghost predicate Records(was: Target, e: Event, g: Graph, t: Target) {
    && t.id == was.id && t.claimId == was.claimId && t.organization == was.organization && t.name == was.name
    && t.requestedFalsification == was.requestedFalsification
    && t.status == e.target && t.evidence == e.evidence.summary && t.evidenceReference == e.evidence.reference
    && (e.target in g.statusModel ==> t.statusWeight == g.statusModel[e.target].weight)
    && (e.commit.Some? ==> t.repository == Github("safal207/LiminalOSAI/commit/" + e.commit.value))
    && (e.commit.None? && e.pr >= 0 ==> PullRequest(t.repository, e.pr))
    && (|e.occurredAt.text| >= 10 ==> t.dateUtc == e.occurredAt.text[..10])
    && t.lastEvent.Some? && t.lastEvent.value.eventId == e.eventId && t.lastEvent.value.eventType == e.eventType
    && t.lastEvent.value.occurredAt == e.occurredAt.text && t.lastEvent.value.evidencePublic == e.evidence.isPublic
    && t.lastEvent.value.evidenceReference == e.evidence.reference
    && (forall next :: Listed(g, e.target, Known(next)) ==> Maturity(Known(next)) <= Maturity(t.nextState))
    && (Listed(g, e.target, t.nextState) || t.nextState == Known(Validated))
    && t.technicalReference == (if Maturity(e.target) >= 3 then Some(e.evidence.reference) else was.technicalReference)
    && (Maturity(e.target) < 4 ==> t.reproduction == was.reproduction)
    && (Maturity(e.target) >= 4 ==>
          && t.reproduction.Some? && t.reproduction.value.repository == t.repository
          && Some(t.reproduction.value.externalReference) == e.evidence.reproductionReference
          && Some(t.reproduction.value.externalReproducer) == e.evidence.externalReproducer)
    && (Maturity(e.target) < 5 ==> t.validation == was.validation)
    && (Maturity(e.target) >= 5 ==>
          && t.validation.Some? && t.validation.value.repository == t.repository
          && Some(t.validation.value.externalReference) == e.evidence.validationReference
          && Some(t.validation.value.reproductionReference) == e.evidence.reproductionReference)
  }

  lemma {:induction false} NextIsStrongest(g: Graph, a: Status)
    ensures forall b :: Listed(g, Known(a), Known(b)) ==>
      Maturity(Known(b)) <= Maturity(Known(NextState(g.transitions, a)))
    ensures Listed(g, Known(a), Known(NextState(g.transitions, a))) || NextState(g.transitions, a) == Validated
  {
    forall b ensures AllowedEdge(g.transitions, a, b) <==> Listed(g, Known(a), Known(b)) { ListedIs(g, a, b); }
    hide AllowedEdge, Listed;
  }

  lemma {:induction false} UpdatedRecords(t: Target, e: Event, g: Graph)
    requires ValidEvent(e) && e.target in g.statusModel
    ensures Records(t, e, g, Updated(t, e, g))
  {
    MaturityIsRank(e.target.status);
    NextIsStrongest(g, e.target.status);
    RepositoryIs(e);
    assert e.target == Known(e.target.status);
    hide Maturity, NextState, Listed, RepositoryReference, PullRequest, Strip, NonBlank;
  }

  /** After any run a target no applied event was about is as it was, and any other
      carries the findings of the last event applied to it. */
  lemma {:induction false} TargetsRecordTheirLastEvent(g: Graph, es: seq<Event>, i: nat)
    requires ValidGraph(g) && i < |g.targets|
    ensures var w, last := Run(g, es), LastAbout(Run(g, es).applied, g.targets[i].id);
      && |w.graph.targets| == |g.targets|
      && (if last.None? then w.graph.targets[i] == g.targets[i]
          else Records(g.targets[i], last.value, g, w.graph.targets[i]))
  {
    LastEventDecides(g, es, i);
    var last := LastAbout(Run(g, es).applied, g.targets[i].id);
    hide *;
    if last.Some? { UpdatedRecords(g.targets[i], last.value, g); }
  }

  // ----- the score -----

  /** The places of the targets that are at least this mature. */
  ghost function Mature(ts: seq<Target>, least: int): set<int> {
    set i | 0 <= i < |ts| && Maturity(ts[i].status) >= least
  }

  lemma {:induction false} MatureGrows(ts: seq<Target>, least: int)
    requires ts != []
    ensures var n := |ts| - 1;
      Mature(ts, least) == Mature(ts[..n], least) + if Maturity(ts[n].status) >= least then {n} else {}
  {
    hide Maturity;
  }

  lemma {:induction false} CountIs(ts: seq<Target>, least: nat)
    ensures CountFrom(ts, least) == |Mature(ts, least)|
  {
    if ts == [] {
      assert Mature(ts, least) == {};
    } else {
      var n, t := |ts| - 1, ts[|ts| - 1];
      CountIs(ts[..n], least);
      MatureGrows(ts, least);
      assert n !in Mature(ts[..n], least);
      if t.status.Known? { MaturityIsRank(t.status.status); }
      hide Rank, Mature;
    }
  }

  /** Rounding goes to the nearest whole number, from the middle to the even one. */
  lemma {:induction false} RoundsToNearest(x: real)
    ensures var n := RoundHalfEven(x);
      -0.5 <= n as real - x <= 0.5 && (n as real - x == 0.5 || n as real - x == -0.5 ==> n % 2 == 0)
  {
  }

  lemma {:induction false} RoundsClose(x: real)
    ensures -0.000000005 <= Round8(x) - x <= 0.000000005
    ensures -0.005 <= Round2(x) - x <= 0.005
  {
    RoundsToNearest(x * 100000000.0);
    RoundsToNearest(x * 100.0);
    hide RoundHalfEven;
  }

  /** The score tells the number of targets, their exact weight to eight places, its
      share of the greatest possible weight in percent to two places, and how many
      targets have feedback, are reproduced and are validated. */
  ghost predicate TellsTruth(h: Graph) {
    && h.score.targetCount == |h.targets| > 0 && Weighed(h.targets, h.statusModel)
    && -0.000000005 <= h.score.weightedSum - Weight(h.targets, h.statusModel) <= 0.000000005
    && -0.005 <= h.score.percent - 100.0 * h.score.weightedSum / |h.targets| as real <= 0.005
    && h.score.interpretation == Counts(|Mature(h.targets, 3)|, |Mature(h.targets, 4)|, |Mature(h.targets, 5)|)
  }

  /** As soon as an event has been applied the score tells the truth. */
  lemma {:induction false} ScoreTells(g: Graph, es: seq<Event>)
    requires ValidGraph(g) && Run(g, es).applied != []
    ensures TellsTruth(Run(g, es).graph)
  {
    hide Apply, ValidGraph, TellsTruth;
    var w, e := Run(g, es[..|es| - 1]), es[|es| - 1];
    RunFrame(g, es);
    if Apply(w.graph, e).Applied? {
      ApplyLeaves(w.graph, e);
      AppliedScore(w.graph, e, Apply(w.graph, e).graph);
      ScoreOf(Apply(w.graph, e).graph);
    } else {
      ScoreTells(g, es[..|es| - 1]);
    }
  }

  lemma {:induction false} AppliedScore(g: Graph, e: Event, h: Graph)
    requires AppliedTo(g, e, h)
    ensures Weighed(h.targets, h.statusModel) && h.targets != [] && h.score == Rescored(h.targets, h.statusModel)
  {
    hide ValidEvent, Updated, Weighed, Rescored;
  }

  lemma {:induction false} ScoreOf(h: Graph)
    requires Weighed(h.targets, h.statusModel) && h.targets != [] && h.score == Rescored(h.targets, h.statusModel)
    ensures TellsTruth(h)
  {
    CountIs(h.targets, 3);
    CountIs(h.targets, 4);
    CountIs(h.targets, 5);
    RoundsClose(Weight(h.targets, h.statusModel));
    RoundsClose(100.0 * h.score.weightedSum / |h.targets| as real);
    hide Round8, Round2, Weight, CountFrom, Mature, Weighed;
  }
}
