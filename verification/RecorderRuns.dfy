/** Whole runs of the recorder: any schedule of pushes and polls. */
module RecorderRuns {
  import opened Options
  import opened RecorderModel

  datatype Op = PushOp(tick: Tick) | PollOp(tag: Flags)

  /** A capture as a reader of the run sees it: the number of ticks pushed when it
      was triggered, the poll that triggered it and the poll that finished it. */
  datatype Trigger = Trigger(tick: nat, poll: nat)
  datatype Span = Span(start: Trigger, last: nat)

  /** `first` is the number of the first episode, `polls` are the tags polled so far;
      `paced` says that no poll of a running capture has come more than 256 pushes
      after the poll before it. */
  datatype World = World(
    first: nat, rec: Recorder, polls: seq<Flags>, pushes: nat, paced: bool, running: Trigger, spans: seq<Span>)

  /** The first half of a poll. */
  ghost function Advanced(w: World, tag: Flags): World {
    var rec := Advance(w.rec, tag);
    w.(rec := rec, polls := w.polls + [tag], pushes := 0,
       paced := w.paced && (w.rec.capture.Some? ==> w.pushes <= 256),
       spans := if |rec.episodes| > |w.rec.episodes| then w.spans + [Span(w.running, |w.polls|)] else w.spans)
  }

  /** The second half, when the poll triggers. */
  ghost function Started(w: World, tag: Flags): World
    requires w.polls != [] && w.rec.history != []
  {
    var rec, here := Start(w.rec, tag), Trigger(|w.rec.history|, |w.polls| - 1);
    w.(rec := rec, running := here,
       spans := if |rec.episodes| > |w.rec.episodes| then w.spans + [Span(here, |w.polls| - 1)] else w.spans)
  }

  ghost function Step(w: World, op: Op): World {
    match op
    case PushOp(t) => w.(rec := Push(w.rec, t), pushes := w.pushes + 1)
    case PollOp(tag) =>
      var mid := Advanced(w, tag);
      if Triggers(mid.rec, tag) then Started(mid, tag) else mid
  }

  ghost function Run(first: nat, pre: int, post: int, ops: seq<Op>): World {
    if ops == [] then World(first, Init(pre, post, first), [], 0, true, Trigger(0, 0), [])
    else Step(Run(first, pre, post, ops[..|ops| - 1]), ops[|ops| - 1])
  }

  function OrAll(tags: seq<Flags>): Flags {
    if tags == [] then {} else OrAll(tags[..|tags| - 1]) + tags[|tags| - 1]
  }

  /** Ticks available before a trigger, cut to the pre-window. */
  function Lead(pre: nat, tick: nat): nat
    requires tick > 0
  {
    Min(pre, tick - 1)
  }

  // ----- what holds of every finished episode -----

  ghost predicate Sized(w: World, k: nat)
    requires k < |w.spans| == |w.rec.episodes|
  {
    && 0 < w.spans[k].start.tick
    && |w.rec.episodes[k].episode.ticks| == Lead(w.rec.pre, w.spans[k].start.tick) + 1 + w.rec.post
  }

  ghost predicate Tagged(w: World, k: nat)
    requires k < |w.spans| == |w.rec.episodes|
  {
    && w.spans[k].start.poll <= w.spans[k].last < |w.polls|
    && w.rec.episodes[k].episode.tag == OrAll(w.polls[w.spans[k].start.poll..w.spans[k].last + 1])
  }

  /** The episode is one unbroken stretch of the tick history. */
  ghost predicate GapFree(w: World, k: nat)
    requires k < |w.spans| == |w.rec.episodes|
  {
    var t := w.spans[k].start.tick;
    && 0 < t && t + w.rec.post <= |w.rec.history|
    && w.rec.episodes[k].episode.ticks == w.rec.history[t - 1 - Lead(w.rec.pre, t)..t + w.rec.post]
  }

  ghost predicate Spaced(w: World) {
    && (forall k :: 0 <= k < |w.spans| - 1 ==> w.spans[k].last + Max(w.rec.post, 1) <= w.spans[k + 1].start.poll)
    && (w.spans != [] ==>
          var last := w.spans[|w.spans| - 1].last;
          last < |w.polls| && last + w.rec.post <= |w.polls| - 1 + w.rec.debounce)
    && (w.spans != [] && w.rec.capture.Some? ==>
          w.spans[|w.spans| - 1].last + Max(w.rec.post, 1) <= w.running.poll)
  }

  ghost predicate Numbered(w: World) {
    forall k :: 0 <= k < |w.rec.episodes| ==> w.rec.episodes[k].id == w.first + k
  }

  ghost predicate Finished(w: World) {
    && |w.spans| == |w.rec.episodes| && w.rec.nextId == w.first + |w.rec.episodes|
    && (forall k :: 0 <= k < |w.spans| ==> Sized(w, k) && Tagged(w, k))
    && (w.paced ==> forall k :: 0 <= k < |w.spans| ==> GapFree(w, k))
  }

  /** The running capture: how far it is from its trigger, and which tags it has. */
  ghost predicate Running(w: World) {
    w.rec.capture.Some? ==>
      var c, t := w.rec.capture.value, w.running.tick;
      && 0 < t <= c.seen <= |w.rec.history| && w.running.poll < |w.polls|
      && c.seen + w.pushes == |w.rec.history|
      && |c.ticks| + c.remaining == Lead(w.rec.pre, t) + 1 + w.rec.post
      && c.tag == OrAll(w.polls[w.running.poll..])
      && (w.paced ==> c.remaining == t + w.rec.post - c.seen
                      && c.ticks == w.rec.history[t - 1 - Lead(w.rec.pre, t)..c.seen])
  }

  ghost predicate Inv(w: World) {
    ValidRecorder(w.rec) && Finished(w) && Running(w) && Spaced(w) && Numbered(w)
  }

  lemma {:induction false} PushStep(w: World, t: Tick)
    requires Inv(w)
    ensures Inv(Step(w, PushOp(t)))
  {
    var w' := Step(w, PushOp(t));
    forall k | 0 <= k < |w'.spans| ensures Sized(w', k) && Tagged(w', k) && (w'.paced ==> GapFree(w', k)) {
      assert Sized(w, k) && Tagged(w, k) && (w.paced ==> GapFree(w, k));
    }
  }

  /** Facts about an episode survive later ticks, polls and episodes. */
  lemma {:induction false} OldEpisode(w: World, w': World, k: nat)
    requires |w.spans| == |w.rec.episodes| && |w'.spans| == |w'.rec.episodes| && k < |w.spans|
    requires w.spans <= w'.spans && w.rec.episodes <= w'.rec.episodes && w.polls <= w'.polls
    requires w'.rec.history == w.rec.history && w'.rec.pre == w.rec.pre && w'.rec.post == w.rec.post
    requires Sized(w, k) && Tagged(w, k)
    ensures Sized(w', k) && Tagged(w', k) && (GapFree(w, k) ==> GapFree(w', k))
  {
    var s := w.spans[k];
    assert w'.polls[s.start.poll..s.last + 1] == w.polls[s.start.poll..s.last + 1];
  }

  lemma {:induction false} OrLast(tags: seq<Flags>, tag: Flags)
    ensures OrAll(tags + [tag]) == OrAll(tags) + tag
  {
    assert (tags + [tag])[..|tags|] == tags;
  }

  lemma {:induction false} OldEpisodes(w: World, w': World)
    requires Finished(w) && |w'.spans| == |w'.rec.episodes| && (w'.paced ==> w.paced)
    requires w.spans <= w'.spans && w.rec.episodes <= w'.rec.episodes && w.polls <= w'.polls
    requires w'.rec.history == w.rec.history && w'.rec.pre == w.rec.pre && w'.rec.post == w.rec.post
    ensures forall k :: 0 <= k < |w.spans| ==> Sized(w', k) && Tagged(w', k) && (w'.paced ==> GapFree(w', k))
  {
    forall k | 0 <= k < |w.spans| ensures Sized(w', k) && Tagged(w', k) && (w'.paced ==> GapFree(w', k)) {
      OldEpisode(w, w', k);
    }
  }

  /** The tag of a running capture after this poll. */
  lemma {:induction false} AdvanceTag(w: World, tag: Flags)
    requires Inv(w) && w.rec.capture.Some?
    ensures var polls := Advanced(w, tag).polls;
            && w.rec.capture.value.tag + tag == OrAll(polls[w.running.poll..])
            && polls[w.running.poll..] == polls[w.running.poll..|w.polls| + 1]
  {
    var p := w.running.poll;
    assert Advanced(w, tag).polls[p..] == w.polls[p..] + [tag];
    OrLast(w.polls[p..], tag);
  }

  /** A capture that has kept pace continues without a gap. */
  lemma {:induction false} CaptureTicks(w: World, n: nat)
    requires w.rec.capture.Some? && Running(w) && w.paced && w.pushes <= RING
    requires n <= |Unseen(w.rec.history, w.rec.capture.value.seen)|
    ensures var c, t, news := w.rec.capture.value, w.running.tick, Unseen(w.rec.history, w.rec.capture.value.seen);
            && |news| == |w.rec.history| - c.seen
            && c.ticks + news[..n] == w.rec.history[t - 1 - Lead(w.rec.pre, t)..c.seen + n]
  {
    var c := w.rec.capture.value;
    assert Unseen(w.rec.history, c.seen)[..n] == w.rec.history[c.seen..c.seen + n];
  }

  lemma {:induction false} AdvanceFinished(w: World, tag: Flags)
    requires Inv(w)
    ensures Finished(Advanced(w, tag))
  {
    var w' := Advanced(w, tag);
    AdvanceGrows(w, tag);
    if w.rec.capture.Some? && w'.rec.capture.None? { AdvanceNewest(w, tag); }
    hide Advanced, Sized, Tagged, GapFree, Spaced, Running, Numbered, ValidRecorder;
    OldEpisodes(w, w');
  }

  /** A poll leaves what was there and adds at most one episode. */
  lemma {:induction false} AdvanceGrows(w: World, tag: Flags)
    requires Finished(w)
    ensures var w' := Advanced(w, tag);
      && |w'.spans| == |w'.rec.episodes| && w'.rec.nextId == w'.first + |w'.rec.episodes|
      && w.spans <= w'.spans && w.rec.episodes <= w'.rec.episodes && w.polls <= w'.polls
      && w'.rec.history == w.rec.history && w'.rec.pre == w.rec.pre && w'.rec.post == w.rec.post
      && (w'.paced ==> w.paced)
      && (|w'.spans| > |w.spans| <==> w.rec.capture.Some? && w'.rec.capture.None?)
      && |w'.spans| <= |w.spans| + 1
  {
    hide Sized, Tagged, GapFree;
  }

  lemma {:induction false} AdvanceNumbered(w: World, tag: Flags)
    requires Inv(w)
    ensures Numbered(Advanced(w, tag))
  {
    hide Sized, Tagged, GapFree, Spaced, Running;
  }

  lemma {:induction false} AdvanceSpaced(w: World, tag: Flags)
    requires Inv(w)
    ensures var w' := Advanced(w, tag);
      && Spaced(w')
      && (w'.spans != [] && w'.rec.debounce == 0 ==> w'.spans[|w'.spans| - 1].last < |w'.polls| - 1)
  {
    hide Sized, Tagged, GapFree, Numbered;
  }

  lemma {:induction false} AdvanceNewest(w: World, tag: Flags)
    requires Inv(w) && w.rec.capture.Some? && Advanced(w, tag).rec.capture.None?
    ensures var w' := Advanced(w, tag);
            && |w'.spans| == |w'.rec.episodes| == |w.spans| + 1
            && Sized(w', |w.spans|) && Tagged(w', |w.spans|) && (w'.paced ==> GapFree(w', |w.spans|))
  {
    AdvanceTag(w, tag);
    var w', c := Advanced(w, tag), w.rec.capture.value;
    assert w'.spans[|w.spans|] == Span(w.running, |w.polls|);
    assert w'.rec.episodes[|w.spans|].episode
        == Episode(c.ticks + Unseen(w.rec.history, c.seen)[..c.remaining], c.tag + tag);
    if w.paced && w.pushes <= RING { CaptureTicks(w, c.remaining); }
  }

  lemma {:induction false} AdvanceRunning(w: World, tag: Flags)
    requires Inv(w)
    ensures Running(Advanced(w, tag))
  {
    if Advanced(w, tag).rec.capture.Some? {
      AdvanceTag(w, tag);
      var c := w.rec.capture.value;
      var news := Unseen(w.rec.history, w.rec.capture.value.seen);
      assert news[..|news|] == news;
      assert Advanced(w, tag).rec.capture.value
          == Capture(c.ticks + news, c.remaining - |news|, c.tag + tag, |w.rec.history|);
      if w.paced && w.pushes <= RING { CaptureTicks(w, |news|); }
    }
  }

  lemma {:induction false} AdvanceStep(w: World, tag: Flags)
    requires Inv(w)
    ensures var w' := Advanced(w, tag);
            && Inv(w')
            && (w'.spans != [] && w'.rec.debounce == 0 ==> w'.spans[|w'.spans| - 1].last < |w'.polls| - 1)
  {
    PollKeeps(w.rec, tag);
    assert Advanced(w, tag).rec == Advance(w.rec, tag);
    hide Advanced, Finished, Running, Spaced, Numbered, ValidRecorder, Advance, Poll;
    AdvanceFinished(w, tag);
    AdvanceRunning(w, tag);
    AdvanceSpaced(w, tag);
    AdvanceNumbered(w, tag);
  }

  /** An episode finished by the poll that triggered it, because nothing is to
      follow the trigger. */
  lemma {:induction false} StartNewest(w: World, tag: Flags)
    requires Inv(w) && w.polls != [] && w.polls[|w.polls| - 1] == tag && Triggers(w.rec, tag)
    requires Started(w, tag).rec.capture.None?
    ensures var w', k := Started(w, tag), |w.spans|;
      |w'.spans| == |w'.rec.episodes| == k + 1 && Sized(w', k) && Tagged(w', k) && GapFree(w', k)
  {
    var w' := Started(w, tag);
    var k, n := |w.spans|, |w.rec.history|;
    assert w'.spans[k] == Span(Trigger(n, |w.polls| - 1), |w.polls| - 1);
    assert w'.rec.episodes[k].episode == Episode(w.rec.history[n - 1 - Before(w.rec)..], tag);
    assert Sized(w', k) && GapFree(w', k);
    assert w'.polls[|w.polls| - 1..|w.polls| - 1 + 1] == [tag];
    OrOne(tag);
  }

  lemma {:induction false} OrOne(tag: Flags)
    ensures OrAll([tag]) == tag
  {
    OrLast([], tag);
    assert [] + [tag] == [tag];
  }

  lemma {:induction false} StartFinished(w: World, tag: Flags)
    requires Inv(w) && w.polls != [] && w.polls[|w.polls| - 1] == tag && Triggers(w.rec, tag)
    ensures Finished(Started(w, tag)) && OrAll(w.polls[|w.polls| - 1..]) == tag
  {
    OrOne(tag);
    assert w.polls[|w.polls| - 1..] == [tag];
    OldEpisodes(w, Started(w, tag));
    if Started(w, tag).rec.capture.None? { StartNewest(w, tag); }
    hide Sized, Tagged, GapFree, OrAll;
  }

  lemma {:induction false} StartStep(w: World, tag: Flags)
    requires Inv(w) && w.polls != [] && w.polls[|w.polls| - 1] == tag && w.pushes == 0 && Triggers(w.rec, tag)
    requires w.spans != [] ==> w.spans[|w.spans| - 1].last < |w.polls| - 1
    ensures Inv(Started(w, tag))
  {
    StartFinished(w, tag);
    hide Finished;
  }

  lemma {:induction false} StepKeeps(w: World, op: Op)
    requires Inv(w)
    ensures Inv(Step(w, op))
  {
    match op
    case PushOp(t) => PushStep(w, t);
    case PollOp(tag) =>
      AdvanceStep(w, tag);
      if Triggers(Advanced(w, tag).rec, tag) { StartStep(Advanced(w, tag), tag); }
  }

  lemma {:induction false} RunInvariant(first: nat, pre: int, post: int, ops: seq<Op>)
    ensures Inv(Run(first, pre, post, ops))
  {
    if ops != [] {
      RunInvariant(first, pre, post, ops[..|ops| - 1]);
      StepKeeps(Run(first, pre, post, ops[..|ops| - 1]), ops[|ops| - 1]);
    }
  }

  // ----- which schedules keep pace -----

  function PushesSincePoll(ops: seq<Op>): nat {
    if ops == [] || ops[|ops| - 1].PollOp? then 0 else 1 + PushesSincePoll(ops[..|ops| - 1])
  }

  ghost predicate AtMostARingBetweenPolls(ops: seq<Op>) {
    forall n :: 0 <= n <= |ops| ==> PushesSincePoll(ops[..n]) <= 256
  }

  lemma {:induction false} PacedRun(first: nat, pre: int, post: int, ops: seq<Op>)
    requires AtMostARingBetweenPolls(ops)
    ensures Run(first, pre, post, ops).paced && Run(first, pre, post, ops).pushes == PushesSincePoll(ops)
  {
    if ops != [] {
      var before := ops[..|ops| - 1];
      assert forall n :: 0 <= n <= |before| ==> before[..n] == ops[..n];
      PacedRun(first, pre, post, before);
    }
  }

  /** With at most 256 pushes between polls every finished episode is one unbroken
      stretch of the history: min(pre, available) ticks before the trigger, the
      trigger and `post` ticks after it, never cut by the buffer size. */
  lemma {:induction false} EpisodesAreGapFree(first: nat, pre: int, post: int, ops: seq<Op>, k: nat)
    requires AtMostARingBetweenPolls(ops) && k < |Run(first, pre, post, ops).rec.episodes|
    ensures var w := Run(first, pre, post, ops);
            && |w.spans| == |w.rec.episodes|
            && GapFree(w, k) && Sized(w, k) && |w.rec.episodes[k].episode.ticks| <= 128
  {
    RunInvariant(first, pre, post, ops);
    PacedRun(first, pre, post, ops);
  }

  /** The 256 is exact: one push more and the first tick the capture takes next is
      not the one after its last. */
  lemma {:induction false} OverrunLosesTicks(w: World, tag: Flags)
    requires Inv(w) && w.paced && w.rec.capture.Some? && w.pushes > RING
    ensures var c, n := w.rec.capture.value, |w.rec.history|;
            var w' := Advanced(w, tag);
            var ticks := if w'.rec.capture.Some? then w'.rec.capture.value.ticks
                         else w'.rec.episodes[|w'.rec.episodes| - 1].episode.ticks;
            && |ticks| > |c.ticks| && ticks[|c.ticks|] == w.rec.history[n - RING] && n - RING > c.seen
  {
  }

  // ----- one push per poll -----

  function Lockstep(ts: seq<(Tick, Flags)>): seq<Op> {
    if ts == [] then []
    else Lockstep(ts[..|ts| - 1]) + [PushOp(ts[|ts| - 1].0), PollOp(ts[|ts| - 1].1)]
  }

  ghost predicate InStep(w: World) {
    && Inv(w) && w.paced && w.pushes == 0 && |w.polls| == |w.rec.history|
    && (w.rec.capture.Some? ==> w.running.tick == w.running.poll + 1)
    && (forall k :: 0 <= k < |w.spans| ==> w.spans[k].last == w.spans[k].start.poll + w.rec.post)
  }

  lemma {:induction false} LockstepRun(first: nat, pre: int, post: int, ts: seq<(Tick, Flags)>)
    ensures InStep(Run(first, pre, post, Lockstep(ts)))
  {
    if ts != [] {
      var before, t := Lockstep(ts[..|ts| - 1]), ts[|ts| - 1];
      LockstepRun(first, pre, post, ts[..|ts| - 1]);
      var ops := Lockstep(ts);
      assert ops[..|ops| - 1] == before + [PushOp(t.0)] && (before + [PushOp(t.0)])[..|before|] == before;
      LockstepStep(Run(first, pre, post, before), t.0, t.1);
    }
  }

  lemma {:induction false} LockstepAdvance(w: World, tag: Flags)
    requires Inv(w) && w.paced && w.pushes == 1 && |w.polls| + 1 == |w.rec.history|
    requires w.rec.capture.Some? ==> w.running.tick == w.running.poll + 1
    requires forall k :: 0 <= k < |w.spans| ==> w.spans[k].last == w.spans[k].start.poll + w.rec.post
    ensures InStep(Advanced(w, tag))
  {
    AdvanceStep(w, tag);
    if w.rec.capture.Some? {
      assert |Unseen(w.rec.history, w.rec.capture.value.seen)| == 1;
    }
  }

  lemma {:induction false} LockstepStep(w: World, t: Tick, tag: Flags)
    requires InStep(w)
    ensures InStep(Step(Step(w, PushOp(t)), PollOp(tag)))
  {
    var w1 := Step(w, PushOp(t));
    PushStep(w, t);
    LockstepAdvance(w1, tag);
    AdvanceStep(w1, tag);
    var mid := Advanced(w1, tag);
    assert mid.polls == w1.polls + [tag] && mid.pushes == 0;
    hide Inv, Advanced, InStep;
    if Triggers(mid.rec, tag) { LockstepStart(mid, tag); }
  }

  lemma {:induction false} LockstepStart(w: World, tag: Flags)
    requires InStep(w) && w.polls != [] && w.polls[|w.polls| - 1] == tag && w.pushes == 0 && Triggers(w.rec, tag)
    requires w.spans != [] ==> w.spans[|w.spans| - 1].last < |w.polls| - 1
    ensures InStep(Started(w, tag))
  {
    StartStep(w, tag);
    hide Inv;
  }

  /** When every tick is polled once, an episode takes exactly `post` polls after
      its trigger, and triggers are at least 2 x post polls apart. */
  lemma {:induction false} TriggersAreSpaced(first: nat, pre: int, post: int, ts: seq<(Tick, Flags)>, k: nat)
    requires k + 1 < |Run(first, pre, post, Lockstep(ts)).spans|
    ensures var w := Run(first, pre, post, Lockstep(ts));
            && w.spans[k].last == w.spans[k].start.poll + w.rec.post
            && w.spans[k + 1].start.poll >= w.spans[k].start.poll + Max(2 * w.rec.post, 1)
  {
    LockstepRun(first, pre, post, ts);
  }
}
