/** Exactly which runs of the recorder keep every tick of a captured stretch. */
module RecorderGaps {
  import opened Options
  import opened RecorderModel
  import opened RecorderRuns

  /** The first tick an episode triggered at `tick` should hold. */
  function StartOf(pre: nat, tick: nat): nat
    requires tick > 0
  {
    tick - 1 - Lead(pre, tick)
  }

  /** The running capture holds every tick from its first to the last it has seen. */
  ghost predicate Unbroken(w: World) {
    w.rec.capture.Some? ==>
      var c, t := w.rec.capture.value, w.running.tick;
      && 0 < t && StartOf(w.rec.pre, t) <= c.seen <= |w.rec.history|
      && c.ticks == w.rec.history[StartOf(w.rec.pre, t)..c.seen]
  }

  ghost predicate AllGapFree(w: World) {
    |w.spans| == |w.rec.episodes| && forall k :: 0 <= k < |w.spans| ==> GapFree(w, k)
  }

  predicate Different(h: seq<Tick>) {
    forall i, j :: 0 <= i < j < |h| ==> h[i] != h[j]
  }

  /** The tick at place `j` is tick `m` of the history, which is not the one a stretch
      beginning at `from` has there. */
  ghost predicate MisplacedAt(ticks: seq<Tick>, from: nat, h: seq<Tick>, j: nat, m: nat) {
    j < |ticks| && m < |h| && ticks[j] == h[m] && m != from + j
  }

  ghost predicate Misplaced(ticks: seq<Tick>, from: nat, h: seq<Tick>) {
    exists j: nat, m: nat :: MisplacedAt(ticks, from, h, j, m)
  }

  lemma {:induction false} MisplacedGrows(a: seq<Tick>, b: seq<Tick>, from: nat, h: seq<Tick>, longer: seq<Tick>)
    requires a <= b && h <= longer && Misplaced(a, from, h)
    ensures Misplaced(b, from, longer)
  {
    var j: nat, m: nat :| MisplacedAt(a, from, h, j, m);
    assert MisplacedAt(b, from, longer, j, m);
  }

  lemma {:induction false} MisplacedIsNoStretch(ticks: seq<Tick>, from: nat, h: seq<Tick>, to: nat)
    requires Different(h) && Misplaced(ticks, from, h) && from <= to <= |h|
    ensures ticks != h[from..to]
  {
    var j: nat, m: nat :| MisplacedAt(ticks, from, h, j, m);
    assert forall i :: 0 <= i < to - from ==> h[from..to][i] == h[from + i];
  }

  // ----- damage lasts -----

  ghost predicate EpisodeDamaged(w: World, k: nat) {
    && k < |w.spans| == |w.rec.episodes| && w.spans[k].start.tick > 0
    && Misplaced(w.rec.episodes[k].episode.ticks, StartOf(w.rec.pre, w.spans[k].start.tick), w.rec.history)
  }

  ghost predicate CaptureDamaged(w: World) {
    && w.rec.capture.Some? && w.running.tick > 0
    && Misplaced(w.rec.capture.value.ticks, StartOf(w.rec.pre, w.running.tick), w.rec.history)
  }

  ghost predicate Damaged(w: World) {
    CaptureDamaged(w) || exists k: nat :: EpisodeDamaged(w, k)
  }

  /** A damaged episode stays damaged. */
  lemma {:induction false} EpisodeStaysDamaged(w: World, w': World, k: nat)
    requires EpisodeDamaged(w, k) && |w'.spans| == |w'.rec.episodes|
    requires w.spans <= w'.spans && w.rec.episodes <= w'.rec.episodes
    requires w.rec.history <= w'.rec.history && w'.rec.pre == w.rec.pre
    ensures EpisodeDamaged(w', k)
  {
    var ticks := w.rec.episodes[k].episode.ticks;
    hide Misplaced;
    MisplacedGrows(ticks, ticks, StartOf(w.rec.pre, w.spans[k].start.tick), w.rec.history, w'.rec.history);
  }

  lemma {:induction false} PushDamage(w: World, t: Tick)
    requires Damaged(w)
    ensures Damaged(Step(w, PushOp(t)))
  {
    var w' := Step(w, PushOp(t));
    hide Misplaced;
    if CaptureDamaged(w) {
      var ticks := w.rec.capture.value.ticks;
      MisplacedGrows(ticks, ticks, StartOf(w.rec.pre, w.running.tick), w.rec.history, w'.rec.history);
    } else {
      var k: nat :| EpisodeDamaged(w, k);
      EpisodeStaysDamaged(w, w', k);
    }
  }

  /** A poll only appends to a running capture, which it may finish. */
  lemma {:induction false} AdvanceAppends(w: World, tag: Flags)
    requires Inv(w) && w.rec.capture.Some?
    ensures var w' := Advanced(w, tag);
      && (w'.rec.capture.Some? ==> w.rec.capture.value.ticks <= w'.rec.capture.value.ticks && w'.running == w.running)
      && (w'.rec.capture.None? ==>
            && |w'.spans| == |w'.rec.episodes| == |w.spans| + 1 && w'.spans[|w.spans|].start == w.running
            && w.rec.capture.value.ticks <= w'.rec.episodes[|w.spans|].episode.ticks)
  {
    hide Sized, Tagged, GapFree, Spaced, Numbered, Running;
  }

  /** Damage to the running capture is still there after the poll. */
  lemma {:induction false} CaptureStaysDamaged(w: World, tag: Flags, ticks: seq<Tick>)
    requires Inv(w) && w.rec.capture.Some? && w.running.tick > 0
    requires var w' := Advanced(w, tag);
      ticks == if w'.rec.capture.Some? then w'.rec.capture.value.ticks
               else w'.rec.episodes[|w'.rec.episodes| - 1].episode.ticks
    requires Misplaced(ticks, StartOf(w.rec.pre, w.running.tick), w.rec.history)
    ensures Damaged(Advanced(w, tag))
  {
    AdvanceAppends(w, tag);
    AdvanceGrows(w, tag);
    hide Inv, Misplaced, Advanced;
    var w' := Advanced(w, tag);
    assert CaptureDamaged(w') || EpisodeDamaged(w', |w.spans|);
  }

  lemma {:induction false} AdvanceDamage(w: World, tag: Flags)
    requires Inv(w) && (!w.paced ==> Damaged(w))
    ensures !Advanced(w, tag).paced ==> Damaged(Advanced(w, tag))
  {
    var w' := Advanced(w, tag);
    AdvanceGrows(w, tag);
    if !w'.paced {
      if w.paced {
        OverrunDamages(w, tag);
      } else if CaptureDamaged(w) {
        AdvanceAppends(w, tag);
        hide Inv, Misplaced;
        var ticks := if w'.rec.capture.Some? then w'.rec.capture.value.ticks
                     else w'.rec.episodes[|w'.rec.episodes| - 1].episode.ticks;
        MisplacedGrows(w.rec.capture.value.ticks, ticks, StartOf(w.rec.pre, w.running.tick),
                       w.rec.history, w.rec.history);
        CaptureStaysDamaged(w, tag, ticks);
      } else {
        var k: nat :| EpisodeDamaged(w, k);
        EpisodeStaysDamaged(w, w', k);
      }
    }
  }

  /** The first poll that comes too late does the damage. */
  lemma {:induction false} OverrunDamages(w: World, tag: Flags)
    requires Inv(w) && w.paced && !Advanced(w, tag).paced
    ensures Damaged(Advanced(w, tag))
  {
    var w' := Advanced(w, tag);
    OverrunLosesTicks(w, tag);
    var c, n, t := w.rec.capture.value, |w.rec.history|, w.running.tick;
    var ticks := if w'.rec.capture.Some? then w'.rec.capture.value.ticks
                 else w'.rec.episodes[|w'.rec.episodes| - 1].episode.ticks;
    assert StartOf(w.rec.pre, t) + |c.ticks| == c.seen;
    assert MisplacedAt(ticks, StartOf(w.rec.pre, t), w.rec.history, |c.ticks|, n - RING);
    hide Inv, Advanced;
    CaptureStaysDamaged(w, tag, ticks);
  }

  lemma {:induction false} StartDamage(w: World, tag: Flags)
    requires w.polls != [] && Triggers(w.rec, tag) && |w.spans| == |w.rec.episodes| && Damaged(w)
    ensures Damaged(Started(w, tag))
  {
    hide Misplaced;
    var k: nat :| EpisodeDamaged(w, k);
    EpisodeStaysDamaged(w, Started(w, tag), k);
  }

  lemma {:induction false} StepDamage(w: World, op: Op)
    requires Inv(w) && (!w.paced ==> Damaged(w))
    ensures !Step(w, op).paced ==> Damaged(Step(w, op))
  {
    match op
    case PushOp(t) =>
      hide Damaged, Inv;
      if !w.paced { PushDamage(w, t); }
    case PollOp(tag) =>
      AdvanceStep(w, tag);
      AdvanceDamage(w, tag);
      var mid := Advanced(w, tag);
      assert mid.polls != [] && |mid.spans| == |mid.rec.episodes|;
      hide Damaged, Inv, Advanced;
      if Triggers(mid.rec, tag) && !mid.paced { StartDamage(mid, tag); }
  }

  lemma {:induction false} UnpacedIsDamaged(first: nat, pre: int, post: int, ops: seq<Op>)
    ensures !Run(first, pre, post, ops).paced ==> Damaged(Run(first, pre, post, ops))
  {
    if ops != [] {
      hide Damaged, Inv, Step;
      var before := ops[..|ops| - 1];
      UnpacedIsDamaged(first, pre, post, before);
      RunInvariant(first, pre, post, before);
      StepDamage(Run(first, pre, post, before), ops[|ops| - 1]);
    }
  }

  // ----- the exact condition -----

  /** The ticks a schedule pushes. */
  function Pushed(ops: seq<Op>): seq<Tick> {
    if ops == [] then []
    else
      var last := ops[|ops| - 1];
      Pushed(ops[..|ops| - 1]) + if last.PushOp? then [last.tick] else []
  }

  lemma {:induction false} HistoryIsPushed(first: nat, pre: int, post: int, ops: seq<Op>)
    ensures Run(first, pre, post, ops).rec.history == Pushed(ops)
  {
    if ops != [] { HistoryIsPushed(first, pre, post, ops[..|ops| - 1]); }
  }

  lemma {:induction false} PacedIsWhole(w: World)
    requires Inv(w) && w.paced
    ensures AllGapFree(w) && Unbroken(w)
  {
    hide Sized, Tagged, GapFree, Spaced, Numbered;
  }

  lemma {:induction false} DamagedIsNotWhole(w: World)
    requires Inv(w) && Damaged(w) && Different(w.rec.history)
    ensures !(AllGapFree(w) && Unbroken(w))
  {
    hide Misplaced, Inv;
    if AllGapFree(w) && Unbroken(w) {
      if CaptureDamaged(w) {
        var c := w.rec.capture.value;
        MisplacedIsNoStretch(c.ticks, StartOf(w.rec.pre, w.running.tick), w.rec.history, c.seen);
      } else {
        var k: nat :| EpisodeDamaged(w, k);
        var t := w.spans[k].start.tick;
        assert GapFree(w, k);
        MisplacedIsNoStretch(w.rec.episodes[k].episode.ticks, StartOf(w.rec.pre, t), w.rec.history, t + w.rec.post);
      }
    }
  }

  /** For every schedule that pushes pairwise different ticks: every finished episode
      is gap-free and the running capture unbroken exactly when no poll of a running
      capture came more than 256 pushes after the poll before it. */
  lemma {:induction false} WholeIffPaced(first: nat, pre: int, post: int, ops: seq<Op>)
    requires Different(Pushed(ops))
    ensures var w := Run(first, pre, post, ops);
      AllGapFree(w) && Unbroken(w) <==> w.paced
  {
    hide Damaged, AllGapFree, Unbroken, Inv, Different, Run;
    var w := Run(first, pre, post, ops);
    RunInvariant(first, pre, post, ops);
    HistoryIsPushed(first, pre, post, ops);
    if w.paced {
      PacedIsWhole(w);
    } else {
      UnpacedIsDamaged(first, pre, post, ops);
      DamagedIsNotWhole(w);
    }
  }

  // ----- a schedule that overruns -----

  function TickOf(i: nat): Tick {
    Tick(i as real, 0.0, 0.0, 0.0, 0.0, 0.0, 0.0, 0.0)
  }

  /** A tick, a poll that triggers on it, and n more ticks. */
  function Burst(n: nat): seq<Op> {
    if n == 0 then [PushOp(TickOf(0)), PollOp({0})] else Burst(n - 1) + [PushOp(TickOf(n))]
  }

  lemma {:induction false} AfterBurst(first: nat, pre: int, post: int, n: nat)
    requires Init(pre, post, first).post > 0
    ensures var w := Run(first, pre, post, Burst(n));
      && w.paced && w.rec.capture.Some? && w.pushes == n && |w.polls| == 1
    ensures |Pushed(Burst(n))| == n + 1 && forall i: nat :: i <= n ==> Pushed(Burst(n))[i] == TickOf(i)
  {
    var ops := Burst(n);
    if n > 0 {
      AfterBurst(first, pre, post, n - 1);
      assert ops[..|ops| - 1] == Burst(n - 1);
    } else {
      FirstPoll(first, pre, post);
    }
  }

  lemma {:induction false} FirstPoll(first: nat, pre: int, post: int)
    requires Init(pre, post, first).post > 0
    ensures var w := Run(first, pre, post, Burst(0));
      w.paced && w.rec.capture.Some? && w.pushes == 0 && |w.polls| == 1
    ensures Pushed(Burst(0)) == [TickOf(0)]
  {
    var ops := Burst(0);
    assert ops[..1] == [PushOp(TickOf(0))] && ops[..1][..0] == [];
    var w0 := Run(first, pre, post, []);
    var w1 := Run(first, pre, post, ops[..1]);
    assert w1 == Step(w0, PushOp(TickOf(0)));
    assert Run(first, pre, post, ops) == Step(w1, PollOp({0}));
    assert Pushed(ops[..1]) == [TickOf(0)];
  }

  /** If the poll after the burst comes at most 256 ticks later nothing is lost; one
      tick more and the episode has a gap. */
  lemma {:induction false} BurstOverruns(first: nat, pre: int, post: int, n: nat)
    requires Init(pre, post, first).post > 0
    ensures var w := Run(first, pre, post, Burst(n) + [PollOp({})]);
      AllGapFree(w) && Unbroken(w) <==> n <= 256
  {
    var before, ops := Burst(n), Burst(n) + [PollOp({})];
    assert ops[..|ops| - 1] == before;
    AfterBurst(first, pre, post, n);
    assert Run(first, pre, post, ops) == Step(Run(first, pre, post, before), PollOp({}));
    assert Pushed(ops) == Pushed(before);
    assert Different(Pushed(ops)) by {
      hide Pushed;
      assert forall i: nat, j: nat :: i < j <= n ==> TickOf(i).amp != TickOf(j).amp;
    }
    hide AllGapFree, Unbroken, Run, Pushed;
    WholeIffPaced(first, pre, post, ops);
  }
}
