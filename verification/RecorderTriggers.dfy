/** Which polls start an episode, and when an episode ends. */
module RecorderTriggers {
  import opened Options
  import opened RecorderModel
  import opened RecorderRuns
  import opened RecorderGaps

  /** An episode, finished or still running, was started by poll `p`. */
  ghost predicate StartedBy(w: World, p: nat) {
    || (w.rec.capture.Some? && w.running.poll == p)
    || (exists k :: 0 <= k < |w.spans| && w.spans[k].start.poll == p)
  }

  /** Nothing is being captured, and `post` polls have passed, counting poll `p`, since
      every episode was finished. */
  ghost predicate Rested(w: World, p: nat) {
    && w.rec.capture.None?
    && forall k :: 0 <= k < |w.spans| ==> w.spans[k].last + w.rec.post <= p
  }

  /** Every episode so far was started by a poll so far. */
  lemma {:induction false} StartsAreBefore(w: World, p: nat)
    requires Inv(w) && StartedBy(w, p)
    ensures p < |w.polls|
  {
    if !(w.rec.capture.Some? && w.running.poll == p) {
      var k :| 0 <= k < |w.spans| && w.spans[k].start.poll == p;
      assert Tagged(w, k);
    }
  }

  // ----- the debounce counts polls -----

  /** What is left of the debounce is what is left of `post` polls after the last
      finished episode. */
  ghost predicate CountsDown(w: World) {
    w.rec.debounce == if w.spans == [] then 0
                      else Max(0, w.spans[|w.spans| - 1].last + w.rec.post - (|w.polls| - 1))
  }

  lemma {:induction false} AdvanceCounts(w: World, tag: Flags)
    requires Inv(w) && CountsDown(w)
    ensures CountsDown(Advanced(w, tag))
    ensures w.rec.capture.Some? && Advanced(w, tag).rec.capture.None? ==> Advanced(w, tag).rec.debounce > 0
  {
    hide Finished, Running, Spaced, Numbered, Unseen;
  }

  lemma {:induction false} StartCounts(w: World, tag: Flags)
    requires w.polls != [] && Triggers(w.rec, tag) && CountsDown(w)
    ensures CountsDown(Started(w, tag))
  {
  }

  lemma {:induction false} DebounceCounts(first: nat, pre: int, post: int, ops: seq<Op>)
    ensures CountsDown(Run(first, pre, post, ops))
  {
    if ops != [] {
      var w, op := Run(first, pre, post, ops[..|ops| - 1]), ops[|ops| - 1];
      DebounceCounts(first, pre, post, ops[..|ops| - 1]);
      RunInvariant(first, pre, post, ops[..|ops| - 1]);
      if op.PollOp? {
        AdvanceCounts(w, op.tag);
        var mid := Advanced(w, op.tag);
        assert mid.polls != [];
        hide Advanced, Inv, CountsDown, Triggers;
        if Triggers(mid.rec, op.tag) { StartCounts(mid, op.tag); }
      }
    }
  }

  /** Later episodes end later. */
  lemma {:induction false} LastEndsLast(w: World, k: nat)
    requires Inv(w) && k < |w.spans|
    ensures w.spans[k].last <= w.spans[|w.spans| - 1].last < |w.polls|
    decreases |w.spans| - k
  {
    assert Tagged(w, k);
    if k < |w.spans| - 1 {
      assert Tagged(w, k + 1);
      LastEndsLast(w, k + 1);
    }
  }

  /** After its progress a poll finds the recorder ready exactly when it was rested
      before. */
  lemma {:induction false} ReadyIffRested(w: World, tag: Flags)
    requires Inv(w) && CountsDown(w)
    ensures var mid := Advanced(w, tag).rec;
      mid.capture.None? && mid.debounce == 0 <==> Rested(w, |w.polls|)
  {
    AdvanceCounts(w, tag);
    forall k: nat | k < |w.spans| ensures w.spans[k].last <= w.spans[|w.spans| - 1].last { LastEndsLast(w, k); }
    hide Inv;
    if w.rec.capture.None? { assert Advanced(w, tag).spans == w.spans; }
  }

  // ----- which polls start an episode -----

  /** Starting shows: the poll becomes the start of the running capture, or of an
      episode finished on the spot. */
  lemma {:induction false} StartShows(w: World, tag: Flags)
    requires Inv(w) && w.polls != [] && Triggers(w.rec, tag) && !StartedBy(w, |w.polls| - 1)
    ensures forall q: nat :: StartedBy(Started(w, tag), q) <==> StartedBy(w, q) || q == |w.polls| - 1
  {
    var w', p := Started(w, tag), |w.polls| - 1;
    hide Inv;
    assert w'.rec.capture.Some? || w'.spans[|w.spans|].start.poll == p;
    forall q: nat | StartedBy(w, q) ensures StartedBy(w', q) {
      var k :| 0 <= k < |w.spans| && w.spans[k].start.poll == q;
      assert w'.spans[k] == w.spans[k];
    }
  }

  /** The progress of a poll starts nothing and forgets no start. */
  lemma {:induction false} AdvanceStartsNothing(w: World, tag: Flags)
    requires Inv(w)
    ensures forall q: nat :: StartedBy(Advanced(w, tag), q) <==> StartedBy(w, q)
  {
    var w' := Advanced(w, tag);
    AdvanceGrows(w, tag);
    if w.rec.capture.Some? { AdvanceAppends(w, tag); }
    hide Inv;
    forall q: nat | StartedBy(w, q) ensures StartedBy(w', q) {
      if w.rec.capture.Some? && w.running.poll == q {
        assert w'.rec.capture.None? ==> w'.spans[|w.spans|].start.poll == q;
      } else {
        var k :| 0 <= k < |w.spans| && w.spans[k].start.poll == q;
        assert w'.spans[k] == w.spans[k];
      }
    }
  }

  lemma {:induction false} PollStep(w: World, tag: Flags)
    requires Inv(w) && CountsDown(w)
    ensures var w', p := Step(w, PollOp(tag)), |w.polls|;
      && (StartedBy(w', p) <==> tag != {} && w.rec.history != [] && Rested(w, p))
      && (forall q: nat :: q != p ==> (StartedBy(w', q) <==> StartedBy(w, q)))
      && w'.polls == w.polls + [tag] && w'.rec.post == w.rec.post && w'.rec.history == w.rec.history
  {
    var mid, p := Advanced(w, tag), |w.polls|;
    AdvanceStep(w, tag);
    AdvanceStartsNothing(w, tag);
    ReadyIffRested(w, tag);
    if StartedBy(w, p) { StartsAreBefore(w, p); }
    assert mid.polls == w.polls + [tag] && mid.rec.history == w.rec.history && mid.rec.post == w.rec.post;
    hide Inv, Advanced, StartedBy, Rested;
    if Triggers(mid.rec, tag) { StartShows(mid, tag); }
  }

  /** In every run, a poll starts an episode if and only if its tag is not empty, a
      tick has been pushed, nothing is being captured, and at least `post` polls have
      passed since every episode was finished. It neither starts nor undoes any
      other. */
  lemma {:induction false} PollStartsIff(first: nat, pre: int, post: int, ops: seq<Op>, tag: Flags)
    ensures var w, w' := Run(first, pre, post, ops), Run(first, pre, post, ops + [PollOp(tag)]);
      && (StartedBy(w', |w.polls|) <==> tag != {} && Pushed(ops) != [] && Rested(w, |w.polls|))
      && (forall q: nat :: q != |w.polls| ==> (StartedBy(w', q) <==> StartedBy(w, q)))
  {
    assert (ops + [PollOp(tag)])[..|ops|] == ops;
    RunInvariant(first, pre, post, ops);
    DebounceCounts(first, pre, post, ops);
    HistoryIsPushed(first, pre, post, ops);
    hide Inv, CountsDown, StartedBy, Rested, Pushed, Step;
    PollStep(Run(first, pre, post, ops), tag);
  }

  /** A capture is still running after a poll only as long as fewer than `post` ticks
      have been pushed since its trigger, if the run has kept pace. */
  lemma {:induction false} CapturesEndOnTime(first: nat, pre: int, post: int, ops: seq<Op>, tag: Flags)
    ensures var w := Run(first, pre, post, ops + [PollOp(tag)]);
      w.paced && w.rec.capture.Some? ==> 0 < w.running.tick && |Pushed(ops)| < w.running.tick + w.rec.post
  {
    assert (ops + [PollOp(tag)])[..|ops|] == ops;
    RunInvariant(first, pre, post, ops + [PollOp(tag)]);
    HistoryIsPushed(first, pre, post, ops);
    HistoryIsPushed(first, pre, post, ops + [PollOp(tag)]);
    var w := Run(first, pre, post, ops + [PollOp(tag)]);
    assert w.pushes == 0;
    hide Finished, Spaced, Numbered, Run, Pushed;
  }

  // ----- one push per poll -----

  /** Rested, when every tick is polled once: nothing was started fewer than twice the
      post-window ago. */
  lemma {:induction false} RestedInStep(w: World)
    requires InStep(w)
    ensures var p := |w.polls|;
      Rested(w, p) <==> forall q: nat :: StartedBy(w, q) ==> q + Max(2 * w.rec.post, 1) <= p
  {
    var p := |w.polls|;
    forall k | 0 <= k < |w.spans| ensures StartedBy(w, w.spans[k].start.poll) && w.spans[k].last < p {
      assert Tagged(w, k);
    }
    if w.rec.capture.Some? {
      assert StartedBy(w, w.running.poll) && p <= w.running.poll + w.rec.post by { RunningInStep(w); }
    }
    hide Inv;
  }

  lemma {:induction false} RunningInStep(w: World)
    requires InStep(w) && w.rec.capture.Some?
    ensures |w.polls| <= w.running.poll + w.rec.post && w.rec.post > 0
  {
    hide Finished, Spaced, Numbered;
  }

  /** When every tick is polled once, poll `p` starts an episode if and only if its tag
      is not empty and it comes at least max(2 x post, 1) polls after every poll that
      started one before. */
  lemma {:induction false} NextTriggerIsFirst(first: nat, pre: int, post: int, ts: seq<(Tick, Flags)>, p: nat)
    requires p < |ts|
    ensures var w := Run(first, pre, post, Lockstep(ts));
      StartedBy(w, p) <==>
        ts[p].1 != {} && forall q: nat :: q < p && StartedBy(w, q) ==> q + Max(2 * w.rec.post, 1) <= p
  {
    hide StartedBy, Run, Lockstep;
    var n := |ts| - 1;
    LockstepStarts(first, pre, post, ts);
    if p < n {
      NextTriggerIsFirst(first, pre, post, ts[..n], p);
    }
  }

  /** The last tick of a schedule in lockstep: one push and one poll. */
  lemma {:induction false} LockstepLast(first: nat, pre: int, post: int, ts: seq<(Tick, Flags)>)
    requires ts != []
    ensures var n := |ts| - 1;
      Run(first, pre, post, Lockstep(ts))
        == Step(Step(Run(first, pre, post, Lockstep(ts[..n])), PushOp(ts[n].0)), PollOp(ts[n].1))
  {
    hide Step;
    var before, t, ops := Lockstep(ts[..|ts| - 1]), ts[|ts| - 1], Lockstep(ts);
    assert ops[..|ops| - 1] == before + [PushOp(t.0)] && (before + [PushOp(t.0)])[..|before|] == before;
  }

  /** A push starts nothing and takes no rest away. */
  lemma {:induction false} PushStartsNothing(w: World, t: Tick)
    requires Inv(w) && CountsDown(w)
    ensures var w' := Step(w, PushOp(t));
      && Inv(w') && CountsDown(w') && w'.polls == w.polls && w'.rec.history != [] && w'.rec.post == w.rec.post
      && (forall p: nat :: Rested(w', p) <==> Rested(w, p))
      && (forall q: nat :: StartedBy(w', q) <==> StartedBy(w, q))
  {
    PushStep(w, t);
    hide Inv;
  }

  lemma {:induction false} LockstepStarts(first: nat, pre: int, post: int, ts: seq<(Tick, Flags)>)
    requires ts != []
    ensures var n := |ts| - 1;
      var w, w' := Run(first, pre, post, Lockstep(ts[..n])), Run(first, pre, post, Lockstep(ts));
      && w'.rec.post == w.rec.post
      && (forall q: nat :: q != n ==> (StartedBy(w', q) <==> StartedBy(w, q)))
      && (forall q: nat :: StartedBy(w, q) ==> q < n)
      && (StartedBy(w', n) <==>
            ts[n].1 != {} && forall q: nat :: StartedBy(w, q) ==> q + Max(2 * w.rec.post, 1) <= n)
  {
    var n := |ts| - 1;
    var w := Run(first, pre, post, Lockstep(ts[..n]));
    LockstepLast(first, pre, post, ts);
    LockstepRun(first, pre, post, ts[..n]);
    LockstepPolls(first, pre, post, ts[..n]);
    DebounceCounts(first, pre, post, Lockstep(ts[..n]));
    assert Inv(w);
    hide Inv, StartedBy, Rested, CountsDown, Run, Lockstep, Step;
    PushStartsNothing(w, ts[n].0);
    RestedInStep(w);
    hide InStep;
    forall q: nat | StartedBy(w, q) ensures q < n { StartsAreBefore(w, q); }
    PollStep(Step(w, PushOp(ts[n].0)), ts[n].1);
  }

  lemma {:induction false} LockstepPolls(first: nat, pre: int, post: int, ts: seq<(Tick, Flags)>)
    ensures |Run(first, pre, post, Lockstep(ts)).polls| == |ts|
  {
    if ts != [] {
      LockstepPolls(first, pre, post, ts[..|ts| - 1]);
      LockstepLast(first, pre, post, ts);
      hide Run, Advance, Start, Triggers;
    }
  }

  // ----- the windows -----

  /** The windows as stored: both between 0 and 127; a pre-window in that range is
      taken as asked for, and a post-window as far as there is room left. */
  lemma {:induction false} WindowsAre(pre: int, post: int)
    ensures var (a, b) := Windows(pre, post);
      && a <= 127 && b <= 127 - a
      && (0 <= pre <= 127 ==> a == pre) && (pre < 0 ==> a == 0) && (pre > 127 ==> a == 127)
      && (post <= 0 ==> b == 0) && (post > 0 ==> b == post || (b < post && a + b == 127))
  {
  }
}
