/** The recorder as the program keeps it: a ring of 256 ticks, a capture buffer of
    128 and a ring of 32 episodes, all updated in place. Every method is proved to
    do to the abstract recorder `model` what RecorderModel says. */
module EpisodeRecorder {
  import opened Options
  import opened RecorderModel

  const ZERO := Tick(0.0, 0.0, 0.0, 0.0, 0.0, 0.0, 0.0, 0.0)

  /** The capture after its first `k` unseen ticks. */
  ghost function Part(c: Capture, news: seq<Tick>, k: nat, seen: nat): Capture
    requires k <= |news| && k <= c.remaining
  {
    Capture(c.ticks + news[..k], c.remaining - k, c.tag, seen)
  }

  /** How many of the `i` oldest ticks of the ring have not been seen. */
  ghost function Taken(h: seq<Tick>, seen: nat, i: nat): (k: nat)
    requires i <= Min(|h|, RING) && seen <= |h|
    ensures k <= |Unseen(h, seen)|
  {
    Max(0, |h| - Min(|h|, RING) + i - Max(seen, |h| - Min(|h|, RING)))
  }

  /** The capture after a look at the `i` oldest ticks of the ring. */
  ghost function After(c: Capture, h: seq<Tick>, i: nat): Capture
    requires i <= Min(|h|, RING) && c.seen <= |h| && Taken(h, c.seen, i) <= c.remaining
  {
    var k := Taken(h, c.seen, i);
    Part(c, Unseen(h, c.seen), k, if k == 0 then c.seen else |h| - Min(|h|, RING) + i)
  }

  /** `part` is `c` after a look at the `i` oldest ticks, and still wants more. */
  ghost predicate Looked(c: Capture, h: seq<Tick>, i: nat, part: Capture) {
    && i <= Min(|h|, RING) && c.seen <= |h| && Taken(h, c.seen, i) < c.remaining
    && |c.ticks| + c.remaining <= MAX_LEN && part == After(c, h, i)
  }

  lemma {:induction false} LookedNone(c: Capture, h: seq<Tick>)
    requires 0 < c.remaining && |c.ticks| + c.remaining <= MAX_LEN && c.seen <= |h|
    ensures Looked(c, h, 0, c)
  {
    assert c.ticks + Unseen(h, c.seen)[..0] == c.ticks;
  }

  lemma {:induction false} LookedAll(c: Capture, h: seq<Tick>, part: Capture)
    requires Looked(c, h, Min(|h|, RING), part)
    ensures var news := Unseen(h, c.seen); |news| < c.remaining && part == Part(c, news, |news|, |h|)
  {
  }

  /** One more look: a tick newer than the last one taken is appended. */
  lemma {:induction false} LookedOne(c: Capture, h: seq<Tick>, i: nat, part: Capture)
    requires i < Min(|h|, RING) && Looked(c, h, i, part)
    ensures var at, news := |h| - Min(|h|, RING) + i, Unseen(h, c.seen);
      var next := Capture(part.ticks + [h[at]], part.remaining - 1, part.tag, at + 1);
      && 0 < part.remaining && |part.ticks| + part.remaining <= MAX_LEN
      && (at + 1 <= part.seen ==> Looked(c, h, i + 1, part))
      && (at + 1 > part.seen && next.remaining > 0 ==> Looked(c, h, i + 1, next))
      && (at + 1 > part.seen && next.remaining == 0 ==>
            c.remaining <= |news| && next.ticks == c.ticks + news[..c.remaining] && next.tag == c.tag)
  {
    var k, news := Taken(h, c.seen, i), Unseen(h, c.seen);
    if Taken(h, c.seen, i + 1) > k {
      assert c.ticks + news[..k + 1] == (c.ticks + news[..k]) + [news[k]];
    }
  }

  ghost function Stretch(h: seq<Tick>, i: nat, j: nat): seq<Tick>
    requires i <= j <= |h|
  {
    h[i..j]
  }

  lemma {:induction false} StretchGrows(h: seq<Tick>, i: nat, j: nat)
    requires i <= j < |h|
    ensures Stretch(h, i, j) + [h[j]] == Stretch(h, i, j + 1)
  {
  }

  lemma {:induction false} StretchEnds(h: seq<Tick>, i: nat)
    requires i <= |h|
    ensures Stretch(h, i, i) == [] && Stretch(h, i, |h|) == h[i..]
  {
  }

  /** The slot of the i-th oldest tick, as computed from the head. */
  lemma {:induction false} OldestSlot(n: nat, i: nat)
    requires i < Min(n, RING)
    ensures ((n % RING - Min(n, RING) + RING) % RING + i) % RING == (n - Min(n, RING) + i) % RING
  {
  }

  /** Slots of a ring: the next one, and that the last 256 are all different. */
  lemma {:induction false} RingSlots(n: nat)
    ensures (n + 1) % RING == (n % RING + 1) % RING
    ensures forall i :: n - RING < i < n ==> i % RING != n % RING
  {
  }

  lemma {:induction false} EpisodeSlots(n: nat)
    ensures (n + 1) % MAX_EPISODES == (n % MAX_EPISODES + 1) % MAX_EPISODES
    ensures forall i :: n - MAX_EPISODES < i < n ==> i % MAX_EPISODES != n % MAX_EPISODES
  {
  }

  /** `next` is `r` with a capture of these ticks begun, or finished at once. */
  ghost predicate Begins(r: Recorder, next: Recorder, ticks: seq<Tick>, tag: Flags) {
    && next.history == r.history && next.pre == r.pre && next.post == r.post
    && (r.post == 0 ==>
          && next.episodes == r.episodes + [Stored(r.nextId, Episode(ticks, tag))] && next.capture.None?
          && next.nextId == r.nextId + 1 && next.debounce == r.post)
    && (r.post > 0 ==>
          && next.episodes == r.episodes && next.capture == Some(Capture(ticks, r.post, tag, |r.history|))
          && next.nextId == r.nextId && next.debounce == r.debounce)
  }

  lemma {:induction false} StartIs(r: Recorder, tag: Flags, ticks: seq<Tick>)
    requires r.history != [] && ticks == r.history[|r.history| - 1 - Before(r)..]
    ensures Begins(r, Start(r, tag), ticks, tag)
    ensures ValidRecorder(r) ==> |ticks| <= MAX_LEN
  {
  }

  class EpisodeRecorder {
    const ring: array<Tick>
    const ringSeq: array<nat>
    var ringHead: nat
    var ringCount: nat
    var ringTotal: nat

    const buf: array<Episode>
    const ids: array<Option<nat>>
    var head: nat
    var count: nat
    var nextId: nat

    const captureTicks: array<Tick>
    var captureLen: nat
    var captureActive: bool
    var captureRemaining: nat
    var captureTag: Flags
    var captureLastSeq: nat

    var pre: nat
    var post: nat
    var debounce: nat
    ghost var model: Recorder

    ghost predicate Arrays() {
      && ring.Length == ringSeq.Length == RING && buf.Length == ids.Length == MAX_EPISODES
      && captureTicks.Length == MAX_LEN && ring != captureTicks
      && ring as object != ringSeq && ring as object != buf && ring as object != ids
      && captureTicks as object != ringSeq && captureTicks as object != buf && captureTicks as object != ids
      && ringSeq as object != buf && ringSeq as object != ids && buf as object != ids
    }

    /** The tick ring shows the last 256 ticks of `h`, numbered from 1. */
    ghost predicate RingShows(h: seq<Tick>)
      requires Arrays()
      reads this`ringHead, this`ringCount, this`ringTotal, ring, ringSeq
    {
      && ringTotal == |h| && ringHead == |h| % RING && ringCount == Min(|h|, RING)
      && forall i :: |h| - ringCount <= i < |h| ==> ring[i % RING] == h[i] && ringSeq[i % RING] == i + 1
    }

    /** The episode ring shows the last 32 finished episodes. */
    ghost predicate BufferShows(es: seq<Stored>)
      requires Arrays()
      reads this`head, this`count, buf, ids
    {
      && head == |es| % MAX_EPISODES && count == Min(|es|, MAX_EPISODES)
      && forall i :: |es| - count <= i < |es| ==>
           buf[i % MAX_EPISODES] == es[i].episode && ids[i % MAX_EPISODES] == Some(es[i].id)
    }

    ghost predicate CaptureShows(c: Option<Capture>)
      requires Arrays()
      reads this`captureLen, this`captureActive, this`captureRemaining, this`captureTag, this`captureLastSeq
      reads captureTicks
    {
      && (captureActive <==> c.Some?)
      && (c.Some? ==>
            && captureLen == |c.value.ticks| <= MAX_LEN && captureTicks[..captureLen] == c.value.ticks
            && captureRemaining == c.value.remaining && captureTag == c.value.tag && captureLastSeq == c.value.seen)
    }

    ghost predicate Valid()
      reads this, ring, ringSeq, buf, ids, captureTicks
    {
      && Arrays() && ValidRecorder(model)
      && RingShows(model.history) && BufferShows(model.episodes) && CaptureShows(model.capture)
      && pre == model.pre && post == model.post && debounce == model.debounce && nextId == model.nextId
    }

    constructor (preWindow: int, postWindow: int, firstId: nat)
      ensures Valid() && model == Init(preWindow, postWindow, firstId)
    {
      ring := new Tick[RING](_ => ZERO);
      ringSeq := new nat[RING](_ => 0);
      buf := new Episode[MAX_EPISODES](_ => Episode([], {}));
      ids := new Option<nat>[MAX_EPISODES](_ => None);
      captureTicks := new Tick[MAX_LEN](_ => ZERO);
      ringHead, ringCount, ringTotal, head, count, nextId := 0, 0, 0, 0, 0, firstId;
      captureLen, captureActive, captureRemaining, captureTag, captureLastSeq := 0, false, 0, {}, 0;
      var (a, b) := SanitizeWindows(preWindow, postWindow);
      pre, post, debounce := a, b, 0;
      model := Init(preWindow, postWindow, firstId);
    }

    /** The original's arithmetic on the two windows. */
    static function SanitizeWindows(pre: int, post: int): (r: (int, int))
      ensures r == Windows(pre, post)
    {
      var a: int, b: int := Clamp(pre), Clamp(post);
      var total := a + b + 1;
      if total <= MAX_LEN then (a, b) else
      var overflow := total - MAX_LEN;
      if b >= overflow then (a, b - overflow)
      else (if a >= overflow - b then a - (overflow - b) else 0, 0)
    }

    method PushInRing(t: Tick, ghost h: seq<Tick>)
      requires Arrays() && RingShows(h)
      modifies this`ringHead, this`ringCount, this`ringTotal, ring, ringSeq
      ensures RingShows(h + [t])
    {
      RingSlots(|h|);
      ring[ringHead] := t;
      ringTotal := ringTotal + 1;
      ringSeq[ringHead] := ringTotal;
      ringHead := (ringHead + 1) % RING;
      if ringCount < RING {
        ringCount := ringCount + 1;
      }
    }

    method TickRingPush(t: Tick)
      requires Valid()
      modifies this`ringHead, this`ringCount, this`ringTotal, this`model, ring, ringSeq
      ensures Valid() && model == Push(old(model), t)
    {
      hide RingShows;
      PushInRing(t, model.history);
      model := Push(model, t);
    }

    /** The tick `offset` steps back, if the ring still has it. */
    method Recent(offset: int, ghost h: seq<Tick>) returns (r: Option<(Tick, nat)>)
      requires Arrays() && RingShows(h)
      ensures r == if 0 <= offset < Min(|h|, RING) then Some((h[|h| - 1 - offset], |h| - offset)) else None
    {
      if offset < 0 || offset >= ringCount {
        return None;
      }
      var index := ringHead - 1 - offset;
      if index < 0 {
        index := index + RING;
      }
      assert index == (|h| - 1 - offset) % RING;
      return Some((ring[index], ringSeq[index]));
    }

    /** The `i`-th oldest tick of the ring. */
    method Oldest(i: nat, ghost h: seq<Tick>) returns (t: Tick, number: nat)
      requires Arrays() && RingShows(h) && i < ringCount
      ensures t == h[|h| - ringCount + i] && number == |h| - ringCount + i + 1
    {
      OldestSlot(|h|, i);
      var start := (ringHead - ringCount + RING) % RING;
      var at := (start + i) % RING;
      return ring[at], ringSeq[at];
    }

    method StoreInBuffer(e: Episode, id: nat, ghost es: seq<Stored>)
      requires Arrays() && BufferShows(es)
      modifies this`head, this`count, buf, ids
      ensures BufferShows(es + [Stored(id, e)])
    {
      EpisodeSlots(|es|);
      buf[head] := e;
      ids[head] := Some(id);
      head := (head + 1) % MAX_EPISODES;
      if count < MAX_EPISODES {
        count := count + 1;
      }
    }

    method FinalizeCapture(ghost es: seq<Stored>)
      requires Arrays() && BufferShows(es) && captureLen <= MAX_LEN
      modifies this`head, this`count, this`nextId, this`debounce, buf, ids
      modifies this`captureLen, this`captureActive, this`captureRemaining, this`captureTag, this`captureLastSeq
      ensures BufferShows(es + [Stored(old(nextId), Episode(old(captureTicks[..captureLen]), old(captureTag)))])
      ensures CaptureShows(None) && nextId == old(nextId) + 1 && debounce == post
    {
      StoreInBuffer(Episode(captureTicks[..captureLen], captureTag), nextId, es);
      nextId := nextId + 1;
      captureActive := false;
      captureRemaining, captureLastSeq, captureTag, captureLen := 0, 0, {}, 0;
      debounce := post;
    }

    /** Appends one tick to the capture buffer and counts it. */
    method TakeTick(t: Tick, number: nat, ghost c: Capture)
      requires Arrays() && CaptureShows(Some(c)) && 0 < c.remaining && |c.ticks| + c.remaining <= MAX_LEN
      modifies this`captureLen, this`captureRemaining, this`captureLastSeq, captureTicks
      ensures CaptureShows(Some(Capture(c.ticks + [t], c.remaining - 1, c.tag, number)))
    {
      if captureLen < MAX_LEN {
        captureTicks[captureLen] := t;
        captureLen := captureLen + 1;
      }
      captureLastSeq := number;
      if captureRemaining > 0 {
        captureRemaining := captureRemaining - 1;
      }
    }

    /** Looks through the whole ring for ticks newer than the last one taken. */
    method CaptureProgress(ghost r: Recorder) returns (completed: bool)
      requires Arrays() && ValidRecorder(r) && r.capture.Some? && Shows(r)
      modifies this`head, this`count, this`nextId, this`debounce, buf, ids, captureTicks
      modifies this`captureLen, this`captureActive, this`captureRemaining, this`captureTag, this`captureLastSeq
      ensures Shows(Progress(r)) && (completed <==> Progress(r).capture.None?)
    {
      completed := TakeUnseen(r.capture.value, r.history);
      if completed {
        FinalizeCapture(r.episodes);
      }
    }

    /** The loop: appends unseen ticks until there are no more or the capture is full. */
    method TakeUnseen(ghost c: Capture, ghost h: seq<Tick>) returns (completed: bool)
      requires Arrays() && RingShows(h) && CaptureShows(Some(c))
      requires 0 < c.remaining && |c.ticks| + c.remaining <= MAX_LEN && c.seen <= |h|
      modifies captureTicks, this`captureLen, this`captureRemaining, this`captureLastSeq
      ensures var news := Unseen(h, c.seen);
              && completed == (|news| >= c.remaining)
              && (completed ==> captureLen <= MAX_LEN && captureTag == c.tag
                                && captureTicks[..captureLen] == c.ticks + news[..c.remaining])
              && (!completed ==> CaptureShows(Some(Part(c, news, |news|, |h|))))
    {
      assert ringCount == Min(|h|, RING);
      ghost var part := c;
      LookedNone(c, h);
      var i := 0;
      hide RingShows, CaptureShows, Unseen, Looked, Part;
      while i < ringCount
        invariant 0 <= i <= ringCount && RingShows(h)
        invariant Looked(c, h, i, part) && CaptureShows(Some(part))
      {
        var full;
        full, part := LookAt(i, c, h, part);
        if full {
          return true;
        }
        i := i + 1;
      }
      LookedAll(c, h, part);
      return false;
    }

    /** One turn of the loop. */
    method LookAt(i: nat, ghost c: Capture, ghost h: seq<Tick>, ghost part: Capture)
      returns (full: bool, ghost next: Capture)
      requires Arrays() && RingShows(h) && i < ringCount == Min(|h|, RING)
      requires Looked(c, h, i, part) && CaptureShows(Some(part))
      modifies captureTicks, this`captureLen, this`captureRemaining, this`captureLastSeq
      ensures !full ==> Looked(c, h, i + 1, next) && CaptureShows(Some(next))
      ensures full ==>
        var news := Unseen(h, c.seen);
        && c.remaining <= |news| && captureLen <= MAX_LEN && captureTag == c.tag
        && captureTicks[..captureLen] == c.ticks + news[..c.remaining]
    {
      LookedOne(c, h, i, part);
      CaptureFields(part);
      var t, number := Oldest(i, h);
      hide RingShows, CaptureShows, Unseen, Looked;
      if number <= captureLastSeq {
        return false, part;
      }
      TakeTick(t, number, part);
      next := Capture(part.ticks + [t], part.remaining - 1, part.tag, number);
      full := IsFull(next);
    }

    /** No tick is wanted any more; the buffer is never full before that. */
    method IsFull(ghost c: Capture) returns (full: bool)
      requires Arrays() && CaptureShows(Some(c)) && |c.ticks| + c.remaining <= MAX_LEN
      ensures full <==> c.remaining == 0
      ensures captureLen <= MAX_LEN && captureTag == c.tag && captureTicks[..captureLen] == c.ticks
    {
      full := captureRemaining <= 0 || captureLen >= MAX_LEN;
    }

    lemma {:induction false} CaptureFields(c: Capture)
      requires Arrays() && CaptureShows(Some(c))
      ensures captureLen == |c.ticks| <= MAX_LEN && captureTicks[..captureLen] == c.ticks
      ensures captureRemaining == c.remaining && captureTag == c.tag && captureLastSeq == c.seen
    {
    }

    /** Everything but the model field agrees with `r`. */
    ghost predicate Shows(r: Recorder)
      requires Arrays()
      reads this, ring, ringSeq, buf, ids, captureTicks
    {
      && RingShows(r.history) && BufferShows(r.episodes) && CaptureShows(r.capture)
      && pre == r.pre && post == r.post && debounce == r.debounce && nextId == r.nextId
    }

    /** Appends the tick `offset` steps back to the capture buffer. */
    method CopyOne(offset: nat, ghost h: seq<Tick>)
      requires Arrays() && RingShows(h) && offset < Min(|h|, RING) && captureLen < MAX_LEN
      modifies captureTicks, this`captureLen, this`captureLastSeq
      ensures captureLen == old(captureLen) + 1 && captureLastSeq == |h| - offset
      ensures captureTicks[..captureLen] == old(captureTicks[..captureLen]) + [h[|h| - 1 - offset]]
    {
      var entry := Recent(offset, h);
      hide RingShows;
      if captureLen < MAX_LEN {
        captureTicks[captureLen] := entry.value.0;
        captureLen := captureLen + 1;
        captureLastSeq := entry.value.1;
      }
    }

    /** Copies the pre-window and the current tick, oldest first. */
    method CopyLead(ghost r: Recorder)
      requires Arrays() && RingShows(r.history) && r.history != [] && pre == r.pre < MAX_LEN
      modifies captureTicks, this`captureLen, this`captureLastSeq
      ensures captureLen == Before(r) + 1 && captureLastSeq == |r.history|
      ensures captureTicks[..captureLen] == r.history[|r.history| - 1 - Before(r)..]
    {
      var lead := if pre > ringCount - 1 then ringCount - 1 else pre;
      ghost var h, n := r.history, |r.history|;
      assert lead == Before(r) < Min(n, RING);
      hide RingShows, Before, Stretch;
      StretchEnds(h, n - 1 - lead);
      captureLen := 0;
      var offset: int := lead;
      while offset >= 0
        invariant -1 <= offset <= lead
        invariant captureLen == lead - offset && RingShows(h)
        invariant captureTicks[..captureLen] == Stretch(h, n - 1 - lead, n - 1 - offset)
        invariant offset < lead ==> captureLastSeq == n - 1 - offset
      {
        StretchGrows(h, n - 1 - lead, n - 1 - offset);
        CopyOne(offset, h);
        offset := offset - 1;
      }
    }

    /** The fields of a capture that has just taken its lead. */
    method OpenCapture(tag: Flags, ghost r: Recorder, ghost ticks: seq<Tick>)
      requires Arrays() && captureLen == |ticks| <= MAX_LEN && captureTicks[..captureLen] == ticks
      requires captureLastSeq == |r.history| && post == r.post
      modifies this`captureTag, this`captureRemaining, this`captureActive
      ensures CaptureShows(Some(Capture(ticks, r.post, tag, |r.history|)))
    {
      captureTag := tag;
      captureRemaining := post;
      captureActive := true;
    }

    method StartCapture(tag: Flags, ghost r: Recorder) returns (completed: bool)
      requires Arrays() && ValidRecorder(r) && r.capture.None? && Shows(r)
      modifies this`head, this`count, this`nextId, this`debounce, buf, ids, captureTicks
      modifies this`captureLen, this`captureActive, this`captureRemaining, this`captureTag, this`captureLastSeq
      ensures Shows(if r.history == [] then r else Start(r, tag))
      ensures completed <==> r.history != [] && r.post == 0
    {
      if ringCount <= 0 {
        return false;
      }
      assert r.history != [] && r.pre < MAX_LEN && RingShows(r.history) && BufferShows(r.episodes);
      hide Shows, RingShows, BufferShows, CaptureShows, Start, Before, ValidRecorder, Begins;
      CopyLead(r);
      ghost var ticks := captureTicks[..captureLen];
      StartIs(r, tag, ticks);
      OpenCapture(tag, r, ticks);
      completed := FinishIfDone(r, Start(r, tag), ticks, tag);
    }

    /** An episode with nothing to follow its trigger is finished at once. */
    method FinishIfDone(ghost r: Recorder, ghost next: Recorder, ghost ticks: seq<Tick>, ghost tag: Flags)
      returns (completed: bool)
      requires Arrays() && RingShows(r.history) && BufferShows(r.episodes)
      requires CaptureShows(Some(Capture(ticks, r.post, tag, |r.history|)))
      requires pre == r.pre && post == r.post && debounce == r.debounce && nextId == r.nextId
      requires Begins(r, next, ticks, tag)
      modifies this`head, this`count, this`nextId, this`debounce, buf, ids
      modifies this`captureLen, this`captureActive, this`captureRemaining, this`captureTag, this`captureLastSeq
      ensures Shows(next)
      ensures completed <==> r.post == 0
    {
      CaptureFields(Capture(ticks, r.post, tag, |r.history|));
      hide RingShows, BufferShows, CaptureShows;
      if captureRemaining <= 0 {
        FinalizeCapture(r.episodes);
        return true;
      }
      return false;
    }

    method CountDown(tag: Flags)
      requires Arrays() && ValidRecorder(model) && Shows(model)
      modifies this`debounce, this`captureTag
      ensures Shows(CountedDown(model, tag)) && ValidRecorder(CountedDown(model, tag))
    {
      if debounce > 0 {
        debounce := debounce - 1;
      }
      if captureActive {
        captureTag := captureTag + tag;
      }
    }

    method MaybeCapture(tag: Flags) returns (captured: bool)
      requires Valid()
      modifies this, buf, ids, captureTicks
      ensures Valid() && model == Poll(old(model), tag)
      ensures captured <==> |model.episodes| > |old(model).episodes|
    {
      PollKeeps(model, tag);
      CountDown(tag);
      captured := false;
      ghost var r := CountedDown(model, tag);
      if captureActive {
        captured := CaptureProgress(r);
        r := Progress(r);
      }
      if tag != {} && !captureActive && debounce <= 0 {
        var started := StartCapture(tag, r);
        captured := captured || started;
      }
      model := Poll(model, tag);
    }

    /** Episode `idx` counted from the most recent, if it is among the last 32. */
    method Get(idx: int) returns (e: Option<Episode>)
      requires Valid()
      ensures var es := model.episodes;
              e == if 0 <= idx < Min(|es|, 32) then Some(es[|es| - 1 - idx].episode) else None
    {
      if idx < 0 || idx >= count {
        return None;
      }
      var position := head - 1 - idx;
      if position < 0 {
        position := position + MAX_EPISODES;
      }
      assert position == (|model.episodes| - 1 - idx) % MAX_EPISODES;
      return Some(buf[position]);
    }

    method IdAt(idx: int) returns (id: Option<nat>)
      requires Valid()
      ensures var es := model.episodes;
              id == if 0 <= idx < Min(|es|, 32) then Some(es[|es| - 1 - idx].id) else None
    {
      if idx < 0 || idx >= count {
        return None;
      }
      var position := head - 1 - idx;
      if position < 0 {
        position := position + MAX_EPISODES;
      }
      assert position == (|model.episodes| - 1 - idx) % MAX_EPISODES;
      return ids[position];
    }
  }
}
