/** The episode recorder on values. `history` is every tick ever pushed; the ring
    of the program shows only its last 256. */
module RecorderModel {
  import opened Options

  const RING: nat := 256
  const MAX_LEN: nat := 128
  const MAX_EPISODES: nat := 32

  datatype Tick = Tick(
    amp: real, tempo: real, consent: real, influence: real,
    harmony: real, dream: real, trsDelta: real, trsAlpha: real)

  /** A 32-bit tag word, as the set of its one-bits. */
  type Flags = set<nat>

  datatype Episode = Episode(ticks: seq<Tick>, tag: Flags)

  datatype Stored = Stored(id: nat, episode: Episode)

  /** An episode being captured: `seen` ticks of the history have been looked at. */
  datatype Capture = Capture(ticks: seq<Tick>, remaining: nat, tag: Flags, seen: nat)

  datatype Recorder = Recorder(
    pre: nat, post: nat, history: seq<Tick>,
    debounce: nat, capture: Option<Capture>, episodes: seq<Stored>, nextId: nat)

  function Min(a: int, b: int): int { if a < b then a else b }

  function Max(a: int, b: int): int { if a > b then a else b }

  function Clamp(v: int): nat { Max(0, Min(v, MAX_LEN - 1)) }

  /** The windows as stored: the pre-window wins, the post-window gets the rest. */
  function Windows(pre: int, post: int): (nat, nat) {
    (Clamp(pre), Min(Clamp(post), MAX_LEN - 1 - Clamp(pre)))
  }

  function Init(pre: int, post: int, nextId: nat): Recorder {
    var (a, b) := Windows(pre, post);
    Recorder(a, b, [], 0, None, [], nextId)
  }

  function Push(r: Recorder, t: Tick): Recorder {
    r.(history := r.history + [t])
  }

  /** Ticks still in the ring that the capture has not looked at. */
  function Unseen(history: seq<Tick>, seen: nat): seq<Tick> {
    var from := Max(seen, |history| - RING);
    if from < |history| then history[from..] else []
  }

  function Finish(r: Recorder, ticks: seq<Tick>, tag: Flags): Recorder {
    r.(episodes := r.episodes + [Stored(r.nextId, Episode(ticks, tag))], nextId := r.nextId + 1,
       capture := None, debounce := r.post)
  }

  /** What every poll does first: count the debounce down, note the tag. */
  function CountedDown(r: Recorder, tag: Flags): Recorder {
    r.(debounce := if r.debounce > 0 then r.debounce - 1 else 0,
       capture := if r.capture.None? then None
                  else Some(r.capture.value.(tag := r.capture.value.tag + tag)))
  }

  /** Take the unseen ticks; finish when as many as needed have come. */
  function Progress(r: Recorder): Recorder
    requires r.capture.Some?
  {
    var c := r.capture.value;
    var news := Unseen(r.history, c.seen);
    if |news| >= c.remaining then Finish(r, c.ticks + news[..c.remaining], c.tag)
    else r.(capture := Some(Capture(c.ticks + news, c.remaining - |news|, c.tag, Max(c.seen, |r.history|))))
  }

  function Advance(r: Recorder, tag: Flags): Recorder {
    var r := CountedDown(r, tag);
    if r.capture.None? then r else Progress(r)
  }

  predicate Triggers(r: Recorder, tag: Flags) {
    tag != {} && r.capture.None? && r.debounce == 0 && r.history != []
  }

  /** Ticks taken from before the trigger: all there are, up to `pre`. */
  function Before(r: Recorder): nat
    requires r.history != []
  {
    Min(r.pre, Min(|r.history|, RING) - 1)
  }

  function Start(r: Recorder, tag: Flags): Recorder
    requires r.history != []
  {
    var ticks := r.history[|r.history| - 1 - Before(r)..];
    if r.post == 0 then Finish(r, ticks, tag)
    else r.(capture := Some(Capture(ticks, r.post, tag, |r.history|)))
  }

  function Poll(r: Recorder, tag: Flags): Recorder {
    var mid := Advance(r, tag);
    if Triggers(mid, tag) then Start(mid, tag) else mid
  }

  /** Windows fit, and a running capture will never outgrow its buffer. */
  ghost predicate ValidRecorder(r: Recorder) {
    && r.pre + r.post + 1 <= MAX_LEN
    && (r.capture.Some? ==>
          var c := r.capture.value;
          0 < c.remaining <= r.post && |c.ticks| + c.remaining <= MAX_LEN && c.seen <= |r.history|)
  }

  lemma {:induction false} PollKeeps(r: Recorder, tag: Flags)
    requires ValidRecorder(r)
    ensures ValidRecorder(Advance(r, tag)) && ValidRecorder(Poll(r, tag))
  {
  }
}
