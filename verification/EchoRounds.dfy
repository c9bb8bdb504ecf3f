/** Exactly what one reflect round takes off the kernel's bus and what it sends. */
module EchoRounds {
  import opened Options
  import opened BusModel
  import opened Reflect
  import opened EchoCascade
  import BusRuns
  import BusDelivery

  // ----- the echo of a message -----

  /** The text of a payload goes up to its first zero byte, at most 32 bytes. */
  predicate InText(payload: seq<bv8>, i: nat) {
    i < 32 && i < |payload| && forall j :: 0 <= j <= i ==> payload[j] != 0
  }

  lemma {:induction false} TextIs(payload: seq<bv8>, max: nat, i: nat)
    ensures i < BoundedLength(payload, max) <==>
      i < max && i < |payload| && forall j :: 0 <= j <= i ==> payload[j] != 0
  {
    if payload != [] && max > 0 && payload[0] != 0 && i > 0 {
      TextIs(payload[1..], max - 1, i - 1);
      assert forall j :: 0 < j <= i && j < |payload| ==> payload[j] == payload[1..][j - 1];
    }
  }

  /** A sensor answers a message of energy above 1 with text in it, and no other: in its
      own name, to all, one unit weaker, with the text and zeros after it. */
  lemma {:induction false} EchoIs(m: Message, sensor: int)
    ensures EchoOf(m, sensor).Some? <==> m.energy > 1 && InText(m.payload, 0)
    ensures EchoOf(m, sensor).Some? ==>
      var echo := EchoOf(m, sensor).value;
      && echo.source == sensor && echo.target == -1 && echo.energy == m.energy - 1 && |echo.payload| == 32
      && forall i :: 0 <= i < 32 ==> echo.payload[i] == if InText(m.payload, i) then m.payload[i] else 0
  {
    forall i: nat ensures i < BoundedLength(m.payload, 32) <==> InText(m.payload, i) { TextIs(m.payload, 32, i); }
    hide InText, BoundedLength;
    assert PAYLOAD_SIZE == 32;
  }

  // ----- what is owed to a sensor -----

  /** Addressed to sensor `k`, or to all and not marked for `k`. */
  predicate OwedTo(e: Entry, k: int, sensors: seq<int>) {
    e.msg.target == k || (e.msg.target == -1 && exists i :: 0 <= i < |sensors| && sensors[i] == k && i !in e.seen)
  }

  /** The messages owed to `k`, in the order of the queue. */
  function Owed(q: seq<Entry>, k: int, sensors: seq<int>): seq<Message> {
    if q == [] then [] else (if OwedTo(q[0], k, sensors) then [q[0].msg] else []) + Owed(q[1..], k, sensors)
  }

  /** The entries none of the three sensors may have, in the order of the queue. */
  function Others(q: seq<Entry>): seq<Entry> {
    if q == [] then []
    else (if q[0].msg.target == -1 || 1 <= q[0].msg.target <= 3 then [] else [q[0]]) + Others(q[1..])
  }

  /** The echoes of some messages by one sensor. */
  function Answers(ms: seq<Message>, sensor: int): seq<Message> {
    if ms == [] then []
    else (if EchoOf(ms[0], sensor).Some? then [EchoOf(ms[0], sensor).value] else []) + Answers(ms[1..], sensor)
  }

  lemma {:induction false} Regroup<T>(x: seq<T>, y: seq<T>, z: seq<T>)
    ensures x + (y + z) == (x + y) + z
  {
  }

  lemma {:induction false} OwedAppend(a: seq<Entry>, b: seq<Entry>, k: int, sensors: seq<int>)
    ensures Owed(a + b, k, sensors) == Owed(a, k, sensors) + Owed(b, k, sensors)
  {
    hide OwedTo;
    if a == [] {
      assert a + b == b;
    } else {
      var first := if OwedTo(a[0], k, sensors) then [a[0].msg] else [];
      assert (a + b)[0] == a[0] && (a + b)[1..] == a[1..] + b;
      assert Owed(a + b, k, sensors) == first + Owed(a[1..] + b, k, sensors);
      assert Owed(a, k, sensors) == first + Owed(a[1..], k, sensors);
      hide Owed;
      OwedAppend(a[1..], b, k, sensors);
      Regroup(first, Owed(a[1..], k, sensors), Owed(b, k, sensors));
    }
  }

  lemma {:induction false} OthersAppend(a: seq<Entry>, b: seq<Entry>)
    ensures Others(a + b) == Others(a) + Others(b)
  {
    if a == [] {
      assert a + b == b;
    } else {
      var first := if a[0].msg.target == -1 || 1 <= a[0].msg.target <= 3 then [] else [a[0]];
      assert (a + b)[0] == a[0] && (a + b)[1..] == a[1..] + b;
      assert Others(a + b) == first + Others(a[1..] + b);
      assert Others(a) == first + Others(a[1..]);
      hide Others;
      OthersAppend(a[1..], b);
      Regroup(first, Others(a[1..]), Others(b));
    }
  }

  /** What is left of the delivered entry. */
  ghost function Left(e: Entry, sensor: int, index: int, count: nat): seq<Entry>
    requires Eligible(e, sensor, index)
  {
    if Retires(e, sensor, index, count) then [] else [e.(seen := e.seen + {index})]
  }

  lemma {:induction false} SettleIs(q: seq<Entry>, n: nat, sensor: int, index: int, count: nat)
    requires n < |q| && Eligible(q[n], sensor, index)
    ensures Settle(q, n, sensor, index, count) == q[..n] + (Left(q[n], sensor, index, count) + q[n + 1..])
    ensures q == q[..n] + ([q[n]] + q[n + 1..])
  {
    hide Retires;
  }

  /** A delivery to one sensor takes nothing from another, and nothing from nobody. */
  lemma {:induction false} LeftOwes(e: Entry, s: int, index: nat, sensors: seq<int>, k: int)
    requires ValidSensors(sensors) && index < |sensors| && sensors[index] == s && Eligible(e, s, index)
    requires k in sensors && k != s
    ensures Owed(Left(e, s, index, |sensors|), k, sensors) == Owed([e], k, sensors)
  {
    var j :| 0 <= j < |sensors| && sensors[j] == k;
    assert forall i :: 0 <= i < |sensors| && sensors[i] == k ==> i == j;
    var left := Left(e, s, index, |sensors|);
    assert [e][1..] == [] && (left != [] ==> left[1..] == []);
  }

  lemma {:induction false} SettleOwes(q: seq<Entry>, n: nat, s: int, index: nat, sensors: seq<int>, k: int)
    requires ValidSensors(sensors) && index < |sensors| && sensors[index] == s && 1 <= s <= 3
    requires n < |q| && Eligible(q[n], s, index)
    ensures k in sensors && k != s ==> Owed(Settle(q, n, s, index, |sensors|), k, sensors) == Owed(q, k, sensors)
    ensures Others(Settle(q, n, s, index, |sensors|)) == Others(q)
  {
    SettleIs(q, n, s, index, |sensors|);
    var left, tail := Left(q[n], s, index, |sensors|), q[n + 1..];
    assert Others(left) == Others([q[n]]) by { assert left != [] ==> left[1..] == []; }
    if k in sensors && k != s { LeftOwes(q[n], s, index, sensors, k); }
    hide Settle, Eligible, Left, Owed, Others, ValidSensors;
    OthersAppend(q[..n], left + tail);
    OthersAppend(left, tail);
    OthersAppend(q[..n], [q[n]] + tail);
    OthersAppend([q[n]], tail);
    OwedAppend(q[..n], left + tail, k, sensors);
    OwedAppend(left, tail, k, sensors);
    OwedAppend(q[..n], [q[n]] + tail, k, sensors);
    OwedAppend([q[n]], tail, k, sensors);
  }

  lemma {:induction false} ListenOwes(b: Bus, s: int, k: int)
    requires ValidBus(b) && s in b.sensors && 1 <= s <= 3
    ensures var b' := Listen(b, s).0;
      && b'.sensors == b.sensors
      && (k in b.sensors && k != s ==> Owed(b'.queue, k, b.sensors) == Owed(b.queue, k, b.sensors))
      && Others(b'.queue) == Others(b.queue)
  {
    var index := IndexOf(b.sensors, s);
    var n := FirstEligible(b.queue, s, index);
    if n < |b.queue| { SettleOwes(b.queue, n, s, index, b.sensors, k); }
    hide Settle, Owed, Others, Ordered, ValidMarks;
  }

  /** Draining one sensor leaves what is owed to another, and what is owed to none. */
  lemma {:induction false} DrainOwes(b: Bus, s: int, k: int)
    requires ValidBus(b) && s in b.sensors && 1 <= s <= 3
    ensures var b' := Drain(b, s).0;
      && ValidBus(b') && b'.sensors == b.sensors
      && (k in b.sensors && k != s ==> Owed(b'.queue, k, b.sensors) == Owed(b.queue, k, b.sensors))
      && Others(b'.queue) == Others(b.queue)
    decreases |Waiting(b, s)|
  {
    ListenOwes(b, s, k);
    hide Listen, ValidBus, Waiting, Owed, Others;
    ListenTakesHead(b, s);
    ListenKeeps(b, s);
    var (b', out) := Listen(b, s);
    if out.Some? { DrainOwes(b', s, k); }
  }

  lemma {:induction false} AnswersCons(e: Entry, es: seq<Entry>, ms: seq<Message>, sensor: int)
    requires Echoes(es, sensor) == Answers(ms, sensor)
    ensures Echoes([e] + es, sensor) == Answers([e.msg] + ms, sensor)
  {
    hide EchoOf;
    assert ([e] + es)[1..] == es && ([e.msg] + ms)[1..] == ms;
  }

  lemma {:induction false} OwedCons(q: seq<Entry>, k: int, sensors: seq<int>)
    requires q != [] && ValidSensors(sensors) && k in sensors && k != -1
    ensures Owed(q, k, sensors)
      == if Eligible(q[0], k, IndexOf(sensors, k)) then [q[0].msg] + Owed(q[1..], k, sensors)
         else Owed(q[1..], k, sensors)
  {
    var index := IndexOf(sensors, k);
    assert forall i :: 0 <= i < |sensors| && sensors[i] == k ==> i == index;
    assert Eligible(q[0], k, index) <==> OwedTo(q[0], k, sensors);
  }

  /** The answers to what was waiting are the answers to what was owed. */
  lemma {:induction false} AnswersAre(q: seq<Entry>, k: int, sensors: seq<int>)
    requires ValidSensors(sensors) && k in sensors && k != -1
    ensures Echoes(Eligibles(q, k, IndexOf(sensors, k)), k) == Answers(Owed(q, k, sensors), k)
  {
    var index := IndexOf(sensors, k);
    if q != [] {
      AnswersAre(q[1..], k, sensors);
      OwedCons(q, k, sensors);
      EligiblesCons(q, q[0], q[1..], k, index);
      AnswersCons(q[0], Eligibles(q[1..], k, index), Owed(q[1..], k, sensors), k);
      hide *;
    }
  }

  lemma {:induction false} DrainAnswers(b: Bus, k: int)
    requires ValidBus(b) && k in b.sensors && 1 <= k <= 3
    ensures Echoes(Drain(b, k).1, k) == Answers(Owed(b.queue, k, b.sensors), k)
  {
    DrainDelivers(b, k);
    assert ValidSensors(b.sensors) && Register(b, k) == b;
    hide Drain, ValidBus, Echoes, Answers, Owed;
    AnswersAre(b.queue, k, b.sensors);
  }

  /** One round on the kernel's bus: what is owed to none of the three sensors stays as
      it is, and the first 32 answers are sent, those of sensor 1 to everything owed to
      it when the round began, then those of 2, then those of 3. */
  lemma {:induction false} RoundIs(b: Bus)
    requires KernelBus(b)
    ensures var (rest, answers) := DrainFrom(b, 1);
      && answers == Answers(Owed(b.queue, 1, b.sensors), 1)
                    + (Answers(Owed(b.queue, 2, b.sensors), 2) + Answers(Owed(b.queue, 3, b.sensors), 3))
      && rest == b.(queue := Others(b.queue))
      && Round(b) == EmitAll(rest, if |answers| > 32 then answers[..32] else answers)
  {
    var b1, b2 := Drain(b, 1).0, Drain(Drain(b, 1).0, 2).0;
    var b3 := Drain(b2, 3).0;
    ThreeDrains(b);
    KernelIs(b);
    hide Drain, KernelBus, ValidBus, Owed, Others, Answers, Echoes;
    DrainAnswers(b, 1);
    DrainOwes(b, 1, 2);
    DrainOwes(b, 1, 3);
    DrainAnswers(b1, 2);
    DrainOwes(b1, 2, 3);
    DrainAnswers(b2, 3);
    DrainOwes(b2, 3, 1);
    AllOthers(b, b3);
  }

  lemma {:induction false} KernelIs(b: Bus)
    requires KernelBus(b)
    ensures ValidBus(b) && 1 in b.sensors && 2 in b.sensors && 3 in b.sensors
    ensures DrainFrom(b, 1).0.next == b.next
    ensures forall e :: e in DrainFrom(b, 1).0.queue ==> e.msg.target != -1 && !(1 <= e.msg.target <= 3)
  {
    LimitOf(b.queue);
    var limit: nat :| EnergyAtMost(b.queue, limit);
    DrainedAll(b, limit);
    hide DrainFrom, ValidBus, EnergyAtMost;
  }

  lemma {:induction false} LimitOf(q: seq<Entry>)
    ensures exists limit: nat :: EnergyAtMost(q, limit)
  {
    if q == [] {
      assert EnergyAtMost(q, 0);
    } else {
      LimitOf(q[1..]);
      var l: nat :| EnergyAtMost(q[1..], l);
      var m := if q[0].msg.energy > l then q[0].msg.energy else l;
      forall e | e in q && Deliverable(e) ensures e.msg.energy <= m {
        if e != q[0] { assert e in q[1..]; }
      }
      assert EnergyAtMost(q, m);
    }
  }

  lemma {:induction false} OthersOfOthers(q: seq<Entry>)
    requires forall e :: e in q ==> e.msg.target != -1 && !(1 <= e.msg.target <= 3)
    ensures Others(q) == q
  {
    if q != [] { OthersOfOthers(q[1..]); }
  }

  lemma {:induction false} AllOthers(b: Bus, end: Bus)
    requires forall e :: e in end.queue ==> e.msg.target != -1 && !(1 <= e.msg.target <= 3)
    requires Others(end.queue) == Others(b.queue) && end.sensors == b.sensors && end.next == b.next
    ensures end == b.(queue := Others(b.queue))
  {
    OthersOfOthers(end.queue);
  }

  // ----- what is queued after the round -----

  /** The messages as they are numbered when they are emitted in turn from `first` on. */
  function Numbered(ms: seq<Message>, first: nat): seq<Entry> {
    seq(|ms|, k requires 0 <= k < |ms| => Entry(ms[k], first + k, {}))
  }

  /** `q` is the best 32 of the entries `all`, or all of them if they are fewer. */
  ghost predicate BestOf(q: seq<Entry>, all: seq<Entry>) {
    && |q| == (if |all| < 32 then |all| else 32)
    && (forall e :: e in q ==> e in all)
    && (|all| <= 32 ==> forall e :: e in all ==> e in q)
    && (forall e, f :: e in all && e !in q && f in q ==> Beats(f, e))
  }

  ghost function Elements(q: seq<Entry>): set<Entry> {
    set e | e in q
  }

  lemma {:induction false} ElementsCount(q: seq<Entry>)
    requires Ordered(q)
    ensures |Elements(q)| == |q|
  {
    if q != [] {
      var n := |q| - 1;
      ElementsCount(q[..n]);
      assert Elements(q) == Elements(q[..n]) + {q[n]};
      assert forall i :: 0 <= i < n ==> Beats(q[i], q[n]);
    }
  }

  /** A newcomer among as many has pushed somebody out. */
  lemma {:induction false} SomeoneLeft(a: seq<Entry>, q: seq<Entry>, f: Entry) returns (g: Entry)
    requires Ordered(a) && Ordered(q) && |a| == |q| && f in q && f !in a
    ensures g in a && g !in q
  {
    ElementsCount(a);
    ElementsCount(q);
    if Elements(a) <= Elements(q) {
      Bigger(Elements(a), Elements(q), f);
    }
    g :| g in Elements(a) && g !in Elements(q);
  }

  lemma {:induction false} Bigger(a: set<Entry>, b: set<Entry>, f: Entry)
    requires a <= b && f in b && f !in a
    ensures |a| < |b|
  {
    assert b == a + (b - a) && f in b - a;
  }

  /** The best of the best of some and the rest are the best of all. */
  lemma {:induction false} BestOfBest(a: seq<Entry>, q: seq<Entry>, first: seq<Entry>, rest: seq<Entry>)
    requires Ordered(a) && Ordered(q) && BestOf(a, first) && BestOf(q, a + rest)
    ensures BestOf(q, first + rest)
  {
    hide Ordered;
    forall x, f | x in first + rest && x !in q && f in q ensures Beats(f, x) {
      if x in a + rest {
      } else if f !in a {
        assert x in first && x !in a && |a| == 32;
        var g := SomeoneLeft(a, q, f);
        assert g in a + rest;
      }
    }
  }

  lemma {:induction false} FirstEmit(b: Bus, ms: seq<Message>)
    requires ValidBus(b) && ms != []
    ensures var b1 := Emit(b, ms[0]);
      && ValidBus(b1) && Ordered(b1.queue) && b1.next == b.next + 1
      && BestOf(b1.queue, b.queue + [Entry(ms[0], b.next, {})])
      && EmitAll(b, ms) == EmitAll(b1, ms[1..])
  {
    EmitKeeps(b, ms[0]);
    BusDelivery.DropsLast(b, ms[0]);
    hide Insert, Prefix, Beats;
  }

  lemma {:induction false} NumberedCons(q: seq<Entry>, ms: seq<Message>, first: nat)
    requires ms != []
    ensures (q + [Entry(ms[0], first, {})]) + Numbered(ms[1..], first + 1) == q + Numbered(ms, first)
  {
  }

  lemma {:induction false} ValidIsOrdered(b: Bus)
    requires ValidBus(b)
    ensures Ordered(b.queue)
  {
  }

  lemma {:induction false} EmitAllIs(b: Bus, ms: seq<Message>)
    requires ValidBus(b)
    ensures ValidBus(EmitAll(b, ms)) && BestOf(EmitAll(b, ms).queue, b.queue + Numbered(ms, b.next))
    decreases |ms|
  {
    hide *;
    if ms == [] {
      EmitNone(b);
    } else {
      var b1, e := Emit(b, ms[0]), Entry(ms[0], b.next, {});
      FirstEmit(b, ms);
      EmitAllIs(b1, ms[1..]);
      ValidIsOrdered(EmitAll(b1, ms[1..]));
      BestOfBest(b1.queue, EmitAll(b1, ms[1..]).queue, b.queue + [e], Numbered(ms[1..], b.next + 1));
      NumberedCons(b.queue, ms, b.next);
    }
  }

  lemma {:induction false} EmitNone(b: Bus)
    requires ValidBus(b)
    ensures EmitAll(b, []) == b && BestOf(b.queue, b.queue + Numbered([], b.next))
  {
    assert b.queue + Numbered([], b.next) == b.queue;
  }

  /** After the round the queue holds the best 32 of what was left and the answers sent,
      numbered in the order they were sent. */
  lemma {:induction false} RoundLeaves(b: Bus)
    requires KernelBus(b)
    ensures var answers := Answers(Owed(b.queue, 1, b.sensors), 1)
      + (Answers(Owed(b.queue, 2, b.sensors), 2) + Answers(Owed(b.queue, 3, b.sensors), 3));
      var sent := if |answers| > 32 then answers[..32] else answers;
      && Ordered(Round(b).queue) && Round(b).sensors == b.sensors
      && BestOf(Round(b).queue, Others(b.queue) + Numbered(sent, b.next))
  {
    RoundIs(b);
    RestIsValid(b);
    var (rest, answers) := DrainFrom(b, 1);
    var sent := if |answers| > 32 then answers[..32] else answers;
    EmitAllAdds(rest, sent);
    EmitAllIs(rest, sent);
    hide Round, DrainFrom, EmitAll, KernelBus, Answers, Owed, Others, BestOf;
  }

  lemma {:induction false} RestIsValid(b: Bus)
    requires KernelBus(b)
    ensures ValidBus(DrainFrom(b, 1).0)
  {
    LimitOf(b.queue);
    var limit: nat :| EnergyAtMost(b.queue, limit);
    DrainedAll(b, limit);
    hide DrainFrom, ValidBus, EnergyAtMost;
  }

  // ----- the kernel's bus -----

  /** Once 1, 2 and 3 have asked for a place, and as long as no other sensor has, the
      bus is the kernel's. */
  lemma {:induction false} KernelRuns(ops: seq<BusRuns.Op>)
    requires BusDelivery.Asked(ops) == {1, 2, 3}
    ensures KernelBus(BusRuns.Run(ops).bus)
  {
    BusDelivery.RegistryIs(ops);
    BusRuns.RunInvariant(ops);
    var b := BusRuns.Run(ops).bus;
    assert ValidBus(b);
    hide BusRuns.Run, BusRuns.Inv, BusDelivery.Asked, ValidBus;
    forall k | k in b.sensors ensures k in {1, 2, 3} {}
  }
}
