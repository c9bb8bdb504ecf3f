/** Whole runs of the bus: any interleaving of registrations, emits and listens,
    with a record of every delivery and of how every copy left the queue. */
module BusRuns {
  import opened Options
  import opened BusModel

  datatype Op = RegisterOp(sensor: int) | EmitOp(msg: Message) | ListenOp(sensor: int)

  datatype Delivery = Delivery(id: nat, sensor: int)

  /** `sent[id]` is the message copy `id` carries. */
  datatype World = World(
    bus: Bus, sent: seq<Message>, log: seq<Delivery>, evicted: set<nat>, retired: set<nat>)

  ghost function Ids(q: seq<Entry>): set<nat> {
    set i | 0 <= i < |q| :: q[i].id
  }

  ghost function Arrivals(n: nat): (r: set<nat>)
    ensures forall id :: id in r <==> 0 <= id < n
  {
    if n == 0 then {} else Arrivals(n - 1) + {n - 1}
  }

  ghost function Step(w: World, op: Op): World {
    match op
    case RegisterOp(sensor) => w.(bus := Register(w.bus, sensor))
    case EmitOp(m) =>
      var b := Emit(w.bus, m);
      w.(bus := b, sent := w.sent + [m],
         evicted := w.evicted + (Ids(w.bus.queue) + {w.bus.next} - Ids(b.queue)))
    case ListenOp(sensor) =>
      var (b, out) := Listen(w.bus, sensor);
      if out.None? then w.(bus := b)
      else w.(bus := b, log := w.log + [Delivery(out.value.id, sensor)],
              retired := w.retired + (Ids(w.bus.queue) - Ids(b.queue)))
  }

  ghost function Run(ops: seq<Op>): World {
    if ops == [] then World(EMPTY, [], [], {}, {})
    else Step(Run(ops[..|ops| - 1]), ops[|ops| - 1])
  }

  // ----- the properties of a run -----

  /** Every copy ever emitted is in exactly one place: queued, evicted or retired. */
  ghost predicate Conserved(w: World) {
    && w.bus.next == |w.sent|
    && Ids(w.bus.queue) + w.evicted + w.retired == Arrivals(|w.sent|)
    && Ids(w.bus.queue) !! w.evicted !! w.retired
    && (forall i :: 0 <= i < |w.bus.queue| ==>
          w.bus.queue[i].id < |w.sent| && w.bus.queue[i].msg == w.sent[w.bus.queue[i].id])
  }

  /** No copy reaches the same sensor twice, and only its addressee or, for a
      broadcast, a registered sensor (or a listener on the broadcast target). */
  ghost predicate SoundLog(w: World) {
    && (forall i, j :: 0 <= i < j < |w.log| ==> w.log[i] != w.log[j])
    && (forall d :: d in w.log ==>
          d.id < |w.sent| && (w.sent[d.id].target == d.sensor
                              || (w.sent[d.id].target == BROADCAST && d.sensor in w.bus.sensors)))
  }

  /** The marks of one queued copy are exactly its deliveries so far. */
  ghost predicate ExactMarks(e: Entry, sensors: seq<int>, log: seq<Delivery>) {
    && (forall i :: i in e.seen ==> i < |sensors| && Delivery(e.id, sensors[i]) in log)
    && (forall k :: Delivery(e.id, k) in log ==> exists i :: i in e.seen && i < |sensors| && sensors[i] == k)
  }

  ghost predicate MarksAreDeliveries(w: World) {
    forall i :: 0 <= i < |w.bus.queue| ==> ExactMarks(w.bus.queue[i], w.bus.sensors, w.log)
  }

  /** Copy `id` went to the first `n` registered sensors and to none after them. */
  ghost predicate ReachedFirst(id: nat, n: nat, sensors: seq<int>, log: seq<Delivery>) {
    && 0 < n <= |sensors|
    && forall i {:trigger sensors[i]} :: 0 <= i < |sensors| ==> (Delivery(id, sensors[i]) in log <==> i < n)
  }

  /** A retired copy was consumed by its addressee, or is a broadcast delivered to
      precisely the sensors registered when it retired. */
  ghost predicate RetiredWell(w: World, id: nat)
    requires id < |w.sent|
  {
    || Delivery(id, w.sent[id].target) in w.log
    || (w.sent[id].target == BROADCAST && exists n :: ReachedFirst(id, n, w.bus.sensors, w.log))
  }

  ghost predicate Inv(w: World) {
    && ValidBus(w.bus)
    && Conserved(w)
    && SoundLog(w)
    && MarksAreDeliveries(w)
    && (forall id :: id in w.retired ==> id < |w.sent| && RetiredWell(w, id))
  }

  // ----- preservation, operation by operation -----

  lemma {:induction false} DistinctIds(w: World)
    requires Inv(w)
    ensures forall i, j :: 0 <= i < j < |w.bus.queue| ==> w.bus.queue[i].id != w.bus.queue[j].id
  {
    forall i, j | 0 <= i < j < |w.bus.queue| ensures w.bus.queue[i].id != w.bus.queue[j].id {
      assert Beats(w.bus.queue[i], w.bus.queue[j]);
    }
  }

  lemma {:induction false} RegisterStep(w: World, sensor: int)
    requires Inv(w)
    ensures Inv(Step(w, RegisterOp(sensor)))
  {
    var w' := Step(w, RegisterOp(sensor));
    RegisterKeeps(w.bus, sensor);
    var s, s' := w.bus.sensors, w'.bus.sensors;
    assert forall i :: 0 <= i < |s| ==> s'[i] == s[i];
    forall i | 0 <= i < |w.bus.queue| ensures ExactMarks(w.bus.queue[i], s', w.log) {
      assert ExactMarks(w.bus.queue[i], s, w.log);
    }
    forall id | id in w.retired ensures RetiredWell(w', id) {
      assert RetiredWell(w, id);
      if Delivery(id, w.sent[id].target) !in w.log {
        var n :| ReachedFirst(id, n, s, w.log);
        forall i | 0 <= i < |s'| ensures Delivery(id, s'[i]) in w.log <==> i < n {
          if i < |s| { assert s'[i] == s[i]; } else { assert s'[i] !in s; }
        }
        assert ReachedFirst(id, n, s', w.log);
      }
    }
  }

  /** What an emit leaves queued: old entries and at most the new one. */
  lemma {:induction false} EmitQueue(b: Bus, m: Message)
    ensures forall e :: e in Emit(b, m).queue ==> e == Entry(m, b.next, {}) || e in b.queue
    ensures Emit(b, m).sensors == b.sensors && Emit(b, m).next == b.next + 1
  {
  }

  lemma {:induction false} EmitConserves(w: World, m: Message)
    requires Conserved(w)
    ensures Conserved(Step(w, EmitOp(m)))
  {
    EmitQueue(w.bus, m);
    hide Emit;
    var w' := Step(w, EmitOp(m));
    var q, q' := w.bus.queue, w'.bus.queue;
    assert Arrivals(|w'.sent|) == Arrivals(|w.sent|) + {|w.sent|};
    assert |w.sent| !in Arrivals(|w.sent|);
    forall id | id in Ids(q') ensures id in Ids(q) + {w.bus.next} {
      var i :| 0 <= i < |q'| && q'[i].id == id;
      assert q'[i] in q';
      if q'[i] in q {
        var j :| 0 <= j < |q| && q[j] == q'[i];
      }
    }
    forall i | 0 <= i < |q'|
      ensures q'[i].id < |w'.sent| && q'[i].msg == w'.sent[q'[i].id]
    {
      assert q'[i] in q';
    }
  }

  lemma {:induction false} EmitStep(w: World, m: Message)
    requires Inv(w)
    ensures Inv(Step(w, EmitOp(m)))
  {
    var w' := Step(w, EmitOp(m));
    EmitKeeps(w.bus, m);
    EmitConserves(w, m);
    EmitQueue(w.bus, m);
    hide Conserved, Emit, ValidBus, ExactMarks;
    var q, q', e := w.bus.queue, w'.bus.queue, Entry(m, w.bus.next, {});
    FreshMarks(w, e);
    forall i | 0 <= i < |q'| ensures ExactMarks(q'[i], w.bus.sensors, w.log) {
      assert q'[i] in q';
    }
    forall id | id in w'.retired ensures id < |w'.sent| && RetiredWell(w', id) {
      assert id < |w.sent| && RetiredWell(w, id);
    }
  }

  /** Nothing has been delivered under a number not given out yet. */
  lemma {:induction false} FreshMarks(w: World, e: Entry)
    requires SoundLog(w) && e.id >= |w.sent| && e.seen == {}
    ensures ExactMarks(e, w.bus.sensors, w.log)
  {
  }

  /** Delivering a copy: the log entry is new, the marks stay exact, and if the
      copy retires it does so well. `w` already has the listener registered. */
  lemma {:induction false} DeliverStep(w: World, sensor: int)
    requires Inv(w) && Listen(w.bus, sensor).1.Some? && Register(w.bus, sensor) == w.bus
    ensures Inv(Step(w, ListenOp(sensor)))
  {
    ListenKeeps(w.bus, sensor);
    var w' := Step(w, ListenOp(sensor));
    var index := IndexOf(w.bus.sensors, sensor);
    var n := FirstEligible(w.bus.queue, sensor, index);
    NotYetDelivered(w, n, sensor);
    DeliverConserves(w, sensor);
    DeliverMarks(w, sensor);
    forall id | id in w'.retired ensures RetiredWell(w', id) {
      if id in w.retired {
        StaysRetiredWell(w, w', id, Delivery(w.bus.queue[n].id, sensor));
      } else {
        JustRetired(w, n, sensor, w'.log);
      }
    }
  }

  lemma {:induction false} DeliverConserves(w: World, sensor: int)
    requires Inv(w) && Listen(w.bus, sensor).1.Some? && Register(w.bus, sensor) == w.bus
    ensures Conserved(Step(w, ListenOp(sensor)))
    ensures var n := FirstEligible(w.bus.queue, sensor, IndexOf(w.bus.sensors, sensor));
            Step(w, ListenOp(sensor)).retired <= w.retired +
              (if Retires(w.bus.queue[n], sensor, IndexOf(w.bus.sensors, sensor), |w.bus.sensors|)
               then {w.bus.queue[n].id} else {})
  {
    DistinctIds(w);
    var w' := Step(w, ListenOp(sensor));
    var q, q' := w.bus.queue, w'.bus.queue;
    var index := IndexOf(w.bus.sensors, sensor);
    var n := FirstEligible(q, sensor, index);
    if Retires(q[n], sensor, index, |w.bus.sensors|) {
      IdsWithout(q, n);
      assert q[n].id in Ids(q);
      assert Ids(q) - Ids(q') == {q[n].id};
    } else {
      assert forall i :: 0 <= i < |q| ==> q'[i].id == q[i].id;
      assert Ids(q') == Ids(q);
    }
  }

  lemma {:induction false} DeliverMarks(w: World, sensor: int)
    requires Inv(w) && Listen(w.bus, sensor).1.Some? && Register(w.bus, sensor) == w.bus
    ensures MarksAreDeliveries(Step(w, ListenOp(sensor)))
  {
    DistinctIds(w);
    var w' := Step(w, ListenOp(sensor));
    var q, q', s := w.bus.queue, w'.bus.queue, w.bus.sensors;
    var index := IndexOf(s, sensor);
    var n := FirstEligible(q, sensor, index);
    assert w'.log == w.log + [Delivery(q[n].id, sensor)];
    hide ExactMarks, ValidBus, SoundLog, Conserved, RetiredWell;
    forall i | 0 <= i < |q'| ensures ExactMarks(q'[i], s, w'.log) {
      var j := if |q'| == |q| || i < n then i else i + 1;
      assert ExactMarks(q[j], s, w.log);
      if j == n {
        MarkedNow(q[n], q'[i], sensor, index, s, w.log);
      } else {
        assert q'[i] == q[j];
        MarkedBefore(q[j], Delivery(q[n].id, sensor), s, w.log);
      }
    }
  }

  lemma {:induction false} MarkedBefore(e: Entry, d: Delivery, sensors: seq<int>, log: seq<Delivery>)
    requires ExactMarks(e, sensors, log) && d.id != e.id
    ensures ExactMarks(e, sensors, log + [d])
  {
  }

  lemma {:induction false} MarkedNow(
    e: Entry, e': Entry, sensor: int, index: int, sensors: seq<int>, log: seq<Delivery>)
    requires ExactMarks(e, sensors, log) && 0 <= index < |sensors| && sensors[index] == sensor
    requires e' == e.(seen := e.seen + {index})
    ensures ExactMarks(e', sensors, log + [Delivery(e.id, sensor)])
  {
    assert (log + [Delivery(e.id, sensor)])[|log|] == Delivery(e.id, sensor);
  }

  lemma {:induction false} NotYetDelivered(w: World, n: nat, sensor: int)
    requires Inv(w) && n < |w.bus.queue|
    requires Eligible(w.bus.queue[n], sensor, IndexOf(w.bus.sensors, sensor))
    ensures Delivery(w.bus.queue[n].id, sensor) !in w.log
  {
    assert ExactMarks(w.bus.queue[n], w.bus.sensors, w.log);
  }

  lemma {:induction false} IdsWithout(q: seq<Entry>, n: nat)
    requires n < |q|
    requires forall i, j :: 0 <= i < j < |q| ==> q[i].id != q[j].id
    ensures Ids(Without(q, n)) == Ids(q) - {q[n].id}
  {
    var r := Without(q, n);
    forall id | id in Ids(q) - {q[n].id} ensures id in Ids(r) {
      var i :| 0 <= i < |q| && q[i].id == id;
      assert r[if i < n then i else i - 1] == q[i];
    }
  }

  lemma {:induction false} StaysRetiredWell(w: World, w': World, id: nat, d: Delivery)
    requires id < |w.sent| && w'.sent == w.sent && w'.bus.sensors == w.bus.sensors
    requires w'.log == w.log + [d] && d.id != id && RetiredWell(w, id)
    ensures RetiredWell(w', id)
  {
    if Delivery(id, w.sent[id].target) !in w.log {
      var n :| ReachedFirst(id, n, w.bus.sensors, w.log);
      assert ReachedFirst(id, n, w.bus.sensors, w'.log);
    } else {
      assert Delivery(id, w.sent[id].target) in w'.log;
    }
  }

  lemma {:induction false} JustRetired(w: World, n: nat, sensor: int, log: seq<Delivery>)
    requires Inv(w) && n < |w.bus.queue|
    requires Eligible(w.bus.queue[n], sensor, IndexOf(w.bus.sensors, sensor))
    requires Retires(w.bus.queue[n], sensor, IndexOf(w.bus.sensors, sensor), |w.bus.sensors|)
    requires log == w.log + [Delivery(w.bus.queue[n].id, sensor)]
    ensures RetiredWell(w.(log := log), w.bus.queue[n].id)
  {
    var e, s := w.bus.queue[n], w.bus.sensors;
    assert ExactMarks(e, s, w.log);
    assert Delivery(e.id, sensor) in log;
    if e.msg.target != sensor {
      forall i | 0 <= i < |s| ensures Delivery(e.id, s[i]) in log {
        assert i in e.seen + {IndexOf(s, sensor)};
        if i in e.seen { assert Delivery(e.id, s[i]) in w.log; }
      }
      assert ReachedFirst(e.id, |s|, s, log);
    }
  }

  lemma {:induction false} StepKeeps(w: World, op: Op)
    requires Inv(w)
    ensures Inv(Step(w, op))
  {
    match op
    case RegisterOp(sensor) => RegisterStep(w, sensor);
    case EmitOp(m) => EmitStep(w, m);
    case ListenOp(sensor) =>
      if w.bus.queue != [] {
        RegisterStep(w, sensor);
        if Listen(w.bus, sensor).1.Some? {
          DeliverStep(Step(w, RegisterOp(sensor)), sensor);
        }
      }
  }

  /** The main result: the invariant holds after every run. */
  lemma {:induction false} RunInvariant(ops: seq<Op>)
    ensures Inv(Run(ops))
  {
    if ops != [] {
      RunInvariant(ops[..|ops| - 1]);
      StepKeeps(Run(ops[..|ops| - 1]), ops[|ops| - 1]);
    }
  }

  // ----- delivery -----

  /** A listen hands out the strongest copy it may hand out, and nothing only if
      there is none. */
  lemma {:induction false} StrongestFirst(ops: seq<Op>, sensor: int)
    ensures var b, out := Run(ops).bus, Listen(Run(ops).bus, sensor).1;
            var index := IndexOf(Register(b, sensor).sensors, sensor);
            && (out.Some? ==> out.value in b.queue && Eligible(out.value, sensor, index))
            && forall e :: e in b.queue && Eligible(e, sensor, index) ==>
                 out.Some? && (e == out.value || Beats(out.value, e))
  {
    RunInvariant(ops);
  }

  lemma {:induction false} RetiredIff(w: World, sensor: int)
    requires Inv(w) && Listen(w.bus, sensor).1.Some? && Register(w.bus, sensor) == w.bus
    ensures var e, index := Listen(w.bus, sensor).1.value, IndexOf(w.bus.sensors, sensor);
            e.id in Step(w, ListenOp(sensor)).retired <==> Retires(e, sensor, index, |w.bus.sensors|)
  {
    DistinctIds(w);
    var q, index := w.bus.queue, IndexOf(w.bus.sensors, sensor);
    var n := FirstEligible(q, sensor, index);
    assert q[n].id in Ids(q);
    if Retires(q[n], sensor, index, |w.bus.sensors|) {
      IdsWithout(q, n);
    } else {
      var q' := Step(w, ListenOp(sensor)).bus.queue;
      assert q'[n].id in Ids(q');
    }
  }

  lemma {:induction false} AllSeenIff(w: World, e: Entry, sensor: int)
    requires Inv(w) && e in w.bus.queue && e.msg.target == BROADCAST && sensor in w.bus.sensors
    ensures AllSeen(e.seen + {IndexOf(w.bus.sensors, sensor)}, |w.bus.sensors|) <==>
            forall k :: k in w.bus.sensors ==> Delivery(e.id, k) in w.log + [Delivery(e.id, sensor)]
  {
    var s, log := w.bus.sensors, w.log + [Delivery(e.id, sensor)];
    var index := IndexOf(s, sensor);
    assert ExactMarks(e, s, w.log);
    assert log[|w.log|] == Delivery(e.id, sensor);
    assert forall i :: 0 <= i < |s| && i != index ==> s[i] != sensor;
    forall i: nat | i < |s| ensures Delivery(e.id, s[i]) in log <==> i in e.seen + {index} {
      if Delivery(e.id, s[i]) in w.log {
        var j :| j in e.seen && j < |s| && s[j] == s[i];
      }
    }
    if forall k :: k in s ==> Delivery(e.id, k) in log {
      assert forall i: nat :: i < |s| ==> s[i] in s;
    }
  }

  /** A broadcast handed to a sensor leaves the queue with that very delivery if
      and only if every registered sensor has then received it. */
  lemma {:induction false} RetirementIsLastDelivery(ops: seq<Op>, sensor: int)
    requires sensor != BROADCAST
    ensures var w, w' := Run(ops), Run(ops + [ListenOp(sensor)]);
            var out := Listen(w.bus, sensor).1;
            out.Some? && out.value.msg.target == BROADCAST ==>
              (out.value.id in w'.retired <==>
                forall k :: k in w'.bus.sensors ==> Delivery(out.value.id, k) in w'.log)
  {
    assert (ops + [ListenOp(sensor)])[..|ops|] == ops;
    var w := Run(ops);
    RunInvariant(ops);
    var out := Listen(w.bus, sensor).1;
    if out.Some? && out.value.msg.target == BROADCAST {
      var w1 := Step(w, RegisterOp(sensor));
      ListenRegisters(w, sensor);
      hide Inv, Listen, Register, Eligible, AllSeen;
      RegisterStep(w, sensor);
      RetiredIff(w1, sensor);
      AllSeenIff(w1, out.value, sensor);
    }
  }

  /** A listen that hands out something registers the listener first. */
  lemma {:induction false} ListenRegisters(w: World, sensor: int)
    requires Listen(w.bus, sensor).1.Some?
    ensures var w1 := Step(w, RegisterOp(sensor));
      var e := Listen(w.bus, sensor).1.value;
      && Register(w1.bus, sensor) == w1.bus && e in w1.bus.queue && w1.log == w.log
      && Listen(w1.bus, sensor) == Listen(w.bus, sensor) && Step(w1, ListenOp(sensor)) == Step(w, ListenOp(sensor))
      && Step(w, ListenOp(sensor)).log == w.log + [Delivery(e.id, sensor)]
      && Step(w, ListenOp(sensor)).bus.sensors == w1.bus.sensors
      && (sensor != BROADCAST && e.msg.target == BROADCAST ==> sensor in w1.bus.sensors)
  {
  }

  // ----- online queue = offline sort -----

  function Emits(ms: seq<Message>): seq<Op> {
    seq(|ms|, i requires 0 <= i < |ms| => EmitOp(ms[i]))
  }

  function Arrived(ms: seq<Message>): seq<Entry> {
    seq(|ms|, i requires 0 <= i < |ms| => Entry(ms[i], i, {}))
  }

  /** `full` is everything emitted, by descending energy and then by arrival. */
  ghost predicate StableSortOf(full: seq<Entry>, ms: seq<Message>) {
    Ordered(full) && multiset(full) == multiset(Arrived(ms))
  }

  ghost function Sorted(ms: seq<Message>): seq<Entry> {
    if ms == [] then [] else
    var n := |ms| - 1;
    Insert(Sorted(ms[..n]), Entry(ms[n], n, {}))
  }

  lemma {:induction false} SortedIsStableSort(ms: seq<Message>)
    ensures StableSortOf(Sorted(ms), ms)
  {
    if ms != [] {
      hide Ordered, Insert, Arrived;
      var n := |ms| - 1;
      SortedIsStableSort(ms[..n]);
      var q, e := Sorted(ms[..n]), Entry(ms[n], n, {});
      ArrivedGrows(ms);
      EarlierIds(q, ms[..n]);
      InsertOrdered(q, e);
      InsertCounts(q, e);
    }
  }

  lemma {:induction false} ArrivedGrows(ms: seq<Message>)
    requires ms != []
    ensures var n := |ms| - 1; Arrived(ms) == Arrived(ms[..n]) + [Entry(ms[n], n, {})]
  {
  }

  lemma {:induction false} EarlierIds(q: seq<Entry>, ms: seq<Message>)
    requires multiset(q) == multiset(Arrived(ms))
    ensures forall i :: 0 <= i < |q| ==> q[i].id < |ms|
  {
    forall i | 0 <= i < |q| ensures q[i].id < |ms| {
      assert q[i] in multiset(q);
      assert q[i] in Arrived(ms);
    }
  }

  lemma {:induction false} InsertCounts(q: seq<Entry>, e: Entry)
    ensures multiset(Insert(q, e)) == multiset(q) + multiset{e}
  {
    var k := Slot(q, e.msg.energy);
    assert q == q[..k] + q[k..];
  }

  lemma {:induction false} SameHead(a: seq<Entry>, b: seq<Entry>)
    requires Ordered(a) && Ordered(b) && multiset(a) == multiset(b) && a != []
    ensures b != [] && a[0] == b[0]
  {
    assert |multiset(a)| == |a| && |multiset(b)| == |b|;
    assert a[0] in multiset(b) && b[0] in multiset(a);
    FirstIsStrongest(b, a[0]);
    FirstIsStrongest(a, b[0]);
  }

  lemma {:induction false} FirstIsStrongest(q: seq<Entry>, e: Entry)
    requires Ordered(q) && e in q
    ensures e == q[0] || Beats(q[0], e)
  {
  }

  lemma {:induction false} StableSortUnique(a: seq<Entry>, b: seq<Entry>)
    requires Ordered(a) && Ordered(b) && multiset(a) == multiset(b)
    ensures a == b
  {
    if a == [] {
      assert |multiset(b)| == 0;
    } else {
      SameHead(a, b);
      RestMultiset(a);
      RestMultiset(b);
      StableSortUnique(a[1..], b[1..]);
      assert a == [a[0]] + a[1..] && b == [b[0]] + b[1..];
    }
  }

  lemma {:induction false} RestMultiset(q: seq<Entry>)
    requires q != []
    ensures multiset(q[1..]) == multiset(q) - multiset{q[0]}
  {
    assert q == [q[0]] + q[1..];
  }

  /** Dropping the tail early does not matter. */
  lemma {:induction false} InsertPrefix(q: seq<Entry>, e: Entry)
    requires Ordered(q)
    ensures Prefix(Insert(Prefix(q), e)) == Prefix(Insert(q, e))
  {
    var n, n' := Slot(q, e.msg.energy), Slot(Prefix(q), e.msg.energy);
    assert forall i :: 0 <= i < |Prefix(q)| ==> Prefix(q)[i] == q[i];
    assert n' == if n <= |Prefix(q)| then n else |Prefix(q)|;
  }

  lemma {:induction false} QueueIsPrefix(ms: seq<Message>)
    ensures Run(Emits(ms)).bus == Bus(Prefix(Sorted(ms)), [], |ms|)
  {
    if ms != [] {
      var n := |ms| - 1;
      QueueIsPrefix(ms[..n]);
      SortedIsStableSort(ms[..n]);
      assert Emits(ms)[..n] == Emits(ms[..n]);
      InsertPrefix(Sorted(ms[..n]), Entry(ms[n], n, {}));
    }
  }

  /** After any sequence of emits the queue is the first 32 of the stable
      descending sort of everything emitted, however that sort is obtained. */
  lemma {:induction false} TopK(ms: seq<Message>)
    ensures exists full :: StableSortOf(full, ms)
    ensures forall full :: StableSortOf(full, ms) ==>
      Run(Emits(ms)).bus.queue == if |full| > 32 then full[..32] else full
  {
    QueueIsPrefix(ms);
    SortedIsStableSort(ms);
    forall full | StableSortOf(full, ms) ensures full == Sorted(ms) {
      StableSortUnique(full, Sorted(ms));
    }
  }
}
