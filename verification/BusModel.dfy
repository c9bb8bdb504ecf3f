/** The resonant bus on values: a queue of at most 32 messages kept in
    descending order of energy, first come first served among equals, with the
    set of sensors each broadcast has already reached. The array implementation
    in ResonantBus is proved to compute exactly these functions. */
module BusModel {
  import opened Options

  const CAPACITY: nat := 32
  const BROADCAST: int := -1

  datatype Message = Message(source: int, target: int, energy: nat, payload: seq<bv8>)

  /** One queued copy: `id` is its arrival number, `seen` the registry positions
      of the sensors it has been delivered to. */
  datatype Entry = Entry(msg: Message, id: nat, seen: set<nat>)

  datatype Bus = Bus(queue: seq<Entry>, sensors: seq<int>, next: nat)

  const EMPTY := Bus([], [], 0)

  // ----- the order of the queue -----

  /** `a` goes before `b`: more energy, or the same energy and an earlier arrival. */
  predicate Beats(a: Entry, b: Entry) {
    a.msg.energy > b.msg.energy || (a.msg.energy == b.msg.energy && a.id < b.id)
  }

  ghost predicate Ordered(q: seq<Entry>) {
    forall i, j :: 0 <= i < j < |q| ==> Beats(q[i], q[j])
  }

  // ----- operations -----

  function Register(b: Bus, sensor: int): Bus {
    if sensor == BROADCAST || sensor == 0 || sensor in b.sensors || |b.sensors| >= CAPACITY then b
    else b.(sensors := b.sensors + [sensor])
  }

  /** How many leading entries keep their place before a newcomer of this energy. */
  function Slot(q: seq<Entry>, energy: nat): (n: nat)
    ensures n <= |q|
    ensures forall i :: 0 <= i < n ==> q[i].msg.energy >= energy
    ensures n < |q| ==> q[n].msg.energy < energy
  {
    if q == [] || q[0].msg.energy < energy then 0 else 1 + Slot(q[1..], energy)
  }

  function Insert(q: seq<Entry>, e: Entry): (r: seq<Entry>)
    ensures |r| == |q| + 1
  {
    var n := Slot(q, e.msg.energy);
    q[..n] + [e] + q[n..]
  }

  function Prefix(q: seq<Entry>): seq<Entry> {
    if |q| > CAPACITY then q[..CAPACITY] else q
  }

  /** Both branches of the original are one operation: stable insert, then keep
      the first 32. */
  function Emit(b: Bus, m: Message): Bus {
    Bus(Prefix(Insert(b.queue, Entry(m, b.next, {}))), b.sensors, b.next + 1)
  }

  /** Registry position of a sensor, -1 when it has none. */
  function IndexOf(sensors: seq<int>, sensor: int): (i: int)
    ensures -1 <= i < |sensors|
    ensures i >= 0 ==> sensors[i] == sensor
    ensures i < 0 <==> sensor !in sensors
  {
    if sensors == [] then -1
    else if sensors[0] == sensor then 0
    else
      var i := IndexOf(sensors[1..], sensor);
      if i < 0 then -1 else i + 1
  }

  /** May this entry be handed to `sensor`, whose registry position is `index`? */
  predicate Eligible(e: Entry, sensor: int, index: int) {
    e.msg.target == sensor || (e.msg.target == BROADCAST && index >= 0 && index !in e.seen)
  }

  function FirstEligible(q: seq<Entry>, sensor: int, index: int): (n: nat)
    ensures n <= |q|
    ensures forall i :: 0 <= i < n ==> !Eligible(q[i], sensor, index)
    ensures n < |q| ==> Eligible(q[n], sensor, index)
  {
    if q == [] || Eligible(q[0], sensor, index) then 0 else 1 + FirstEligible(q[1..], sensor, index)
  }

  ghost predicate AllSeen(seen: set<nat>, count: nat) {
    forall i: nat :: i < count ==> i in seen
  }

  /** Delivering `e` retires it: a directed message, or a broadcast that every
      registered sensor then has. */
  ghost predicate Retires(e: Entry, sensor: int, index: int, count: nat)
    requires Eligible(e, sensor, index)
  {
    e.msg.target == sensor || AllSeen(e.seen + {index}, count)
  }

  function Without(q: seq<Entry>, n: nat): seq<Entry>
    requires n < |q|
  {
    q[..n] + q[n + 1..]
  }

  /** The queue after entry `n` has been handed to `sensor`. */
  ghost function Settle(q: seq<Entry>, n: nat, sensor: int, index: int, count: nat): seq<Entry>
    requires n < |q| && Eligible(q[n], sensor, index)
  {
    if Retires(q[n], sensor, index, count) then Without(q, n)
    else q[n := q[n].(seen := q[n].seen + {index})]
  }

  ghost function Listen(b: Bus, sensor: int): (Bus, Option<Entry>) {
    if b.queue == [] then (b, None) else
    var b' := Register(b, sensor);
    var index := IndexOf(b'.sensors, sensor);
    var n := FirstEligible(b.queue, sensor, index);
    if n == |b.queue| then (b', None) else
    (b'.(queue := Settle(b.queue, n, sensor, index, |b'.sensors|)), Some(b.queue[n]))
  }

  // ----- two corners of listening -----

  /** A listen on an empty bus is nothing at all: the listener is not registered. */
  lemma {:induction false} EmptyListen(b: Bus, sensor: int)
    requires b.queue == []
    ensures Listen(b, sensor) == (b, None)
  {
  }

  /** A listener on the broadcast target takes the strongest broadcast for itself:
      whatever sensors still lack it, it leaves the queue, and no one is registered. */
  lemma {:induction false} BroadcastListener(b: Bus)
    ensures var (b', out) := Listen(b, BROADCAST);
      && b'.sensors == b.sensors
      && (out.None? ==> b' == b && forall i :: 0 <= i < |b.queue| ==> b.queue[i].msg.target != BROADCAST)
      && (out.Some? ==> exists n: nat :: n < |b.queue| && b.queue[n] == out.value && b'.queue == Without(b.queue, n)
                          && out.value.msg.target == BROADCAST
                          && forall i :: 0 <= i < n ==> b.queue[i].msg.target != BROADCAST)
  {
    var n := FirstEligible(b.queue, BROADCAST, -1);
  }

  // ----- what every operation keeps -----

  /** Registered sensors are real (neither 0 nor the broadcast target), distinct
      and at most 32. */
  ghost predicate ValidSensors(s: seq<int>) {
    && |s| <= CAPACITY
    && (forall i :: 0 <= i < |s| ==> s[i] != 0 && s[i] != BROADCAST)
    && (forall i, j :: 0 <= i < j < |s| ==> s[i] != s[j])
  }

  /** Delivery marks name registered sensors, only broadcasts carry them, and as
      soon as there is a sensor at all every queued broadcast still lacks one. */
  ghost predicate ValidMarks(e: Entry, count: nat) {
    && (forall i :: i in e.seen ==> i < count)
    && (e.msg.target != BROADCAST ==> e.seen == {})
    && (count > 0 ==> !AllSeen(e.seen, count))
  }

  ghost predicate ValidBus(b: Bus) {
    && ValidSensors(b.sensors)
    && |b.queue| <= CAPACITY
    && Ordered(b.queue)
    && (forall i :: 0 <= i < |b.queue| ==> b.queue[i].id < b.next && ValidMarks(b.queue[i], |b.sensors|))
  }

  lemma {:induction false} InsertOrdered(q: seq<Entry>, e: Entry)
    requires Ordered(q)
    requires forall i :: 0 <= i < |q| ==> q[i].id < e.id
    ensures Ordered(Insert(q, e))
  {
    var n := Slot(q, e.msg.energy);
    forall i | n <= i < |q| ensures q[i].msg.energy < e.msg.energy {
      assert i == n || Beats(q[n], q[i]);
    }
  }

  lemma {:induction false} RegisterKeeps(b: Bus, sensor: int)
    requires ValidBus(b)
    ensures ValidBus(Register(b, sensor)) && b.sensors <= Register(b, sensor).sensors
  {
    var s, s' := b.sensors, Register(b, sensor).sensors;
    forall i | 0 <= i < |b.queue| ensures ValidMarks(b.queue[i], |s'|) {
      if |s| < |s'| {
        assert |s| !in b.queue[i].seen;
      }
    }
  }

  lemma {:induction false} EmitKeeps(b: Bus, m: Message)
    requires ValidBus(b)
    ensures ValidBus(Emit(b, m))
  {
    var e := Entry(m, b.next, {});
    InsertOrdered(b.queue, e);
    if |b.sensors| > 0 {
      assert 0 !in e.seen;
    }
  }

  lemma {:induction false} SettleOrdered(q: seq<Entry>, n: nat, sensor: int, index: int, count: nat)
    requires Ordered(q) && n < |q| && Eligible(q[n], sensor, index)
    ensures Ordered(Settle(q, n, sensor, index, count))
  {
    var rest := Settle(q, n, sensor, index, count);
    forall i, j | 0 <= i < j < |rest| ensures Beats(rest[i], rest[j]) {
      var d := |q| - |rest|;
      var i', j' := if i < n then i else i + d, if j < n then j else j + d;
      assert Beats(q[i'], q[j']);
    }
  }

  lemma {:induction false} SettleMarks(q: seq<Entry>, n: nat, sensor: int, index: int, count: nat)
    requires n < |q| && Eligible(q[n], sensor, index) && index < count
    requires forall i :: 0 <= i < |q| ==> ValidMarks(q[i], count)
    ensures forall e :: e in Settle(q, n, sensor, index, count) ==> ValidMarks(e, count)
  {
    assert ValidMarks(q[n], count);
  }

  lemma {:induction false} ListenKeeps(b: Bus, sensor: int)
    requires ValidBus(b)
    ensures ValidBus(Listen(b, sensor).0)
  {
    RegisterKeeps(b, sensor);
    var b' := Register(b, sensor);
    var index := IndexOf(b'.sensors, sensor);
    var n := FirstEligible(b.queue, sensor, index);
    if n < |b.queue| {
      SettleOrdered(b.queue, n, sensor, index, |b'.sensors|);
      SettleMarks(b.queue, n, sensor, index, |b'.sensors|);
      SettleIds(b.queue, n, sensor, index, |b'.sensors|, b.next);
      hide Register, Settle, ValidMarks, Ordered, Eligible;
    }
  }

  lemma {:induction false} SettleIds(q: seq<Entry>, n: nat, sensor: int, index: int, count: nat, next: nat)
    requires n < |q| && Eligible(q[n], sensor, index)
    requires forall i :: 0 <= i < |q| ==> q[i].id < next
    ensures forall e :: e in Settle(q, n, sensor, index, count) ==> e.id < next
    ensures |Settle(q, n, sensor, index, count)| <= |q|
  {
  }
}
