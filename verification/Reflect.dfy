/** The reflect phase of the kernel: sensors 1, 2 and 3 drain the bus in turn, and
    every message with a payload and energy above 1 is sent round again as a
    broadcast of one unit less. */
module Reflect {
  import opened Options
  import opened BusModel
  import opened ResonantBus

  const FIRST_SENSOR := 1
  const LAST_SENSOR := 3
  const PAYLOAD_SIZE: nat := 32

  // ----- draining -----

  /** The entries `sensor` may receive, strongest first. */
  function Eligibles(q: seq<Entry>, sensor: int, index: int): seq<Entry> {
    if q == [] then []
    else (if Eligible(q[0], sensor, index) then [q[0]] else []) + Eligibles(q[1..], sensor, index)
  }

  function Waiting(b: Bus, sensor: int): seq<Entry> {
    Eligibles(b.queue, sensor, IndexOf(Register(b, sensor).sensors, sensor))
  }

  lemma {:induction false} SettleHead(q: seq<Entry>, sensor: int, index: int, count: nat)
    requires q != [] && Eligible(q[0], sensor, index)
    ensures Eligibles(Settle(q, 0, sensor, index, count), sensor, index) == Eligibles(q[1..], sensor, index)
  {
    var r := Settle(q, 0, sensor, index, count);
    if Retires(q[0], sensor, index, count) {
      assert r == q[1..];
    } else {
      assert r[1..] == q[1..];
    }
  }

  lemma {:induction false} SettleTail(q: seq<Entry>, n: nat, sensor: int, index: int, count: nat)
    requires 0 < n < |q| && Eligible(q[n], sensor, index)
    ensures Settle(q, n, sensor, index, count) == [q[0]] + Settle(q[1..], n - 1, sensor, index, count)
  {
    assert q[1..][n - 1] == q[n];
  }

  lemma {:induction false} EligiblesCons(q: seq<Entry>, e: Entry, t: seq<Entry>, sensor: int, index: int)
    requires q == [e] + t
    ensures Eligible(e, sensor, index) ==> Eligibles(q, sensor, index) == [e] + Eligibles(t, sensor, index)
    ensures !Eligible(e, sensor, index) ==> Eligibles(q, sensor, index) == Eligibles(t, sensor, index)
  {
    hide Eligible;
    assert q[1..] == t;
  }

  lemma {:induction false} EligiblesSettle(q: seq<Entry>, n: nat, sensor: int, index: int, count: nat)
    requires n == FirstEligible(q, sensor, index) < |q|
    ensures Eligibles(q, sensor, index) == [q[n]] + Eligibles(Settle(q, n, sensor, index, count), sensor, index)
  {
    assert q == [q[0]] + q[1..];
    if n == 0 {
      hide Settle, Eligible, Eligibles;
      EligiblesCons(q, q[0], q[1..], sensor, index);
      SettleHead(q, sensor, index, count);
    } else {
      assert FirstEligible(q[1..], sensor, index) == n - 1 && q[1..][n - 1] == q[n];
      hide Eligible, Settle, Eligibles, FirstEligible;
      EligiblesCons(q, q[0], q[1..], sensor, index);
      EligiblesSettle(q[1..], n - 1, sensor, index, count);
      SettleTail(q, n, sensor, index, count);
      var r, t := Settle(q, n, sensor, index, count), Settle(q[1..], n - 1, sensor, index, count);
      EligiblesCons(r, q[0], t, sensor, index);
    }
  }

  lemma {:induction false} EligiblesEmpty(q: seq<Entry>, sensor: int, index: int)
    ensures Eligibles(q, sensor, index) == [] <==> forall e :: e in q ==> !Eligible(e, sensor, index)
  {
    if q != [] { EligiblesEmpty(q[1..], sensor, index); }
  }

  /** One listen takes the head of what was waiting. */
  lemma {:induction false} ListenTakesHead(b: Bus, sensor: int)
    ensures var (b', out) := Listen(b, sensor);
            if out.Some? then Waiting(b, sensor) == [out.value] + Waiting(b', sensor)
            else Waiting(b, sensor) == [] && Waiting(b', sensor) == []
  {
    var index := IndexOf(Register(b, sensor).sensors, sensor);
    var n := FirstEligible(b.queue, sensor, index);
    EligiblesEmpty(b.queue, sensor, index);
    if n < |b.queue| {
      EligiblesSettle(b.queue, n, sensor, index, |Register(b, sensor).sensors|);
    }
  }

  /** Listens until nothing is left for `sensor`. */
  ghost function Drain(b: Bus, sensor: int): (Bus, seq<Entry>)
    decreases |Waiting(b, sensor)|
  {
    ListenTakesHead(b, sensor);
    var (b', out) := Listen(b, sensor);
    if out.None? then (b', []) else
    var (end, es) := Drain(b', sensor);
    (end, [out.value] + es)
  }

  /** Every copy left in `q'` was in `q`, with at least the marks it had. */
  ghost predicate Remains(q': seq<Entry>, q: seq<Entry>) {
    forall e' :: e' in q' ==> exists e :: e in q && e.id == e'.id && e.msg == e'.msg && e.seen <= e'.seen
  }

  /** A drain hands out exactly what was waiting, in queue order, leaves nothing
      for that sensor, adds nothing to the queue and takes no mark back. */
  lemma {:induction false} DrainDelivers(b: Bus, sensor: int)
    requires ValidBus(b) && sensor in b.sensors
    ensures var (b', es) := Drain(b, sensor);
            && es == Waiting(b, sensor)
            && ValidBus(b') && b'.sensors == b.sensors && b'.next == b.next
            && Waiting(b', sensor) == []
            && Remains(b'.queue, b.queue)
    decreases |Waiting(b, sensor)|
  {
    ListenFrames(b, sensor);
    hide Listen, ValidBus, Waiting;
    ListenTakesHead(b, sensor);
    ListenKeeps(b, sensor);
    var (b', out) := Listen(b, sensor);
    if out.Some? {
      DrainDelivers(b', sensor);
      RemainsTransitive(Drain(b', sensor).0.queue, b'.queue, b.queue);
    }
  }

  lemma {:induction false} ListenFrames(b: Bus, sensor: int)
    requires sensor in b.sensors
    ensures var b' := Listen(b, sensor).0;
            b'.sensors == b.sensors && b'.next == b.next && Remains(b'.queue, b.queue)
  {
  }

  lemma {:induction false} RemainsTransitive(a: seq<Entry>, b: seq<Entry>, c: seq<Entry>)
    requires Remains(a, b) && Remains(b, c)
    ensures Remains(a, c)
  {
    forall e | e in a ensures exists d :: d in c && d.id == e.id && d.msg == e.msg && d.seen <= e.seen {
      var d :| d in b && d.id == e.id && d.msg == e.msg && d.seen <= e.seen;
      var f :| f in c && f.id == d.id && f.msg == d.msg && f.seen <= d.seen;
    }
  }

  // ----- echoes -----

  /** Length of the payload up to its first zero byte. */
  function BoundedLength(payload: seq<bv8>, max: nat): (n: nat)
    ensures n <= max && n <= |payload|
    ensures 0 < max && 0 < |payload| && payload[0] != 0 ==> n > 0
  {
    if payload == [] || max == 0 || payload[0] == 0 then 0 else 1 + BoundedLength(payload[1..], max - 1)
  }

  /** The echo as sent: the text of the payload, padded with zeros. */
  function EchoOf(m: Message, sensor: int): Option<Message> {
    var n := BoundedLength(m.payload, PAYLOAD_SIZE);
    if n > 0 && m.energy > 1
    then Some(Message(sensor, BROADCAST, m.energy - 1, m.payload[..n] + seq(PAYLOAD_SIZE - n, _ => 0)))
    else None
  }

  function Echoes(es: seq<Entry>, sensor: int): seq<Message> {
    if es == [] then []
    else
      var rest := Echoes(es[1..], sensor);
      var echo := EchoOf(es[0].msg, sensor);
      if echo.Some? then [echo.value] + rest else rest
  }

  // ----- one round -----

  ghost function DrainFrom(b: Bus, sensor: int): (Bus, seq<Message>)
    decreases LAST_SENSOR + 1 - sensor
  {
    if sensor > LAST_SENSOR then (b, []) else
    var (b', es) := Drain(b, sensor);
    var (end, ms) := DrainFrom(b', sensor + 1);
    (end, Echoes(es, sensor) + ms)
  }

  function EmitAll(b: Bus, ms: seq<Message>): Bus
    decreases |ms|
  {
    if ms == [] then b else EmitAll(Emit(b, ms[0]), ms[1..])
  }

  /** At most 32 echoes are remembered. */
  function Kept(ms: seq<Message>): seq<Message> {
    if |ms| > CAPACITY then ms[..CAPACITY] else ms
  }

  ghost function Round(b: Bus): Bus {
    var (b', ms) := DrainFrom(b, FIRST_SENSOR);
    EmitAll(b', Kept(ms))
  }

  ghost function Rounds(b: Bus, n: nat): Bus {
    if n == 0 then b else Round(Rounds(b, n - 1))
  }

  /** The program text, on the real bus. */
  method ReflectRound(bus: ResonantBus)
    requires bus.Valid()
    modifies bus, bus.queue, bus.masks, bus.registry
    ensures bus.Valid() && bus.model == Round(old(bus.model))
  {
    var pending := new Message[CAPACITY](_ => Message(0, 0, 0, []));
    var count := DrainAll(bus, FIRST_SENSOR, pending);
    EmitPending(bus, pending, count);
  }

  /** Draining on from here, with `sent` already echoed, ends at `goal`. */
  ghost predicate SensorsLeft(b: Bus, sensor: int, sent: seq<Message>, goal: (Bus, seq<Message>)) {
    goal.0 == DrainFrom(b, sensor).0 && goal.1 == sent + DrainFrom(b, sensor).1
  }

  ghost predicate ListensLeft(b: Bus, sensor: int, sent: seq<Message>, goal: (Bus, seq<Message>)) {
    goal.0 == Drain(b, sensor).0 && goal.1 == sent + Echoes(Drain(b, sensor).1, sensor)
  }

  lemma {:induction false} NextSensor(b: Bus, sensor: int, sent: seq<Message>, goal: (Bus, seq<Message>))
    requires sensor <= LAST_SENSOR && SensorsLeft(b, sensor, sent, goal)
    ensures var (b', es) := Drain(b, sensor);
            SensorsLeft(b', sensor + 1, sent + Echoes(es, sensor), goal)
  {
    hide Drain, Echoes;
    var (b', es) := Drain(b, sensor);
    assert sent + (Echoes(es, sensor) + DrainFrom(b', sensor + 1).1)
        == (sent + Echoes(es, sensor)) + DrainFrom(b', sensor + 1).1;
  }

  lemma {:induction false} NextListen(b: Bus, sensor: int, sent: seq<Message>, goal: (Bus, seq<Message>))
    requires ListensLeft(b, sensor, sent, goal)
    ensures var (b', out) := Listen(b, sensor);
            if out.None? then goal.0 == b' && goal.1 == sent
            else var echo := EchoOf(out.value.msg, sensor);
                 ListensLeft(b', sensor, sent + (if echo.Some? then [echo.value] else []), goal)
                 && |Waiting(b', sensor)| < |Waiting(b, sensor)|
  {
    ListenTakesHead(b, sensor);
    var (b', out) := Listen(b, sensor);
    if out.Some? {
      var es := Drain(b, sensor).1;
      assert es[1..] == Drain(b', sensor).1;
      var echo := EchoOf(out.value.msg, sensor);
      if echo.Some? {
        assert sent + ([echo.value] + Echoes(es[1..], sensor)) == (sent + [echo.value]) + Echoes(es[1..], sensor);
      }
    }
  }

  lemma {:induction false} AllSensorsLeft(b: Bus, sensor: int)
    ensures SensorsLeft(b, sensor, [], DrainFrom(b, sensor)) && Kept([]) == []
  {
  }

  lemma {:induction false} NoSensorLeft(b: Bus, sensor: int, sent: seq<Message>, goal: (Bus, seq<Message>))
    requires sensor > LAST_SENSOR && SensorsLeft(b, sensor, sent, goal)
    ensures goal == (b, sent)
  {
    assert sent + [] == sent;
  }

  method DrainAll(bus: ResonantBus, first: int, pending: array<Message>) returns (count: nat)
    requires first <= LAST_SENSOR
    requires bus.Valid() && pending != bus.queue && pending.Length == CAPACITY
    modifies bus, bus.queue, bus.masks, bus.registry, pending
    ensures bus.Valid() && count <= CAPACITY
    ensures bus.model == DrainFrom(old(bus.model), first).0
    ensures pending[..count] == Kept(DrainFrom(old(bus.model), first).1)
  {
    hide SensorsLeft, DrainFrom, Drain, Kept, Echoes;
    count := 0;
    ghost var goal, sent := DrainFrom(bus.model, first), [];
    AllSensorsLeft(bus.model, first);
    assert pending[..0] == [];
    var sensor := first;
    while sensor <= LAST_SENSOR
      invariant sensor <= LAST_SENSOR + 1 && bus.Valid()
      invariant count <= CAPACITY && pending[..count] == Kept(sent)
      invariant SensorsLeft(bus.model, sensor, sent, goal)
    {
      NextSensor(bus.model, sensor, sent, goal);
      ghost var es := Drain(bus.model, sensor).1;
      count := DrainInto(bus, sensor, pending, count, sent);
      sent := sent + Echoes(es, sensor);
      sensor := sensor + 1;
    }
    NoSensorLeft(bus.model, sensor, sent, goal);
  }

  /** The inner loop: listens until nothing is left, remembering the echoes. */
  method DrainInto(bus: ResonantBus, sensor: int, pending: array<Message>, start: nat, ghost done: seq<Message>)
    returns (count: nat)
    requires bus.Valid() && pending != bus.queue && pending.Length == CAPACITY
    requires start <= CAPACITY && pending[..start] == Kept(done)
    modifies bus, bus.queue, bus.masks, bus.registry, pending
    ensures bus.Valid() && bus.model == Drain(old(bus.model), sensor).0
    ensures count <= CAPACITY
    ensures pending[..count] == Kept(done + Echoes(Drain(old(bus.model), sensor).1, sensor))
  {
    count := start;
    ghost var sent := done;
    ghost var goal := (Drain(bus.model, sensor).0, done + Echoes(Drain(bus.model, sensor).1, sensor));
    while true
      invariant bus.Valid()
      invariant count <= CAPACITY && pending[..count] == Kept(sent)
      invariant ListensLeft(bus.model, sensor, sent, goal)
      decreases |Waiting(bus.model, sensor)|
    {
      NextListen(bus.model, sensor, sent, goal);
      var found, message := bus.Listen(sensor);
      if !found {
        break;
      }
      var echo := EchoOf(message, sensor);
      count := Remember(pending, count, echo, sent);
      sent := sent + if echo.Some? then [echo.value] else [];
    }
  }

  method Remember(pending: array<Message>, start: nat, echo: Option<Message>, ghost sent: seq<Message>)
    returns (count: nat)
    requires pending.Length == CAPACITY && start <= CAPACITY && pending[..start] == Kept(sent)
    modifies pending
    ensures count <= CAPACITY
    ensures pending[..count] == Kept(sent + if echo.Some? then [echo.value] else [])
  {
    count := start;
    if echo.Some? && count < CAPACITY {
      pending[count] := echo.value;
      count := count + 1;
    }
  }

  method EmitPending(bus: ResonantBus, pending: array<Message>, count: nat)
    requires bus.Valid() && count <= pending.Length && pending != bus.queue
    modifies bus, bus.queue, bus.masks
    ensures bus.Valid() && bus.model == EmitAll(old(bus.model), old(pending[..count]))
  {
    ghost var ms := pending[..count];
    var i := 0;
    while i < count
      invariant 0 <= i <= count && bus.Valid() && pending[..count] == ms
      invariant EmitAll(bus.model, ms[i..]) == EmitAll(old(bus.model), ms)
    {
      bus.Emit(pending[i]);
      i := i + 1;
    }
  }
}
