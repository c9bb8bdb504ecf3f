/** Why the echoes of the reflect phase die out. */
module EchoCascade {
  import opened Options
  import opened BusModel
  import opened Reflect

  /** The kernel's bus: sensors 1, 2 and 3 are registered and no others. */
  ghost predicate KernelBus(b: Bus) {
    && ValidBus(b)
    && 1 in b.sensors && 2 in b.sensors && 3 in b.sensors
    && (forall k :: k in b.sensors ==> FIRST_SENSOR <= k <= LAST_SENSOR)
  }

  /** Addressed to one of the three sensors, or to all of them. */
  predicate Deliverable(e: Entry) {
    e.msg.target == BROADCAST || FIRST_SENSOR <= e.msg.target <= LAST_SENSOR
  }

  ghost predicate NothingFor(q: seq<Entry>, sensor: int, sensors: seq<int>) {
    forall e :: e in q ==> !Eligible(e, sensor, IndexOf(sensors, sensor))
  }

  lemma {:induction false} NothingForRemains(q': seq<Entry>, q: seq<Entry>, sensor: int, sensors: seq<int>)
    requires Remains(q', q) && NothingFor(q, sensor, sensors)
    ensures NothingFor(q', sensor, sensors)
  {
  }

  lemma {:induction false} DrainEmpties(b: Bus, sensor: int)
    requires KernelBus(b) && FIRST_SENSOR <= sensor <= LAST_SENSOR
    ensures var b' := Drain(b, sensor).0;
            && KernelBus(b') && b'.next == b.next && b'.sensors == b.sensors
            && Remains(b'.queue, b.queue) && NothingFor(b'.queue, sensor, b.sensors)
  {
    hide Drain, ValidBus, Eligibles, Eligible, Remains, IndexOf, Deliverable;
    DrainDelivers(b, sensor);
    EligiblesEmpty(Drain(b, sensor).0.queue, sensor, IndexOf(b.sensors, sensor));
  }

  /** With nothing left for any of the three sensors, nothing deliverable is left:
      a broadcast would lack a registered sensor. */
  lemma {:induction false} NothingDeliverable(b: Bus)
    requires KernelBus(b)
    requires NothingFor(b.queue, 1, b.sensors) && NothingFor(b.queue, 2, b.sensors) && NothingFor(b.queue, 3, b.sensors)
    ensures forall e :: e in b.queue ==> !Deliverable(e)
  {
    forall e | e in b.queue && e.msg.target == BROADCAST ensures false {
      assert ValidMarks(e, |b.sensors|);
      forall i: nat | i < |b.sensors| ensures i in e.seen {
        assert IndexOf(b.sensors, b.sensors[i]) == i;
        assert b.sensors[i] in b.sensors;
      }
    }
  }

  ghost predicate EnergyAtMost(q: seq<Entry>, limit: nat) {
    forall e :: e in q && Deliverable(e) ==> e.msg.energy <= limit
  }

  lemma {:induction false} EchoesAreWeaker(es: seq<Entry>, q: seq<Entry>, sensor: int, limit: nat)
    requires EnergyAtMost(q, limit)
    requires forall e :: e in es ==> Deliverable(e) && exists d :: d in q && d.msg == e.msg
    ensures forall m :: m in Echoes(es, sensor) ==> m.target == BROADCAST && 0 < m.energy < limit
  {
    if es != [] {
      EchoesAreWeaker(es[1..], q, sensor, limit);
      assert es[0] in es;
      var d :| d in q && d.msg == es[0].msg;
    }
  }

  lemma {:induction false} EligiblesAre(q: seq<Entry>, sensor: int, index: int)
    ensures forall e :: e in Eligibles(q, sensor, index) ==> e in q && Eligible(e, sensor, index)
  {
    if q != [] { EligiblesAre(q[1..], sensor, index); }
  }

  /** One drain of the round: the echoes it causes are weaker than the limit. */
  lemma {:induction false} DrainEchoes(b: Bus, sensor: int, limit: nat)
    requires KernelBus(b) && FIRST_SENSOR <= sensor <= LAST_SENSOR && EnergyAtMost(b.queue, limit)
    ensures EnergyAtMost(Drain(b, sensor).0.queue, limit)
    ensures forall m :: m in Echoes(Drain(b, sensor).1, sensor) ==> m.target == BROADCAST && 0 < m.energy < limit
  {
    hide Drain, ValidBus, Eligibles, Echoes, IndexOf;
    DrainDelivers(b, sensor);
    EligiblesAre(b.queue, sensor, IndexOf(b.sensors, sensor));
    EchoesAreWeaker(Drain(b, sensor).1, b.queue, sensor, limit);
  }

  /** After the three drains nothing deliverable is queued, and every echo is a
      broadcast weaker than everything deliverable before. */
  lemma {:induction false} DrainedAll(b: Bus, limit: nat)
    requires KernelBus(b) && EnergyAtMost(b.queue, limit)
    ensures var (b', ms) := DrainFrom(b, FIRST_SENSOR);
            && KernelBus(b') && b'.next == b.next
            && (forall e :: e in b'.queue ==> !Deliverable(e))
            && (forall m :: m in ms ==> m.target == BROADCAST && 0 < m.energy < limit)
  {
    var b1, b2 := Drain(b, 1).0, Drain(Drain(b, 1).0, 2).0;
    var b3 := Drain(b2, 3).0;
    DrainEmpties(b, 1);   DrainEchoes(b, 1, limit);
    DrainEmpties(b1, 2);  DrainEchoes(b1, 2, limit);
    DrainEmpties(b2, 3);  DrainEchoes(b2, 3, limit);
    NothingForRemains(b2.queue, b1.queue, 1, b.sensors);
    NothingForRemains(b3.queue, b2.queue, 1, b.sensors);
    NothingForRemains(b3.queue, b2.queue, 2, b.sensors);
    NothingDeliverable(b3);
    ThreeDrains(b);
  }

  lemma {:induction false} ThreeDrains(b: Bus)
    ensures var (b1, m1) := Drain(b, 1);
            var (b2, m2) := Drain(b1, 2);
            var (b3, m3) := Drain(b2, 3);
            DrainFrom(b, FIRST_SENSOR) == (b3, Echoes(m1, 1) + (Echoes(m2, 2) + Echoes(m3, 3)))
  {
    var (b1, m1) := Drain(b, 1);
    var (b2, m2) := Drain(b1, 2);
    var (b3, m3) := Drain(b2, 3);
    assert DrainFrom(b3, 4) == (b3, []);
    assert DrainFrom(b2, 3).1 == Echoes(m3, 3);
    assert DrainFrom(b1, 2).1 == Echoes(m2, 2) + Echoes(m3, 3);
  }

  /** Emitting adds only fresh copies of the given messages. */
  lemma {:induction false} EmitAllAdds(b: Bus, ms: seq<Message>)
    requires ValidBus(b)
    ensures var b' := EmitAll(b, ms);
            && ValidBus(b') && b'.sensors == b.sensors && b'.next == b.next + |ms|
            && (forall e :: e in b'.queue ==> e in b.queue || (e.id >= b.next && e.msg in ms))
    decreases |ms|
  {
    if ms != [] {
      EmitAdds(b, ms[0]);
      EmitKeeps(b, ms[0]);
      hide Emit, ValidBus;
      EmitAllAdds(Emit(b, ms[0]), ms[1..]);
    }
  }

  lemma {:induction false} EmitAdds(b: Bus, m: Message)
    ensures Emit(b, m).sensors == b.sensors && Emit(b, m).next == b.next + 1
    ensures forall e :: e in Emit(b, m).queue ==> e in b.queue || (e.id == b.next && e.msg == m)
  {
  }

  /** One reflect round: nothing deliverable from before is left, and what is
      deliverable now are fresh broadcasts of strictly smaller energy. */
  lemma {:induction false} RoundWeakens(b: Bus, limit: nat)
    requires KernelBus(b) && EnergyAtMost(b.queue, limit)
    ensures KernelBus(Round(b))
    ensures forall e :: e in Round(b).queue && Deliverable(e) ==>
              e.id >= b.next && e.msg.target == BROADCAST && 0 < e.msg.energy < limit
  {
    DrainedAll(b, limit);
    var (b', ms) := DrainFrom(b, FIRST_SENSOR);
    EmitAllAdds(b', Kept(ms));
  }

  /** The cascade ends: with E the largest deliverable energy, nothing deliverable
      is left after max(1, E) rounds, in spite of the threefold fan-out. */
  lemma {:induction false} CascadeDies(b: Bus, limit: nat, n: nat)
    requires KernelBus(b) && EnergyAtMost(b.queue, limit) && n >= 1
    ensures KernelBus(Rounds(b, n))
    ensures EnergyAtMost(Rounds(b, n).queue, if n < limit then limit - n else 0)
    ensures n >= limit ==> forall e :: e in Rounds(b, n).queue ==> !Deliverable(e)
  {
    hide Round, KernelBus, EnergyAtMost, Deliverable;
    if n == 1 {
      assert Rounds(b, 0) == b;
      RoundLimits(b, limit);
    } else {
      CascadeDies(b, limit, n - 1);
      RoundLimits(Rounds(b, n - 1), if n - 1 < limit then limit - (n - 1) else 0);
    }
  }

  lemma {:induction false} RoundLimits(b: Bus, limit: nat)
    requires KernelBus(b) && EnergyAtMost(b.queue, limit)
    ensures KernelBus(Round(b)) && EnergyAtMost(Round(b).queue, if limit > 0 then limit - 1 else 0)
    ensures limit <= 1 ==> forall e :: e in Round(b).queue ==> !Deliverable(e)
  {
    hide Round, KernelBus;
    RoundWeakens(b, limit);
  }

  // ----- the bound is attained -----

  /** The strongest entry is an unread broadcast of this energy with text in it,
      and everything queued is an unread broadcast no stronger than it. */
  ghost predicate Live(b: Bus, energy: nat) {
    && KernelBus(b) && b.queue != []
    && b.queue[0].msg.energy == energy
    && b.queue[0].msg.payload != [] && b.queue[0].msg.payload[0] != 0
    && (forall e :: e in b.queue ==> e.msg.target == BROADCAST && e.seen == {})
  }

  lemma {:induction false} EmitAllKeepsHead(b: Bus, ms: seq<Message>, head: Entry)
    requires ValidBus(b) && b.queue != [] && b.queue[0] == head
    requires forall m :: m in ms ==> m.energy <= head.msg.energy && m.target == BROADCAST
    requires forall e :: e in b.queue ==> e.msg.target == BROADCAST && e.seen == {}
    ensures var b' := EmitAll(b, ms);
            && b'.queue != [] && b'.queue[0] == head
            && forall e :: e in b'.queue ==> e.msg.target == BROADCAST && e.seen == {}
    decreases |ms|
  {
    if ms != [] {
      EmitKeeps(b, ms[0]);
      EmitAllKeepsHead(Emit(b, ms[0]), ms[1..], head);
    }
  }

  lemma {:induction false} LiveLimits(b: Bus, energy: nat)
    requires Live(b, energy)
    ensures KernelBus(b) && EnergyAtMost(b.queue, energy)
  {
    forall e | e in b.queue ensures e.msg.energy <= energy {
      var i :| 0 <= i < |b.queue| && b.queue[i] == e;
      assert i == 0 || Beats(b.queue[0], b.queue[i]);
    }
  }

  /** The strongest entry is drained first, so its echo is remembered first. */
  lemma {:induction false} FirstEcho(b: Bus, energy: nat)
    requires Live(b, energy) && energy > 1
    ensures var ms := DrainFrom(b, FIRST_SENSOR).1;
      ms != [] && Some(ms[0]) == EchoOf(b.queue[0].msg, 1)
  {
    ThreeDrains(b);
    DrainDelivers(b, 1);
    assert Eligible(b.queue[0], 1, IndexOf(b.sensors, 1));
    hide Drain, DrainFrom, ValidBus;
    assert Waiting(b, 1)[0] == b.queue[0];
    assert Echoes(Drain(b, 1).1, 1)[0] == EchoOf(b.queue[0].msg, 1).value;
  }

  /** What a live bus is drained into: nothing stays, and the first echo has text
      and the greatest energy. */
  lemma {:induction false} LiveEchoes(b: Bus, energy: nat)
    requires Live(b, energy) && energy > 1
    ensures var (b', ms) := DrainFrom(b, FIRST_SENSOR);
      && ValidBus(b') && b'.queue == [] && ms != []
      && ms[0].energy == energy - 1 && ms[0].payload != [] && ms[0].payload[0] != 0
      && forall m :: m in Kept(ms) ==> m.energy <= energy - 1 && m.target == BROADCAST
  {
    LiveLimits(b, energy);
    DrainedAll(b, energy);
    EmptyAfter(b, energy);
    FirstEcho(b, energy);
    EchoHasText(b.queue[0].msg, 1);
    hide DrainFrom, EchoOf, ValidBus, EnergyAtMost, Deliverable;
    var ms := DrainFrom(b, FIRST_SENSOR).1;
    forall m | m in Kept(ms) ensures m in ms {}
  }

  lemma {:induction false} LiveRound(b: Bus, energy: nat)
    requires Live(b, energy) && energy > 1
    ensures Live(Round(b), energy - 1)
  {
    LiveLimits(b, energy);
    hide KernelBus, EnergyAtMost, DrainFrom, ValidBus;
    RoundWeakens(b, energy);
    LiveEchoes(b, energy);
    EmitOnEmpty(DrainFrom(b, FIRST_SENSOR).0, Kept(DrainFrom(b, FIRST_SENSOR).1));
  }

  lemma {:induction false} EchoHasText(m: Message, sensor: int)
    requires m.payload != [] && m.payload[0] != 0 && m.energy > 1
    ensures var echo := EchoOf(m, sensor);
      && echo.Some? && echo.value.energy == m.energy - 1
      && echo.value.payload != [] && echo.value.payload[0] != 0
  {
  }

  /** The first of some broadcasts emitted to an empty queue stays at its head when
      none of the others is stronger. */
  lemma {:induction false} EmitOnEmpty(b: Bus, ms: seq<Message>)
    requires ValidBus(b) && b.queue == [] && ms != []
    requires forall m :: m in ms ==> m.energy <= ms[0].energy && m.target == BROADCAST
    ensures var b' := EmitAll(b, ms);
      && b'.queue != [] && b'.queue[0].msg == ms[0]
      && forall e :: e in b'.queue ==> e.msg.target == BROADCAST && e.seen == {}
  {
    EmitKeeps(b, ms[0]);
    var head := Entry(ms[0], b.next, {});
    assert Emit(b, ms[0]).queue == [head];
    hide Emit, ValidBus;
    EmitAllKeepsHead(Emit(b, ms[0]), ms[1..], head);
  }

  lemma {:induction false} EmptyAfter(b: Bus, limit: nat)
    requires KernelBus(b) && EnergyAtMost(b.queue, limit)
    requires forall e :: e in b.queue ==> e.msg.target == BROADCAST
    ensures DrainFrom(b, FIRST_SENSOR).0.queue == []
    ensures DrainFrom(b, FIRST_SENSOR).0.sensors == b.sensors
  {
    ThreeDrains(b);
    DrainedAll(b, limit);
    var b1, b2 := Drain(b, 1).0, Drain(Drain(b, 1).0, 2).0;
    var b3 := Drain(b2, 3).0;
    DrainEmpties(b, 1);  DrainEmpties(b1, 2);  DrainEmpties(b2, 3);
    RemainsTransitive(b2.queue, b1.queue, b.queue);
    RemainsTransitive(b3.queue, b2.queue, b.queue);
    if b3.queue != [] { assert Deliverable(b3.queue[0]); }
  }

  /** An unread text broadcast of energy E at the head of a kernel bus that holds
      nothing but unread broadcasts keeps the cascade going for E - 1 rounds: the
      bound of CascadeDies is exact. */
  lemma {:induction false} CascadeLasts(b: Bus, energy: nat, n: nat)
    requires Live(b, energy) && n < energy
    ensures Live(Rounds(b, n), energy - n)
  {
    hide Live, Round;
    if n > 0 {
      CascadeLasts(b, energy, n - 1);
      var before := Rounds(b, n - 1);
      LiveRound(before, energy - (n - 1));
      assert Rounds(b, n) == Round(before);
    }
  }
}
