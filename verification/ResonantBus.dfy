/** The bus as the program keeps it: parallel fixed arrays of messages and
    delivery masks, shifted, swapped and overwritten in place. A mask is the set
    of its one-bits. Every method is proved to do to the abstract bus `model` what
    BusModel says. */
module ResonantBus {
  import opened Options
  import opened BusModel

  /** Inserting into a full queue and cutting it back to 32, slot by slot. */
  lemma {:induction false} FullInsert(q: seq<Entry>, e: Entry)
    requires |q| == CAPACITY
    ensures var r, n := Prefix(Insert(q, e)), Slot(q, e.msg.energy);
            && |r| == CAPACITY
            && (forall i :: 0 <= i < CAPACITY && i < n ==> r[i] == q[i])
            && (n < CAPACITY ==> r[n] == e)
            && (forall i :: n <= i < CAPACITY - 1 ==> r[i + 1] == q[i])
  {
  }

  /** Searching the place from the weak end finds the same place. */
  lemma {:induction false} SlotFromEnd(q: seq<Entry>, energy: nat, last: nat)
    requires Ordered(q) && Slot(q, energy) <= last <= |q|
    requires last == 0 || q[last - 1].msg.energy >= energy
    ensures last == Slot(q, energy)
  {
    assert forall i :: 0 <= i < last - 1 ==> Beats(q[i], q[last - 1]);
  }

  class ResonantBus {
    const queue: array<Message>
    const masks: array<set<nat>>
    const registry: array<int>
    var count: nat
    var sensorCount: nat
    ghost var model: Bus

    ghost predicate Shape()
      reads this, queue, masks, registry
    {
      && queue.Length == masks.Length == registry.Length == CAPACITY
      && queue as object != masks && queue as object != registry && masks as object != registry
      && count <= CAPACITY && sensorCount <= CAPACITY
      && model.sensors == registry[..sensorCount]
    }

    ghost predicate Valid()
      reads this, queue, masks, registry
    {
      && Shape()
      && ValidBus(model)
      && Stores(model.queue)
    }

    /** The used part of the arrays is the queue `q`. */
    ghost predicate Stores(q: seq<Entry>)
      reads this, queue, masks
    {
      && queue.Length == masks.Length == CAPACITY && queue as object != masks
      && count == |q| <= CAPACITY
      && (forall i :: 0 <= i < |q| ==> Holds(i, q[i]))
    }

    /** Slot `i` of the arrays stores entry `e`. */
    ghost predicate Holds(i: nat, e: Entry)
      requires i < queue.Length == masks.Length
      reads queue, masks
    {
      queue[i] == e.msg && masks[i] == e.seen
    }

    constructor ()
      ensures Valid() && model == EMPTY && fresh(queue) && fresh(masks) && fresh(registry)
    {
      queue := new Message[CAPACITY](_ => Message(0, 0, 0, []));
      masks := new set<nat>[CAPACITY](_ => {});
      registry := new int[CAPACITY](_ => 0);
      count, sensorCount := 0, 0;
      model := EMPTY;
    }

    method FindSensor(sensor: int) returns (index: int)
      requires Valid()
      ensures index == IndexOf(model.sensors, sensor)
    {
      if sensor == BROADCAST {
        return -1;
      }
      index := 0;
      while index < sensorCount
        invariant 0 <= index <= sensorCount
        invariant forall j :: 0 <= j < index ==> model.sensors[j] != sensor
      {
        if registry[index] == sensor {
          return;
        }
        index := index + 1;
      }
      return -1;
    }

    method RegisterSensor(sensor: int)
      requires Valid()
      modifies this`sensorCount, this`model, registry
      ensures Valid() && model == Register(old(model), sensor)
    {
      RegisterKeeps(model, sensor);
      if sensor == BROADCAST || sensor == 0 {
        return;
      }
      var known := FindSensor(sensor);
      if known >= 0 || sensorCount >= CAPACITY {
        return;
      }
      registry[sensorCount] := sensor;
      sensorCount := sensorCount + 1;
      model := Register(model, sensor);
    }

    method ShiftRightFrom(index: nat)
      requires queue.Length == masks.Length == CAPACITY && queue as object != masks
      requires index <= count < CAPACITY
      modifies queue, masks
      ensures forall i :: 0 <= i < index ==> queue[i] == old(queue[i]) && masks[i] == old(masks[i])
      ensures forall i :: index <= i < count ==> queue[i + 1] == old(queue[i]) && masks[i + 1] == old(masks[i])
    {
      var i := count;
      while i > index
        invariant index <= i <= count
        invariant forall j :: 0 <= j <= i && j < count ==> queue[j] == old(queue[j]) && masks[j] == old(masks[j])
        invariant forall j :: i <= j < count ==> queue[j + 1] == old(queue[j]) && masks[j + 1] == old(masks[j])
      {
        queue[i] := queue[i - 1];
        masks[i] := masks[i - 1];
        i := i - 1;
      }
    }

    method ShiftLeftFrom(index: nat)
      requires queue.Length == masks.Length == CAPACITY && queue as object != masks
      requires index < count <= CAPACITY
      modifies queue, masks
      ensures forall i :: 0 <= i < index ==> queue[i] == old(queue[i]) && masks[i] == old(masks[i])
      ensures forall i :: index <= i < count - 1 ==> queue[i] == old(queue[i + 1]) && masks[i] == old(masks[i + 1])
    {
      var i := index;
      while i + 1 < count
        invariant index <= i < count
        invariant forall j :: 0 <= j < index ==> queue[j] == old(queue[j]) && masks[j] == old(masks[j])
        invariant forall j :: index <= j < i ==> queue[j] == old(queue[j + 1]) && masks[j] == old(masks[j + 1])
        invariant forall j :: i <= j < count ==> queue[j] == old(queue[j]) && masks[j] == old(masks[j])
      {
        queue[i] := queue[i + 1];
        masks[i] := masks[i + 1];
        i := i + 1;
      }
    }

    method Emit(m: Message)
      requires Valid()
      modifies this`count, this`model, queue, masks
      ensures Valid() && model == BusModel.Emit(old(model), m)
    {
      EmitKeeps(model, m);
      ghost var e := Entry(m, model.next, {});
      if count == CAPACITY {
        EmitFull(m, model.queue, e);
      } else {
        EmitInto(m, model.queue, e);
      }
      model := BusModel.Emit(model, m);
    }

    method EmitInto(m: Message, ghost q: seq<Entry>, ghost e: Entry)
      requires Stores(q) && count < CAPACITY && e.msg == m && e.seen == {}
      modifies this`count, queue, masks
      ensures Stores(Insert(q, e))
    {
      var index := 0;
      while index < count && queue[index].energy >= m.energy
        invariant 0 <= index <= count
        invariant forall i :: 0 <= i < index ==> q[i].msg.energy >= m.energy
      {
        assert Holds(index, q[index]);
        index := index + 1;
      }
      assert index < count ==> Holds(index, q[index]);
      assert index == Slot(q, m.energy);
      ShiftRightFrom(index);
      queue[index] := m;
      masks[index] := {};
      count := count + 1;
      forall i | 0 <= i < count ensures Holds(i, Insert(q, e)[i]) {
        if i != index { assert old(Holds(if i < index then i else i - 1, q[if i < index then i else i - 1])); }
      }
    }

    /** The full-queue branch: overwrite the weakest, then bubble up. */
    method EmitFull(m: Message, ghost q: seq<Entry>, ghost e: Entry)
      requires Stores(q) && count == CAPACITY && Ordered(q) && e.msg == m && e.seen == {}
      modifies queue, masks
      ensures Stores(Prefix(Insert(q, e)))
    {
      FullInsert(q, e);
      var last := count - 1;
      assert Holds(last, q[last]);
      if queue[last].energy >= m.energy {
        return;
      }
      queue[last] := m;
      masks[last] := {};
      BubbleUp(q, e);
      ghost var n, r := Slot(q, m.energy), Prefix(Insert(q, e));
      forall i | 0 <= i < CAPACITY ensures Holds(i, r[i]) {
        if i > n { assert Holds(i - 1 + 1, q[i - 1]); }
      }
    }

    method BubbleUp(ghost q: seq<Entry>, ghost e: Entry)
      requires queue.Length == masks.Length == CAPACITY == count == |q| && queue as object != masks
      requires Ordered(q) && Bubbling(q, e, CAPACITY - 1) && Slot(q, e.msg.energy) < CAPACITY
      modifies queue, masks
      ensures Bubbling(q, e, Slot(q, e.msg.energy))
    {
      var last := count - 1;
      while last > 0 && queue[last - 1].energy < queue[last].energy
        invariant Slot(q, e.msg.energy) <= last < CAPACITY
        invariant Bubbling(q, e, last)
      {
        assert Holds(last - 1, q[last - 1]);
        SwapUp(last, q, e);
        last := last - 1;
      }
      assert last > 0 ==> Holds(last - 1, q[last - 1]);
      SlotFromEnd(q, e.msg.energy, last);
    }

    /** The newcomer sits at `last`; what it passed has moved down one place. */
    ghost predicate Bubbling(was: seq<Entry>, e: Entry, last: nat)
      requires queue.Length == masks.Length == CAPACITY == |was| && last < CAPACITY
      reads queue, masks
    {
      && Holds(last, e)
      && (forall i :: 0 <= i < last ==> Holds(i, was[i]))
      && (forall i :: last <= i < CAPACITY - 1 ==> Holds(i + 1, was[i]))
    }

    method SwapUp(last: nat, ghost was: seq<Entry>, ghost e: Entry)
      requires queue.Length == masks.Length == CAPACITY == |was| && queue as object != masks
      requires 0 < last < CAPACITY && Bubbling(was, e, last)
      modifies queue, masks
      ensures Bubbling(was, e, last - 1)
    {
      assert Holds(last - 1, was[last - 1]);
      queue[last - 1], queue[last] := queue[last], queue[last - 1];
      masks[last - 1], masks[last] := masks[last], masks[last - 1];
      forall i | last - 1 <= i < CAPACITY - 1 ensures Holds(i + 1, was[i]) {
        assert i != last - 1 ==> old(Holds(i + 1, was[i]));
      }
    }

    method Listen(sensor: int) returns (found: bool, out: Message)
      requires Valid()
      modifies this, queue, masks, registry
      ensures Valid() && model == BusModel.Listen(old(model), sensor).0
      ensures found <==> BusModel.Listen(old(model), sensor).1.Some?
      ensures found ==> out == BusModel.Listen(old(model), sensor).1.value.msg
    {
      found, out := false, Message(0, 0, 0, []);
      if count == 0 {
        return;
      }
      RegisterSensor(sensor);
      ListenKeeps(model, sensor);
      var index := FindSensor(sensor);
      found, out := Deliver(sensor, index, model.queue);
      model := BusModel.Listen(model, sensor).0;
    }

    method Deliver(sensor: int, index: int, ghost q: seq<Entry>) returns (found: bool, out: Message)
      requires Stores(q) && index >= -1
      modifies this`count, queue, masks
      ensures var n := FirstEligible(q, sensor, index);
              if n == |q| then !found && Stores(q)
              else found && out == q[n].msg && Stores(Settle(q, n, sensor, index, sensorCount))
    {
      found, out := false, Message(0, 0, 0, []);
      var i := 0;
      while i < count
        invariant 0 <= i <= count
        invariant forall j :: 0 <= j < i ==> !Eligible(q[j], sensor, index)
      {
        assert Holds(i, q[i]);
        var message := queue[i];
        if message.target == sensor {
          Remove(i, q);
          return true, message;
        }
        if message.target == BROADCAST && index >= 0 && index !in masks[i] {
          masks[i] := masks[i] + {index};
          var all := AllDelivered(masks[i]);
          if all {
            Remove(i, q);
          }
          return true, message;
        }
        i := i + 1;
      }
    }

    /** Closes the gap at `index`; all other slots hold `q`. */
    method Remove(index: nat, ghost q: seq<Entry>)
      requires queue.Length == masks.Length == CAPACITY && queue as object != masks
      requires index < count == |q| <= CAPACITY
      requires forall i :: 0 <= i < count && i != index ==> Holds(i, q[i])
      modifies this`count, queue, masks
      ensures Stores(Without(q, index))
    {
      ShiftLeftFrom(index);
      count := count - 1;
      masks[count] := {};
      forall i | 0 <= i < count ensures Holds(i, Without(q, index)[i]) {
        assert old(Holds(if i < index then i else i + 1, q[if i < index then i else i + 1]));
      }
    }

    method AllDelivered(delivered: set<nat>) returns (all: bool)
      ensures all <==> AllSeen(delivered, sensorCount)
    {
      var j := 0;
      while j < sensorCount
        invariant 0 <= j <= sensorCount
        invariant AllSeen(delivered, j)
      {
        if j !in delivered {
          return false;
        }
        j := j + 1;
      }
      return true;
    }
  }
}
