/** Who is registered and who is served, over whole runs of the bus: told from the
    operations, the messages sent and the deliveries made. */
module BusDelivery {
  import opened Options
  import opened BusModel
  import opened BusRuns

  // ----- the registry -----

  /** The sensor an operation speaks for; an emit speaks for none. */
  function Asker(op: Op): int {
    match op
    case RegisterOp(sensor) => sensor
    case ListenOp(sensor) => sensor
    case EmitOp(_) => 0
  }

  /** Operation `i` asks for a place in the registry: a registration, or a listen
      while something is queued, by a real sensor. */
  ghost predicate Asks(ops: seq<Op>, i: nat)
    requires i < |ops|
  {
    && Asker(ops[i]) != 0 && Asker(ops[i]) != -1
    && (ops[i].ListenOp? ==> Run(ops[..i]).bus.queue != [])
  }

  ghost function Asked(ops: seq<Op>): set<int> {
    set i | 0 <= i < |ops| && Asks(ops, i) :: Asker(ops[i])
  }

  ghost function Members(s: seq<int>): set<int> {
    set k | k in s
  }

  lemma {:induction false} MembersCount(s: seq<int>)
    requires forall i, j :: 0 <= i < j < |s| ==> s[i] != s[j]
    ensures |Members(s)| == |s|
  {
    if s != [] {
      var n := |s| - 1;
      MembersCount(s[..n]);
      assert Members(s) == Members(s[..n]) + {s[n]};
    }
  }

  lemma {:induction false} AskedGrows(ops: seq<Op>)
    requires ops != []
    ensures var n := |ops| - 1;
      Asked(ops) == Asked(ops[..n]) + if Asks(ops, n) then {Asker(ops[n])} else {}
  {
    var n := |ops| - 1;
    hide Run;
    forall i | 0 <= i < n ensures Asks(ops[..n], i) <==> Asks(ops, i) {
      assert ops[..n][..i] == ops[..i];
    }
    forall k | k in Asked(ops) ensures k in Asked(ops[..n]) + if Asks(ops, n) then {Asker(ops[n])} else {} {
      var i :| 0 <= i < |ops| && Asks(ops, i) && Asker(ops[i]) == k;
      if i < n { assert ops[..n][i] == ops[i]; }
    }
    forall k | k in Asked(ops[..n]) ensures k in Asked(ops) {
      var i :| 0 <= i < n && Asks(ops[..n], i) && Asker(ops[..n][i]) == k;
      assert Asks(ops, i) && Asker(ops[i]) == k;
    }
  }

  /** Only an asking operation changes the registry, by its own sensor. */
  lemma {:induction false} StepSensors(w: World, op: Op)
    requires Inv(w)
    ensures var s, s', k := w.bus.sensors, Step(w, op).bus.sensors, Asker(op);
      if k != 0 && k != -1 && (op.ListenOp? ==> w.bus.queue != []) && k !in s && |s| < 32
      then s' == s + [k]
      else s' == s
  {
    hide FirstEligible, Settle, Ids, Insert, Prefix;
  }

  lemma {:induction false} RegistryStep(ops: seq<Op>)
    ensures var s := Run(ops).bus.sensors;
      && Members(s) <= Asked(ops)
      && (|s| < 32 ==> Members(s) == Asked(ops))
  {
    if ops != [] {
      var n := |ops| - 1;
      RegistryStep(ops[..n]);
      RunInvariant(ops[..n]);
      StepSensors(Run(ops[..n]), ops[n]);
      AskedGrows(ops);
      var s, s' := Run(ops[..n]).bus.sensors, Run(ops).bus.sensors;
      hide Step, Asked, Inv;
      if s' != s { assert Members(s') == Members(s) + {Asker(ops[n])}; }
    }
  }

  /** The registry after any run holds sensors that asked for a place and no others:
      all of them as long as they are at most 32, and else 32 of them. */
  lemma {:induction false} RegistryIs(ops: seq<Op>)
    ensures var s := Run(ops).bus.sensors;
      && (forall k :: k in s ==> k in Asked(ops))
      && (|Asked(ops)| <= 32 ==> forall k :: k in Asked(ops) ==> k in s)
      && |s| == if |Asked(ops)| < 32 then |Asked(ops)| else 32
  {
    var s := Run(ops).bus.sensors;
    RegistryStep(ops);
    RunInvariant(ops);
    assert ValidSensors(s);
    hide Run, Inv, Asked;
    MembersCount(s);
    assert forall k :: k in s <==> k in Members(s);
    if |s| == 32 {
      SubsetCount(Members(s), Asked(ops));
    }
  }

  lemma {:induction false} SubsetCount(a: set<int>, b: set<int>)
    requires a <= b
    ensures |a| <= |b| && (|a| == |b| ==> a == b)
  {
    assert b == a + (b - a);
    assert |b| == |a| + |b - a|;
  }

  // ----- deliveries -----

  /** Copy `id` is queued and not yet given to sensor `k`, to whom or to all of whom
      it is addressed. */
  ghost predicate Due(w: World, k: int, id: nat) {
    && id < |w.sent| && id in Ids(w.bus.queue)
    && (w.sent[id].target == k || (w.sent[id].target == -1 && Delivery(id, k) !in w.log))
  }

  /** The order of service: more energy, or the same energy and sent earlier. */
  predicate Precedes(sent: seq<Message>, a: nat, b: nat)
    requires a < |sent| && b < |sent|
  {
    sent[a].energy > sent[b].energy || (sent[a].energy == sent[b].energy && a < b)
  }

  /** What the scan may hand out is what is due. */
  lemma {:induction false} EligibleIsDue(w: World, k: int, e: Entry)
    requires Inv(w) && e in w.bus.queue && k != -1 && k in Register(w.bus, k).sensors
    ensures Eligible(e, k, IndexOf(Register(w.bus, k).sensors, k)) <==> Due(w, k, e.id)
  {
    var s := w.bus.sensors;
    assert ExactMarks(e, s, w.log) && ValidMarks(e, |s|) && ValidSensors(s);
    assert w.sent[e.id] == e.msg;
    assert e.id in Ids(w.bus.queue);
  }

  /** What a listen hands out, and what it writes to the log. */
  lemma {:induction false} ListenHands(w: World, k: int)
    ensures var q, out, log := w.bus.queue, Listen(w.bus, k).1, Step(w, ListenOp(k)).log;
      var n := FirstEligible(q, k, IndexOf(Register(w.bus, k).sensors, k));
      && (n < |q| ==> out == Some(q[n]) && log == w.log + [Delivery(q[n].id, k)])
      && (n == |q| ==> out.None? && log == w.log)
  {
    hide Settle, Ids;
  }

  /** The queue as a reader of the run sees it. */
  lemma {:induction false} QueueFacts(w: World)
    requires Inv(w)
    ensures var q := w.bus.queue;
      && (forall i :: 0 <= i < |q| ==> q[i].id < |w.sent| && q[i].msg == w.sent[q[i].id])
      && (forall i, j :: 0 <= i < j < |q| ==> Precedes(w.sent, q[i].id, q[j].id))
  {
    var q := w.bus.queue;
    forall i, j | 0 <= i < j < |q| ensures Precedes(w.sent, q[i].id, q[j].id) {
      assert Beats(q[i], q[j]);
    }
  }

  /** A listen by a sensor with a place in the registry hands out the first of the
      copies due to it, and nothing only if nothing is due. */
  lemma {:induction false} ServesDue(w: World, k: int)
    requires Inv(w) && k != -1 && k in Register(w.bus, k).sensors
    ensures var out, w' := Listen(w.bus, k).1, Step(w, ListenOp(k));
      if exists id: nat :: Due(w, k, id)
      then out.Some? && Due(w, k, out.value.id) && out.value.msg == w.sent[out.value.id]
           && w'.log == w.log + [Delivery(out.value.id, k)]
           && forall id: nat :: Due(w, k, id) && id != out.value.id ==> Precedes(w.sent, out.value.id, id)
      else out.None? && w'.log == w.log
  {
    var q, index := w.bus.queue, IndexOf(Register(w.bus, k).sensors, k);
    var n := FirstEligible(q, k, index);
    ListenHands(w, k);
    QueueFacts(w);
    forall i | 0 <= i < |q| ensures Eligible(q[i], k, index) <==> Due(w, k, q[i].id) {
      EligibleIsDue(w, k, q[i]);
    }
    hide Inv, Listen, Step, Register, Eligible, Precedes;
    forall id: nat | Due(w, k, id) ensures n < |q| && (id == q[n].id || Precedes(w.sent, q[n].id, id)) {
      var i :| 0 <= i < |q| && q[i].id == id;
      assert Eligible(q[i], k, index);
      assert i >= n;
    }
    hide Due, FirstEligible;
  }

  /** Nothing is withheld: as long as at most 32 sensors ask for a place, a listen by
      any real sensor hands out the strongest, earliest copy that is addressed to it,
      or is a broadcast it has not had, and comes back empty only if there is none. */
  lemma {:induction false} NothingIsWithheld(ops: seq<Op>, k: int)
    requires k != 0 && k != -1 && |Asked(ops + [ListenOp(k)])| <= 32
    ensures var w, w', out := Run(ops), Run(ops + [ListenOp(k)]), Listen(Run(ops).bus, k).1;
      if exists id: nat :: Due(w, k, id)
      then out.Some? && Due(w, k, out.value.id) && out.value.msg == w.sent[out.value.id]
           && w'.log == w.log + [Delivery(out.value.id, k)]
           && forall id: nat :: Due(w, k, id) && id != out.value.id ==> Precedes(w.sent, out.value.id, id)
      else out.None? && w'.log == w.log
  {
    var w, all := Run(ops), ops + [ListenOp(k)];
    assert all[..|all| - 1] == ops;
    RunInvariant(ops);
    if w.bus.queue == [] {
      assert Ids(w.bus.queue) == {};
    } else {
      assert Asks(all, |ops|) && Asker(all[|ops|]) == k;
      RegistryIs(all);
      ListenSensors(w, k);
      hide Inv, Asked, Listen, Step, Register;
      ServesDue(w, k);
    }
  }

  lemma {:induction false} ListenSensors(w: World, k: int)
    requires w.bus.queue != []
    ensures Step(w, ListenOp(k)).bus.sensors == Register(w.bus, k).sensors
  {
    hide FirstEligible, Settle, Ids;
  }

  // ----- emits -----

  /** An emit in any state the bus can reach: the newcomer joins the queue; from the
      33rd copy on the one that precedes no other is dropped. */
  lemma {:induction false} WeakestIsDropped(ops: seq<Op>, m: Message)
    ensures var b, b' := Run(ops).bus, Run(ops + [EmitOp(m)]).bus;
      var all := b.queue + [Entry(m, |Run(ops).sent|, {})];
      && b'.sensors == b.sensors
      && |b'.queue| == (if |all| < 32 then |all| else 32)
      && (forall e :: e in b'.queue ==> e in all) && (|all| <= 32 ==> forall e :: e in all ==> e in b'.queue)
      && (forall e, f :: e in all && e !in b'.queue && f in b'.queue ==> Beats(f, e))
  {
    assert (ops + [EmitOp(m)])[..|ops|] == ops;
    RunInvariant(ops);
    var b := Run(ops).bus;
    hide Run, Inv;
    DropsLast(b, m);
  }

  lemma {:induction false} DropsLast(b: Bus, m: Message)
    requires ValidBus(b)
    ensures var q, all := Emit(b, m).queue, b.queue + [Entry(m, b.next, {})];
      && |q| == (if |all| < 32 then |all| else 32)
      && (forall e :: e in q ==> e in all) && (|all| <= 32 ==> forall e :: e in all ==> e in q)
      && (forall e, f :: e in all && e !in q && f in q ==> Beats(f, e))
  {
    var e := Entry(m, b.next, {});
    var r, n := Insert(b.queue, e), Slot(b.queue, m.energy);
    InsertOrdered(b.queue, e);
    forall x | x in b.queue + [e] ensures x in r {
      if x in b.queue {
        var i :| 0 <= i < |b.queue| && b.queue[i] == x;
        assert r[if i < n then i else i + 1] == x;
      } else {
        assert r[n] == e;
      }
    }
  }
}
