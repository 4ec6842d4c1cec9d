/**
The RAM tier: a map of blocks beside a wrapping 64-bit byte counter, updated
in separate atomic steps.
*/
module RamTier {
  import opened Wrappers
  import opened Bytes
  import opened Sums

  type Data = seq<Byte>

  datatype Addr = Addr(digest: Digest, layer: TokenId)

  /** A block and the second it was last touched. */
  datatype Slot = Slot(bytes: Data, last: nat)

  type Slots = map<Addr, Slot>

  const Word64: nat := 0x1_0000_0000_0000_0000

  function Wrap(x: int): (r: nat)
    ensures r < Word64
  {
    x % Word64
  }

  ghost function Sizes(slots: Slots): map<Addr, int> { map a | a in slots :: |slots[a].bytes| }

  /** The bytes resident in the map. */
  ghost function Resident(slots: Slots): (n: int)
    ensures n >= 0
  {
    SumNonNegative(Sizes(slots));
    Sum(Sizes(slots))
  }

  function SizeAt(slots: Slots, a: Addr): nat { if a in slots then |slots[a].bytes| else 0 }

  lemma {:induction false} ResidentPut(slots: Slots, a: Addr, slot: Slot)
    ensures Resident(slots[a := slot]) == Resident(slots) + |slot.bytes| - SizeAt(slots, a)
  {
    assert Sizes(slots[a := slot]) == Sizes(slots)[a := |slot.bytes|];
    SumUpdate(Sizes(slots), a, |slot.bytes|);
  }

  lemma {:induction false} ResidentRemove(slots: Slots, a: Addr)
    ensures Resident(slots - {a}) == Resident(slots) - SizeAt(slots, a)
  {
    assert Sizes(slots - {a}) == Sizes(slots) - {a};
    if a in slots {
      SumRemove(Sizes(slots), a);
    } else {
      assert slots - {a} == slots;
    }
  }

  lemma {:induction false} WrapShift(x: int, y: int, d: int)
    requires Wrap(x) == Wrap(y)
    ensures Wrap(x + d) == Wrap(y + d)
  {
    var q := (x - y) / Word64;
    assert x - y == Word64 * q + (x - y) % Word64;
    assert (x - y) % Word64 == 0 by {
      assert x == Word64 * (x / Word64) + Wrap(x) && y == Word64 * (y / Word64) + Wrap(x);
      Multiple(x / Word64 - y / Word64);
    }
    Shifted(y + d, q);
  }

  lemma {:induction false} Multiple(k: int)
    ensures (Word64 * k) % Word64 == 0
  {
  }

  lemma {:induction false} Shifted(x: int, k: int)
    ensures (x + Word64 * k) % Word64 == x % Word64
  {
  }

  // ---------------------------------------------------------------------
  // Any interleaving of the steps of puts and evicts
  // ---------------------------------------------------------------------

  type OpId = nat

  /** What an operation that already changed the map still owes the counter. */
  datatype Debt = Debt(add: nat, sub: nat)

  datatype Tier = Tier(slots: Slots, used: nat, owed: map<OpId, Debt>)

  datatype Step =
    | PutMap(op: OpId, addr: Addr, bytes: Data, now: nat)
    | EvictMap(op: OpId, addr: Addr)
    | AddUsed(op: OpId)
    | SubUsed(op: OpId)
    | Touch(addr: Addr, now: nat)

  /** A put adds before it subtracts, and only subtracts what it replaced. */
  predicate Enabled(t: Tier, e: Step) {
    match e
    case PutMap(op, _, _, _) => op !in t.owed
    case EvictMap(op, _) => op !in t.owed
    case AddUsed(op) => op in t.owed && t.owed[op].add > 0
    case SubUsed(op) => op in t.owed && t.owed[op].add == 0
    case Touch(_, _) => true
  }

  function Next(t: Tier, e: Step): Tier
    requires Enabled(t, e)
  {
    match e
    case PutMap(op, addr, bytes, now) =>
      Tier(t.slots[addr := Slot(bytes, now)], t.used, t.owed[op := Debt(|bytes|, SizeAt(t.slots, addr))])
    case EvictMap(op, addr) =>
      Tier(t.slots - {addr}, t.used, t.owed[op := Debt(0, SizeAt(t.slots, addr))])
    case AddUsed(op) =>
      t.(used := Wrap(t.used + t.owed[op].add), owed := t.owed[op := Debt(0, t.owed[op].sub)])
    case SubUsed(op) =>
      t.(used := Wrap(t.used - t.owed[op].sub), owed := t.owed - {op})
    case Touch(addr, now) =>
      if addr in t.slots then t.(slots := t.slots[addr := t.slots[addr].(last := now)]) else t
  }

  ghost function Net(owed: map<OpId, Debt>): map<OpId, int> { map op | op in owed :: owed[op].sub - owed[op].add }

  /** The counter is the resident bytes less the additions still owed plus the
      subtractions still owed, modulo 2^64. */
  ghost predicate Congruent(t: Tier) {
    t.used == Wrap(Resident(t.slots) + Sum(Net(t.owed)))
  }

  function Owes(d: Debt): int { d.sub - d.add }

  lemma {:induction false} NetPut(owed: map<OpId, Debt>, op: OpId, d: Debt)
    ensures Sum(Net(owed[op := d])) == Sum(Net(owed)) - (if op in owed then Owes(owed[op]) else 0) + Owes(d)
  {
    assert Net(owed[op := d]) == Net(owed)[op := Owes(d)];
    SumUpdate(Net(owed), op, Owes(d));
  }

  lemma {:induction false} NetRemove(owed: map<OpId, Debt>, op: OpId)
    requires op in owed
    ensures Sum(Net(owed - {op})) == Sum(Net(owed)) - Owes(owed[op])
  {
    assert Net(owed - {op}) == Net(owed) - {op};
    SumRemove(Net(owed), op);
  }

  lemma {:induction false} PutStep(t: Tier, op: OpId, a: Addr, bytes: Data, now: nat)
    requires Congruent(t) && op !in t.owed
    ensures Congruent(Next(t, PutMap(op, a, bytes, now)))
  {
    hide Sum, Net, Resident, Wrap, Congruent, SizeAt;
    ResidentPut(t.slots, a, Slot(bytes, now));
    NetPut(t.owed, op, Debt(|bytes|, SizeAt(t.slots, a)));
    Balanced(t, Next(t, PutMap(op, a, bytes, now)), 0);
  }

  lemma {:induction false} EvictStep(t: Tier, op: OpId, a: Addr)
    requires Congruent(t) && op !in t.owed
    ensures Congruent(Next(t, EvictMap(op, a)))
  {
    hide Sum, Net, Resident, Wrap, Congruent, SizeAt;
    ResidentRemove(t.slots, a);
    NetPut(t.owed, op, Debt(0, SizeAt(t.slots, a)));
    Balanced(t, Next(t, EvictMap(op, a)), 0);
  }

  lemma {:induction false} TouchStep(t: Tier, a: Addr, now: nat)
    requires Congruent(t)
    ensures Congruent(Next(t, Touch(a, now)))
  {
    hide Sum, Net, Resident, Wrap, Congruent;
    if a in t.slots {
      ResidentPut(t.slots, a, t.slots[a].(last := now));
    }
    Balanced(t, Next(t, Touch(a, now)), 0);
  }

  lemma {:induction false} CounterStep(t: Tier, e: Step)
    requires Congruent(t) && Enabled(t, e) && (e.AddUsed? || e.SubUsed?)
    ensures Congruent(Next(t, e))
  {
    hide Sum, Net, Resident, Wrap, Congruent;
    var d := t.owed[e.op];
    if e.AddUsed? {
      NetPut(t.owed, e.op, Debt(0, d.sub));
      Balanced(t, Next(t, e), d.add);
    } else {
      NetRemove(t.owed, e.op);
      Balanced(t, Next(t, e), 0 - d.sub);
    }
  }

  lemma {:induction false} StepCongruent(t: Tier, e: Step)
    requires Congruent(t) && Enabled(t, e)
    ensures Congruent(Next(t, e))
  {
    hide Congruent, Next;
    match e
    case PutMap(op, a, bytes, now) => PutStep(t, op, a, bytes, now);
    case EvictMap(op, a) => EvictStep(t, op, a);
    case Touch(a, now) => TouchStep(t, a, now);
    case _ => CounterStep(t, e);
  }

  /** The counter moved as much as what it should count. */
  lemma {:induction false} Balanced(t: Tier, t': Tier, d: int)
    requires Congruent(t) && (t'.used == Wrap(t.used + d) || (d == 0 && t'.used == t.used))
    requires Resident(t'.slots) + Sum(Net(t'.owed)) == Resident(t.slots) + Sum(Net(t.owed)) + d
    ensures Congruent(t')
  {
    hide Sum, Net, Resident, Wrap;
    Moved(t.used, Resident(t.slots) + Sum(Net(t.owed)), d);
  }

  lemma {:induction false} Moved(used: nat, x: int, d: int)
    requires used == Wrap(x)
    ensures Wrap(used + d) == Wrap(x + d)
  {
    assert Wrap(used) == Wrap(x);
    WrapShift(used, x, d);
  }

  ghost predicate Reaches(t: Tier, steps: seq<Step>, t': Tier)
    decreases |steps|
  {
    if steps == [] then t' == t
    else Enabled(t, steps[0]) && Reaches(Next(t, steps[0]), steps[1..], t')
  }

  lemma {:induction false} RunCongruent(t: Tier, steps: seq<Step>, t': Tier)
    requires Congruent(t) && Reaches(t, steps, t')
    ensures Congruent(t')
    decreases |steps|
  {
    hide Congruent;
    if steps != [] {
      StepCongruent(t, steps[0]);
      RunCongruent(Next(t, steps[0]), steps[1..], t');
    }
  }

  /** However puts and evicts interleave, once none is in flight the counter
      is exactly the resident bytes. */
  lemma {:induction false} QuietCounterIsExact(steps: seq<Step>, t: Tier)
    requires Reaches(Tier(map[], 0, map[]), steps, t) && t.owed == map[]
    ensures t.used == Resident(t.slots) % Word64
    ensures Resident(t.slots) < Word64 ==> t.used == Resident(t.slots)
  {
    var none: Slots, free: map<OpId, Debt> := map[], map[];
    assert Sizes(none) == map[] && Net(free) == map[];
    RunCongruent(Tier(none, 0, free), steps, t);
    assert Net(t.owed) == map[];
  }

  // ---------------------------------------------------------------------
  // The tier as one caller uses it
  // ---------------------------------------------------------------------

  class Ram {
    var slots: Slots
    var used: nat
    const capacity: nat

    ghost predicate Exact()
      reads this
    {
      used == Wrap(Resident(slots))
    }

    constructor (capacity: nat)
      ensures slots == map[] && Exact() && this.capacity == capacity
    {
      slots, used, this.capacity := map[], 0, capacity;
      assert Sizes(map[]) == map[];
    }

    method Put(addr: Addr, bytes: Data, now: nat) returns (replaced: bool)
      requires Exact()
      modifies this
      ensures slots == old(slots)[addr := Slot(bytes, now)] && Exact()
      ensures replaced <==> addr in old(slots)
    {
      hide Wrap, Resident;
      ResidentPut(slots, addr, Slot(bytes, now));
      Moved(used, Resident(slots), |bytes|);
      Moved(Wrap(used + |bytes|), Resident(slots) + |bytes|, 0 - SizeAt(slots, addr));
      var prev := if addr in slots then Some(slots[addr]) else None;
      slots := slots[addr := Slot(bytes, now)];
      used := Wrap(used + |bytes|);
      if prev.Some? {
        used := Wrap(used - |prev.value.bytes|);
      }
      replaced := prev.Some?;
    }

    method Evict(addr: Addr)
      requires Exact()
      modifies this
      ensures slots == old(slots) - {addr} && Exact()
    {
      hide Wrap, Resident;
      ResidentRemove(slots, addr);
      Moved(used, Resident(slots), 0 - SizeAt(slots, addr));
      if addr in slots {
        used := Wrap(used - |slots[addr].bytes|);
        slots := slots - {addr};
      } else {
        assert slots - {addr} == slots;
      }
    }

    /** The bytes of a block, touching it. */
    method GetBytes(addr: Addr, now: nat) returns (r: Option<Data>)
      requires Exact()
      modifies this
      ensures r == (if addr in old(slots) then Some(old(slots)[addr].bytes) else None)
      ensures slots == if addr in old(slots) then old(slots)[addr := old(slots)[addr].(last := now)] else old(slots)
      ensures Exact() && used == old(used)
    {
      if addr !in slots {
        return None;
      }
      ResidentPut(slots, addr, slots[addr].(last := now));
      r := Some(slots[addr].bytes);
      slots := slots[addr := slots[addr].(last := now)];
    }
  }
}
