/**
The two-tier block store: RAM over SSD files, with an index of every tracked
block. Run one operation at a time it is a plain map from addresses to bytes.
*/
module TieredStore {
  import opened Wrappers
  import opened Bytes
  import opened RamTier

  /** A file name keeps only the first eight digest bytes and the layer. */
  type Path = (seq<Byte>, TokenId)

  function PathOf(a: Addr): Path { (a.digest[..8], a.layer) }

  datatype TierKind = InRam | OnSsd
  datatype Meta = Meta(model: string, size: nat, lastSeen: nat, tier: TierKind)

  datatype Snap = Snap(slots: Slots, files: map<Path, Data>, index: map<Addr, Meta>)

  /** What a read of `a` finds, RAM before SSD. */
  function Value(s: Snap, a: Addr): Option<Data> {
    if a in s.slots then Some(s.slots[a].bytes)
    else if PathOf(a) in s.files then Some(s.files[PathOf(a)])
    else None
  }

  // ---------------------------------------------------------------------
  // Operations
  // ---------------------------------------------------------------------

  function Touched(s: Snap, a: Addr, now: nat): Snap
    requires a in s.slots
  {
    s.(slots := s.slots[a := s.slots[a].(last := now)])
  }

  function Stored(s: Snap, a: Addr, bytes: Data, model: string, now: nat): Snap {
    s.(slots := s.slots[a := Slot(bytes, now)], index := s.index[a := Meta(model, |bytes|, now, InRam)])
  }

  /** A read, with whether the file read fails. */
  function Read(s: Snap, a: Addr, now: nat, fails: bool): (Option<Data>, Snap) {
    if a in s.slots then (Some(s.slots[a].bytes), Touched(s, a, now))
    else if !fails && PathOf(a) in s.files then (Some(s.files[PathOf(a)]), Stored(s, a, s.files[PathOf(a)], "", now))
    else (None, s)
  }

  /** A spill, with whether the file write fails. */
  function Spill(s: Snap, a: Addr, model: string, now: nat, fails: bool): (bool, Snap) {
    if a !in s.slots then (true, s)
    else if fails then (false, Touched(s, a, now))
    else
      var bytes := s.slots[a].bytes;
      (true, Snap(s.slots - {a}, s.files[PathOf(a) := bytes], s.index[a := Meta(model, |bytes|, now, OnSsd)]))
  }

  /** A forget, with whether removing the file fails. */
  function Forget(s: Snap, a: Addr, fails: bool): (bool, Snap) {
    if fails then (false, s.(slots := s.slots - {a}))
    else (true, Snap(s.slots - {a}, s.files - {PathOf(a)}, s.index - {a}))
  }

  function Age(now: nat, seen: nat): nat { if now < seen then 0 else now - seen }

  function Stale(m: Meta, ttl: nat, now: nat): bool { m.tier == OnSsd && Age(now, m.lastSeen) > ttl }

  function StaleSet(s: Snap, ttl: nat, now: nat): set<Addr> { set a | a in s.index && Stale(s.index[a], ttl, now) }

  /** Forgetting every address of a set, where the files of `bad` cannot be
      removed. */
  function ForgetAll(s: Snap, gone: set<Addr>, bad: set<Addr>): Snap {
    Snap(s.slots - gone, map p | p in s.files && !Names(gone - bad, p) :: s.files[p], s.index - (gone - bad))
  }

  predicate Names(gone: set<Addr>, p: Path) { exists a :: a in gone && PathOf(a) == p }

  /** The TTL half of an eviction pass; a limit of zero switches it off. */
  function Expire(s: Snap, ttl: nat, now: nat, bad: set<Addr>): Snap {
    if ttl == 0 then s else ForgetAll(s, StaleSet(s, ttl, now), bad)
  }

  /** Live addresses differ in their file names. */
  ghost predicate Apart(live: set<Addr>) {
    forall a, b :: a in live && b in live && PathOf(a) == PathOf(b) ==> a == b
  }

  /** Only live addresses are in use. */
  ghost predicate Confined(live: set<Addr>, s: Snap) {
    Apart(live) && s.slots.Keys <= live && s.index.Keys <= live
  }

  /** Spilling changes no value, whether the write works or not. */
  lemma {:induction false} SpillKeepsValues(live: set<Addr>, s: Snap, a: Addr, model: string, now: nat, fails: bool)
    requires Confined(live, s) && a in live
    ensures var s' := Spill(s, a, model, now, fails).1;
            Confined(live, s') && forall b :: b in live ==> Value(s', b) == Value(s, b)
  {
  }

  /** Spilling one block changes what another reads as exactly when they share
      a file name, the other is not in RAM, and the file held other bytes. */
  lemma {:induction false} SpillDisturbsIff(s: Snap, a: Addr, b: Addr, model: string, now: nat)
    requires a in s.slots && b != a
    ensures Value(Spill(s, a, model, now, false).1, b) != Value(s, b) <==>
              && PathOf(b) == PathOf(a) && b !in s.slots
              && (PathOf(a) in s.files ==> s.files[PathOf(a)] != s.slots[a].bytes)
  {
  }

  // ---------------------------------------------------------------------
  // One block's history
  // ---------------------------------------------------------------------

  datatype Op =
    | PutOp(addr: Addr, bytes: Data, model: string, now: nat)
    | LookupOp(addr: Addr, now: nat)
    | ReadOp(addr: Addr, now: nat, fails: bool)
    | SpillOp(addr: Addr, model: string, now: nat, fails: bool)
    | ForgetOp(addr: Addr, fails: bool)
    | ExpireOp(ttl: nat, now: nat, bad: set<Addr>)

  predicate On(live: set<Addr>, op: Op) { op.ExpireOp? || op.addr in live }

  /** What the operations so far made of one address: the bytes in RAM and when
      they were last used, the bytes last spilled, and what the last put,
      promotion or spill said. */
  datatype Block = Block(ram: Option<Data>, last: nat, file: Option<Data>, listed: Option<Meta>) {
    function Reads(): Option<Data> { if ram.Some? then ram else file }

    /** On SSD since a spill longer ago than the limit. */
    predicate Expired(ttl: nat, now: nat) {
      ttl > 0 && listed.Some? && listed.value.tier == OnSsd && Age(now, listed.value.lastSeen) > ttl
    }
  }

  const Gone := Block(None, 0, None, None)

  function BlockNext(b: Block, op: Op, a: Addr): Block {
    match op
    case PutOp(x, bytes, model, now) =>
      if x == a then Block(Some(bytes), now, b.file, Some(Meta(model, |bytes|, now, InRam))) else b
    case LookupOp(x, now) => if x == a then b.(last := now) else b
    case ReadOp(x, now, fails) =>
      if x != a then b
      else if b.ram.None? && !fails && b.file.Some?
      then Block(b.file, now, b.file, Some(Meta("", |b.file.value|, now, InRam)))
      else b.(last := now)
    case SpillOp(x, model, now, fails) =>
      if x != a then b
      else if b.ram.Some? && !fails then Block(None, now, b.ram, Some(Meta(model, |b.ram.value|, now, OnSsd)))
      else b.(last := now)
    case ForgetOp(x, fails) => if x != a then b else if fails then b.(ram := None) else Gone.(last := b.last)
    case ExpireOp(ttl, now, bad) =>
      if !b.Expired(ttl, now) then b else if a in bad then b.(ram := None) else Gone.(last := b.last)
  }

  /** The history of one address alone, without tiers, files or index. */
  function Track(ops: seq<Op>, a: Addr): Block {
    if ops == [] then Gone else BlockNext(Track(ops[..|ops| - 1], a), ops[|ops| - 1], a)
  }

  /** The last bytes put at `a`, unless it was forgotten since, or expired some
      time after its last spill. */
  function LastPut(ops: seq<Op>, a: Addr): Option<Data> {
    if ops == [] then None
    else
      var before, was := ops[..|ops| - 1], LastPut(ops[..|ops| - 1], a);
      match ops[|ops| - 1]
      case PutOp(x, bytes, _, _) => if x == a then Some(bytes) else was
      case ForgetOp(x, _) => if x == a then None else was
      case ExpireOp(ttl, now, _) => if Track(before, a).Expired(ttl, now) then None else was
      case _ => was
  }

  /** The clock reading of the last put, lookup, read or spill of `a`. */
  function LastUse(ops: seq<Op>, a: Addr): nat {
    if ops == [] then 0
    else
      match ops[|ops| - 1]
      case PutOp(x, _, _, now) => if x == a then now else LastUse(ops[..|ops| - 1], a)
      case LookupOp(x, now) => if x == a then now else LastUse(ops[..|ops| - 1], a)
      case ReadOp(x, now, _) => if x == a then now else LastUse(ops[..|ops| - 1], a)
      case SpillOp(x, _, now, _) => if x == a then now else LastUse(ops[..|ops| - 1], a)
      case _ => LastUse(ops[..|ops| - 1], a)
  }

  lemma {:induction false} TrackIsLastUse(ops: seq<Op>, a: Addr)
    ensures Track(ops, a).last == LastUse(ops, a)
  {
    if ops != [] {
      TrackIsLastUse(ops[..|ops| - 1], a);
    }
  }

  /** No file removal failed. */
  predicate Sturdy(ops: seq<Op>) {
    forall op :: op in ops ==> (op.ForgetOp? ==> !op.fails) && (op.ExpireOp? ==> op.bad == {})
  }

  /** A listing exactly while there is something to read, with its size, in RAM
      exactly when the listing says so, and nothing to read but the last bytes
      put. */
  lemma {:induction false} TrackIsLastPut(ops: seq<Op>, a: Addr)
    requires Sturdy(ops)
    ensures var b := Track(ops, a);
            && b.Reads() == LastPut(ops, a)
            && (b.listed.Some? <==> b.Reads().Some?)
            && (b.listed.Some? ==> b.listed.value.size == |b.Reads().value|)
            && (b.listed.Some? ==> (b.listed.value.tier == InRam <==> b.ram.Some?))
  {
    if ops != [] {
      var before, op := ops[..|ops| - 1], ops[|ops| - 1];
      assert op in ops && forall o :: o in before ==> o in ops;
      TrackIsLastPut(before, a);
    }
  }

  // ---------------------------------------------------------------------
  // The store is all its blocks' histories
  // ---------------------------------------------------------------------

  /** Tiers, files and index say of `a` what `b` says. */
  ghost predicate Agrees(s: Snap, a: Addr, b: Block) {
    && b.ram == (if a in s.slots then Some(s.slots[a].bytes) else None)
    && b.file == (if PathOf(a) in s.files then Some(s.files[PathOf(a)]) else None)
    && b.listed == (if a in s.index then Some(s.index[a]) else None)
    && (a in s.slots ==> s.slots[a].last == b.last)
  }

  function Apply(s: Snap, op: Op): Snap {
    match op
    case PutOp(a, bytes, model, now) => Stored(s, a, bytes, model, now)
    case LookupOp(a, now) => if a in s.slots then Touched(s, a, now) else s
    case ReadOp(a, now, fails) => Read(s, a, now, fails).1
    case SpillOp(a, model, now, fails) => Spill(s, a, model, now, fails).1
    case ForgetOp(a, fails) => Forget(s, a, fails).1
    case ExpireOp(ttl, now, bad) => Expire(s, ttl, now, bad)
  }

  lemma {:induction false} NamedOnce(live: set<Addr>, gone: set<Addr>, a: Addr)
    requires Apart(live) && gone <= live && a in live
    ensures Names(gone, PathOf(a)) <==> a in gone
  {
  }

  lemma {:induction false} ExpireAgrees(live: set<Addr>, s: Snap, ttl: nat, now: nat, bad: set<Addr>, a: Addr, b: Block)
    requires Confined(live, s) && a in live && Agrees(s, a, b)
    ensures Agrees(Expire(s, ttl, now, bad), a, BlockNext(b, ExpireOp(ttl, now, bad), a))
    ensures Confined(live, Expire(s, ttl, now, bad))
  {
    var gone := StaleSet(s, ttl, now);
    NamedOnce(live, gone - bad, a);
    assert a in gone <==> a in s.index && Stale(s.index[a], ttl, now);
  }

  lemma {:induction false} ApplyAgrees(live: set<Addr>, s: Snap, op: Op, a: Addr, b: Block)
    requires Confined(live, s) && On(live, op) && a in live && Agrees(s, a, b)
    ensures Confined(live, Apply(s, op)) && Agrees(Apply(s, op), a, BlockNext(b, op, a))
  {
    match op
    case ExpireOp(ttl, now, bad) =>
      hide Expire, Agrees, Confined;
      ExpireAgrees(live, s, ttl, now, bad, a, b);
    case ForgetOp(x, fails) =>
      ForgetAgrees(live, s, x, fails, a, b);
    case SpillOp(x, model, now, fails) =>
      SpillAgrees(live, s, x, model, now, fails, a, b);
    case ReadOp(x, now, fails) =>
      ReadAgrees(live, s, x, now, fails, a, b);
    case _ =>
      hide Forget, Spill, Read;
  }

  lemma {:induction false} SpillAgrees(live: set<Addr>, s: Snap, x: Addr, model: string, now: nat, fails: bool, a: Addr,
                                       b: Block)
    requires Confined(live, s) && x in live && a in live && Agrees(s, a, b)
    ensures var s' := Spill(s, x, model, now, fails).1;
            Confined(live, s') && Agrees(s', a, BlockNext(b, SpillOp(x, model, now, fails), a))
  {
  }

  lemma {:induction false} ReadAgrees(live: set<Addr>, s: Snap, x: Addr, now: nat, fails: bool, a: Addr, b: Block)
    requires Confined(live, s) && x in live && a in live && Agrees(s, a, b)
    ensures var s' := Read(s, x, now, fails).1;
            Confined(live, s') && Agrees(s', a, BlockNext(b, ReadOp(x, now, fails), a))
  {
  }

  lemma {:induction false} ForgetAgrees(live: set<Addr>, s: Snap, x: Addr, fails: bool, a: Addr, b: Block)
    requires Confined(live, s) && x in live && a in live && Agrees(s, a, b)
    ensures var s' := Forget(s, x, fails).1;
            Confined(live, s') && Agrees(s', a, BlockNext(b, ForgetOp(x, fails), a))
  {
  }

  const Empty := Snap(map[], map[], map[])

  function After(ops: seq<Op>): Snap {
    if ops == [] then Empty else Apply(After(ops[..|ops| - 1]), ops[|ops| - 1])
  }

  /** After any run of whole operations, reads, writes and removals failing at
      will, RAM, files and index say of every live address exactly what its
      own history says. */
  lemma {:induction false} StoreIsItsBlocks(live: set<Addr>, ops: seq<Op>, a: Addr)
    requires Apart(live) && a in live && forall op :: op in ops ==> On(live, op)
    ensures Confined(live, After(ops)) && Agrees(After(ops), a, Track(ops, a))
    ensures Value(After(ops), a) == Track(ops, a).Reads()
    decreases |ops|
  {
    hide Apply, BlockNext, Apart;
    if ops != [] {
      var before, op := ops[..|ops| - 1], ops[|ops| - 1];
      assert op in ops && forall o :: o in before ==> o in ops;
      StoreIsItsBlocks(live, before, a);
      ApplyAgrees(live, After(before), op, a, Track(before, a));
    }
  }

  /** Whatever fails, a block in RAM was last touched by its last use, which is
      what eviction goes by. */
  lemma {:induction false} TouchIsLastUse(live: set<Addr>, ops: seq<Op>, a: Addr)
    requires Apart(live) && a in live && (forall op :: op in ops ==> On(live, op)) && a in After(ops).slots
    ensures After(ops).slots[a].last == LastUse(ops, a)
  {
    StoreIsItsBlocks(live, ops, a);
    TrackIsLastUse(ops, a);
  }

  /** A put is listed under its model, a spill under the one it was given, and a
      promotion under none. */
  lemma {:induction false} ListedModel(ops: seq<Op>, a: Addr, model: string, now: nat, bytes: Data)
    ensures Track(ops + [PutOp(a, bytes, model, now)], a).listed == Some(Meta(model, |bytes|, now, InRam))
    ensures var spilt, b := Track(ops + [SpillOp(a, model, now, false)], a), Track(ops, a);
            b.ram.Some? ==> spilt.listed == Some(Meta(model, |b.ram.value|, now, OnSsd))
    ensures var read, b := Track(ops + [ReadOp(a, now, false)], a), Track(ops, a);
            b.ram.None? && b.file.Some? ==> read.listed == Some(Meta("", |b.file.value|, now, InRam))
  {
    assert (ops + [PutOp(a, bytes, model, now)])[..|ops|] == ops;
    assert (ops + [SpillOp(a, model, now, false)])[..|ops|] == ops;
    assert (ops + [ReadOp(a, now, false)])[..|ops|] == ops;
  }

  /** The store refines a map: unless a removal failed, every live address
      reads as the last bytes put there and not forgotten or expired since,
      and the index domain is exactly the union of the two tiers. */
  lemma {:induction false} StoreRefinesMap(live: set<Addr>, ops: seq<Op>, a: Addr)
    requires Apart(live) && a in live && Sturdy(ops) && forall op :: op in ops ==> On(live, op)
    ensures var s := After(ops);
            && Value(s, a) == LastPut(ops, a)
            && (a in s.index <==> a in s.slots || PathOf(a) in s.files)
            && (a in s.index ==> (s.index[a].tier == InRam <==> a in s.slots))
            && (a in s.index ==> Value(s, a).Some? && s.index[a].size == |Value(s, a).value|)
  {
    hide After, Track, LastPut;
    StoreIsItsBlocks(live, ops, a);
    TrackIsLastPut(ops, a);
  }

  /**
  The first removal that fails. The block reads as older bytes afterwards if
  and only if it was in RAM with other bytes than it was last spilled with;
  and it stays listed with nothing to read if and only if it was in RAM and
  never spilled since it was last gone.
  */
  lemma {:induction false} FailedForgetIff(live: set<Addr>, ops: seq<Op>, a: Addr)
    requires Apart(live) && a in live && Sturdy(ops) && forall op :: op in ops ==> On(live, op)
    ensures var s, b := After(ops + [ForgetOp(a, true)]), Track(ops, a);
            && (Value(s, a).Some? && Value(s, a) != LastPut(ops, a) <==> b.ram.Some? && b.file.Some? && b.ram != b.file)
            && (a in s.index && Value(s, a).None? <==> b.ram.Some? && b.file.None?)
  {
    hide LastPut;
    var all := ops + [ForgetOp(a, true)];
    assert all[..|all| - 1] == ops;
    StoreIsItsBlocks(live, all, a);
    TrackIsLastPut(ops, a);
  }

  /** The TTL pass never touches a block in RAM, and takes a spilled block
      exactly when its spill is longer ago than the limit. */
  lemma {:induction false} ExpiryIsBySpillTime(live: set<Addr>, ops: seq<Op>, a: Addr, ttl: nat, now: nat)
    requires Apart(live) && a in live && Sturdy(ops) && forall op :: op in ops ==> On(live, op)
    ensures a in StaleSet(After(ops), ttl, now) && ttl > 0 <==> Track(ops, a).Expired(ttl, now)
    ensures a in After(ops).slots ==> a !in StaleSet(After(ops), ttl, now)
    ensures forall model: string, at: nat :: a in After(ops).slots && 0 < ttl && at <= now ==>
              (Track(ops + [SpillOp(a, model, at, false)], a).Expired(ttl, now) <==> now - at > ttl)
  {
    hide After, LastPut;
    StoreIsItsBlocks(live, ops, a);
    TrackIsLastPut(ops, a);
    forall model: string, at: nat | a in After(ops).slots && 0 < ttl && at <= now
      ensures Track(ops + [SpillOp(a, model, at, false)], a).Expired(ttl, now) <==> now - at > ttl
    {
      var more := ops + [SpillOp(a, model, at, false)];
      assert more[..|more| - 1] == ops;
    }
  }

  // ---------------------------------------------------------------------
  // The store as the daemon runs it
  // ---------------------------------------------------------------------

  class Store {
    const ram: Ram
    var files: map<Path, Data>
    var index: map<Addr, Meta>

    ghost function Now(): Snap
      reads this, ram
    {
      Snap(ram.slots, files, index)
    }

    constructor (capacity: nat)
      ensures fresh(ram) && Now() == Empty && ram.Exact() && ram.capacity == capacity
    {
      ram := new Ram(capacity);
      files, index := map[], map[];
    }

    method PutRam(a: Addr, bytes: Data, model: string, now: nat)
      requires ram.Exact()
      modifies this, ram
      ensures Now() == Apply(old(Now()), PutOp(a, bytes, model, now)) && ram.Exact()
    {
      var _ := ram.Put(a, bytes, now);
      index := index[a := Meta(model, |bytes|, now, InRam)];
    }

    /** Probe RAM, then the index. */
    method Lookup(a: Addr, now: nat) returns (found: bool)
      requires ram.Exact()
      modifies ram
      ensures ram.Exact() && Now() == Apply(old(Now()), LookupOp(a, now))
      ensures found <==> a in old(ram.slots) || a in index
      ensures forall b :: Value(Now(), b) == Value(old(Now()), b)
      ensures ram.slots.Keys == old(ram.slots).Keys && (a in ram.slots ==> ram.slots[a].last == now)
      ensures forall b :: b in ram.slots && b != a ==> ram.slots[b] == old(ram.slots)[b]
    {
      var hit := ram.GetBytes(a, now);
      found := hit.Some? || a in index;
    }

    method LookupWithPromote(a: Addr, now: nat, fails: bool) returns (r: Option<Data>)
      requires ram.Exact()
      modifies this, ram
      ensures Now() == Apply(old(Now()), ReadOp(a, now, fails)) && ram.Exact()
      ensures r == (if fails && a !in old(ram.slots) then None else Value(old(Now()), a))
    {
      var hit := ram.GetBytes(a, now);
      if hit.Some? {
        return hit;
      }
      if !fails && PathOf(a) in files {
        var b := files[PathOf(a)];
        var _ := ram.Put(a, b, now);
        index := index[a := Meta("", |b|, now, InRam)];
        return Some(b);
      }
      return None;
    }

    method SpillToSsd(a: Addr, model: string, now: nat, fails: bool) returns (ok: bool)
      requires ram.Exact()
      modifies this, ram
      ensures (ok, Now()) == Spill(old(Now()), a, model, now, fails) && ram.Exact()
    {
      var bytes := ram.GetBytes(a, now);
      if bytes.None? {
        return true;
      }
      if fails {
        return false;
      }
      files := files[PathOf(a) := bytes.value];
      ram.Evict(a);
      assert ram.slots == old(ram.slots) - {a};
      index := index[a := Meta(model, |bytes.value|, now, OnSsd)];
      return true;
    }

    method ForgetBlock(a: Addr, fails: bool) returns (ok: bool)
      requires ram.Exact()
      modifies this, ram
      ensures (ok, Now()) == Forget(old(Now()), a, fails) && ram.Exact()
    {
      ram.Evict(a);
      if fails {
        return false;
      }
      files := files - {PathOf(a)};
      index := index - {a};
      return true;
    }

    /** The TTL half of an eviction pass: scan once, then forget the stale SSD
        blocks one by one; a failing removal does not stop it. */
    method ExpirePass(ttl: nat, now: nat, bad: set<Addr>)
      requires ram.Exact()
      modifies this, ram
      ensures Now() == Apply(old(Now()), ExpireOp(ttl, now, bad)) && ram.Exact()
    {
      if ttl == 0 {
        return;
      }
      var scan := set a | a in index && Stale(index[a], ttl, now);
      ghost var s, all := Now(), scan;
      NothingForgotten(s, bad);
      while scan != {}
        invariant scan <= all && ram.Exact()
        invariant Now() == ForgetAll(s, all - scan, bad)
        decreases scan
      {
        var a :| a in scan;
        ForgetOneMore(s, all - scan, bad, a);
        var _ := ForgetBlock(a, a in bad);
        assert all - (scan - {a}) == (all - scan) + {a};
        scan := scan - {a};
      }
      assert all - {} == all;
    }
  }

  lemma {:induction false} NothingForgotten(s: Snap, bad: set<Addr>)
    ensures forall none: set<Addr> :: none == {} ==> ForgetAll(s, none, bad) == s
  {
  }

  lemma {:induction false} ForgetOneMore(s: Snap, gone: set<Addr>, bad: set<Addr>, a: Addr)
    requires a !in gone
    ensures Forget(ForgetAll(s, gone, bad), a, a in bad).1 == ForgetAll(s, gone + {a}, bad)
  {
    var x, y := Forget(ForgetAll(s, gone, bad), a, a in bad).1, ForgetAll(s, gone + {a}, bad);
    NamesGrow(gone - bad, a);
    assert gone + {a} - bad == if a in bad then gone - bad else gone - bad + {a};
    assert x.slots == y.slots && x.files == y.files && x.index == y.index;
  }

  lemma {:induction false} NamesGrow(gone: set<Addr>, a: Addr)
    ensures forall p :: Names(gone + {a}, p) <==> Names(gone, p) || p == PathOf(a)
  {
    forall p
      ensures Names(gone + {a}, p) <==> Names(gone, p) || p == PathOf(a)
    {
      if Names(gone, p) {
        var b :| b in gone && PathOf(b) == p;
        assert b in gone + {a};
      }
      assert a in gone + {a};
    }
  }

  /** Put, spill, read back, put other bytes, and a forget whose file removal
      fails: the block reads as the bytes it was spilled with. */
  method StaleAfterFailedForget(a: Addr) returns (r: Option<Data>)
    ensures r == Some([1])
  {
    var store := new Store(100);
    store.PutRam(a, [1], "m", 0);
    var _ := store.SpillToSsd(a, "m", 1, false);
    r := store.LookupWithPromote(a, 2, false);
    store.PutRam(a, [2], "m", 3);
    var _ := store.ForgetBlock(a, true);
    r := store.LookupWithPromote(a, 4, false);
  }

  /** A block that was never spilled and whose forget fails is reported by a
      lookup and cannot be read. */
  method ListedButGone(a: Addr) returns (found: bool, r: Option<Data>)
    ensures found && r == None
  {
    var store := new Store(100);
    store.PutRam(a, [1], "m", 0);
    var _ := store.ForgetBlock(a, true);
    found := store.Lookup(a, 1);
    r := store.LookupWithPromote(a, 2, false);
  }
}
