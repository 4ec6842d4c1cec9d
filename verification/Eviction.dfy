/**
The RAM half of an eviction pass: spill the coldest blocks in batches of 32
while the tier is above its target.
*/
module Eviction {
  import opened Bytes
  import opened RamTier
  import opened TieredStore

  const Batch := 32

  // ---------------------------------------------------------------------
  // Coldest first
  // ---------------------------------------------------------------------

  ghost predicate NoRepeats(r: seq<Addr>) {
    forall i, j :: 0 <= i < j < |r| ==> r[i] != r[j]
  }

  ghost predicate Sorted(slots: Slots, r: seq<Addr>) {
    && (forall a :: a in r ==> a in slots)
    && (forall i, j :: 0 <= i < j < |r| ==> slots[r[i]].last <= slots[r[j]].last)
  }

  /** `r` lists distinct blocks, oldest touch first, none of them fresher than
      any block it leaves out. */
  ghost predicate ColdestFirst(slots: Slots, r: seq<Addr>) {
    && NoRepeats(r) && Sorted(slots, r)
    && (forall a, b :: a in r && b in slots && b !in r ==> slots[a].last <= slots[b].last)
  }

  /** One more entry put behind every entry at least as old. */
  method InsertByAge(slots: Slots, r: seq<Addr>, a: Addr) returns (s: seq<Addr>)
    requires NoRepeats(r) && Sorted(slots, r) && a in slots && a !in r
    ensures NoRepeats(s) && Sorted(slots, s) && |s| == |r| + 1
    ensures forall b :: b in s <==> b == a || b in r
  {
    var i := |r|;
    while i > 0 && slots[r[i - 1]].last > slots[a].last
      invariant 0 <= i <= |r|
      invariant forall j :: i <= j < |r| ==> slots[r[j]].last > slots[a].last
    {
      i := i - 1;
    }
    s := r[..i] + [a] + r[i..];
    Inserted(slots, r, a, i);
  }

  lemma {:induction false} Inserted(slots: Slots, r: seq<Addr>, a: Addr, i: nat)
    requires NoRepeats(r) && Sorted(slots, r) && a in slots && a !in r && i <= |r|
    requires i > 0 ==> slots[r[i - 1]].last <= slots[a].last
    requires forall j :: i <= j < |r| ==> slots[r[j]].last > slots[a].last
    ensures var s := r[..i] + [a] + r[i..];
            NoRepeats(s) && Sorted(slots, s) && forall b :: b in s <==> b == a || b in r
  {
    var s := r[..i] + [a] + r[i..];
    InsertedElements(r, a, i);
    InsertedDistinct(r, s, a, i);
    InsertedSorted(slots, r, s, a, i);
  }

  /** `s` is `r` with `a` at index `i`. */
  ghost predicate With(r: seq<Addr>, s: seq<Addr>, a: Addr, i: nat) {
    && i <= |r| && |s| == |r| + 1 && s[i] == a
    && (forall j :: 0 <= j < i ==> s[j] == r[j])
    && (forall j :: i <= j < |r| ==> s[j + 1] == r[j])
  }

  lemma {:induction false} InsertedDistinct(r: seq<Addr>, s: seq<Addr>, a: Addr, i: nat)
    requires With(r, s, a, i) && NoRepeats(r) && a !in r
    ensures NoRepeats(s)
  {
    forall j, k | 0 <= j < k < |s|
      ensures s[j] != s[k]
    {
      var x, y := if j < i then j else j - 1, if k < i then k else k - 1;
      assert j != i ==> s[j] == r[x] && r[x] in r;
      assert k != i ==> s[k] == r[y] && r[y] in r;
    }
  }

  lemma {:induction false} InsertedSorted(slots: Slots, r: seq<Addr>, s: seq<Addr>, a: Addr, i: nat)
    requires With(r, s, a, i) && Sorted(slots, r) && a in slots
    requires forall b :: b in s ==> b in slots
    requires i > 0 ==> slots[r[i - 1]].last <= slots[a].last
    requires forall j :: i <= j < |r| ==> slots[r[j]].last > slots[a].last
    ensures Sorted(slots, s)
  {
    forall j, k | 0 <= j < k < |s|
      ensures slots[s[j]].last <= slots[s[k]].last
    {
      assert s[j] in s && s[k] in s;
      var x, y := if j < i then j else j - 1, if k < i then k else k - 1;
      assert j != i ==> s[j] == r[x];
      assert k != i ==> s[k] == r[y];
      assert j < i - 1 ==> slots[r[j]].last <= slots[r[i - 1]].last;
    }
  }

  lemma {:induction false} InsertedElements(r: seq<Addr>, a: Addr, i: nat)
    requires i <= |r|
    ensures var s := r[..i] + [a] + r[i..];
            With(r, s, a, i) && forall b :: b in s <==> b == a || b in r
  {
    assert r == r[..i] + r[i..];
  }

  /** Up to `n` addresses, oldest touch first. */
  method Coldest(slots: Slots, n: nat) returns (r: seq<Addr>)
    ensures ColdestFirst(slots, r) && |r| == if n < |slots| then n else |slots|
  {
    var entries: seq<Addr> := [];
    var todo := slots.Keys;
    while todo != {}
      invariant todo <= slots.Keys && NoRepeats(entries) && Sorted(slots, entries)
      invariant forall a :: a in entries <==> a in slots && a !in todo
      invariant |entries| + |todo| == |slots|
      decreases todo
    {
      var a :| a in todo;
      entries := InsertByAge(slots, entries, a);
      todo := todo - {a};
    }
    r := if n < |entries| then entries[..n] else entries;
    Truncated(slots, entries, |r|);
  }

  lemma {:induction false} Truncated(slots: Slots, entries: seq<Addr>, n: nat)
    requires NoRepeats(entries) && Sorted(slots, entries) && n <= |entries|
    requires forall a :: a in slots ==> a in entries
    ensures ColdestFirst(slots, entries[..n])
  {
    assert forall j :: 0 <= j < n ==> entries[j] in entries[..n];
    forall a, b | a in entries[..n] && b in slots && b !in entries[..n]
      ensures slots[a].last <= slots[b].last
    {
      var i :| 0 <= i < n && entries[i] == a;
      var j :| 0 <= j < |entries| && entries[j] == b;
    }
  }

  // ---------------------------------------------------------------------
  // Reference: batches over a list of sizes
  // ---------------------------------------------------------------------

  function SizesOf(slots: Slots, order: seq<Addr>): (r: seq<nat>)
    ensures |r| == |order|
  {
    seq(|order|, i requires 0 <= i < |order| => SizeAt(slots, order[i]))
  }

  /** Bytes left after spilling the first `k`. */
  function Rest(sizes: seq<nat>, k: nat): nat
    requires k <= |sizes|
    decreases |sizes| - k
  {
    if k == |sizes| then 0 else sizes[k] + Rest(sizes, k + 1)
  }

  function NextCut(sizes: seq<nat>, k: nat): (n: nat)
    requires k < |sizes|
    ensures k < n <= |sizes| && n <= k + Batch
  {
    if k + Batch < |sizes| then k + Batch else |sizes|
  }

  /** How many blocks a pass that already spilled `k` spills in all. */
  function Spilt(sizes: seq<nat>, k: nat, target: nat): (n: nat)
    requires k <= |sizes|
    ensures k <= n <= |sizes|
    decreases |sizes| - k
  {
    if Rest(sizes, k) <= target || k == |sizes| then k
    else
      var n := NextCut(sizes, k);
      if Rest(sizes, n) >= Rest(sizes, k) then n else Spilt(sizes, n, target)
  }

  lemma {:induction false} RestFalls(sizes: seq<nat>, i: nat, j: nat)
    requires i <= j <= |sizes|
    ensures Rest(sizes, j) <= Rest(sizes, i)
    decreases j - i
  {
    if i < j {
      RestFalls(sizes, i + 1, j);
    }
  }

  /** A batch at `k` that frees nothing while above the target. */
  ghost predicate Stuck(sizes: seq<nat>, k: nat, target: nat) {
    k < |sizes| && Rest(sizes, k) > target && Rest(sizes, NextCut(sizes, k)) == Rest(sizes, k)
  }

  function Cut(k: nat, i: nat): nat { k + Batch * i }

  ghost predicate SomeStuck(sizes: seq<nat>, k: nat, target: nat) {
    exists i: nat :: Stuck(sizes, Cut(k, i), target)
  }

  /** The pass ends at or under its target exactly when no batch, counted in
      32s from the coldest, is all empty while the rest exceeds the target. */
  lemma {:induction false} EndsUnderTargetIff(sizes: seq<nat>, k: nat, target: nat)
    requires k <= |sizes|
    ensures Rest(sizes, Spilt(sizes, k, target)) > target <==> SomeStuck(sizes, k, target)
    decreases |sizes| - k
  {
    if Rest(sizes, k) <= target || k == |sizes| {
      forall i: nat
        ensures !Stuck(sizes, Cut(k, i), target)
      {
        if Cut(k, i) <= |sizes| {
          RestFalls(sizes, k, Cut(k, i));
        }
      }
    } else {
      var n := NextCut(sizes, k);
      RestFalls(sizes, k, n);
      if Rest(sizes, n) >= Rest(sizes, k) {
        assert Stuck(sizes, Cut(k, 0), target);
      } else {
        EndsUnderTargetIff(sizes, n, target);
        StuckShift(sizes, k, target);
      }
    }
  }

  lemma {:induction false} StuckShift(sizes: seq<nat>, k: nat, target: nat)
    requires k < |sizes| && !Stuck(sizes, k, target)
    ensures var n := NextCut(sizes, k);
            SomeStuck(sizes, k, target) <==> SomeStuck(sizes, n, target)
  {
    var n := NextCut(sizes, k);
    if i: nat :| Stuck(sizes, Cut(k, i), target) {
      assert i > 0;
      assert Stuck(sizes, Cut(n, i - 1), target);
    }
    if i: nat :| Stuck(sizes, Cut(n, i), target) {
      assert Stuck(sizes, Cut(k, i + 1), target);
    }
  }

  /** With no empty block the pass always ends at or under its target. */
  lemma {:induction false} NonEmptyEndsUnder(sizes: seq<nat>, target: nat)
    requires forall i :: 0 <= i < |sizes| ==> sizes[i] > 0
    ensures Rest(sizes, Spilt(sizes, 0, target)) <= target
  {
    EndsUnderTargetIff(sizes, 0, target);
    forall i: nat
      ensures !Stuck(sizes, Cut(0, i), target)
    {
      var k := Cut(0, i);
      if k < |sizes| {
        RestFalls(sizes, k + 1, NextCut(sizes, k));
      }
    }
  }

  /** A pass never spills 32 blocks more than the coldest-first number that
      brings the tier to its target. */
  lemma {:induction false} FewerThanABatchExtra(sizes: seq<nat>, k: nat, target: nat, enough: nat)
    requires k <= |sizes| && enough <= |sizes| && Rest(sizes, enough) <= target
    requires Rest(sizes, k) > target
    ensures Spilt(sizes, k, target) < enough + Batch
    decreases |sizes| - k
  {
    if enough < k {
      RestFalls(sizes, enough, k);
    }
    if k < |sizes| {
      var n := NextCut(sizes, k);
      if Rest(sizes, n) < Rest(sizes, k) && Rest(sizes, n) > target {
        FewerThanABatchExtra(sizes, n, target, enough);
      }
    }
  }

  // ---------------------------------------------------------------------
  // The pass
  // ---------------------------------------------------------------------

  function AsSet(r: seq<Addr>): set<Addr> { set a | a in r }

  type Failing = (nat, nat) -> bool

  function InRound(fails: Failing, r: nat): nat -> bool { (i: nat) => fails(r, i) }

  ghost predicate SameValues(live: set<Addr>, s: Snap, s': Snap) {
    Confined(live, s') && forall a :: a in live ==> Value(s', a) == Value(s, a)
  }

  /** The write of victim `a` works. */
  ghost predicate Written(victims: seq<Addr>, fails: nat -> bool, a: Addr) {
    exists i :: 0 <= i < |victims| && victims[i] == a && !fails(i)
  }

  /** RAM after a batch: exactly the victims whose write worked are gone, and
      the others were touched. */
  ghost function Batched(slots: Slots, victims: seq<Addr>, fails: nat -> bool, now: nat): Slots {
    map a | a in slots && !Written(victims, fails, a) :: if a in victims then slots[a].(last := now) else slots[a]
  }

  /** The index after a batch: exactly those victims are listed as on SSD, with
      their size and the model they had. */
  ghost predicate Relisted(s: Snap, s': Snap, victims: seq<Addr>, fails: nat -> bool, now: nat) {
    forall a ::
      if Written(victims, fails, a) && a in s.slots then
        a in s'.index && s'.index[a] == Meta(ModelOf(s.index, a), |s.slots[a].bytes|, now, OnSsd)
      else (a in s'.index <==> a in s.index) && (a in s.index ==> s'.index[a] == s.index[a])
  }

  ghost function ModelOf(index: map<Addr, Meta>, a: Addr): string { if a in index then index[a].model else "" }

  /** One more victim, not met before. */
  lemma {:induction false} OneMoreVictim(s: Snap, s1: Snap, victims: seq<Addr>, i: nat, fails: nat -> bool, now: nat)
    requires i < |victims| && NoRepeats(victims) && victims[i] in s.slots
    requires s1.slots == Batched(s.slots, victims[..i], fails, now) && Relisted(s, s1, victims[..i], fails, now)
    ensures var s2 := Spill(s1, victims[i], ModelOf(s1.index, victims[i]), now, fails(i)).1;
            && s2.slots == Batched(s.slots, victims[..i + 1], fails, now)
            && Relisted(s, s2, victims[..i + 1], fails, now)
  {
    hide Written, NoRepeats, Relisted, Batched;
    var a := victims[i];
    WrittenMore(victims, i, fails);
    var s2 := Spill(s1, a, ModelOf(s1.index, a), now, fails(i)).1;
    OneLessSlot(s.slots, victims, i, fails, now);
    Resides(s.slots, victims[..i], fails, now, a);
    if fails(i) {
      SameList(s, s1, s2, victims, i, fails, now);
    } else {
      OneMoreListed(s, s1, s2, victims, i, fails, now);
    }
  }

  lemma {:induction false} Resides(slots: Slots, victims: seq<Addr>, fails: nat -> bool, now: nat, a: Addr)
    requires a in slots && a !in victims && !Written(victims, fails, a)
    ensures a in Batched(slots, victims, fails, now) && Batched(slots, victims, fails, now)[a] == slots[a]
  {
  }

  lemma {:induction false} OneLessSlot(slots: Slots, victims: seq<Addr>, i: nat, fails: nat -> bool, now: nat)
    requires i < |victims| && NoRepeats(victims) && victims[i] in slots
    ensures var a, was := victims[i], Batched(slots, victims[..i], fails, now);
            Batched(slots, victims[..i + 1], fails, now) ==
            if fails(i) then was[a := slots[a].(last := now)] else was - {a}
  {
    hide Written;
    WrittenMore(victims, i, fails);
    assert victims[..i + 1] == victims[..i] + [victims[i]];
  }

  lemma {:induction false} SameList(s: Snap, s1: Snap, s2: Snap, victims: seq<Addr>, i: nat,
                                    fails: nat -> bool, now: nat)
    requires i < |victims| && NoRepeats(victims) && fails(i) && Relisted(s, s1, victims[..i], fails, now)
    requires s2.index == s1.index
    ensures Relisted(s, s2, victims[..i + 1], fails, now)
  {
    hide Written;
    WrittenMore(victims, i, fails);
  }

  lemma {:induction false} OneMoreListed(s: Snap, s1: Snap, s2: Snap, victims: seq<Addr>, i: nat, fails: nat -> bool,
                                         now: nat)
    requires i < |victims| && NoRepeats(victims) && !fails(i) && Relisted(s, s1, victims[..i], fails, now)
    requires var a := victims[i];
             a in s.slots && s2.index == s1.index[a := Meta(ModelOf(s1.index, a), |s.slots[a].bytes|, now, OnSsd)]
    ensures Relisted(s, s2, victims[..i + 1], fails, now)
  {
    hide Written;
    WrittenMore(victims, i, fails);
  }

  lemma {:induction false} WrittenMore(victims: seq<Addr>, i: nat, fails: nat -> bool)
    requires i < |victims| && NoRepeats(victims)
    ensures victims[i] !in victims[..i] && !Written(victims[..i], fails, victims[i])
    ensures forall b :: Written(victims[..i + 1], fails, b) <==>
                        Written(victims[..i], fails, b) || (b == victims[i] && !fails(i))
  {
    var a, before, after := victims[i], victims[..i], victims[..i + 1];
    forall b
      ensures Written(after, fails, b) <==> Written(before, fails, b) || (b == a && !fails(i))
    {
      if k :| 0 <= k < |before| && before[k] == b && !fails(k) {
        assert after[k] == b;
      }
      assert after[i] == a;
    }
  }

  lemma {:induction false} NoVictims(s: Snap, fails: nat -> bool, now: nat)
    ensures s.slots == Batched(s.slots, [], fails, now) && Relisted(s, s, [], fails, now)
  {
  }

  lemma {:induction false} AllWritten(slots: Slots, victims: seq<Addr>, fails: nat -> bool, now: nat)
    requires forall i :: !fails(i)
    ensures Batched(slots, victims, fails, now) == slots - AsSet(victims)
  {
    forall a
      ensures Written(victims, fails, a) <==> a in victims
    {
      if a in victims {
        var i :| 0 <= i < |victims| && victims[i] == a;
      }
    }
  }

  /** Spill one batch; `fails(i)` says whether write `i` fails. A failing write
      does not stop the batch. */
  method SpillBatch(store: Store, victims: seq<Addr>, now: nat, fails: nat -> bool, ghost live: set<Addr>)
    requires store.ram.Exact() && Confined(live, store.Now())
    requires NoRepeats(victims) && forall a :: a in victims ==> a in store.ram.slots
    modifies store, store.ram
    ensures store.ram.Exact() && SameValues(live, old(store.Now()), store.Now())
    ensures store.ram.slots == Batched(old(store.ram.slots), victims, fails, now)
    ensures Relisted(old(store.Now()), store.Now(), victims, fails, now)
  {
    hide Confined, Value, Spill, Batched, Relisted, NoRepeats;
    ghost var s0 := store.Now();
    InLive(live, s0);
    NoVictims(s0, fails, now);
    assert victims[..0] == [];
    for i := 0 to |victims|
      invariant store.ram.Exact() && SameValues(live, s0, store.Now())
      invariant store.ram.slots == Batched(s0.slots, victims[..i], fails, now)
      invariant Relisted(s0, store.Now(), victims[..i], fails, now)
    {
      var a := victims[i];
      assert a in live;
      var model := if a in store.index then store.index[a].model else "";
      SpillKeepsValues(live, store.Now(), a, model, now, fails(i));
      OneMoreVictim(s0, store.Now(), victims, i, fails, now);
      var _ := store.SpillToSsd(a, model, now, fails(i));
    }
    assert victims[..|victims|] == victims;
  }

  lemma {:induction false} InLive(live: set<Addr>, s: Snap)
    requires Confined(live, s)
    ensures s.slots.Keys <= live
  {
  }

  /** `order` lists every block, coldest first. */
  ghost predicate FullOrder(slots: Slots, order: seq<Addr>) {
    ColdestFirst(slots, order) && forall a :: a in slots ==> a in order
  }

  /** The blocks `spilled` were moved out in this order, coldest first, and
      their number is the reference's for every full order they begin. */
  ghost predicate PassDone(slots: Slots, slots': Slots, spilled: seq<Addr>, target: nat) {
    && ColdestFirst(slots, spilled) && slots' == slots - AsSet(spilled)
    && (forall order :: FullOrder(slots, order) && spilled <= order ==>
          |spilled| == Spilt(SizesOf(slots, order), 0, target))
  }

  /** While the pass runs: the reference, from here on, spills as many in all. */
  ghost predicate PassAt(slots: Slots, slots': Slots, spilled: seq<Addr>, target: nat) {
    && ColdestFirst(slots, spilled) && slots' == slots - AsSet(spilled)
    && (forall order :: FullOrder(slots, order) && spilled <= order ==>
          Spilt(SizesOf(slots, order), |spilled|, target) == Spilt(SizesOf(slots, order), 0, target))
  }

  lemma {:induction false} RestIsResident(slots: Slots, order: seq<Addr>, k: nat)
    requires FullOrder(slots, order) && k <= |order|
    ensures Rest(SizesOf(slots, order), k) == Resident(slots - AsSet(order[..k]))
    decreases |order| - k
  {
    hide Resident, Sorted;
    var left := slots - AsSet(order[..k]);
    if k == |order| {
      assert order[..k] == order;
      assert left == map[];
      NothingResident();
    } else {
      RestIsResident(slots, order, k + 1);
      assert order[..k + 1] == order[..k] + [order[k]];
      assert AsSet(order[..k + 1]) == AsSet(order[..k]) + {order[k]};
      assert order[k] !in order[..k];
      assert left - {order[k]} == slots - AsSet(order[..k + 1]);
      ResidentRemove(left, order[k]);
      assert order[k] in order;
      assert SizeAt(left, order[k]) == SizeAt(slots, order[k]);
    }
  }

  lemma {:induction false} NothingResident()
    ensures Resident(map[]) == 0
  {
    assert Sizes(map[]) == map[];
  }

  lemma {:induction false} OrderCount(slots: Slots, order: seq<Addr>)
    requires NoRepeats(order) && forall a :: a in slots <==> a in order
    ensures |order| == |slots|
  {
    SetOfDistinct(order);
    assert AsSet(order) == slots.Keys;
  }

  lemma {:induction false} SetOfDistinct(order: seq<Addr>)
    requires NoRepeats(order)
    ensures |AsSet(order)| == |order|
  {
    if order != [] {
      var n := |order| - 1;
      SetOfDistinct(order[..n]);
      assert order == order[..n] + [order[n]];
      assert order[n] !in order[..n];
      assert AsSet(order) == AsSet(order[..n]) + {order[n]};
    }
  }

  lemma {:induction false} Joined(a: seq<Addr>, b: seq<Addr>)
    requires NoRepeats(a) && NoRepeats(b) && forall x :: x in a ==> x !in b
    ensures NoRepeats(a + b)
  {
    assert forall i :: 0 <= i < |a| ==> a[i] in a;
    assert forall i :: 0 <= i < |b| ==> b[i] in b;
  }

  lemma {:induction false} JoinedSorted(slots: Slots, a: seq<Addr>, b: seq<Addr>)
    requires Sorted(slots, a) && Sorted(slots, b)
    requires forall x, y :: x in a && y in b ==> slots[x].last <= slots[y].last
    ensures Sorted(slots, a + b)
  {
    var ab := a + b;
    forall i, j | 0 <= i < j < |ab|
      ensures ab[i] in slots && ab[j] in slots && slots[ab[i]].last <= slots[ab[j]].last
    {
      assert i < |a| ==> ab[i] == a[i] && a[i] in a;
      assert i >= |a| ==> ab[i] == b[i - |a|] && b[i - |a|] in b;
      assert j < |a| ==> ab[j] == a[j] && a[j] in a;
      assert j >= |a| ==> ab[j] == b[j - |a|] && b[j - |a|] in b;
    }
  }

  /** Two coldest-first runs, the second from what the first left. */
  lemma {:induction false} Continued(slots: Slots, a: seq<Addr>, b: seq<Addr>)
    requires ColdestFirst(slots, a) && ColdestFirst(slots - AsSet(a), b)
    ensures ColdestFirst(slots, a + b)
    ensures slots - AsSet(a) - AsSet(b) == slots - AsSet(a + b)
  {
    var left := slots - AsSet(a);
    assert forall x :: x in b ==> x in left && x in slots && x !in a && left[x] == slots[x];
    assert Sorted(slots, b) by {
      assert forall i :: 0 <= i < |b| ==> b[i] in b;
    }
    Joined(a, b);
    JoinedSorted(slots, a, b);
    hide NoRepeats, Sorted;
    assert AsSet(a + b) == AsSet(a) + AsSet(b);
  }

  /** One batch takes the reference one cut further. */
  lemma {:induction false} BatchIsNextCut(slots: Slots, spilled: seq<Addr>, victims: seq<Addr>, order: seq<Addr>)
    requires ColdestFirst(slots, spilled) && ColdestFirst(slots - AsSet(spilled), victims) && victims != []
    requires |victims| == if Batch < |slots - AsSet(spilled)| then Batch else |slots - AsSet(spilled)|
    requires FullOrder(slots, order) && spilled + victims <= order
    ensures |spilled| < |order| && NextCut(SizesOf(slots, order), |spilled|) == |spilled + victims|
  {
    OrderCount(slots, order);
    SetOfDistinct(spilled);
    Leaves(slots, spilled);
  }

  lemma {:induction false} Leaves(slots: Slots, spilled: seq<Addr>)
    requires NoRepeats(spilled) && forall a :: a in spilled ==> a in slots
    ensures |slots - AsSet(spilled)| == |slots| - |spilled|
  {
    SetOfDistinct(spilled);
    var left := slots - AsSet(spilled);
    assert left.Keys == slots.Keys - AsSet(spilled);
    assert AsSet(spilled) <= slots.Keys;
    assert |slots.Keys - AsSet(spilled)| == |slots.Keys| - |AsSet(spilled)|;
  }

  lemma {:induction false} BatchAdvances(slots: Slots, spilled: seq<Addr>, victims: seq<Addr>, target: nat)
    requires PassAt(slots, slots - AsSet(spilled), spilled, target) && victims != []
    requires ColdestFirst(slots - AsSet(spilled), victims)
    requires |victims| == if Batch < |slots - AsSet(spilled)| then Batch else |slots - AsSet(spilled)|
    requires Resident(slots - AsSet(spilled)) > target
    ensures var left, left' := slots - AsSet(spilled), slots - AsSet(spilled) - AsSet(victims);
            if Resident(left') < Resident(left) then PassAt(slots, left', spilled + victims, target)
            else PassDone(slots, left', spilled + victims, target)
  {
    hide Resident, ColdestFirst;
    var left, left', all := slots - AsSet(spilled), slots - AsSet(spilled) - AsSet(victims), spilled + victims;
    Continued(slots, spilled, victims);
    forall order | FullOrder(slots, order) && all <= order
      ensures var sizes := SizesOf(slots, order);
              Spilt(sizes, 0, target) == if Resident(left') < Resident(left) then Spilt(sizes, |all|, target) else |all|
    {
      var k := |spilled|;
      assert spilled <= order;
      BatchIsNextCut(slots, spilled, victims, order);
      RestIsResident(slots, order, k);
      RestIsResident(slots, order, |all|);
      assert order[..k] == spilled && order[..|all|] == all;
    }
  }

  lemma {:induction false} PassEnds(slots: Slots, slots': Slots, spilled: seq<Addr>, target: nat)
    requires PassAt(slots, slots', spilled, target) && (Resident(slots') <= target || slots' == map[])
    ensures PassDone(slots, slots', spilled, target)
  {
    hide Resident, ColdestFirst;
    forall order | FullOrder(slots, order) && spilled <= order
      ensures |spilled| == Spilt(SizesOf(slots, order), 0, target)
    {
      RestIsResident(slots, order, |spilled|);
      assert order[..|spilled|] == spilled;
      NothingResident();
    }
  }

  lemma {:induction false} PassStarts(slots: Slots, target: nat)
    ensures PassAt(slots, slots, [], target)
  {
    assert AsSet([]) == {};
    assert slots - {} == slots;
  }

  ghost predicate NextBatch(slots: Slots, victims: seq<Addr>) {
    ColdestFirst(slots, victims) && victims != [] && |victims| == if Batch < |slots| then Batch else |slots|
  }

  ghost predicate Above(slots: Slots, target: nat) { Wrap(Resident(slots)) > target }

  ghost predicate Shrinks(slots: Slots, slots': Slots) { Wrap(Resident(slots')) < Wrap(Resident(slots)) }

  /** One round: above the target, the coldest batch is spilled, failures
      skipped. */
  ghost predicate Round(slots: Slots, victims: seq<Addr>, r: nat, fails: Failing, now: nat, target: nat,
                        slots': Slots) {
    Above(slots, target) && NextBatch(slots, victims) && slots' == Batched(slots, victims, InRound(fails, r), now)
  }

  /** The rounds of a pass, each but the last freeing something. */
  ghost predicate Rounds(states: seq<Slots>, batches: seq<seq<Addr>>, fails: Failing, now: nat, target: nat) {
    && |states| == |batches| + 1
    && (forall r :: 0 <= r < |batches| ==> Round(states[r], batches[r], r, fails, now, target, states[r + 1]))
    && (forall r :: 0 <= r < |batches| - 1 ==> Shrinks(states[r], states[r + 1]))
  }

  /** The pass ends at its target, with nothing left, or after a round that
      freed nothing. */
  ghost predicate Ended(states: seq<Slots>, target: nat)
    requires states != []
  {
    var n := |states| - 1;
    !Above(states[n], target) || states[n] == map[] || (n > 0 && !Shrinks(states[n - 1], states[n]))
  }

  /** The rounds so far lead from `slots0` to `slots`, all freeing something. */
  ghost predicate Passing(slots0: Slots, states: seq<Slots>, batches: seq<seq<Addr>>, fails: Failing, now: nat,
                          target: nat, slots: Slots) {
    && Rounds(states, batches, fails, now, target) && states[0] == slots0 && states[|batches|] == slots
    && (|batches| > 0 ==> Shrinks(states[|batches| - 1], slots))
  }

  /** They lead there, and the last of them ends the pass. */
  ghost predicate Passed(slots0: Slots, states: seq<Slots>, batches: seq<seq<Addr>>, fails: Failing, now: nat,
                         target: nat, slots: Slots) {
    && Rounds(states, batches, fails, now, target) && states[0] == slots0 && states[|batches|] == slots
    && Ended(states, target)
  }

  lemma {:induction false} PassingStarts(slots: Slots, fails: Failing, now: nat, target: nat)
    ensures Passing(slots, [slots], [], fails, now, target, slots)
  {
  }

  lemma {:induction false} PassingNext(slots0: Slots, states: seq<Slots>, batches: seq<seq<Addr>>, fails: Failing,
                                       now: nat, target: nat, slots: Slots, victims: seq<Addr>, slots': Slots)
    requires Passing(slots0, states, batches, fails, now, target, slots) && Above(slots, target)
    requires NextBatch(slots, victims) && slots' == Batched(slots, victims, InRound(fails, |batches|), now)
    ensures if Shrinks(slots, slots') then
              Passing(slots0, states + [slots'], batches + [victims], fails, now, target, slots')
            else Passed(slots0, states + [slots'], batches + [victims], fails, now, target, slots')
  {
    hide Round, Shrinks, Above, NextBatch, Batched;
    RoundIs(slots, victims, |batches|, fails, now, target, slots');
    var n, states', batches' := |batches|, states + [slots'], batches + [victims];
    forall r | 0 <= r < |batches'|
      ensures Round(states'[r], batches'[r], r, fails, now, target, states'[r + 1])
    {
    }
    forall r | 0 <= r < n
      ensures Shrinks(states'[r], states'[r + 1])
    {
    }
  }

  lemma {:induction false} RoundIs(slots: Slots, victims: seq<Addr>, r: nat, fails: Failing, now: nat, target: nat,
                                   slots': Slots)
    requires Above(slots, target) && NextBatch(slots, victims)
    requires slots' == Batched(slots, victims, InRound(fails, r), now)
    ensures Round(slots, victims, r, fails, now, target, slots')
  {
  }

  lemma {:induction false} PassingEnds(slots0: Slots, states: seq<Slots>, batches: seq<seq<Addr>>, fails: Failing,
                                       now: nat, target: nat, slots: Slots)
    requires Passing(slots0, states, batches, fails, now, target, slots) && (!Above(slots, target) || slots == map[])
    ensures Passed(slots0, states, batches, fails, now, target, slots)
  {
    hide Round, Shrinks, Above;
  }

  /**
  One pass over the RAM tier, at clock reading `now`. It always ends and never
  changes what any block reads as, whichever writes fail. It is a run of rounds
  that each spill the coldest batch, failures skipped, until it is at its
  target, nothing is left or a round frees nothing. When no write fails it
  spills exactly what the reference does.
  */
  method EvictPass(store: Store, target: nat, now: nat, fails: Failing, ghost live: set<Addr>)
    returns (ghost spilled: seq<Addr>, ghost states: seq<Slots>, ghost batches: seq<seq<Addr>>)
    requires store.ram.Exact() && Confined(live, store.Now())
    modifies store, store.ram
    ensures store.ram.Exact() && SameValues(live, old(store.Now()), store.Now())
    ensures store.ram.capacity == 0 ==> store.Now() == old(store.Now())
    ensures store.ram.capacity > 0 ==>
              Passed(old(store.ram.slots), states, batches, fails, now, target, store.ram.slots)
    ensures (forall r, i :: !fails(r, i)) && store.ram.capacity > 0 && Resident(old(store.ram.slots)) < Word64 ==>
              PassDone(old(store.ram.slots), store.ram.slots, spilled, target)
  {
    hide Confined, Value, Resident, Wrap, PassAt, PassDone, Batched, ColdestFirst, Relisted, Passing, Passed;
    ghost var s0 := store.Now();
    ghost var good := (forall r, i :: !fails(r, i)) && Resident(s0.slots) < Word64;
    spilled, states, batches := [], [store.ram.slots], [];
    if store.ram.capacity == 0 {
      return;
    }
    PassStarts(s0.slots, target);
    PassingStarts(s0.slots, fails, now, target);
    NoWrap(s0.slots);
    var round := 0;
    while store.ram.used > target
      invariant store.ram.Exact() && SameValues(live, s0, store.Now())
      invariant Passing(s0.slots, states, batches, fails, now, target, store.ram.slots) && round == |batches|
      invariant good ==>
        PassAt(s0.slots, store.ram.slots, spilled, target) && Resident(store.ram.slots) == store.ram.used
      decreases store.ram.used
    {
      var before := store.ram.used;
      var victims := Coldest(store.ram.slots, Batch);
      if victims == [] {
        EmptyTier(store.ram.slots);
        break;
      }
      ghost var left := store.ram.slots;
      AreResident(left, victims);
      SpillBatch(store, victims, now, InRound(fails, round), live);
      PassingNext(s0.slots, states, batches, fails, now, target, left, victims, store.ram.slots);
      states, batches := states + [store.ram.slots], batches + [victims];
      if good {
        AllWritten(left, victims, InRound(fails, round), now);
        PassSlots(s0.slots, left, spilled, target);
        BatchAdvances(s0.slots, spilled, victims, target);
        StillFits(left, victims);
        spilled := spilled + victims;
        NoWrap(store.ram.slots);
      }
      round := round + 1;
      if store.ram.used >= before {
        return;
      }
    }
    PassingEnds(s0.slots, states, batches, fails, now, target, store.ram.slots);
    if good {
      PassEnds(s0.slots, store.ram.slots, spilled, target);
    }
  }

  lemma {:induction false} EmptyTier(slots: Slots)
    requires |slots| == 0
    ensures slots == map[]
  {
  }

  lemma {:induction false} AreResident(slots: Slots, victims: seq<Addr>)
    requires ColdestFirst(slots, victims)
    ensures NoRepeats(victims) && forall a :: a in victims ==> a in slots
  {
  }

  lemma {:induction false} PassSlots(slots: Slots, slots': Slots, spilled: seq<Addr>, target: nat)
    requires PassAt(slots, slots', spilled, target)
    ensures slots' == slots - AsSet(spilled)
  {
  }

  /** A counter that cannot have wrapped is exact. */
  lemma {:induction false} NoWrap(slots: Slots)
    ensures Resident(slots) < Word64 ==> Wrap(Resident(slots)) == Resident(slots)
  {
  }

  lemma {:induction false} StillFits(slots: Slots, gone: seq<Addr>)
    ensures Resident(slots - AsSet(gone)) <= Resident(slots)
  {
    if gone == [] {
      assert slots - AsSet(gone) == slots;
    } else {
      var n := |gone| - 1;
      StillFits(slots, gone[..n]);
      assert gone == gone[..n] + [gone[n]];
      assert slots - AsSet(gone) == slots - AsSet(gone[..n]) - {gone[n]};
      ResidentRemove(slots - AsSet(gone[..n]), gone[n]);
    }
  }

  lemma {:induction false} OneColdest(slots: Slots) returns (a: Addr)
    requires slots != map[]
    ensures a in slots && forall b :: b in slots ==> slots[a].last <= slots[b].last
    decreases slots
  {
    a :| a in slots;
    var others := slots - {a};
    assert forall b :: b in slots ==> b == a || b in others;
    if others != map[] {
      var c := OneColdest(others);
      if slots[c].last < slots[a].last {
        a := c;
      }
    }
  }

  /** Every coldest-first run can be completed to a full order. */
  lemma {:induction false} Completed(slots: Slots, spilled: seq<Addr>) returns (order: seq<Addr>)
    requires ColdestFirst(slots, spilled)
    ensures FullOrder(slots, order) && spilled <= order
    decreases slots - AsSet(spilled)
  {
    var left := slots - AsSet(spilled);
    if left == map[] {
      order := spilled;
      assert forall a :: a in slots ==> a in spilled by {
        assert forall a :: a in slots && a !in spilled ==> a in left;
      }
    } else {
      var a := OneColdest(left);
      assert AsSet([a]) == {a};
      Continued(slots, spilled, [a]);
      assert left - {a} == slots - AsSet(spilled + [a]);
      order := Completed(slots, spilled + [a]);
    }
  }

  /**
  What a pass achieves when no write fails and no block is empty: the tier
  ends at or under its target, every block spilled was at least as cold as
  every block kept, and fewer than 32 of them were spilled beyond the number
  that was enough.
  */
  lemma {:induction false} PassOutcome(slots: Slots, slots': Slots, spilled: seq<Addr>, target: nat, enough: nat)
    requires PassDone(slots, slots', spilled, target) && forall a :: a in slots ==> |slots[a].bytes| > 0
    requires enough <= |spilled| && Resident(slots - AsSet(spilled[..enough])) <= target
    ensures Resident(slots') <= target
    ensures forall a, b :: a in spilled && b in slots' ==> slots[a].last <= slots[b].last
    ensures |spilled| < enough + Batch
  {
    hide *;
    var order := AsSizes(slots, slots', spilled, target, enough);
    AllPositive(slots, order);
    NonEmptyEndsUnder(SizesOf(slots, order), target);
    SpiltFew(SizesOf(slots, order), target, enough);
    SpilledIsColder(slots, slots', spilled, target);
  }

  /** A finished pass, read as a pass over a list of sizes. */
  lemma {:induction false} AsSizes(slots: Slots, slots': Slots, spilled: seq<Addr>, target: nat, k: nat)
    returns (order: seq<Addr>)
    requires PassDone(slots, slots', spilled, target) && k <= |spilled|
    ensures FullOrder(slots, order) && |spilled| <= |SizesOf(slots, order)|
    ensures |spilled| == Spilt(SizesOf(slots, order), 0, target)
    ensures Rest(SizesOf(slots, order), |spilled|) == Resident(slots')
    ensures Rest(SizesOf(slots, order), k) == Resident(slots - AsSet(spilled[..k]))
  {
    hide Resident, Sorted, NoRepeats, ColdestFirst, Rest, Spilt;
    order := Completed(slots, spilled);
    RestIsResident(slots, order, |spilled|);
    RestIsResident(slots, order, k);
    assert order[..|spilled|] == spilled && order[..k] == spilled[..k];
  }

  /** A finished pass left RAM above its target exactly when, in coldest-first
      order, some batch of 32 was all empty while the rest exceeded the target. */
  lemma {:induction false} PassEndsAboveIff(slots: Slots, slots': Slots, spilled: seq<Addr>, target: nat,
                                            order: seq<Addr>)
    requires PassDone(slots, slots', spilled, target) && FullOrder(slots, order) && spilled <= order
    ensures Resident(slots') > target <==> SomeStuck(SizesOf(slots, order), 0, target)
  {
    hide Resident, Sorted, NoRepeats, ColdestFirst, Rest, Spilt, SomeStuck;
    RestIsResident(slots, order, |spilled|);
    assert order[..|spilled|] == spilled;
    EndsUnderTargetIff(SizesOf(slots, order), 0, target);
  }

  lemma {:induction false} SpilledIsColder(slots: Slots, slots': Slots, spilled: seq<Addr>, target: nat)
    requires PassDone(slots, slots', spilled, target)
    ensures forall a, b :: a in spilled && b in slots' ==> slots[a].last <= slots[b].last
  {
  }

  lemma {:induction false} AllPositive(slots: Slots, order: seq<Addr>)
    requires FullOrder(slots, order) && forall a :: a in slots ==> |slots[a].bytes| > 0
    ensures forall i :: 0 <= i < |order| ==> SizesOf(slots, order)[i] > 0
  {
    assert forall i :: 0 <= i < |order| ==> order[i] in order;
  }

  lemma {:induction false} SpiltFew(sizes: seq<nat>, target: nat, enough: nat)
    requires enough <= |sizes| && Rest(sizes, enough) <= target
    ensures Spilt(sizes, 0, target) < enough + Batch
  {
    if Rest(sizes, 0) > target {
      FewerThanABatchExtra(sizes, 0, target, enough);
    }
  }

  /** Thirty-two empty blocks, all colder than one of a hundred bytes. */
  ghost predicate OneFull(slots: Slots, full: Addr) {
    && |slots| == 33 && full in slots && slots[full].last == 1 && |slots[full].bytes| == 100
    && forall a :: a in slots && a != full ==> slots[a].last == 0 && slots[a].bytes == []
  }

  lemma {:induction false} FullIsLast(slots: Slots, full: Addr, order: seq<Addr>)
    requires OneFull(slots, full) && FullOrder(slots, order)
    ensures |order| == 33 && order[32] == full && forall i :: 0 <= i < 32 ==> order[i] != full
  {
    OrderCount(slots, order);
    var i :| 0 <= i < |order| && order[i] == full;
    assert order[32] in order;
    assert slots[order[i]].last <= slots[order[32]].last;
  }

  /** Such a tier, spilled by batches towards ten bytes, stays at a hundred. */
  lemma {:induction false} StopsAtFull(slots: Slots, full: Addr, slots': Slots, spilled: seq<Addr>)
    requires OneFull(slots, full) && PassDone(slots, slots', spilled, 10)
    ensures Resident(slots') == 100
  {
    hide Resident, Sorted, NoRepeats, ColdestFirst;
    var order := Completed(slots, spilled);
    FullIsLast(slots, full, order);
    var sizes := SizesOf(slots, order);
    assert forall i :: 0 <= i < 32 ==> order[i] in order && sizes[i] == 0;
    LeadingZeros(sizes, 0);
    LeadingZeros(sizes, 32);
    assert Spilt(sizes, 0, 10) == 32;
    RestIsResident(slots, order, 32);
    assert order[..32] == spilled;
  }

  /** The block at a layer of one prefix. */
  function At(layer: TokenId): Addr { Addr(ZeroDigest(), layer) }

  ghost function Layers(n: TokenId): set<Addr> { set i: TokenId | i < n :: At(i) }

  /** The store of the first `n` empty blocks. */
  ghost predicate Empties(s: Snap, n: TokenId) {
    && |s.slots| == n && s.slots.Keys <= Layers(n) && s.index.Keys <= Layers(n)
    && (forall a :: a in s.slots ==> s.slots[a] == Slot([], 0))
  }

  lemma {:induction false} OneMore(s: Snap, n: TokenId, bytes: Data, now: nat)
    requires n < 33 && Empties(s, n)
    ensures var s' := Apply(s, PutOp(At(n), bytes, "", now));
            && s'.slots == s.slots[At(n) := Slot(bytes, now)] && |s'.slots| == n + 1
            && s'.slots.Keys <= Layers(n + 1) && s'.index.Keys <= Layers(n + 1)
  {
    hide Layers, At;
    LayersGrow(n);
    Grown(s.slots, At(n), Slot(bytes, now));
  }

  lemma {:induction false} LayersGrow(n: TokenId)
    requires n < 33
    ensures At(n) !in Layers(n) && Layers(n + 1) == Layers(n) + {At(n)}
  {
  }

  lemma {:induction false} Grown(slots: Slots, a: Addr, slot: Slot)
    requires a !in slots
    ensures |slots[a := slot]| == |slots| + 1
  {
    assert slots[a := slot].Keys == slots.Keys + {a};
    assert |slots[a := slot]| == |slots[a := slot].Keys| && |slots| == |slots.Keys|;
  }

  lemma {:induction false} LayersApart(n: TokenId)
    ensures Apart(Layers(n))
  {
  }

  /** A store of thirty-two empty blocks and one full, later one. */
  method FullStore() returns (store: Store)
    ensures fresh(store) && fresh(store.ram) && store.ram.Exact() && store.ram.capacity > 0
    ensures OneFull(store.ram.slots, At(32)) && Confined(Layers(33), store.Now())
  {
    hide Resident, Wrap, Layers;
    store := new Store(1000);
    for i := 0 to 32
      invariant fresh(store) && fresh(store.ram) && store.ram.capacity == 1000
      invariant store.ram.Exact() && Empties(store.Now(), i)
    {
      OneMore(store.Now(), i, [], 0);
      store.PutRam(At(i), [], "", 0);
    }
    OneMore(store.Now(), 32, seq(100, _ => 0), 1);
    LayersApart(33);
    store.PutRam(At(32), seq(100, _ => 0), "", 1);
  }

  /** A pass over it without a single failing write stops with a hundred
      bytes in RAM, aiming at ten. */
  method EmptyBatchStopsPass() returns (used: nat)
    ensures used == 100
  {
    hide Resident, Wrap, PassDone, OneFull, Confined, SameValues, Layers, At;
    var store := FullStore();
    ghost var slots := store.ram.slots;
    SmallTier(slots, At(32));
    ghost var spilled, _, _ := EvictPass(store, 10, 2, (r, i) => false, Layers(33));
    StopsAtFull(slots, At(32), store.ram.slots, spilled);
    NoWrap(store.ram.slots);
    used := store.ram.used;
  }

  lemma {:induction false} NothingYet(slots: Slots)
    ensures ColdestFirst(slots, [])
  {
  }

  lemma {:induction false} SmallTier(slots: Slots, full: Addr)
    requires OneFull(slots, full)
    ensures Resident(slots) < Word64
  {
    hide Resident, Sorted, NoRepeats, ColdestFirst;
    NothingYet(slots);
    var order := Completed(slots, []);
    FullIsLast(slots, full, order);
    var sizes := SizesOf(slots, order);
    assert forall i :: 0 <= i < 32 ==> order[i] in order && sizes[i] == 0;
    LeadingZeros(sizes, 0);
    RestIsResident(slots, order, 0);
    assert slots - AsSet(order[..0]) == slots;
  }

  lemma {:induction false} LeadingZeros(sizes: seq<nat>, k: nat)
    requires |sizes| == 33 && k <= 32 && (forall i :: 0 <= i < 32 ==> sizes[i] == 0) && sizes[32] == 100
    ensures Rest(sizes, k) == 100
    decreases 32 - k
  {
    if k < 32 {
      LeadingZeros(sizes, k + 1);
    } else {
      assert Rest(sizes, 33) == 0;
    }
  }
}
