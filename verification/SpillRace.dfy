/**
The store with spills, promotions and forgets split at their awaits, so that
anything may run in between. Blocks are content-addressed: every put at an
address carries the same bytes. Then no interleaving reads wrong bytes, and a
block nobody forgets stays readable, because a spill's file write comes before
its RAM eviction.
*/
module SpillRace {
  import opened Wrappers
  import opened RamTier
  import opened TieredStore

  type Job = nat

  /** A job between two of its steps. */
  datatype Pending =
    | Spilling(addr: Addr, bytes: Data)   // bytes read from RAM, file not yet written
    | Spilled(addr: Addr, bytes: Data)    // file written, RAM not yet evicted
    | Probing(addr: Addr)                 // not found in RAM, file not yet read
    | Promoting(addr: Addr, bytes: Data)  // file read, not yet put into RAM

  datatype World = World(snap: Snap, jobs: map<Job, Pending>)

  datatype Step =
    | Put(addr: Addr, bytes: Data, now: nat)
    | SpillStart(job: Job, addr: Addr, now: nat)
    | SpillWrite(job: Job, fails: bool)
    | SpillFinish(job: Job, now: nat)
    | PromoteStart(job: Job, addr: Addr)
    | PromoteRead(job: Job, fails: bool)
    | PromoteFinish(job: Job, now: nat)
    | ForgetRam(addr: Addr)
    | ForgetFile(addr: Addr)
    | ForgetIndex(addr: Addr)

  predicate Enabled(w: World, e: Step) {
    match e
    case SpillStart(k, a, _) => k !in w.jobs && a in w.snap.slots
    case SpillWrite(k, _) => k in w.jobs && w.jobs[k].Spilling?
    case SpillFinish(k, _) => k in w.jobs && w.jobs[k].Spilled?
    case PromoteStart(k, a) => k !in w.jobs && a !in w.snap.slots
    case PromoteRead(k, _) => k in w.jobs && w.jobs[k].Probing?
    case PromoteFinish(k, _) => k in w.jobs && w.jobs[k].Promoting?
    case _ => true
  }

  function Next(w: World, e: Step): World
    requires Enabled(w, e)
  {
    var s := w.snap;
    match e
    case Put(a, bytes, now) => w.(snap := Stored(s, a, bytes, "", now))
    case SpillStart(k, a, now) => World(Touched(s, a, now), w.jobs[k := Spilling(a, s.slots[a].bytes)])
    case SpillWrite(k, fails) =>
      var t := w.jobs[k];
      if fails then w.(jobs := w.jobs - {k})
      else World(s.(files := s.files[PathOf(t.addr) := t.bytes]), w.jobs[k := Spilled(t.addr, t.bytes)])
    case SpillFinish(k, now) =>
      var t := w.jobs[k];
      World(s.(slots := s.slots - {t.addr}, index := s.index[t.addr := Meta("", |t.bytes|, now, OnSsd)]), w.jobs - {k})
    case PromoteStart(k, a) => w.(jobs := w.jobs[k := Probing(a)])
    case PromoteRead(k, fails) =>
      var a := w.jobs[k].addr;
      if fails || PathOf(a) !in s.files then w.(jobs := w.jobs - {k})
      else w.(jobs := w.jobs[k := Promoting(a, s.files[PathOf(a)])])
    case PromoteFinish(k, now) =>
      var t := w.jobs[k];
      World(Stored(s, t.addr, t.bytes, "", now), w.jobs - {k})
    case ForgetRam(a) => w.(snap := s.(slots := s.slots - {a}))
    case ForgetFile(a) => w.(snap := s.(files := s.files - {PathOf(a)}))
    case ForgetIndex(a) => w.(snap := s.(index := s.index - {a}))
  }

  type Content = Addr -> Data

  /** Everything anywhere in the store carries its address's content. */
  ghost predicate Right(live: set<Addr>, content: Content, w: World) {
    && (forall a :: a in w.snap.slots ==> a in live && w.snap.slots[a].bytes == content(a))
    && (forall a :: a in live && PathOf(a) in w.snap.files ==> w.snap.files[PathOf(a)] == content(a))
    && (forall k :: k in w.jobs ==> w.jobs[k].addr in live)
    && (forall k :: k in w.jobs && !w.jobs[k].Probing? ==> w.jobs[k].bytes == content(w.jobs[k].addr))
  }

  /** A step that names only live addresses and puts only their content. */
  ghost predicate Fits(live: set<Addr>, content: Content, e: Step) {
    match e
    case Put(a, bytes, _) => a in live && bytes == content(a)
    case PromoteStart(_, a) => a in live
    case _ => true
  }

  lemma {:induction false} StepRight(live: set<Addr>, content: Content, w: World, e: Step)
    requires Apart(live) && Right(live, content, w) && Enabled(w, e) && Fits(live, content, e)
    ensures Right(live, content, Next(w, e))
  {
  }

  /** `a` can be read, and no spill is about to evict its only copy. */
  ghost predicate Safe(w: World, a: Addr) {
    && Value(w.snap, a).Some?
    && (forall k :: k in w.jobs && w.jobs[k].Spilled? && w.jobs[k].addr == a ==> PathOf(a) in w.snap.files)
  }

  ghost predicate Forgets(e: Step, a: Addr) {
    match e
    case ForgetRam(b) => b == a
    case ForgetFile(b) => PathOf(b) == PathOf(a)
    case _ => false
  }

  lemma {:induction false} StepSafe(w: World, e: Step, a: Addr)
    requires Enabled(w, e) && !Forgets(e, a) && Safe(w, a)
    ensures Safe(Next(w, e), a)
  {
    var w' := Next(w, e);
    assert PathOf(a) in w.snap.files ==> PathOf(a) in w'.snap.files;
  }

  ghost predicate Reaches(w: World, steps: seq<Step>, w': World)
    decreases |steps|
  {
    if steps == [] then w' == w
    else Enabled(w, steps[0]) && Reaches(Next(w, steps[0]), steps[1..], w')
  }

  /** Over every interleaving, whatever is read is the address's content. */
  lemma {:induction false} ReadsAreRight(live: set<Addr>, content: Content, w: World, steps: seq<Step>, w': World,
                                         a: Addr)
    requires Apart(live) && Right(live, content, w) && Reaches(w, steps, w') && a in live
    requires forall e :: e in steps ==> Fits(live, content, e)
    ensures Right(live, content, w')
    ensures Value(w'.snap, a) == None || Value(w'.snap, a) == Some(content(a))
    decreases |steps|
  {
    hide Next, Enabled, Fits, Apart;
    if steps != [] {
      assert steps[0] in steps && forall e :: e in steps[1..] ==> e in steps;
      StepRight(live, content, w, steps[0]);
      ReadsAreRight(live, content, Next(w, steps[0]), steps[1..], w', a);
    }
  }

  /** Over every interleaving that does not forget it, a readable block stays
      readable. */
  lemma {:induction false} StaysReadable(w: World, steps: seq<Step>, w': World, a: Addr)
    requires Reaches(w, steps, w') && Safe(w, a) && forall e :: e in steps ==> !Forgets(e, a)
    ensures Safe(w', a) && Value(w'.snap, a).Some?
    decreases |steps|
  {
    hide Next, Enabled, Value;
    if steps != [] {
      assert steps[0] in steps && forall e :: e in steps[1..] ==> e in steps;
      StepSafe(w, steps[0], a);
      StaysReadable(Next(w, steps[0]), steps[1..], w', a);
    }
  }

  /** A put makes its block safe unless a spill of it has written its file and
      that file is gone again. */
  lemma {:induction false} PutIsSafe(w: World, a: Addr, bytes: Data, now: nat)
    ensures Safe(Next(w, Put(a, bytes, now)), a) <==>
              forall k :: k in w.jobs && w.jobs[k].Spilled? && w.jobs[k].addr == a ==> PathOf(a) in w.snap.files
  {
  }

  // ---------------------------------------------------------------------
  // Without content addressing
  // ---------------------------------------------------------------------

  /** A step that neither reads nor changes anything of `a`. */
  predicate Elsewhere(w: World, e: Step, a: Addr)
    requires Enabled(w, e)
  {
    match e
    case Put(b, _, _) => b != a
    case SpillStart(_, b, _) => b != a
    case SpillWrite(j, _) => PathOf(w.jobs[j].addr) != PathOf(a)
    case SpillFinish(j, _) => w.jobs[j].addr != a
    case PromoteStart(_, b) => b != a
    case PromoteRead(j, _) => w.jobs[j].addr != a
    case PromoteFinish(j, _) => w.jobs[j].addr != a
    case ForgetRam(b) => b != a
    case ForgetFile(b) => PathOf(b) != PathOf(a)
    case ForgetIndex(b) => b != a
  }

  /** Between two steps of one task on `a`: puts at `a`, the task's own steps
      in between, and anything elsewhere. A spill's own step is its write, a
      forget's are the removals of file and index entry. */
  ghost predicate Amid(w: World, steps: seq<Step>, w': World, a: Addr, k: Option<Job>)
    decreases |steps|
  {
    if steps == [] then w' == w
    else
      var e := steps[0];
      && Enabled(w, e)
      && ((e.Put? && e.addr == a) || Own(e, a, k) || Elsewhere(w, e, a))
      && Amid(Next(w, e), steps[1..], w', a, k)
  }

  predicate Own(e: Step, a: Addr, k: Option<Job>) {
    match k
    case Some(j) => e == SpillWrite(j, false)
    case None => e == ForgetFile(a) || e == ForgetIndex(a)
  }

  /** The last bytes put at `a` by the steps, if any. */
  function LastIn(steps: seq<Step>, a: Addr): Option<Data> {
    if steps == [] then None
    else
      var later := LastIn(steps[1..], a);
      if later.Some? then later else if steps[0].Put? && steps[0].addr == a then Some(steps[0].bytes) else None
  }

  function Or(x: Option<Data>, y: Data): Data { if x.Some? then x.value else y }

  /** While a spill of `a` is under way: the bytes it took, in the file once
      written, and the latest bytes in RAM. */
  ghost predicate UnderWay(w: World, k: Job, a: Addr, took: Data, current: Data) {
    && k in w.jobs && (w.jobs[k] == Spilling(a, took) || w.jobs[k] == Spilled(a, took))
    && (w.jobs[k].Spilled? ==> PathOf(a) in w.snap.files && w.snap.files[PathOf(a)] == took)
    && a in w.snap.slots && w.snap.slots[a].bytes == current
  }

  lemma {:induction false} AmidSpill(w: World, steps: seq<Step>, w': World, a: Addr, k: Job, took: Data, current: Data)
    requires Amid(w, steps, w', a, Some(k)) && UnderWay(w, k, a, took, current)
    ensures UnderWay(w', k, a, took, Or(LastIn(steps, a), current))
    decreases |steps|
  {
    if steps != [] {
      var e := steps[0];
      var next := if e.Put? && e.addr == a then e.bytes else current;
      assert UnderWay(Next(w, e), k, a, took, next);
      AmidSpill(Next(w, e), steps[1..], w', a, k, took, next);
    }
  }

  /**
  A spill of `a` that runs to its end, with anything elsewhere and puts at `a`
  in between: the block reads as the bytes the spill started with, so an
  update is lost if and only if the last put in between carried other bytes.
  */
  lemma {:induction false} SpillLosesUpdateIff(w: World, k: Job, a: Addr, t: nat, steps: seq<Step>, w': World, t': nat)
    requires Enabled(w, SpillStart(k, a, t)) && Amid(Next(w, SpillStart(k, a, t)), steps, w', a, Some(k))
    requires k in w'.jobs && w'.jobs[k].Spilled?
    ensures var took, end := w.snap.slots[a].bytes, Next(w', SpillFinish(k, t')).snap;
            && Value(end, a) == Some(took)
            && (Value(end, a) != Some(Or(LastIn(steps, a), took)) <==> Or(LastIn(steps, a), took) != took)
  {
    var took := w.snap.slots[a].bytes;
    AmidSpill(Next(w, SpillStart(k, a, t)), steps, w', a, k, took, took);
  }

  ghost predicate Promoted(w: World, k: Job, a: Addr, took: Data) {
    k in w.jobs && w.jobs[k] == Promoting(a, took)
  }

  lemma {:induction false} AmidPromote(w: World, steps: seq<Step>, w': World, a: Addr, k: Job, took: Data)
    requires Amid(w, steps, w', a, Some(k)) && Promoted(w, k, a, took)
    ensures Promoted(w', k, a, took)
    decreases |steps|
  {
    if steps != [] {
      AmidPromote(Next(w, steps[0]), steps[1..], w', a, k, took);
    }
  }

  /** A read that promotes `a` from its file undoes, in the same way, whatever
      was put after the file was read. */
  lemma {:induction false} PromoteLosesUpdateIff(w: World, k: Job, a: Addr, steps: seq<Step>, w': World, t: nat)
    requires k in w.jobs && w.jobs[k] == Probing(a) && PathOf(a) in w.snap.files
    requires Amid(Next(w, PromoteRead(k, false)), steps, w', a, Some(k))
    ensures Enabled(w', PromoteFinish(k, t))
    ensures var took, was := w.snap.files[PathOf(a)], Value(w.snap, a).value;
            var end := Next(w', PromoteFinish(k, t)).snap;
            && Value(end, a) == Some(took)
            && (Value(end, a) != Some(Or(LastIn(steps, a), was)) <==> Or(LastIn(steps, a), was) != took)
  {
    AmidPromote(Next(w, PromoteRead(k, false)), steps, w', a, k, w.snap.files[PathOf(a)]);
  }

  lemma {:induction false} AmidForget(w: World, steps: seq<Step>, w': World, a: Addr)
    requires Amid(w, steps, w', a, None)
    ensures a in w'.snap.slots <==> a in w.snap.slots || LastIn(steps, a).Some?
    ensures a in w'.snap.slots && LastIn(steps, a).Some? ==> w'.snap.slots[a].bytes == LastIn(steps, a).value
    ensures a in w'.snap.slots && LastIn(steps, a).None? ==> w'.snap.slots[a].bytes == w.snap.slots[a].bytes
    ensures ForgetFile(a) in steps || PathOf(a) !in w.snap.files ==> PathOf(a) !in w'.snap.files
    decreases |steps|
  {
    if steps != [] {
      var e := steps[0];
      AmidForget(Next(w, e), steps[1..], w', a);
      assert steps == [e] + steps[1..];
    }
  }

  lemma {:induction false} LastOfBoth(x: seq<Step>, y: seq<Step>, a: Addr)
    ensures LastIn(x + y, a) == if LastIn(y, a).Some? then LastIn(y, a) else LastIn(x, a)
  {
    if x == [] {
      assert x + y == y;
    } else {
      assert (x + y)[1..] == x[1..] + y;
      LastOfBoth(x[1..], y, a);
    }
  }

  /**
  The TTL pass scans first and forgets afterwards, block by block, each forget
  itself in steps. A block found stale by the scan and put again since is lost,
  fresh as it is, if and only if no put of it falls after its RAM eviction.
  */
  lemma {:induction false} FreshPutLostIff(w: World, ttl: nat, now: nat, early: seq<Step>, w1: World, late: seq<Step>,
                                           w2: World, a: Addr)
    requires a in StaleSet(w.snap, ttl, now) && Amid(w, early, w1, a, None)
    requires Amid(Next(w1, ForgetRam(a)), late, w2, a, None) && ForgetFile(a) in late
    ensures Value(w2.snap, a) == LastIn(late, a)
    ensures LastIn(early + late, a).Some? ==> (Value(w2.snap, a) != LastIn(early + late, a) <==> LastIn(late, a).None?)
  {
    AmidForget(Next(w1, ForgetRam(a)), late, w2, a);
    LastOfBoth(early, late, a);
  }

  // ---------------------------------------------------------------------
  // Any number of overlapping spills and promotions of one block
  // ---------------------------------------------------------------------

  /** A run in which `a` is neither put nor forgotten and no other address
      writes its file. Spills and promotions of `a` may overlap at will. */
  ghost predicate Unwritten(w: World, steps: seq<Step>, w': World, a: Addr)
    decreases |steps|
  {
    if steps == [] then w' == w
    else
      var e := steps[0];
      && Enabled(w, e) && !(e.Put? && e.addr == a) && !Forgets(e, a)
      && (e.SpillWrite? && PathOf(w.jobs[e.job].addr) == PathOf(a) ==> w.jobs[e.job].addr == a)
      && Unwritten(Next(w, e), steps[1..], w', a)
  }

  /** Every such run ends with `a` reading as `value`. */
  ghost predicate Keeps(w: World, a: Addr, value: Option<Data>) {
    forall steps, w' :: Unwritten(w, steps, w', a) ==> Value(w'.snap, a) == value
  }

  /** What the job will leave `a` reading as is `bytes`, or nothing new. */
  predicate Harmless(s: Snap, job: Pending, a: Addr, bytes: Data) {
    job.addr == a ==>
      match job
      case Probing(_) => PathOf(a) in s.files ==> s.files[PathOf(a)] == bytes
      case Spilled(_, _) => PathOf(a) in s.files && s.files[PathOf(a)] == bytes
      case _ => job.bytes == bytes
  }

  ghost predicate AllHarmless(w: World, a: Addr, bytes: Data) {
    forall k :: k in w.jobs ==> Harmless(w.snap, w.jobs[k], a, bytes)
  }

  lemma {:induction false} HarmlessStep(w: World, e: Step, w': World, a: Addr, bytes: Data)
    requires Unwritten(w, [e], w', a) && Value(w.snap, a) == Some(bytes) && AllHarmless(w, a, bytes)
    ensures Value(w'.snap, a) == Some(bytes) && AllHarmless(w', a, bytes)
  {
    assert [e][1..] == [];
  }

  lemma {:induction false} StaysHarmless(w: World, steps: seq<Step>, w': World, a: Addr, bytes: Data)
    requires Unwritten(w, steps, w', a) && Value(w.snap, a) == Some(bytes) && AllHarmless(w, a, bytes)
    ensures Value(w'.snap, a) == Some(bytes)
    decreases |steps|
  {
    if steps != [] {
      var e := steps[0];
      assert Unwritten(w, [e], Next(w, e), a) by { assert [e][1..] == []; }
      HarmlessStep(w, e, Next(w, e), a, bytes);
      StaysHarmless(Next(w, e), steps[1..], w', a, bytes);
    }
  }

  /** The job alone, run to its end. */
  function Rest(k: Job, job: Pending): seq<Step> {
    match job
    case Probing(_) => [PromoteRead(k, false), PromoteFinish(k, 0)]
    case Spilling(_, _) => [SpillWrite(k, false), SpillFinish(k, 0)]
    case Spilled(_, _) => [SpillFinish(k, 0)]
    case Promoting(_, _) => [PromoteFinish(k, 0)]
  }

  lemma {:induction false} HarmfulRuns(w: World, k: Job, a: Addr, bytes: Data) returns (w': World)
    requires k in w.jobs && !Harmless(w.snap, w.jobs[k], a, bytes) && a in w.snap.slots
    ensures Unwritten(w, Rest(k, w.jobs[k]), w', a) && Value(w'.snap, a) != Some(bytes)
  {
    var steps := Rest(k, w.jobs[k]);
    var w1 := Next(w, steps[0]);
    if |steps| == 1 {
      w' := w1;
      assert steps[1..] == [];
    } else {
      w' := Next(w1, steps[1]);
      assert steps[1..][1..] == [] && steps[1..][0] == steps[1];
    }
  }

  /**
  Bytes in RAM survive every run of spills and promotions of their block,
  overlapping at will, if and only if no job under way on that block is about
  to bring back others: one that holds other bytes, a read about to find them
  in the file, or a spill whose file does not hold the bytes any more.
  */
  lemma {:induction false} UpdateSurvivesIff(w: World, a: Addr)
    requires a in w.snap.slots
    ensures var bytes := w.snap.slots[a].bytes;
            AllHarmless(w, a, bytes) <==> Keeps(w, a, Some(bytes))
  {
    hide Harmless;
    var bytes := w.snap.slots[a].bytes;
    if AllHarmless(w, a, bytes) {
      forall steps, w' | Unwritten(w, steps, w', a)
        ensures Value(w'.snap, a) == Some(bytes)
      {
        StaysHarmless(w, steps, w', a, bytes);
      }
    } else {
      var k :| k in w.jobs && !Harmless(w.snap, w.jobs[k], a, bytes);
      var w' := HarmfulRuns(w, k, a, bytes);
      assert Unwritten(w, Rest(k, w.jobs[k]), w', a);
    }
  }

  /** No job holds bytes for `a`. */
  ghost predicate EmptyHanded(w: World, a: Addr) {
    forall k :: k in w.jobs && w.jobs[k].addr == a ==> w.jobs[k].Probing? || w.jobs[k].Spilled?
  }

  lemma {:induction false} StaysGone(w: World, steps: seq<Step>, w': World, a: Addr)
    requires Unwritten(w, steps, w', a) && Value(w.snap, a) == None && EmptyHanded(w, a)
    ensures Value(w'.snap, a) == None
    decreases |steps|
  {
    if steps != [] {
      StaysGone(Next(w, steps[0]), steps[1..], w', a);
    }
  }

  lemma {:induction false} ComesBack(w: World, k: Job, a: Addr) returns (steps: seq<Step>, w': World)
    requires k in w.jobs && w.jobs[k].addr == a && (w.jobs[k].Spilling? || w.jobs[k].Promoting?)
    requires Value(w.snap, a) == None
    ensures Unwritten(w, steps, w', a) && Value(w'.snap, a) == Some(w.jobs[k].bytes)
  {
    steps := [if w.jobs[k].Spilling? then SpillWrite(k, false) else PromoteFinish(k, 0)];
    w' := Next(w, steps[0]);
    assert steps[1..] == [];
  }

  /** A forgotten block stays gone in every such run if and only if no job
      under way on it still holds its bytes. */
  lemma {:induction false} StaysGoneIff(w: World, a: Addr)
    requires Value(w.snap, a) == None
    ensures EmptyHanded(w, a) <==> Keeps(w, a, None)
  {
    if EmptyHanded(w, a) {
      forall steps, w' | Unwritten(w, steps, w', a)
        ensures Value(w'.snap, a) == None
      {
        StaysGone(w, steps, w', a);
      }
    } else {
      var k :| k in w.jobs && w.jobs[k].addr == a && !(w.jobs[k].Probing? || w.jobs[k].Spilled?);
      var steps, w' := ComesBack(w, k, a);
      assert Unwritten(w, steps, w', a);
    }
  }

  /** A block updated while its spill is being written reads as the old bytes
      afterwards: the update is lost. */
  lemma {:induction false} LostUpdateExample(a: Addr)
    ensures var w := World(Empty, map[]);
            var steps := [Put(a, [1], 0), SpillStart(0, a, 0), Put(a, [2], 0), SpillWrite(0, false), SpillFinish(0, 0)];
            exists w' :: Reaches(w, steps, w') && Value(w'.snap, a) == Some([1])
  {
    var e1, e2, e3, e4, e5 :=
      Put(a, [1], 0), SpillStart(0, a, 0), Put(a, [2], 0), SpillWrite(0, false), SpillFinish(0, 0);
    var w0 := World(Empty, map[]);
    var w2 := Next(Next(w0, e1), e2);
    SpillTorn(a, w2);
    hide Next, Value, Enabled;
    var w5 := Next(Next(Next(w2, e3), e4), e5);
    Cons(Next(Next(w2, e3), e4), e5, [], w5);
    Cons(Next(w2, e3), e4, [e5], w5);
    Cons(w2, e3, [e4, e5], w5);
    Cons(Next(w0, e1), e2, [e3, e4, e5], w5);
    Cons(w0, e1, [e2, e3, e4, e5], w5);
    assert [e1] + [e2, e3, e4, e5] == [e1, e2, e3, e4, e5];
  }

  lemma {:induction false} SpillTorn(a: Addr, w: World)
    requires 0 in w.jobs && w.jobs[0] == Spilling(a, [1])
    ensures var w3 := Next(w, Put(a, [2], 0));
            && Enabled(w3, SpillWrite(0, false)) && Enabled(Next(w3, SpillWrite(0, false)), SpillFinish(0, 0))
            && Value(Next(Next(w3, SpillWrite(0, false)), SpillFinish(0, 0)).snap, a) == Some([1])
  {
  }

  lemma {:induction false} Cons(w: World, e: Step, rest: seq<Step>, w': World)
    requires Enabled(w, e) && Reaches(Next(w, e), rest, w')
    ensures Reaches(w, [e] + rest, w')
  {
    assert ([e] + rest)[1..] == rest;
  }
}
