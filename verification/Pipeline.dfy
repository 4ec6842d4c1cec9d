/**
The protocol between the coordinator and its workers
(rust/services/cgn-infer/src/pipeline/mod.rs), with everything that can go
wrong on the way: a request or reply lost with its stream, a worker restarted,
and an activation that cannot be encoded or decoded.
*/
module Pipeline {
  import opened Wrappers
  import opened Transformer
  import opened LayerSplit
  import opened BatchContract
  import opened BatchedSpec
  import opened PipelineReference
  import opened PipelineWire

  // ---------------------------------------------------------------------
  // Workers and the remote pass
  // ---------------------------------------------------------------------

  /**
  What can happen to one exchange with one worker. The first three end the
  link's stream, which is opened once and never again. The last two are codec
  errors, on either side, before or after the worker's pass; they come back as
  an error and leave the link usable.
  */
  datatype Fault = Fine | NotReceived | ReplyLost | Wiped | NotEncoded | NotDecoded {
    predicate Closes() { NotReceived? || ReplyLost? || Wiped? }
  }

  /** On a link that has ended nothing ever comes back. */
  function Through(open: bool, f: Fault): Fault {
    if open || f.Closes() then f else if f.NotEncoded? then NotReceived else ReplyLost
  }

  /** The entry a worker finds (or creates) for a chunk at `pos`. */
  function WorkerEntry(r: LayerRange, kvs: Caches, s: SeqId, pos: nat): SeqKv {
    var kv := if s in kvs then kvs[s] else NewKv(SliceLen(r));
    if pos == 0 then kv.Clear() else kv
  }

  /** `WorkerService::step` between decoding the chunk and encoding the reply. */
  function WorkerStep(net: Net, r: LayerRange, kvs: Caches, s: SeqId, pos: nat,
                      rows: seq<Row>): (Result<seq<Row>>, Caches)
    requires r.start < r.end
  {
    var kv := WorkerEntry(r, kvs, s, pos);
    if kv.tokens != pos then (Failed, kvs[s := kv])
    else
      var (res, kv') := Forward(net, r.start, r.end, rows, pos, kv);
      (res, kvs[s := kv'])
  }

  /** How a pass ended, what the workers hold, and which links are open. */
  datatype Pass = Pass(res: Result<seq<Row>>, workers: seq<Caches>, links: seq<bool>)

  /** `forward_remote` from worker `k` on. Index 0 is the coordinator's own
      place and stays unused. */
  ghost function Remote(F: Fleet, k: nat, workers: seq<Caches>, links: seq<bool>, s: SeqId, pos: nat, rows: seq<Row>,
                        faults: seq<Fault>): (r: Pass)
    requires Assembled(F) && 0 < k <= |F.ranges| == |workers| == |links| == |faults|
    ensures |r.workers| == |workers| && |r.links| == |links|
    ensures r.res.Done? ==> |r.res.value| == |rows|
    decreases |F.ranges| - k
  {
    if k == |F.ranges| then Pass(Done(rows), workers, links)
    else
      var f := Through(links[k], faults[k]);
      var links' := if f.Closes() then links[k := false] else links;
      if f.NotReceived? || f.NotEncoded? then Pass(Failed, workers, links')
      else if f.Wiped? then Pass(Failed, workers[k := map[]], links')
      else
        var (res, kvs) := WorkerStep(F.net, F.ranges[k], workers[k], s, pos, F.send(rows));
        if !f.Fine? || res.Failed? then Pass(Failed, workers[k := kvs], links')
        else Remote(F, k + 1, workers[k := kvs], links', s, pos, F.back[k](res.value), faults)
  }

  // ---------------------------------------------------------------------
  // What a worker may hold
  // ---------------------------------------------------------------------

  /** The cache of a log, or a cache of `n` positions no log accounts for. */
  datatype Held = Pure(log: Log) | Impure(n: nat) {
    function Len(): nat { if Pure? then |Concat(log)| else n }
  }

  ghost predicate Matches(F: Fleet, k: nat, kv: SeqKv, h: Held)
    requires Assembled(F) && k < |F.ranges|
  {
    && |kv.entries| == SliceLen(F.ranges[k]) && kv.tokens == h.Len()
    && (h.Pure? ==> ProperLog(F, h.log) && kv == StageCache(F, k, h.log))
  }

  /** Worker `k`'s cache for `s` is one of `held`, or missing. */
  ghost predicate Holds(F: Fleet, k: nat, kvs: Caches, s: SeqId, held: set<Held>)
    requires Assembled(F) && k < |F.ranges|
  {
    s in kvs ==> exists h :: h in held && Matches(F, k, kvs[s], h)
  }

  /** Two logs that leave the same caches: the same chunks, or just the same
      tokens when the wire treats every row on its own. */
  predicate Alike(perRow: bool, g: Log, h: Log) {
    Concat(g) == Concat(h) && (perRow || g == h)
  }

  /** A worker whose cache has the coordinator's length has the coordinator's
      log: what makes the `index_pos` check sufficient. */
  ghost predicate Safe(perRow: bool, log: Log, held: set<Held>) {
    log != [] ==> forall h :: h in held && h.Len() == |Concat(log)| ==> h.Pure? && Alike(perRow, h.log, log)
  }

  /** Some worker may take a chunk at `log`. */
  ghost predicate Accepts(log: Log, held: set<Held>) {
    log == [] || exists h :: h in held && h.Len() == |Concat(log)|
  }

  /** An empty chunk adds nothing. */
  function Extend(log: Log, c: seq<Token>): Log { if c == [] then log else log + [c] }

  /** What a worker holds once it has taken `c` at `log`. */
  ghost function Taken(perRow: bool, held: set<Held>, log: Log, c: seq<Token>): Held {
    if Safe(perRow, log, held) then Pure(Extend(log, c)) else Impure(|Concat(log)| + |c|)
  }

  /** What a worker may hold after a chunk was sent and an error came back. */
  ghost function AfterError(perRow: bool, held: set<Held>, log: Log, c: seq<Token>): set<Held> {
    held + {Pure([])} + if Accepts(log, held) then {Taken(perRow, held, log, c)} else {}
  }

  /** The rows the coordinator holds after stage `k` of the chunk `c`. */
  ghost function Given(F: Fleet, k: nat, log: Log, c: seq<Token>): (r: seq<Row>)
    requires Assembled(F) && k < |F.ranges|
    ensures |r| == |c|
  {
    if c == [] then [] else Handed(F, k, log + [c])
  }

  /** Entries of other sequences are kept, or lost with the process. */
  ghost predicate Untouched(w: Caches, w': Caches, s: SeqId) {
    forall q :: q in w' && q != s ==> q in w && w'[q] == w[q]
  }

  lemma {:induction false} HoldsMore(F: Fleet, k: nat, kvs: Caches, s: SeqId, held: set<Held>, more: set<Held>)
    requires Assembled(F) && k < |F.ranges| && Holds(F, k, kvs, s, held) && held <= more
    ensures Holds(F, k, kvs, s, more)
  {
    if s in kvs {
      var h :| h in held && Matches(F, k, kvs[s], h);
      assert h in more;
    }
  }

  lemma {:induction false} HoldsOne(F: Fleet, k: nat, kvs: Caches, s: SeqId, h: Held)
    requires Assembled(F) && k < |F.ranges| && s in kvs && Matches(F, k, kvs[s], h)
    ensures forall held :: h in held ==> Holds(F, k, kvs, s, held)
  {
  }

  lemma {:induction false} CleanSlice(F: Fleet, k: nat, kv: SeqKv)
    requires Assembled(F) && k < |F.ranges| && |kv.entries| == SliceLen(F.ranges[k])
    ensures kv.Clear() == NewKv(SliceLen(F.ranges[k])) == StageCache(F, k, [])
    ensures Matches(F, k, kv.Clear(), Pure([]))
  {
    EmptyLogCache(F, k);
    assert kv.Clear().entries == NewKv(SliceLen(F.ranges[k])).entries;
  }

  lemma {:induction false} StageCacheShape(F: Fleet, k: nat, g: Log)
    requires Assembled(F) && k < |F.ranges|
    ensures |StageCache(F, k, g).entries| == SliceLen(F.ranges[k]) && StageCache(F, k, g).tokens == |Concat(g)|
  {
  }

  /** What the entry a worker finds for a chunk at `log` is the cache of. */
  lemma {:induction false} FoundMatches(F: Fleet, k: nat, kvs: Caches, s: SeqId, held: set<Held>, log: Log)
    returns (h: Held)
    requires Assembled(F) && 0 < k < |F.ranges| && Holds(F, k, kvs, s, held) && ProperLog(F, log)
    ensures Matches(F, k, WorkerEntry(F.ranges[k], kvs, s, |Concat(log)|), h)
    ensures if log == [] then h == Pure([]) else if s in kvs then h in held else h == Pure([])
    ensures log != [] ==> Concat(log) != []
  {
    hide StageCache;
    var was := if s in kvs then kvs[s] else NewKv(SliceLen(F.ranges[k]));
    h := Pure([]);
    if s in kvs {
      var g :| g in held && Matches(F, k, kvs[s], g);
      if log != [] {
        h := g;
      }
    }
    CleanSlice(F, k, was);
    assert was == NewKv(SliceLen(F.ranges[k])) ==> Matches(F, k, was, Pure([]));
    if log != [] {
      ConcatNonEmpty(log);
    }
  }

  /** A cache of a log takes any rows that fit. */
  lemma {:induction false} PureTakes(F: Fleet, k: nat, g: Log, rows: seq<Row>)
    requires Assembled(F) && k < |F.ranges| && |Concat(g)| + |rows| <= F.net.context
    ensures var (res, kv) := Forward(F.net, F.ranges[k].start, F.ranges[k].end, rows, |Concat(g)|, StageCache(F, k, g));
            && res.Done? && kv == CacheOf(F.net, F.ranges[k].start, F.ranges[k].end, Entering(F, k, g) + rows)
            && (rows == [] ==> kv == StageCache(F, k, g))
  {
    ForwardIsReference(F.net, F.ranges[k].start, F.ranges[k].end, Entering(F, k, g), rows);
    assert rows == [] ==> Entering(F, k, g) + rows == Entering(F, k, g);
  }

  /** The shape every pass keeps. */
  lemma {:induction false} ForwardShape(net: Net, lo: nat, hi: nat, rows: seq<Row>, start: nat, kv: SeqKv)
    requires lo <= hi
    ensures var (res, kv') := Forward(net, lo, hi, rows, start, kv);
            && |kv'.entries| == |kv.entries| && kv'.tokens == (if res.Done? then start + |rows| else kv.tokens)
            && (res.Done? ==> |res.value| == |rows|)
  {
  }

  // ---------------------------------------------------------------------
  // One worker, one chunk
  // ---------------------------------------------------------------------

  ghost predicate Stepped(F: Fleet, k: nat, kvs: Caches, s: SeqId, held: set<Held>, log: Log, taken: Held,
                          res: Result<seq<Row>>, kvs': Caches)
    requires Assembled(F) && k < |F.ranges|
  {
    && Untouched(kvs, kvs', s)
    && (res.Failed? ==> Holds(F, k, kvs', s, held + {Pure([])}))
    && (res.Done? ==> Accepts(log, held) && Holds(F, k, kvs', s, {taken}))
  }

  /** A safe chunk: the worker refuses, or it holds the longer log and answers
      the reference rows. It accepts whenever the lengths agree. */
  lemma {:induction false} WorkerSafe(F: Fleet, k: nat, kvs: Caches, s: SeqId, held: set<Held>, p: bool, log: Log,
                                      c: seq<Token>)
    requires Assembled(F) && 0 < k < |F.ranges| && Holds(F, k, kvs, s, held) && (p ==> PerRow(F))
    requires Safe(p, log, held) && ProperLog(F, log) && ProperLog(F, Extend(log, c))
    ensures var (res, kvs') := WorkerStep(F.net, F.ranges[k], kvs, s, |Concat(log)|, F.send(Given(F, k - 1, log, c)));
            && Stepped(F, k, kvs, s, held, log, Pure(Extend(log, c)), res, kvs')
            && (res.Done? ==> F.back[k](res.value) == Given(F, k, log, c))
            && (res.Done? <==> log == [] || (s in kvs && kvs[s].tokens == |Concat(log)|))
            && (res.Done? ==> s in kvs' && kvs'[s] == StageCache(F, k, Extend(log, c)))
  {
    hide Forward, CacheOf, Entering, Handed, PerRow, Untouched;
    var n := |Concat(log)|;
    var h := FoundMatches(F, k, kvs, s, held, log);
    var kv := WorkerEntry(F.ranges[k], kvs, s, n);
    var rows := F.send(Given(F, k - 1, log, c));
    OnlyThis(F.net, F.ranges[k], kvs, s, n, rows);
    if kv.tokens == n {
      assert kv == StageCache(F, k, log) by { SafeEntry(F, k, kv, h, p, held, log); }
      StageCacheShape(F, k, Extend(log, c));
      TakesRight(F, k, log, c);
      HoldsOne(F, k, WorkerStep(F.net, F.ranges[k], kvs, s, n, rows).1, s, Pure(Extend(log, c)));
    } else {
      HoldsOne(F, k, kvs[s := kv], s, h);
    }
  }

  lemma {:induction false} OnlyThis(net: Net, r: LayerRange, kvs: Caches, s: SeqId, pos: nat, rows: seq<Row>)
    requires r.start < r.end
    ensures var kvs' := WorkerStep(net, r, kvs, s, pos, rows).1;
            && Untouched(kvs, kvs', s) && kvs'.Keys == kvs.Keys + {s}
            && forall q :: q in kvs && q != s ==> kvs'[q] == kvs[q]
  {
    hide Forward;
  }

  lemma {:induction false} SafeEntry(F: Fleet, k: nat, kv: SeqKv, h: Held, p: bool, held: set<Held>, log: Log)
    requires Assembled(F) && k < |F.ranges| && Matches(F, k, kv, h) && (p ==> PerRow(F)) && Safe(p, log, held)
    requires kv.tokens == |Concat(log)| && (log != [] ==> Concat(log) != [])
    requires log == [] ==> h == Pure([])
    requires log != [] ==> h in held || h == Pure([])
    ensures kv == StageCache(F, k, log)
  {
    hide StageCache, PerRow;
    if log != [] && h.log != log {
      SameTokensSameCache(F, k, h.log, log);
    }
  }

  lemma {:induction false} TakesRight(F: Fleet, k: nat, log: Log, c: seq<Token>)
    requires Assembled(F) && 0 < k < |F.ranges| && ProperLog(F, log) && ProperLog(F, Extend(log, c))
    ensures var (res, kv) := Forward(F.net, F.ranges[k].start, F.ranges[k].end, F.send(Given(F, k - 1, log, c)),
                                     |Concat(log)|, StageCache(F, k, log));
            res.Done? && kv == StageCache(F, k, Extend(log, c)) && F.back[k](res.value) == Given(F, k, log, c)
  {
    hide Forward, StageCache, Handed;
    if c == [] {
      PureTakes(F, k, log, []);
      ForwardShape(F.net, F.ranges[k].start, F.ranges[k].end, [], |Concat(log)|, StageCache(F, k, log));
    } else {
      FrontOfAppend(log, c);
      StageForward(F, k, log, c);
    }
  }

  /** Any other chunk after the first: the lengths are all that is known. */
  lemma {:induction false} WorkerAny(F: Fleet, k: nat, kvs: Caches, s: SeqId, held: set<Held>, log: Log, rows: seq<Row>)
    requires Assembled(F) && 0 < k < |F.ranges| && Holds(F, k, kvs, s, held)
    requires log != [] && ProperLog(F, log) && |Concat(log)| + |rows| <= F.net.context
    ensures var (res, kvs') := WorkerStep(F.net, F.ranges[k], kvs, s, |Concat(log)|, rows);
            Stepped(F, k, kvs, s, held, log, Impure(|Concat(log)| + |rows|), res, kvs')
  {
    hide Forward, CacheOf, Entering, Untouched;
    var n := |Concat(log)|;
    var h := FoundMatches(F, k, kvs, s, held, log);
    var kv := WorkerEntry(F.ranges[k], kvs, s, n);
    var kvs' := WorkerStep(F.net, F.ranges[k], kvs, s, n, rows).1;
    OnlyThis(F.net, F.ranges[k], kvs, s, n, rows);
    ForwardShape(F.net, F.ranges[k].start, F.ranges[k].end, rows, n, kv);
    if kv.tokens == n {
      if h.Pure? {
        PureTakes(F, k, h.log, rows);
      }
      var done := Forward(F.net, F.ranges[k].start, F.ranges[k].end, rows, n, kv).0.Done?;
      HoldsOne(F, k, kvs', s, if done then Impure(n + |rows|) else h);
    } else {
      HoldsOne(F, k, kvs', s, h);
    }
  }

  // ---------------------------------------------------------------------
  // The remote pass
  // ---------------------------------------------------------------------

  /** What the workers from `k` on may hold after the pass. */
  ghost predicate Passed(F: Fleet, k: nat, workers: seq<Caches>, s: SeqId, held: set<Held>, log: Log, taken: Held,
                         res: Result<seq<Row>>, ws: seq<Caches>)
    requires Assembled(F) && 0 < k <= |F.ranges| == |workers| == |ws|
  {
    && (forall j :: 0 <= j < |workers| ==> Untouched(workers[j], ws[j], s))
    && (forall j :: 0 <= j < k ==> ws[j] == workers[j])
    && (forall j :: k <= j < |workers| ==> Holds(F, j, ws[j], s, Left(held, log, taken, res.Done?)))
  }

  ghost function Left(held: set<Held>, log: Log, taken: Held, done: bool): set<Held> {
    if done then {taken} else held + {Pure([])} + if Accepts(log, held) then {taken} else {}
  }

  lemma {:induction false} StoppedHere(F: Fleet, k: nat, workers: seq<Caches>, s: SeqId, held: set<Held>, log: Log,
                                       taken: Held, kvs: Caches)
    requires Assembled(F) && 0 < k < |F.ranges| == |workers|
    requires forall j :: k <= j < |workers| ==> Holds(F, j, workers[j], s, held)
    requires Untouched(workers[k], kvs, s) && Holds(F, k, kvs, s, Left(held, log, taken, false))
    ensures Passed(F, k, workers, s, held, log, taken, Failed, workers[k := kvs])
  {
    hide Holds;
    forall j | k < j < |workers|
      ensures Holds(F, j, workers[j], s, Left(held, log, taken, false))
    {
      HoldsMore(F, j, workers[j], s, held, Left(held, log, taken, false));
    }
  }

  /** A worker that was not reached, lost its caches, or took its step. */
  lemma {:induction false} FailedHere(F: Fleet, k: nat, workers: seq<Caches>, s: SeqId, held: set<Held>, log: Log,
                                      taken: Held, step: (Result<seq<Row>>, Caches))
    requires Assembled(F) && 0 < k < |F.ranges| == |workers|
    requires forall j :: k <= j < |workers| ==> Holds(F, j, workers[j], s, held)
    requires Stepped(F, k, workers[k], s, held, log, taken, step.0, step.1)
    ensures Passed(F, k, workers, s, held, log, taken, Failed, workers)
    ensures Passed(F, k, workers, s, held, log, taken, Failed, workers[k := map[]])
    ensures Passed(F, k, workers, s, held, log, taken, Failed, workers[k := step.1])
  {
    hide Passed;
    var all := Left(held, log, taken, false);
    HoldsMore(F, k, workers[k], s, held, all);
    StoppedHere(F, k, workers, s, held, log, taken, workers[k]);
    assert workers[k := workers[k]] == workers;
    StoppedHere(F, k, workers, s, held, log, taken, map[]);
    HoldsMore(F, k, step.1, s, if step.0.Done? then {taken} else held + {Pure([])}, all);
    StoppedHere(F, k, workers, s, held, log, taken, step.1);
  }

  lemma {:induction false} PassedOn(F: Fleet, k: nat, workers: seq<Caches>, s: SeqId, held: set<Held>, log: Log,
                                    taken: Held, kvs: Caches, res: Result<seq<Row>>, ws: seq<Caches>)
    requires Assembled(F) && 0 < k < |F.ranges| == |workers| == |ws|
    requires Untouched(workers[k], kvs, s) && Holds(F, k, kvs, s, {taken}) && Accepts(log, held)
    requires Passed(F, k + 1, workers[k := kvs], s, held, log, taken, res, ws)
    ensures Passed(F, k, workers, s, held, log, taken, res, ws)
  {
    hide Holds, Accepts;
    HoldsMore(F, k, kvs, s, {taken}, Left(held, log, taken, res.Done?));
    assert ws[k] == workers[k := kvs][k];
  }

  /**
  The remote pass of a safe chunk, for every pattern of faults: if it succeeds
  the answer is the reference rows and every worker holds the longer log; if
  it fails each worker holds what it held, nothing, or the longer log.
  */
  lemma {:induction false} RemoteSafe(F: Fleet, k: nat, workers: seq<Caches>, links: seq<bool>, s: SeqId,
                                      held: set<Held>, p: bool,
                                      log: Log, c: seq<Token>, faults: seq<Fault>)
    requires Assembled(F) && 0 < k <= |F.ranges| == |workers| == |links| == |faults| && (p ==> PerRow(F))
    requires forall j :: k <= j < |workers| ==> Holds(F, j, workers[j], s, held)
    requires Safe(p, log, held) && ProperLog(F, log) && ProperLog(F, Extend(log, c))
    ensures var pass := Remote(F, k, workers, links, s, |Concat(log)|, Given(F, k - 1, log, c), faults);
            && Passed(F, k, workers, s, held, log, Pure(Extend(log, c)), pass.res, pass.workers)
            && (pass.res.Done? ==> pass.res.value == Given(F, |F.ranges| - 1, log, c))
    decreases |F.ranges| - k
  {
    hide WorkerStep, Holds, Given, Passed, Safe, PerRow, ProperLog, Assembled, Stepped, Untouched, Accepts, Extend;
    var taken, given := Pure(Extend(log, c)), Given(F, k - 1, log, c);
    if k == |F.ranges| {
      NothingLeft(F, workers, s, held, log, taken, Done(given));
    } else {
      var f, sent := Through(links[k], faults[k]), F.send(given);
      HopWidths(F, k, given);
      WorkerSafe(F, k, workers[k], s, held, p, log, c);
      var (res, kvs) := WorkerStep(F.net, F.ranges[k], workers[k], s, |Concat(log)|, sent);
      FailedHere(F, k, workers, s, held, log, taken, (res, kvs));
      if res.Done? && f.Fine? {
        assert F.back[k](res.value) == Given(F, k, log, c);
        SteppedOn(F, k, workers[k], s, held, log, taken, res, kvs);
        RemoteSafe(F, k + 1, workers[k := kvs], links, s, held, p, log, c, faults);
        var pass := Remote(F, k + 1, workers[k := kvs], links, s, |Concat(log)|, Given(F, k, log, c), faults);
        PassedOn(F, k, workers, s, held, log, taken, kvs, pass.res, pass.workers);
      }
    }
  }

  lemma {:induction false} NothingLeft(F: Fleet, workers: seq<Caches>, s: SeqId, held: set<Held>, log: Log, taken: Held,
                                       res: Result<seq<Row>>)
    requires Assembled(F) && |F.ranges| == |workers|
    ensures Passed(F, |F.ranges|, workers, s, held, log, taken, res, workers)
  {
  }

  /** Any other pass after the first chunk: lengths are all that is known. */
  lemma {:induction false} RemoteAny(F: Fleet, k: nat, workers: seq<Caches>, links: seq<bool>, s: SeqId,
                                     held: set<Held>, log: Log, rows: seq<Row>, faults: seq<Fault>)
    requires Assembled(F) && 0 < k <= |F.ranges| == |workers| == |links| == |faults|
    requires forall j :: k <= j < |workers| ==> Holds(F, j, workers[j], s, held)
    requires log != [] && ProperLog(F, log) && |Concat(log)| + |rows| <= F.net.context
    ensures var pass := Remote(F, k, workers, links, s, |Concat(log)|, rows, faults);
            Passed(F, k, workers, s, held, log, Impure(|Concat(log)| + |rows|), pass.res, pass.workers)
    decreases |F.ranges| - k
  {
    hide WorkerStep, Holds, Passed, ProperLog, Assembled, Stepped, Untouched, Accepts;
    var taken := Impure(|Concat(log)| + |rows|);
    if k == |F.ranges| {
      NothingLeft(F, workers, s, held, log, taken, Done(rows));
    } else {
      var f, sent := Through(links[k], faults[k]), F.send(rows);
      HopWidths(F, k, rows);
      WorkerAny(F, k, workers[k], s, held, log, sent);
      var (res, kvs) := WorkerStep(F.net, F.ranges[k], workers[k], s, |Concat(log)|, sent);
      FailedHere(F, k, workers, s, held, log, taken, (res, kvs));
      if res.Done? && f.Fine? {
        var next := F.back[k](res.value);
        assert |next| == |rows| by {
          StepWidth(F.net, F.ranges[k], workers[k], s, |Concat(log)|, sent);
          HopWidths(F, k, res.value);
        }
        SteppedOn(F, k, workers[k], s, held, log, taken, res, kvs);
        RemoteAny(F, k + 1, workers[k := kvs], links, s, held, log, next, faults);
        var pass := Remote(F, k + 1, workers[k := kvs], links, s, |Concat(log)|, next, faults);
        PassedOn(F, k, workers, s, held, log, taken, kvs, pass.res, pass.workers);
      }
    }
  }

  lemma {:induction false} SteppedOn(F: Fleet, k: nat, kvs: Caches, s: SeqId, held: set<Held>, log: Log, taken: Held,
                                     res: Result<seq<Row>>, kvs': Caches)
    requires Assembled(F) && k < |F.ranges| && Stepped(F, k, kvs, s, held, log, taken, res, kvs') && res.Done?
    ensures Untouched(kvs, kvs', s) && Holds(F, k, kvs', s, {taken}) && Accepts(log, held)
  {
  }

  lemma {:induction false} HopWidths(F: Fleet, k: nat, xs: seq<Row>)
    requires Assembled(F) && k < |F.ranges|
    ensures |F.back| == |F.ranges| && F.ranges[k].start < F.ranges[k].end
    ensures |F.send(xs)| == |xs| && |F.back[k](xs)| == |xs|
  {
  }

  lemma {:induction false} StepWidth(net: Net, r: LayerRange, kvs: Caches, s: SeqId, pos: nat, rows: seq<Row>)
    requires r.start < r.end
    ensures var (res, _) := WorkerStep(net, r, kvs, s, pos, rows);
            res.Done? ==> |res.value| == |rows|
  {
  }

  // ---------------------------------------------------------------------
  // What is known of the whole pipeline
  // ---------------------------------------------------------------------

  /**
  `logs` is what the coordinator's caches record; `held` bounds what a worker
  may hold for a sequence. Both follow from the calls and their outcomes.
  */
  datatype View = View(perRow: bool, logs: map<SeqId, Log>, held: map<SeqId, set<Held>>) {
    function HeldFor(s: SeqId): set<Held> {
      if s in held then held[s] else {Pure([])}
    }

    /** The next chunk of `s` can only be accepted by a worker in step. */
    ghost predicate Trusted(s: SeqId)
      requires s in logs
    {
      Safe(perRow, logs[s], HeldFor(s))
    }
  }

  ghost predicate Sync(F: Fleet, kvs: Caches, workers: seq<Caches>, v: View) {
    && Assembled(F) && |workers| == |F.ranges| && (v.perRow ==> PerRow(F))
    && kvs.Keys == v.logs.Keys
    && (forall s :: s in kvs ==> ProperLog(F, v.logs[s]) && kvs[s] == StageCache(F, 0, v.logs[s]))
    && (forall k, s :: 0 < k < |workers| ==> Holds(F, k, workers[k], s, v.HeldFor(s)))
  }

  /** The view after the chunk `c` of `s` has been sent out. */
  ghost function Sent(v: View, s: SeqId, c: seq<Token>, done: bool): View
    requires s in v.logs
  {
    var log, held := v.logs[s], v.HeldFor(s);
    v.(logs := v.logs[s := Extend(log, c)],
       held := v.held[s := if done then {Taken(v.perRow, held, log, c)} else AfterError(v.perRow, held, log, c)])
  }

  lemma {:induction false} ProperExtend(F: Fleet, log: Log, c: seq<Token>)
    requires ProperLog(F, log) && |Concat(log)| + |c| <= F.net.context
    ensures ProperLog(F, Extend(log, c)) && Concat(Extend(log, c)) == Concat(log) + c
  {
    if c != [] {
      FrontOfAppend(log, c);
    } else {
      assert Concat(log) + c == Concat(log);
    }
  }

  lemma {:induction false} OthersHold(F: Fleet, k: nat, w: Caches, w': Caches, s: SeqId, v: View, v': View)
    requires Assembled(F) && 0 < k < |F.ranges| && Untouched(w, w', s)
    requires forall q :: Holds(F, k, w, q, v.HeldFor(q))
    requires forall q :: q != s ==> v'.HeldFor(q) == v.HeldFor(q)
    ensures forall q :: q != s ==> Holds(F, k, w', q, v'.HeldFor(q))
  {
  }

  lemma {:induction false} ChunkPassed(F: Fleet, workers: seq<Caches>, links: seq<bool>, s: SeqId, held: set<Held>,
                                       p: bool, log: Log, c: seq<Token>, faults: seq<Fault>)
    requires Assembled(F) && |F.ranges| == |workers| == |links| == |faults| && (p ==> PerRow(F))
    requires forall j :: 0 < j < |workers| ==> Holds(F, j, workers[j], s, held)
    requires ProperLog(F, log) && |Concat(log)| + |c| <= F.net.context
    ensures var pass := Remote(F, 1, workers, links, s, |Concat(log)|, Given(F, 0, log, c), faults);
            && Passed(F, 1, workers, s, held, log, Taken(p, held, log, c), pass.res, pass.workers)
            && (Safe(p, log, held) && pass.res.Done? ==> pass.res.value == Given(F, |F.ranges| - 1, log, c))
  {
    hide Remote, Given, Holds, PerRow, Safe, Passed;
    if Safe(p, log, held) {
      ProperExtend(F, log, c);
      RemoteSafe(F, 1, workers, links, s, held, p, log, c, faults);
    } else {
      assert log != [] by { StartIsSafe(p, held); }
      RemoteAny(F, 1, workers, links, s, held, log, Given(F, 0, log, c), faults);
    }
  }

  /**
  One chunk, whatever the faults: what is known is kept, and a success on a
  trusted sequence is the reference answer to exactly the log the coordinator
  records.
  */
  lemma {:induction false} ChunkSound(F: Fleet, kvs: Caches, workers: seq<Caches>, links: seq<bool>, v: View, s: SeqId,
                                      c: seq<Token>, faults: seq<Fault>)
    requires Sync(F, kvs, workers, v) && s in kvs && |faults| == |links| == |F.ranges|
    requires |Concat(v.logs[s])| + |c| <= F.net.context
    ensures var log := v.logs[s];
            var pass := Remote(F, 1, workers, links, s, |Concat(log)|, Given(F, 0, log, c), faults);
            && Sync(F, kvs[s := StageCache(F, 0, Extend(log, c))], pass.workers, Sent(v, s, c, pass.res.Done?))
            && (v.Trusted(s) && pass.res.Done? ==> pass.res.value == Given(F, |F.ranges| - 1, log, c))
  {
    hide Remote, Given, StageCache, Holds, PerRow, Safe, Taken, Accepts;
    var log, held := v.logs[s], v.HeldFor(s);
    ProperExtend(F, log, c);
    ChunkPassed(F, workers, links, s, held, v.perRow, log, c, faults);
    var pass := Remote(F, 1, workers, links, s, |Concat(log)|, Given(F, 0, log, c), faults);
    var v' := Sent(v, s, c, pass.res.Done?);
    forall k, q | 0 < k < |workers|
      ensures Holds(F, k, pass.workers[k], q, v'.HeldFor(q))
    {
      OthersHold(F, k, workers[k], pass.workers[k], s, v, v');
    }
  }

  lemma {:induction false} StartIsSafe(p: bool, held: set<Held>)
    ensures Safe(p, [], held)
  {
  }

  /** What a prefill does to the view, and what it answers. Asking for the
      logits of an empty chunk fails after the pass. */
  ghost predicate PrefillOutcome(F: Fleet, v: View, s: SeqId, tokens: seq<Token>, start: nat, want: bool,
                                 out: Outcome, v': View)
    requires Assembled(F)
  {
    if start > 0 && s !in v.logs then out.Failed? && v' == v
    else
      var v0 := RestartedView(v, s, start);
      if |Concat(v0.logs[s])| != start || start + |tokens| > F.net.context then out.Failed? && v' == v0
      else
        && (|| v' == Sent(v0, s, tokens, out.Done?)
            || (want && tokens == [] && out.Failed? && v' == Sent(v0, s, tokens, true)))
        && (out.Done? && v0.Trusted(s) && tokens != [] ==>
            out.value == if want then [PipeLogits(F, v0.logs[s] + [tokens])] else [])
  }

  /** The coordinator sends the chunk on rather than refusing it. */
  predicate Sends(context: nat, v: View, s: SeqId, tokens: seq<Token>, start: nat) {
    var logs := RestartedView(v, s, start).logs;
    s in logs && |Concat(logs[s])| == start && start + |tokens| <= context && tokens != []
  }

  /** The coordinator can serve the prefill: it is at its place, it fits, and
      logits are not asked of an empty chunk. */
  predicate Takes(context: nat, v: View, s: SeqId, tokens: seq<Token>, start: nat, want: bool) {
    var logs := RestartedView(v, s, start).logs;
    s in logs && |Concat(logs[s])| == start && start + |tokens| <= context && !(want && tokens == [])
  }

  function RestartedView(v: View, s: SeqId, start: nat): View {
    if start == 0 then v.(logs := v.logs[s := []]) else v
  }

  ghost predicate DecodeOutcome(F: Fleet, v: View, batch: seq<(SeqId, Token)>, out: Outcome, v': View)
    requires Assembled(F)
  {
    if batch == [] then out == Done([]) && v' == v
    else if |batch| > 1 || batch[0].0 !in v.logs || |Concat(v.logs[batch[0].0])| >= F.net.context
    then out.Failed? && v' == v
    else
      var (s, t) := batch[0];
      && v' == Sent(v, s, [t], out.Done?)
      && (out.Done? ==> |out.value| == 1)
      && (out.Done? && v.Trusted(s) ==> out.value == [PipeLogits(F, v.logs[s] + [[t]])])
  }

  // ---------------------------------------------------------------------
  // Lost requests, lost replies and restarts alone
  // ---------------------------------------------------------------------

  ghost predicate AllOpen(links: seq<bool>) { forall k :: 0 < k < |links| ==> links[k] }

  /** No codec error: whatever goes wrong ends its link. */
  predicate Clean(faults: seq<Fault>) {
    forall k :: 0 <= k < |faults| ==> faults[k].Fine? || faults[k].Closes()
  }

  /** Nothing goes wrong. */
  predicate Healthy(faults: seq<Fault>) { forall k :: 0 <= k < |faults| ==> faults[k].Fine? }

  /** Worker `k` holds exactly the coordinator's log, for every sequence that
      has one. */
  ghost predicate InStepAt(F: Fleet, k: nat, kvs: Caches, logs: map<SeqId, Log>)
    requires Assembled(F) && k < |F.ranges|
  {
    forall s :: s in logs && logs[s] != [] ==> s in kvs && kvs[s] == StageCache(F, k, logs[s])
  }

  /** As long as no link has ended, every worker is in step. */
  ghost predicate InStep(F: Fleet, workers: seq<Caches>, links: seq<bool>, logs: map<SeqId, Log>) {
    && Assembled(F) && |workers| == |links| == |F.ranges|
    && (AllOpen(links) ==> forall k :: 0 < k < |workers| ==> InStepAt(F, k, workers[k], logs))
  }

  /** How one push changes the links when no codec fails: it only succeeds over
      open links, and one that fails ends a link for good. */
  ghost predicate Severs(links: seq<bool>, links': seq<bool>, sent: bool, done: bool) {
    && (done ==> AllOpen(links)) && (!AllOpen(links) ==> !AllOpen(links')) && (sent && !done ==> !AllOpen(links'))
  }

  lemma {:induction false} ClosedStaysFailed(F: Fleet, k: nat, workers: seq<Caches>, links: seq<bool>, s: SeqId,
                                             pos: nat, rows: seq<Row>, faults: seq<Fault>)
    requires Assembled(F) && 0 < k <= |F.ranges| == |workers| == |links| == |faults|
    ensures var pass := Remote(F, k, workers, links, s, pos, rows, faults);
            && (forall j :: 0 <= j < |links| && !links[j] ==> !pass.links[j])
            && (pass.res.Done? ==> forall j :: k <= j < |links| ==> links[j])
    decreases |F.ranges| - k
  {
    hide WorkerStep;
    if k < |F.ranges| && Through(links[k], faults[k]).Fine? {
      var (res, kvs) := WorkerStep(F.net, F.ranges[k], workers[k], s, pos, F.send(rows));
      if res.Done? {
        ClosedStaysFailed(F, k + 1, workers[k := kvs], links, s, pos, F.back[k](res.value), faults);
      }
    }
  }

  /** A clean pass over workers in step: they all take the chunk, or a link
      ends. */
  lemma {:induction false} CleanPass(F: Fleet, k: nat, workers: seq<Caches>, links: seq<bool>, s: SeqId,
                                     logs: map<SeqId, Log>, c: seq<Token>, faults: seq<Fault>)
    requires Assembled(F) && 0 < k <= |F.ranges| == |workers| == |links| == |faults| && Clean(faults) && AllOpen(links)
    requires s in logs && ProperLog(F, logs[s]) && ProperLog(F, Extend(logs[s], c))
    requires forall j :: k <= j < |workers| ==>
      InStepAt(F, j, workers[j], logs) && (s in workers[j] ==> |workers[j][s].entries| == SliceLen(F.ranges[j]))
    ensures var log := logs[s];
            var pass := Remote(F, k, workers, links, s, |Concat(log)|, Given(F, k - 1, log, c), faults);
            && (pass.res.Done? ==> pass.res.value == Given(F, |F.ranges| - 1, log, c))
            && (pass.res.Failed? ==> !AllOpen(pass.links))
            && (Healthy(faults) ==> pass.res.Done? && pass.links == links)
            && (pass.res.Done? ==>
                  forall j :: k <= j < |workers| ==> InStepAt(F, j, pass.workers[j], logs[s := Extend(log, c)]))
            && (forall j :: 0 <= j < k ==> pass.workers[j] == workers[j])
    decreases |F.ranges| - k
  {
    hide WorkerStep, Given, StageCache, InStepAt, ProperLog;
    var log := logs[s];
    if k < |F.ranges| {
      assert links[k];
      InStepTakes(F, k, workers[k], s, logs, c);
      var f := Through(links[k], faults[k]);
      var (res, kvs) := WorkerStep(F.net, F.ranges[k], workers[k], s, |Concat(log)|, F.send(Given(F, k - 1, log, c)));
      if f.Fine? {
        CleanPass(F, k + 1, workers[k := kvs], links, s, logs, c, faults);
      } else {
        assert !links[k := false][k];
      }
    }
  }

  lemma {:induction false} InStepTakes(F: Fleet, k: nat, kvs: Caches, s: SeqId, logs: map<SeqId, Log>, c: seq<Token>)
    requires Assembled(F) && 0 < k < |F.ranges| && InStepAt(F, k, kvs, logs)
    requires s in kvs ==> |kvs[s].entries| == SliceLen(F.ranges[k])
    requires s in logs && ProperLog(F, logs[s]) && ProperLog(F, Extend(logs[s], c))
    ensures var log := logs[s];
            var (res, kvs') := WorkerStep(F.net, F.ranges[k], kvs, s, |Concat(log)|, F.send(Given(F, k - 1, log, c)));
            res.Done? && F.back[k](res.value) == Given(F, k, log, c) && InStepAt(F, k, kvs', logs[s := Extend(log, c)])
  {
    hide StageCache, Given, WorkerStep;
    var log := logs[s];
    var h := if log == [] then (if s in kvs then Impure(kvs[s].tokens) else Pure([])) else Pure(log);
    StageCacheShape(F, k, log);
    assert Holds(F, k, kvs, s, {h}) by {
      if s in kvs {
        assert h in {h} && Matches(F, k, kvs[s], h);
      }
    }
    WorkerSafe(F, k, kvs, s, {h}, false, log, c);
    OnlyThis(F.net, F.ranges[k], kvs, s, |Concat(log)|, F.send(Given(F, k - 1, log, c)));
  }

  /**
  The protocol theorem. When requests and replies are lost and workers restart
  but no codec fails, every push keeps the invariant, and every push that
  succeeds answers exactly the log the coordinator records: a push that fails
  ends a link, and after that no push succeeds. With every link open and no
  fault at all the push does succeed, and the links stay open.
  */
  lemma {:induction false} CleanPush(F: Fleet, kvs: Caches, workers: seq<Caches>, links: seq<bool>, v: View, s: SeqId,
                                     c: seq<Token>, faults: seq<Fault>)
    requires Sync(F, kvs, workers, v) && InStep(F, workers, links, v.logs) && s in kvs
    requires |faults| == |F.ranges| && Clean(faults) && |Concat(v.logs[s])| + |c| <= F.net.context
    ensures var log := v.logs[s];
            var pass := Remote(F, 1, workers, links, s, |Concat(log)|, Given(F, 0, log, c), faults);
            && InStep(F, pass.workers, pass.links, v.logs[s := Extend(log, c)])
            && Severs(links, pass.links, true, pass.res.Done?)
            && (AllOpen(links) && Healthy(faults) ==> pass.res.Done? && pass.links == links)
            && (pass.res.Done? ==> pass.res.value == Given(F, |F.ranges| - 1, log, c))
  {
    hide Remote, Given, StageCache, InStepAt;
    var log := v.logs[s];
    var pass := Remote(F, 1, workers, links, s, |Concat(log)|, Given(F, 0, log, c), faults);
    ClosedStaysFailed(F, 1, workers, links, s, |Concat(log)|, Given(F, 0, log, c), faults);
    if AllOpen(links) {
      ProperExtend(F, log, c);
      forall k | 0 < k < |workers|
        ensures s in workers[k] ==> |workers[k][s].entries| == SliceLen(F.ranges[k])
      {
        assert Holds(F, k, workers[k], s, v.HeldFor(s));
      }
      CleanPass(F, 1, workers, links, s, v.logs, c, faults);
    }
  }
}
