/**
A model, for any slicing over two or more machines, whose answer says whether
one position reached the first worker with the right tokens before it. Its
rows are single bits, which the f16 and int8 wires carry exactly.
*/
module StaleWitness {
  import opened Wrappers
  import opened Transformer
  import opened BatchContract
  import opened BatchedSpec
  import opened PipelineReference
  import opened PipelineWire
  import opened Pipeline

  /** The prefixes a worker sees when `c` arrives after the tokens `h`. */
  function Prefixes(h: seq<Token>, c: seq<Token>): (r: seq<seq<Token>>)
    ensures |r| == |c|
  {
    seq(|c|, i requires 0 <= i < |c| => (h + c)[..|h| + i + 1])
  }

  lemma {:induction false} PrefixesSplit(a: seq<Token>, b: seq<Token>)
    ensures Prefixes([], a + b) == Prefixes([], a) + Prefixes(a, b)
  {
    assert [] + (a + b) == a + b && [] + a == a;
    forall i | 0 <= i < |a|
      ensures Prefixes([], a + b)[i] == Prefixes([], a)[i]
    {
      assert (a + b)[..i + 1] == a[..i + 1];
    }
  }

  lemma {:induction false} PrefixesAt(a: seq<Token>, i: nat)
    requires i < |a|
    ensures Prefixes([], a)[i] == a[..i + 1]
  {
    assert [] + a == a;
  }

  // ---------------------------------------------------------------------
  // The model
  // ---------------------------------------------------------------------

  function Bit(b: bool): Row { if b then [1.0] else [0.0] }

  ghost predicate Bits(xs: seq<Row>) {
    forall i :: 0 <= i < |xs| ==> xs[i] == Bit(true) || xs[i] == Bit(false)
  }

  ghost predicate BitHop(h: Hop) {
    forall xs: seq<Row> :: Bits(xs) ==> h(xs) == xs
  }

  function KeysOf(ts: seq<Token>): (r: seq<Entry>)
    ensures |r| == |ts|
  {
    seq(|ts|, i requires 0 <= i < |ts| => ([ts[i] as real], [ts[i] as real]))
  }

  /** The first layer says whether the tokens so far are `mark`; the layer at
      `cut` answers what the first layer said at the end of `mark`; all others
      pass rows on. */
  function WitnessNet(layers: nat, context: nat, cut: nat, mark: seq<Token>): Net {
    Net(layers, context,
        (t: Token) => [t as real],
        (l: nat, x: Row, p: nat) => (x, x),
        (l: nat, x: Row, p: nat, h: seq<Entry>) =>
          if l == 0 then Bit(h == KeysOf(mark))
          else if l == cut then Bit(0 < |mark| <= |h| && h[|mark| - 1].0 == [1.0])
          else x,
        (x: Row) => x)
  }

  /** The witness over these machines, cut at the first worker. */
  ghost predicate IsWitness(F: Fleet, mark: seq<Token>) {
    && Assembled(F) && |F.ranges| > 1 && mark != []
    && BitHop(F.send) && (forall k :: 0 <= k < |F.back| ==> BitHop(F.back[k]))
    && F.net == WitnessNet(F.net.layers, F.net.context, F.ranges[1].start, mark)
  }

  lemma {:induction false} CutIsInside(F: Fleet)
    requires Assembled(F) && |F.ranges| > 1
    ensures F.ranges[0].start == 0 && 0 < F.ranges[0].end == F.ranges[1].start
  {
    ConsecutiveStages(F, 1);
    StartsAtZero(F);
  }

  lemma {:induction false} LaterStart(F: Fleet, k: nat)
    requires Assembled(F) && 1 < k < |F.ranges|
    ensures F.ranges[k].start > F.ranges[1].start
    decreases k
  {
    ConsecutiveStages(F, k);
    if k > 2 {
      LaterStart(F, k - 1);
    }
  }

  function Marks(mark: seq<Token>, seen: seq<seq<Token>>): (r: seq<Row>)
    ensures |r| == |seen| && Bits(r)
  {
    seq(|seen|, i requires 0 <= i < |seen| => Bit(seen[i] == mark))
  }

  // ---------------------------------------------------------------------
  // What each machine computes
  // ---------------------------------------------------------------------

  lemma {:induction false} KeysOfApart(a: seq<Token>, b: seq<Token>)
    requires KeysOf(a) == KeysOf(b)
    ensures a == b
  {
    forall i | 0 <= i < |a|
      ensures a[i] == b[i]
    {
      assert KeysOf(a)[i].0[0] == KeysOf(b)[i].0[0];
    }
  }

  /** After its first layers the coordinator's row says whether the tokens up
      to its position are the mark. */
  lemma {:induction false} HeadRow(net: Net, cut: nat, mark: seq<Token>, ts: seq<Token>, l: nat, i: nat)
    requires net == WitnessNet(net.layers, net.context, cut, mark) && 0 < l <= cut && i < |ts|
    ensures RowAt(net, 0, Embed(net, ts), l, i) == Bit(ts[..i + 1] == mark)
    decreases l
  {
    var E := Embed(net, ts);
    if l == 1 {
      var keys := Keys(net, 0, E, 0, i + 1);
      forall j | 0 <= j <= i
        ensures keys[j] == KeysOf(ts[..i + 1])[j]
      {
        assert keys[j] == net.project(0, RowAt(net, 0, E, 0, j), j);
      }
      assert keys == KeysOf(ts[..i + 1]);
      assert RowAt(net, 0, E, 1, i) == net.block(0, RowAt(net, 0, E, 0, i), i, Keys(net, 0, E, 0, i + 1));
      if KeysOf(ts[..i + 1]) == KeysOf(mark) {
        KeysOfApart(ts[..i + 1], mark);
      }
    } else {
      HeadRow(net, cut, mark, ts, l - 1, i);
      assert RowAt(net, 0, E, l, i) == net.block(l - 1, RowAt(net, 0, E, l - 1, i), i, Keys(net, 0, E, l - 1, i + 1));
    }
  }

  lemma {:induction false} HeadMarks(F: Fleet, mark: seq<Token>, log: Log, c: seq<Token>)
    requires IsWitness(F, mark)
    ensures Given(F, 0, log, c) == Marks(mark, Prefixes(Concat(log), c))
  {
    hide RowAt, WitnessNet;
    CutIsInside(F);
    FrontOfAppend(log, c);
    var n, ts := |Concat(log)|, Concat(log) + c;
    if c != [] {
      var rows := Rows(F.net, 0, Embed(F.net, ts), F.ranges[0].end);
      assert Entering(F, 0, log + [c]) == Embed(F.net, ts);
      assert Handed(F, 0, log + [c]) == rows[n..];
      forall i | 0 <= i < |c|
        ensures rows[n..][i] == Marks(mark, Prefixes(Concat(log), c))[i]
      {
        HeadRow(F.net, F.ranges[1].start, mark, ts, F.ranges[0].end, n + i);
      }
    }
  }

  /** What the first worker answers at position `i` from the rows it was fed. */
  function Answer(mark: seq<Token>, ins: seq<Row>, i: nat): Row {
    Bit(0 < |mark| <= i + 1 && |mark| <= |ins| && ins[|mark| - 1] == [1.0])
  }

  lemma {:induction false} FirstWorkerRow(net: Net, cut: nat, mark: seq<Token>, ins: seq<Row>, l: nat, i: nat)
    requires net == WitnessNet(net.layers, net.context, cut, mark) && 0 < cut < l && i < |ins|
    ensures RowAt(net, cut, ins, l, i) == Answer(mark, ins, i)
    decreases l
  {
    var keys := Keys(net, cut, ins, l - 1, i + 1);
    assert RowAt(net, cut, ins, l, i) == net.block(l - 1, RowAt(net, cut, ins, l - 1, i), i, keys);
    if l == cut + 1 {
      forall j | 0 <= j <= i
        ensures keys[j] == (ins[j], ins[j])
      {
        assert keys[j] == net.project(cut, RowAt(net, cut, ins, cut, j), j);
      }
    } else {
      FirstWorkerRow(net, cut, mark, ins, l - 1, i);
    }
  }

  lemma {:induction false} LaterWorkerRow(net: Net, cut: nat, mark: seq<Token>, lo: nat, ins: seq<Row>, l: nat, i: nat)
    requires net == WitnessNet(net.layers, net.context, cut, mark) && 0 < cut < lo <= l && i < |ins|
    ensures RowAt(net, lo, ins, l, i) == ins[i]
    decreases l
  {
    if l > lo {
      LaterWorkerRow(net, cut, mark, lo, ins, l - 1, i);
      assert RowAt(net, lo, ins, l, i)
        == net.block(l - 1, RowAt(net, lo, ins, l - 1, i), i, Keys(net, lo, ins, l - 1, i + 1));
    }
  }

  // ---------------------------------------------------------------------
  // Workers in the same state
  // ---------------------------------------------------------------------

  /** Worker `k` has been fed exactly `ins` since it was last cleared. */
  ghost predicate Fed(F: Fleet, k: nat, kvs: Caches, s: SeqId, ins: seq<Row>)
    requires Assembled(F) && k < |F.ranges|
  {
    if ins == [] then s in kvs ==> |kvs[s].entries| == SliceLen(F.ranges[k])
    else s in kvs && kvs[s] == CacheOf(F.net, F.ranges[k].start, F.ranges[k].end, ins)
  }

  lemma {:induction false} FedTakes(F: Fleet, k: nat, kvs: Caches, s: SeqId, ins: seq<Row>, pos: nat, rows: seq<Row>)
    requires Assembled(F) && 0 < k < |F.ranges| && Fed(F, k, kvs, s, ins) && rows != []
    requires pos == 0 || pos == |ins|
    requires pos + |rows| <= F.net.context
    ensures var base := if pos == 0 then [] else ins;
            var (res, kvs') := WorkerStep(F.net, F.ranges[k], kvs, s, pos, rows);
            && Fed(F, k, kvs', s, base + rows)
            && res == Done(Rows(F.net, F.ranges[k].start, base + rows, F.ranges[k].end)[|base|..])
  {
    hide Forward, Rows;
    var base := if pos == 0 then [] else ins;
    var lo, hi := F.ranges[k].start, F.ranges[k].end;
    if pos == 0 {
      var was := if s in kvs then kvs[s] else NewKv(SliceLen(F.ranges[k]));
      assert |was.entries| == hi - lo;
      assert was.Clear().entries == NewKv(hi - lo).entries;
      EmptyCache(F.net, lo, hi);
    }
    ForwardIsReference(F.net, lo, hi, base, rows);
  }

  ghost predicate FedBits(F: Fleet, k: nat, kvs: Caches, s: SeqId, n: nat)
    requires Assembled(F) && k < |F.ranges|
  {
    exists ins :: Bits(ins) && |ins| == n && Fed(F, k, kvs, s, ins)
  }

  function AllFine(n: nat): (r: seq<Fault>)
    ensures |r| == n
  {
    seq(n, _ => Fine)
  }

  lemma {:induction false} LaterWorkerTakes(F: Fleet, mark: seq<Token>, k: nat, kvs: Caches, s: SeqId, n: nat, pos: nat,
                                            rows: seq<Row>)
    requires IsWitness(F, mark) && 1 < k < |F.ranges| && FedBits(F, k, kvs, s, n) && Bits(rows) && rows != []
    requires (pos == 0 || pos == n) && pos + |rows| <= F.net.context
    ensures var (res, kvs') := WorkerStep(F.net, F.ranges[k], kvs, s, pos, F.send(rows));
            res == Done(rows) && F.back[k](rows) == rows && FedBits(F, k, kvs', s, pos + |rows|)
  {
    hide WorkerStep, RowAt, WitnessNet, CacheOf;
    var ins :| Bits(ins) && |ins| == n && Fed(F, k, kvs, s, ins);
    FedTakes(F, k, kvs, s, ins, pos, rows);
    var base := if pos == 0 then [] else ins;
    var all := base + rows;
    CutIsInside(F);
    LaterStart(F, k);
    forall i | 0 <= i < |all|
      ensures Rows(F.net, F.ranges[k].start, all, F.ranges[k].end)[i] == all[i]
    {
      LaterWorkerRow(F.net, F.ranges[1].start, mark, F.ranges[k].start, all, F.ranges[k].end, i);
    }
    assert Rows(F.net, F.ranges[k].start, all, F.ranges[k].end) == all;
    assert Bits(all) && all[|base|..] == rows;
  }

  /** From the second worker on bits pass through unchanged. */
  lemma {:induction false} LaterWorkersPass(F: Fleet, mark: seq<Token>, k: nat, workers: seq<Caches>, links: seq<bool>,
                                            s: SeqId, n: nat, pos: nat, rows: seq<Row>)
    requires IsWitness(F, mark) && 1 < k <= |F.ranges| == |workers| == |links|
    requires AllOpen(links) && Bits(rows) && rows != []
    requires forall j :: k <= j < |workers| ==> FedBits(F, j, workers[j], s, n)
    requires (pos == 0 || pos == n) && pos + |rows| <= F.net.context
    ensures var pass := Remote(F, k, workers, links, s, pos, rows, AllFine(|F.ranges|));
            && pass.res == Done(rows) && pass.links == links
            && (forall j :: 0 <= j < k ==> pass.workers[j] == workers[j])
            && (forall j :: k <= j < |workers| ==> FedBits(F, j, pass.workers[j], s, pos + |rows|))
    decreases |F.ranges| - k
  {
    hide WorkerStep, FedBits, IsWitness, Bits;
    assert Assembled(F) by { WitnessIsAssembled(F, mark); }
    if k < |F.ranges| {
      LaterWorkerTakes(F, mark, k, workers[k], s, n, pos, rows);
      var kvs := WorkerStep(F.net, F.ranges[k], workers[k], s, pos, F.send(rows)).1;
      LaterWorkersPass(F, mark, k + 1, workers[k := kvs], links, s, n, pos, rows);
    }
  }

  lemma {:induction false} WitnessIsAssembled(F: Fleet, mark: seq<Token>)
    requires IsWitness(F, mark)
    ensures Assembled(F) && |F.ranges| > 1
  {
  }

  /** Every worker has taken the same pushes; the first one's rows say which
      tokens the coordinator had at each position. */
  ghost predicate Uniform(F: Fleet, mark: seq<Token>, workers: seq<Caches>, links: seq<bool>, s: SeqId,
                          seen: seq<seq<Token>>) {
    && IsWitness(F, mark) && |workers| == |links| == |F.ranges| && AllOpen(links)
    && Fed(F, 1, workers[1], s, Marks(mark, seen))
    && (forall k :: 1 < k < |workers| ==> FedBits(F, k, workers[k], s, |seen|))
  }

  /** The first worker's answers to its last rows. */
  lemma {:induction false} FirstWorkerOut(F: Fleet, mark: seq<Token>, all: seq<Row>, n: nat)
    requires IsWitness(F, mark) && n < |all|
    ensures F.ranges[1].start <= F.ranges[1].end
    ensures var out := Rows(F.net, F.ranges[1].start, all, F.ranges[1].end)[n..];
            Bits(out) && F.back[1](out) == out && out[|all| - n - 1] == Answer(mark, all, |all| - 1)
  {
    hide RowAt, WitnessNet;
    CutIsInside(F);
    var out := Rows(F.net, F.ranges[1].start, all, F.ranges[1].end)[n..];
    forall i | 0 <= i < |all| - n
      ensures out[i] == Answer(mark, all, n + i)
    {
      FirstWorkerRow(F.net, F.ranges[1].start, mark, all, F.ranges[1].end, n + i);
    }
  }

  lemma {:induction false} AnswerOfMarks(mark: seq<Token>, seen: seq<seq<Token>>)
    requires mark != [] && seen != []
    ensures Answer(mark, Marks(mark, seen), |seen| - 1) == Bit(|mark| <= |seen| && seen[|mark| - 1] == mark)
  {
  }

  lemma {:induction false} FirstWorkerTakes(F: Fleet, mark: seq<Token>, kvs: Caches, s: SeqId, seen: seq<seq<Token>>,
                                            log: Log, c: seq<Token>)
    requires IsWitness(F, mark) && Fed(F, 1, kvs, s, Marks(mark, seen)) && c != []
    requires Concat(log) == [] || |seen| == |Concat(log)|
    requires |Concat(log)| + |c| <= F.net.context
    ensures var seen' := (if Concat(log) == [] then [] else seen) + Prefixes(Concat(log), c);
            var (res, kvs') := WorkerStep(F.net, F.ranges[1], kvs, s, |Concat(log)|, F.send(Given(F, 0, log, c)));
            && Fed(F, 1, kvs', s, Marks(mark, seen'))
            && res.Done? && |res.value| == |c| && Bits(res.value) && F.back[1](res.value) == res.value
            && res.value[|c| - 1] == Bit(|mark| <= |seen'| && seen'[|mark| - 1] == mark)
  {
    hide WorkerStep, Rows, WitnessNet, CacheOf, Given, Fed, Answer;
    var pos := |Concat(log)|;
    HeadMarks(F, mark, log, c);
    var rows := Marks(mark, Prefixes(Concat(log), c));
    assert F.send(rows) == rows;
    FedTakes(F, 1, kvs, s, Marks(mark, seen), pos, rows);
    var base := if pos == 0 then [] else seen;
    var seen' := base + Prefixes(Concat(log), c);
    assert (if pos == 0 then [] else Marks(mark, seen)) + rows == Marks(mark, seen');
    FirstWorkerOut(F, mark, Marks(mark, seen'), |base|);
    AnswerOfMarks(mark, seen');
  }

  /** A push that every worker takes. */
  lemma {:induction false} UniformPush(F: Fleet, mark: seq<Token>, workers: seq<Caches>, links: seq<bool>, s: SeqId,
                                       seen: seq<seq<Token>>, log: Log, c: seq<Token>)
    requires Uniform(F, mark, workers, links, s, seen) && c != []
    requires Concat(log) == [] || |seen| == |Concat(log)|
    requires |Concat(log)| + |c| <= F.net.context
    ensures var seen' := (if Concat(log) == [] then [] else seen) + Prefixes(Concat(log), c);
            var pass := Remote(F, 1, workers, links, s, |Concat(log)|, Given(F, 0, log, c), AllFine(|F.ranges|));
            && Uniform(F, mark, pass.workers, pass.links, s, seen')
            && pass.links == links && pass.res.Done? && |pass.res.value| == |c|
            && pass.res.value[|c| - 1] == Bit(|mark| <= |seen'| && seen'[|mark| - 1] == mark)
  {
    hide WorkerStep, FedBits, IsWitness, Bits, Fed, Given;
    WitnessIsAssembled(F, mark);
    FirstWorkerTakes(F, mark, workers[1], s, seen, log, c);
    var (res, kvs) := WorkerStep(F.net, F.ranges[1], workers[1], s, |Concat(log)|, F.send(Given(F, 0, log, c)));
    LaterWorkersPass(F, mark, 2, workers[1 := kvs], links, s, |seen|, |Concat(log)|, res.value);
    assert Remote(F, 1, workers, links, s, |Concat(log)|, Given(F, 0, log, c), AllFine(|F.ranges|))
        == Remote(F, 2, workers[1 := kvs], links, s, |Concat(log)|, res.value, AllFine(|F.ranges|));
  }

  /** The same push whose last reply cannot be decoded: every worker takes it
      and the call fails. */
  lemma {:induction false} TakenInVain(F: Fleet, k: nat, workers: seq<Caches>, links: seq<bool>, s: SeqId, pos: nat,
                                       rows: seq<Row>)
    requires Assembled(F) && 0 < k < |F.ranges| == |workers| == |links| && AllOpen(links)
    requires Remote(F, k, workers, links, s, pos, rows, AllFine(|F.ranges|)).res.Done?
    ensures var n := |F.ranges|;
            var fine := Remote(F, k, workers, links, s, pos, rows, AllFine(n));
            var vain := Remote(F, k, workers, links, s, pos, rows, AllFine(n)[n - 1 := NotDecoded]);
            vain == Pass(Failed, fine.workers, links)
    decreases |F.ranges| - k
  {
    hide WorkerStep;
    var n := |F.ranges|;
    var (res, kvs) := WorkerStep(F.net, F.ranges[k], workers[k], s, pos, F.send(rows));
    assert res.Done?;
    if k < n - 1 {
      TakenInVain(F, k + 1, workers[k := kvs], links, s, pos, F.back[k](res.value));
    } else {
      assert Remote(F, n, workers[k := kvs], links, s, pos, F.back[k](res.value), AllFine(n)).workers
        == workers[k := kvs];
    }
  }

  /** A push that cannot be encoded reaches nobody. */
  lemma {:induction false} NeverSent(F: Fleet, workers: seq<Caches>, links: seq<bool>, s: SeqId, pos: nat,
                                     rows: seq<Row>)
    requires Assembled(F) && 1 < |F.ranges| == |workers| == |links| && AllOpen(links)
    ensures Remote(F, 1, workers, links, s, pos, rows, AllFine(|F.ranges|)[1 := NotEncoded])
       == Pass(Failed, workers, links)
  {
  }
}
