/**
Layer-pipeline inference across machines
(rust/services/cgn-infer/src/pipeline/mod.rs): what each machine would see if
every chunk arrived.

The coordinator runs the first layer range, each worker one later range. A
hop encodes a chunk of rows and decodes it on the other side, so it is a
function on chunks: per-value for f16, per-tensor for int8.
*/
module PipelineReference {
  import opened Transformer
  import opened LayerSplit

  /** The chunks a sequence has been fed, in order. */
  type Log = seq<seq<Token>>

  type Hop = seq<Row> -> seq<Row>

  /**
  `ranges[0]` is the coordinator's slice, `ranges[k]` worker `k`'s. `send` is
  the hop to a worker, `back[k]` the hop from worker `k` (`back[0]` is unused).
  */
  datatype Fleet = Fleet(net: Net, ranges: seq<LayerRange>, send: Hop, back: seq<Hop>)

  ghost predicate Assembled(F: Fleet) {
    && F.ranges != [] && |F.back| == |F.ranges|
    && Tiles(F.ranges, 0, F.net.layers)
    && (forall k :: 0 <= k < |F.ranges| ==> F.ranges[k].start < F.ranges[k].end)
    && F.net.context < 0x1_0000_0000
    && (forall xs: seq<Row> :: |F.send(xs)| == |xs|)
    && (forall k, xs: seq<Row> :: 0 <= k < |F.back| ==> |F.back[k](xs)| == |xs|)
  }

  function Front(log: Log): Log
    requires log != []
  {
    log[..|log| - 1]
  }

  /** All rows that enter stage `k` while `log` is fed. */
  ghost function Entering(F: Fleet, k: nat, log: Log): (r: seq<Row>)
    requires Assembled(F) && k < |F.ranges|
    ensures |r| == |Concat(log)|
    decreases k, |log|
  {
    if k == 0 then Embed(F.net, Concat(log))
    else if log == [] then []
    else Entering(F, k, Front(log)) + F.send(Handed(F, k - 1, log))
  }

  /** The rows of the last chunk that the coordinator holds after stage `k`. */
  ghost function Handed(F: Fleet, k: nat, log: Log): (r: seq<Row>)
    requires Assembled(F) && k < |F.ranges| && log != []
    ensures |r| == |log[|log| - 1]|
    decreases k, |log| + 1
  {
    var rows := Rows(F.net, F.ranges[k].start, Entering(F, k, log), F.ranges[k].end)[|Concat(Front(log))|..];
    if k == 0 then rows else F.back[k](rows)
  }

  /** What the pipeline answers after `log`. */
  ghost function PipeLogits(F: Fleet, log: Log): Row
    requires Assembled(F) && log != [] && log[|log| - 1] != []
  {
    var rows := Handed(F, |F.ranges| - 1, log);
    F.net.head(rows[|rows| - 1])
  }

  /** The cache stage `k` holds exactly when it has been fed `log`. */
  ghost function StageCache(F: Fleet, k: nat, log: Log): SeqKv
    requires Assembled(F) && k < |F.ranges|
  {
    CacheOf(F.net, F.ranges[k].start, F.ranges[k].end, Entering(F, k, log))
  }

  ghost predicate ProperLog(F: Fleet, log: Log) {
    |Concat(log)| <= F.net.context && forall c :: c in log ==> c != []
  }

  lemma {:induction false} FrontOfAppend(log: Log, c: seq<Token>)
    ensures Front(log + [c]) == log && Concat(log + [c]) == Concat(log) + c
  {
    assert (log + [c])[..|log|] == log;
  }

  /** One stage fed one more chunk. */
  lemma {:induction false} StageForward(F: Fleet, k: nat, log: Log, c: seq<Token>)
    requires Assembled(F) && k < |F.ranges| && ProperLog(F, log + [c]) && c != []
    ensures var rows := if k == 0 then Embed(F.net, c) else F.send(Handed(F, k - 1, log + [c]));
            var (res, kv) :=
              Forward(F.net, F.ranges[k].start, F.ranges[k].end, rows, |Concat(log)|, StageCache(F, k, log));
            && kv == StageCache(F, k, log + [c])
            && res.Done?
            && Handed(F, k, log + [c]) == if k == 0 then res.value else F.back[k](res.value)
  {
    FrontOfAppend(log, c);
    var rows := if k == 0 then Embed(F.net, c) else F.send(Handed(F, k - 1, log + [c]));
    if k == 0 {
      assert Embed(F.net, Concat(log) + c) == Embed(F.net, Concat(log)) + Embed(F.net, c);
    }
    assert Entering(F, k, log + [c]) == Entering(F, k, log) + rows;
    ForwardIsReference(F.net, F.ranges[k].start, F.ranges[k].end, Entering(F, k, log), rows);
  }

  function SliceLen(r: LayerRange): nat {
    if r.start < r.end then r.end - r.start else 0
  }

  lemma {:induction false} EmptyLogCache(F: Fleet, k: nat)
    requires Assembled(F) && k < |F.ranges|
    ensures StageCache(F, k, []) == NewKv(SliceLen(F.ranges[k]))
  {
    assert Entering(F, k, []) == [];
    EmptyCache(F.net, F.ranges[k].start, F.ranges[k].end);
  }

  lemma {:induction false} ConcatNonEmpty(log: Log)
    requires log != [] && forall c :: c in log ==> c != []
    ensures Concat(log) != []
  {
    assert log[|log| - 1] in log;
  }
}
