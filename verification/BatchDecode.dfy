/**
Batched decode: one new token for each of several sequences in a single pass
over the layers (rust/services/cgn-infer/src/model/llama.rs, `decode_step`).
*/
module BatchDecode {
  import opened Wrappers
  import opened Transformer

  predicate AllFit(net: Net, positions: seq<nat>) {
    forall i :: 0 <= i < |positions| ==> positions[i] < net.context
  }

  /** The first sequence that has no position left, or the batch size. */
  function FirstFull(net: Net, positions: seq<nat>): (f: nat)
    ensures f <= |positions|
    ensures forall i :: 0 <= i < f ==> positions[i] < net.context
    ensures f < |positions| ==> positions[f] >= net.context
  {
    if positions == [] || positions[0] >= net.context then 0
    else 1 + FirstFull(net, positions[1..])
  }

  /** What a single-sequence pass does to one slot in one layer. */
  function Touched(net: Net, l: nat, k: nat, x: Row, pos: nat, kv: SeqKv): SeqKv
    requires k < |kv.entries|
  {
    kv.(entries := kv.entries[k := AsSlot(Grown(kv.entries[k], Fresh(net, l, [x], pos), pos))])
  }

  /** Sequence `i`'s share of a batched layer is the single-sequence layer. */
  ghost predicate LayerAlone(net: Net, l: nat, k: nat, x: Row, pos: nat, kv: SeqKv, y: Row, kv': SeqKv)
    requires k < |kv.entries|
  {
    && kv' == Touched(net, l, k, x, pos, kv)
    && LayerForward(net, l, [x], pos, None, kv.entries[k]) == (Done([y]), kv'.entries[k])
  }

  lemma {:induction false} SingleRow(net: Net, l: nat, x: Row, pos: nat, slot: Slot)
    requires pos < net.context
    ensures var all := Grown(slot, Fresh(net, l, [x], pos), pos);
            LayerForward(net, l, [x], pos, None, slot) == (Done([net.block(l, x, pos, all)]), AsSlot(all)) && all != []
  {
    var all := Grown(slot, Fresh(net, l, [x], pos), pos);
    var none: Option<seq<seq<bool>>> := None;
    var got := LayerForward(net, l, [x], pos, none, slot).0.value;
    assert got[0] == net.block(l, x, pos, Attended(all, none, 1, 0));
    assert got == [net.block(l, x, pos, all)];
  }

  /** `block_forward_batch`: the per-sequence loop of one layer. */
  method LayerBatch(net: Net, l: nat, k: nat, xs: seq<Row>, positions: seq<nat>, kvs: seq<SeqKv>)
    returns (res: Result<seq<Row>>, kvs': seq<SeqKv>)
    requires |xs| == |positions| == |kvs|
    requires forall i :: 0 <= i < |kvs| ==> k < |kvs[i].entries|
    ensures |kvs'| == |kvs|
    ensures res.Done? <==> AllFit(net, positions)
    ensures res.Done? ==> |res.value| == |xs|
    ensures res.Done? ==> forall i :: 0 <= i < |xs| ==>
      LayerAlone(net, l, k, xs[i], positions[i], kvs[i], res.value[i], kvs'[i])
    ensures res.Failed? ==> forall i :: 0 <= i < |xs| ==>
      kvs'[i] == if i < FirstFull(net, positions) then Touched(net, l, k, xs[i], positions[i], kvs[i]) else kvs[i]
  {
    kvs' := kvs;
    var ys := [];
    for i := 0 to |xs|
      invariant |kvs'| == |kvs| && |ys| == i <= FirstFull(net, positions)
      invariant forall j :: 0 <= j < i ==> LayerAlone(net, l, k, xs[j], positions[j], kvs[j], ys[j], kvs'[j])
      invariant forall j :: i <= j < |kvs| ==> kvs'[j] == kvs[j]
    {
      var pos := positions[i];
      if pos + 1 > net.context {
        return Failed, kvs';
      }
      SingleRow(net, l, xs[i], pos, kvs[i].entries[k]);
      var all := Grown(kvs'[i].entries[k], Fresh(net, l, [xs[i]], pos), pos);
      kvs' := kvs'[i := kvs'[i].(entries := kvs'[i].entries[k := AsSlot(all)])];
      ys := ys + [net.block(l, xs[i], pos, all)];
    }
    res := Done(ys);
  }

  /**
  `decode_step`. When every listed sequence still has a position left, row `i`
  and cache `i` are exactly what a decode of sequence `i` alone would give.
  Otherwise the step fails in the first layer, after that layer's slot has
  already grown for the sequences listed before the first full one.
  */
  method DecodeStep(net: Net, lo: nat, hi: nat, hiddens: seq<Row>, positions: seq<nat>, kvs: seq<SeqKv>)
    returns (res: Result<seq<Row>>, kvs': seq<SeqKv>)
    requires lo < hi
    requires forall i :: 0 <= i < |kvs| ==> |kvs[i].entries| == hi - lo
    requires |positions| == |kvs| ==> forall i :: 0 <= i < |kvs| ==> positions[i] == kvs[i].tokens
    ensures |kvs'| == |kvs|
    ensures res.Done? <==> |hiddens| == |positions| == |kvs| && AllFit(net, positions)
    ensures res.Done? ==> |res.value| == |hiddens|
    ensures res.Done? ==> forall i :: 0 <= i < |kvs| ==>
      Forward(net, lo, hi, [hiddens[i]], positions[i], kvs[i]) == (Done([res.value[i]]), kvs'[i])
    ensures res.Failed? && |hiddens| == |positions| == |kvs| ==> forall i :: 0 <= i < |kvs| ==>
      kvs'[i] == if i < FirstFull(net, positions) then Touched(net, lo, 0, hiddens[i], positions[i], kvs[i]) else kvs[i]
    ensures !(|hiddens| == |positions| == |kvs|) ==> kvs' == kvs
  {
    if !(|hiddens| == |positions| == |kvs|) {
      return Failed, kvs;
    }
    var x;
    x, kvs' := hiddens, kvs;
    for k := 0 to hi - lo
      invariant |x| == |kvs'| == |kvs|
      invariant k == 0 ==> x == hiddens && kvs' == kvs
      invariant k > 0 ==> AllFit(net, positions)
      invariant forall i :: 0 <= i < |kvs| ==> |kvs'[i].entries| == hi - lo && kvs'[i].tokens == kvs[i].tokens
      invariant forall i :: 0 <= i < |kvs| ==>
        Pending(net, lo, k, x[i], positions[i], kvs'[i]) == Pending(net, lo, 0, hiddens[i], positions[i], kvs[i])
    {
      var r, grown := LayerBatch(net, lo + k, k, x, positions, kvs');
      if r.Failed? {
        return Failed, grown;
      }
      x, kvs' := r.value, grown;
    }
    ghost var before := kvs';
    kvs' := seq(|kvs'|, i requires 0 <= i < |kvs'| => kvs'[i].(tokens := kvs'[i].tokens + 1));
    forall i | 0 <= i < |kvs|
      ensures Forward(net, lo, hi, [hiddens[i]], positions[i], kvs[i]) == (Done([x[i]]), kvs'[i])
    {
      assert Pending(net, lo, hi - lo, x[i], positions[i], before[i]) == (Done([x[i]]), before[i].entries);
    }
    res := Done(x);
  }

  /** What the remaining layers would make of one sequence on its own. */
  ghost function Pending(net: Net, lo: nat, k: nat, x: Row, pos: nat, kv: SeqKv): (Result<seq<Row>>, seq<Slot>)
    requires k <= |kv.entries|
  {
    LayersForward(net, lo, k, [x], pos, None, kv.entries)
  }

  /**
  A failed decode step leaves every cache as it was if and only if the first
  sequence of the batch is the one that has run out of positions: any
  sequence listed before it ends with one slot longer than its `len()`.
  */
  lemma {:induction false} FailedStepKeepsCachesIff(net: Net, lo: nat, hi: nat, hiddens: seq<Row>, positions: seq<nat>,
                                 kvs: seq<SeqKv>, kvs': seq<SeqKv>)
    requires lo < hi && |hiddens| == |positions| == |kvs| == |kvs'|
    requires forall i :: 0 <= i < |kvs| ==> |kvs[i].entries| == hi - lo && positions[i] == kvs[i].tokens
    requires forall i :: 0 <= i < |kvs| && kvs[i].entries[0].Some? ==> |kvs[i].entries[0].value| == kvs[i].tokens
    requires forall i :: 0 <= i < |kvs| ==>
      kvs'[i] == if i < FirstFull(net, positions) then Touched(net, lo, 0, hiddens[i], positions[i], kvs[i]) else kvs[i]
    ensures kvs' == kvs <==> kvs == [] || positions[0] >= net.context
    ensures forall i :: 0 <= i < FirstFull(net, positions) ==>
      kvs'[i].tokens == kvs[i].tokens && kvs'[i] != kvs[i]
  {
    forall i | 0 <= i < FirstFull(net, positions)
      ensures kvs'[i] != kvs[i]
    {
      var slot := kvs[i].entries[0];
      assert kvs'[i].entries[0] == Some(Grown(slot, Fresh(net, lo, [hiddens[i]], positions[i]), positions[i]));
      assert |kvs'[i].entries[0].value| == if slot.Some? && positions[i] > 0 then |slot.value| + 1 else 1;
    }
    if kvs != [] && positions[0] < net.context {
      assert 0 < FirstFull(net, positions);
    }
  }
}
