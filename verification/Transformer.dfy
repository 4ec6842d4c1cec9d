/**
The quantized Llama forward pass with caller-owned KV caches
(rust/services/cgn-infer/src/model/llama.rs).

The arithmetic of one layer is kept as functions of the model: `project` is a
position's (key, value) pair (norm, projections, RoPE) and `block` is the
rest of the layer for one position, given the cache entries its query may
attend to. Everything the code itself decides is modelled as written: which
entries are cached, which the mask hides, which position each row gets, and
what is left behind when a layer fails part way.
*/
module Transformer {
  import opened Wrappers

  type Token = nat
  type Row = seq<real>
  type Entry = (Row, Row)
  type Slot = Option<seq<Entry>>

  datatype Net = Net(
    layers: nat,
    context: nat,
    embed: Token -> Row,
    project: (nat, Row, nat) -> Entry,
    block: (nat, Row, nat, seq<Entry>) -> Row,
    head: Row -> Row)

  /** One slot per bound layer; `tokens` is what `len()` reports. */
  datatype SeqKv = SeqKv(entries: seq<Slot>, tokens: nat) {
    function Clear(): SeqKv {
      SeqKv(seq(|entries|, _ => None), 0)
    }
  }

  function NewKv(layers: nat): SeqKv {
    SeqKv(seq(layers, _ => None), 0)
  }

  // ---------------------------------------------------------------------
  // Reference semantics: one position at a time, one layer at a time, with
  // no cache, no chunk and no mask.
  // ---------------------------------------------------------------------

  /** The row entering layer `l` at position `i` when `ins` enters layer `lo`. */
  function RowAt(net: Net, lo: nat, ins: seq<Row>, l: nat, i: nat): Row
    requires lo <= l && i < |ins|
    decreases l, 0
  {
    if l == lo then ins[i]
    else net.block(l - 1, RowAt(net, lo, ins, l - 1, i), i, Keys(net, lo, ins, l - 1, i + 1))
  }

  /** Layer `l`'s entries for the first `n` positions. */
  function Keys(net: Net, lo: nat, ins: seq<Row>, l: nat, n: nat): (r: seq<Entry>)
    requires lo <= l && n <= |ins|
    ensures |r| == n
    decreases l, 1
  {
    seq(n, j requires 0 <= j < n => net.project(l, RowAt(net, lo, ins, l, j), j))
  }

  function Rows(net: Net, lo: nat, ins: seq<Row>, l: nat): (r: seq<Row>)
    requires lo <= l
    ensures |r| == |ins|
  {
    seq(|ins|, i requires 0 <= i < |ins| => RowAt(net, lo, ins, l, i))
  }

  function Embed(net: Net, ts: seq<Token>): (r: seq<Row>)
    ensures |r| == |ts|
  {
    seq(|ts|, i requires 0 <= i < |ts| => net.embed(ts[i]))
  }

  /** What the whole model answers after the token history `ts`. */
  function Logits(net: Net, ts: seq<Token>): Row
    requires ts != []
  {
    net.head(RowAt(net, 0, Embed(net, ts), net.layers, |ts| - 1))
  }

  /** The cache a slice holds exactly when it has seen the rows `ins`. */
  function CacheOf(net: Net, lo: nat, hi: nat, ins: seq<Row>): SeqKv
    requires lo <= hi
  {
    SeqKv(seq(hi - lo, k requires 0 <= k < hi - lo => SlotOf(net, lo, ins, lo + k)), |ins|)
  }

  function SlotOf(net: Net, lo: nat, ins: seq<Row>, l: nat): Slot
    requires lo <= l
  {
    if ins == [] then None else Some(Keys(net, lo, ins, l, |ins|))
  }

  lemma {:induction false} EmptyCache(net: Net, lo: nat, hi: nat)
    requires lo <= hi
    ensures CacheOf(net, lo, hi, []) == NewKv(hi - lo)
  {
    var none: seq<Row> := [];
    var a, b := CacheOf(net, lo, hi, none).entries, NewKv(hi - lo).entries;
    forall k | 0 <= k < |a|
      ensures a[k] == b[k]
    {
      assert a[k] == SlotOf(net, lo, none, lo + k);
    }
  }

  /** Causality: later inputs never change an earlier position. */
  lemma {:induction false} Causal(net: Net, lo: nat, ins: seq<Row>, more: seq<Row>, l: nat, i: nat)
    requires lo <= l && i < |ins|
    ensures RowAt(net, lo, ins + more, l, i) == RowAt(net, lo, ins, l, i)
    decreases l, 0
  {
    if l > lo {
      Causal(net, lo, ins, more, l - 1, i);
      CausalKeys(net, lo, ins, more, l - 1, i + 1);
    }
  }

  lemma {:induction false} CausalKeys(net: Net, lo: nat, ins: seq<Row>, more: seq<Row>, l: nat, n: nat)
    requires lo <= l && n <= |ins|
    ensures Keys(net, lo, ins + more, l, n) == Keys(net, lo, ins, l, n)
    decreases l, 1
  {
    forall j | 0 <= j < n
      ensures Keys(net, lo, ins + more, l, n)[j] == Keys(net, lo, ins, l, n)[j]
    {
      Causal(net, lo, ins, more, l, j);
    }
  }

  /** More input only adds rows at the end. */
  lemma {:induction false} RowsExtend(net: Net, lo: nat, ins: seq<Row>, more: seq<Row>, l: nat)
    requires lo <= l
    ensures Rows(net, lo, ins + more, l) == Rows(net, lo, ins, l) + Rows(net, lo, ins + more, l)[|ins|..]
  {
    forall i | 0 <= i < |ins|
      ensures Rows(net, lo, ins + more, l)[i] == Rows(net, lo, ins, l)[i]
    {
      Causal(net, lo, ins, more, l, i);
    }
  }

  /** Cutting the layers at `mid` and feeding the first part's output to the
      second computes what the uncut layers compute. */
  lemma {:induction false} SliceRow(net: Net, lo: nat, mid: nat, ins: seq<Row>, l: nat, i: nat)
    requires lo <= mid <= l && i < |ins|
    ensures RowAt(net, mid, Rows(net, lo, ins, mid), l, i) == RowAt(net, lo, ins, l, i)
    decreases l
  {
    var cut := Rows(net, lo, ins, mid);
    if l > mid {
      SliceRow(net, lo, mid, ins, l - 1, i);
      var above, below := Keys(net, mid, cut, l - 1, i + 1), Keys(net, lo, ins, l - 1, i + 1);
      forall j | 0 <= j <= i
        ensures above[j] == below[j]
      {
        SliceRow(net, lo, mid, ins, l - 1, j);
      }
      assert above == below;
    }
  }

  // ---------------------------------------------------------------------
  // The causal mask
  // ---------------------------------------------------------------------

  /** `(t, start + t)` table, true where the query must not look; absent for
      a single query. */
  function CausalMask(t: nat, start: nat): Option<seq<seq<bool>>> {
    if t == 1 then None
    else Some(seq(t, i => seq(start + t, j => j > start + i)))
  }

  function Unmasked(all: seq<Entry>, hidden: seq<bool>): seq<Entry>
    requires |all| == |hidden|
  {
    if all == [] then []
    else (if hidden[0] then [] else [all[0]]) + Unmasked(all[1..], hidden[1..])
  }

  /** The mask is either absent or as wide as the cached keys; otherwise the
      broadcast over the attention scores fails. */
  predicate MaskFits(mask: Option<seq<seq<bool>>>, t: nat, width: nat) {
    mask.Some? ==> |mask.value| == t && forall i :: 0 <= i < t ==> |mask.value[i]| == width
  }

  function Attended(all: seq<Entry>, mask: Option<seq<seq<bool>>>, t: nat, i: nat): seq<Entry>
    requires i < t && MaskFits(mask, t, |all|)
  {
    if mask.None? then all else Unmasked(all, mask.value[i])
  }

  lemma {:induction false} UnmaskedIsPrefix(all: seq<Entry>, hidden: seq<bool>, k: nat)
    requires |all| == |hidden| && k <= |all|
    requires forall j :: 0 <= j < |hidden| ==> hidden[j] == (j >= k)
    ensures Unmasked(all, hidden) == all[..k]
  {
    if all != [] {
      var tail := hidden[1..];
      assert forall j :: 0 <= j < |tail| ==> tail[j] == hidden[j + 1];
      UnmaskedIsPrefix(all[1..], tail, if k == 0 then 0 else k - 1);
    }
  }

  /** With the cache as long as the mask is wide, the query at `start + i`
      sees exactly the positions up to and including its own. */
  lemma {:induction false} MaskIsCausal(all: seq<Entry>, t: nat, start: nat, i: nat)
    requires i < t && |all| == start + t
    ensures MaskFits(CausalMask(t, start), t, |all|)
    ensures Attended(all, CausalMask(t, start), t, i) == all[..start + i + 1]
  {
    if t != 1 {
      UnmaskedIsPrefix(all, CausalMask(t, start).value[i], start + i + 1);
    } else {
      assert all == all[..start + i + 1];
    }
  }

  // ---------------------------------------------------------------------
  // One layer over a chunk
  // ---------------------------------------------------------------------

  function Fresh(net: Net, l: nat, xs: seq<Row>, start: nat): (r: seq<Entry>)
    ensures |r| == |xs|
  {
    seq(|xs|, i requires 0 <= i < |xs| => net.project(l, xs[i], start + i))
  }

  /** Concatenate onto the cached entries, or replace them at position 0. */
  function Grown(slot: Slot, newer: seq<Entry>, start: nat): seq<Entry> {
    if slot.Some? && start > 0 then slot.value + newer else newer
  }

  /** A cache of no entries and a missing one behave alike everywhere. */
  function AsSlot(all: seq<Entry>): Slot {
    if all == [] then None else Some(all)
  }

  /** One layer: the RoPE table bounds the positions before the slot is
      touched; the mask is applied after the slot has already grown. */
  function LayerForward(net: Net, l: nat, xs: seq<Row>, start: nat,
                        mask: Option<seq<seq<bool>>>, slot: Slot): (Result<seq<Row>>, Slot)
  {
    if start + |xs| > net.context then (Failed, slot)
    else
      var all := Grown(slot, Fresh(net, l, xs, start), start);
      if !MaskFits(mask, |xs|, |all|) then (Failed, AsSlot(all))
      else
        (Done(seq(|xs|, i requires 0 <= i < |xs| =>
                    net.block(l, xs[i], start + i, Attended(all, mask, |xs|, i)))),
         AsSlot(all))
  }

  /** On a clean cache one layer produces the reference rows and a clean cache. */
  lemma {:induction false} LayerForwardIsReference(net: Net, lo: nat, l: nat, ins: seq<Row>, more: seq<Row>)
    requires lo <= l && |ins| + |more| <= net.context
    ensures LayerForward(net, l, Rows(net, lo, ins + more, l)[|ins|..], |ins|,
                         CausalMask(|more|, |ins|), SlotOf(net, lo, ins, l))
         == (Done(Rows(net, lo, ins + more, l + 1)[|ins|..]), SlotOf(net, lo, ins + more, l))
  {
    var both, start := ins + more, |ins|;
    var xs := Rows(net, lo, both, l)[start..];
    var mask := CausalMask(|more|, start);
    var all := Grown(SlotOf(net, lo, ins, l), Fresh(net, l, xs, start), start);
    CausalKeys(net, lo, ins, more, l, start);
    assert all == Keys(net, lo, both, l, |both|) by {
      assert forall j :: 0 <= j < start ==> Keys(net, lo, both, l, |both|)[j] == Keys(net, lo, both, l, start)[j];
    }
    var got := LayerForward(net, l, xs, start, mask, SlotOf(net, lo, ins, l));
    forall i | 0 <= i < |more|
      ensures MaskFits(mask, |more|, |all|)
      ensures Attended(all, mask, |more|, i) == Keys(net, lo, both, l, start + i + 1)
    {
      MaskIsCausal(all, |more|, start, i);
    }
    assert MaskFits(mask, |more|, |all|);
    assert got.0.value == Rows(net, lo, both, l + 1)[start..];
  }

  // ---------------------------------------------------------------------
  // A slice of layers over a chunk
  // ---------------------------------------------------------------------

  /** Layers `lo + k ..` of a slice, threading rows through and growing slots
      in order; a failing layer leaves the earlier slots grown. */
  function LayersForward(net: Net, lo: nat, k: nat, xs: seq<Row>, start: nat,
                         mask: Option<seq<seq<bool>>>, slots: seq<Slot>): (r: (Result<seq<Row>>, seq<Slot>))
    requires k <= |slots|
    ensures |r.1| == |slots|
    ensures r.0.Done? ==> |r.0.value| == |xs|
    decreases |slots| - k
  {
    if k == |slots| then (Done(xs), slots)
    else
      var (res, slot) := LayerForward(net, lo + k, xs, start, mask, slots[k]);
      if res.Failed? then (Failed, slots[k := slot])
      else LayersForward(net, lo, k + 1, res.value, start, mask, slots[k := slot])
  }

  function Forward(net: Net, lo: nat, hi: nat, xs: seq<Row>, start: nat, kv: SeqKv): (Result<seq<Row>>, SeqKv)
    requires lo <= hi
  {
    if |kv.entries| != hi - lo then (Failed, kv)
    else
      var (res, slots) := LayersForward(net, lo, 0, xs, start, CausalMask(|xs|, start), kv.entries);
      (res, SeqKv(slots, if res.Done? then start + |xs| else kv.tokens))
  }

  /** `forward_hidden`: the layer loop, updating rows and slots in place. */
  method ForwardHidden(net: Net, lo: nat, hi: nat, hidden: seq<Row>, start: nat, kv: SeqKv)
    returns (res: Result<seq<Row>>, kv': SeqKv)
    requires lo <= hi
    ensures (res, kv') == Forward(net, lo, hi, hidden, start, kv)
  {
    if |kv.entries| != hi - lo {
      return Failed, kv;
    }
    var mask := CausalMask(|hidden|, start);
    var x, slots := hidden, kv.entries;
    for k := 0 to |kv.entries|
      invariant |slots| == |kv.entries|
      invariant LayersForward(net, lo, k, x, start, mask, slots)
             == LayersForward(net, lo, 0, hidden, start, mask, kv.entries)
      invariant |x| == |hidden|
    {
      var (r, slot) := LayerForward(net, lo + k, x, start, mask, slots[k]);
      slots := slots[k := slot];
      if r.Failed? {
        return Failed, SeqKv(slots, kv.tokens);
      }
      x := r.value;
    }
    return Done(x), SeqKv(slots, start + |hidden|);
  }

  /** The slots after the first `k` layers of a chunk have run. */
  function SlotsAfter(net: Net, lo: nat, hi: nat, ins: seq<Row>, more: seq<Row>, k: nat): (r: seq<Slot>)
    requires lo <= hi
    ensures |r| == hi - lo
  {
    seq(hi - lo, j requires 0 <= j < hi - lo => SlotOf(net, lo, if j < k then ins + more else ins, lo + j))
  }

  lemma {:induction false} LayersForwardIsReference(net: Net, lo: nat, hi: nat, ins: seq<Row>, more: seq<Row>, k: nat)
    requires lo <= hi && k <= hi - lo && |ins| + |more| <= net.context
    ensures LayersForward(net, lo, k, Rows(net, lo, ins + more, lo + k)[|ins|..], |ins|,
                          CausalMask(|more|, |ins|), SlotsAfter(net, lo, hi, ins, more, k))
         == (Done(Rows(net, lo, ins + more, hi)[|ins|..]), SlotsAfter(net, lo, hi, ins, more, hi - lo))
    decreases hi - lo - k
  {
    hide LayerForward, Rows, SlotOf, CausalMask;
    if k < hi - lo {
      LayerForwardIsReference(net, lo, lo + k, ins, more);
      var slots := SlotsAfter(net, lo, hi, ins, more, k);
      assert slots[k] == SlotOf(net, lo, ins, lo + k);
      assert slots[k := SlotOf(net, lo, ins + more, lo + k)] == SlotsAfter(net, lo, hi, ins, more, k + 1);
      hide SlotsAfter;
      LayersForwardIsReference(net, lo, hi, ins, more, k + 1);
    }
  }

  /**
  The layer-by-layer pass over a chunk agrees with the position-by-position
  reference: a slice that has seen `ins` and is given `more` answers the
  reference rows of `ins + more` for the new positions and is left with the
  cache of `ins + more`.
  */
  lemma {:induction false} ForwardIsReference(net: Net, lo: nat, hi: nat, ins: seq<Row>, more: seq<Row>)
    requires lo <= hi && |ins| + |more| <= net.context
    ensures Forward(net, lo, hi, more, |ins|, CacheOf(net, lo, hi, ins))
         == (Done(Rows(net, lo, ins + more, hi)[|ins|..]), CacheOf(net, lo, hi, ins + more))
  {
    LayersForwardIsReference(net, lo, hi, ins, more, 0);
    assert Rows(net, lo, ins + more, lo)[|ins|..] == more;
    assert SlotsAfter(net, lo, hi, ins, more, 0) == CacheOf(net, lo, hi, ins).entries;
    assert SlotsAfter(net, lo, hi, ins, more, hi - lo) == CacheOf(net, lo, hi, ins + more).entries;
  }

  /** Past the RoPE table the first layer refuses before any slot is touched. */
  lemma {:induction false} ForwardPastContext(net: Net, lo: nat, hi: nat, xs: seq<Row>, start: nat, kv: SeqKv)
    requires lo < hi && start + |xs| > net.context
    ensures Forward(net, lo, hi, xs, start, kv) == (Failed, kv)
  {
    if |kv.entries| == hi - lo {
      assert kv.entries[0 := kv.entries[0]] == kv.entries;
    }
  }

  // ---------------------------------------------------------------------
  // Every cut of a sequence into chunks
  // ---------------------------------------------------------------------

  function Concat<T>(chunks: seq<seq<T>>): seq<T> {
    if chunks == [] then [] else Concat(chunks[..|chunks| - 1]) + chunks[|chunks| - 1]
  }

  /** Feed the chunks one after another, each at the position the cache has
      reached; the answer is the last chunk's rows. */
  function Feed(net: Net, lo: nat, hi: nat, chunks: seq<seq<Row>>): (Result<seq<Row>>, SeqKv)
    requires lo <= hi && chunks != []
  {
    var last := chunks[|chunks| - 1];
    if |chunks| == 1 then Forward(net, lo, hi, last, 0, NewKv(hi - lo))
    else
      var (res, kv) := Feed(net, lo, hi, chunks[..|chunks| - 1]);
      if res.Failed? then (Failed, kv) else Forward(net, lo, hi, last, kv.tokens, kv)
  }

  lemma {:induction false} FeedIsReference(net: Net, lo: nat, hi: nat, chunks: seq<seq<Row>>)
    requires lo <= hi && chunks != []
    requires forall c :: c in chunks ==> c != []
    requires |Concat(chunks)| <= net.context
    ensures Feed(net, lo, hi, chunks).0.Done?
    ensures Feed(net, lo, hi, chunks).0.value
         == Rows(net, lo, Concat(chunks), hi)[|Concat(chunks)| - |chunks[|chunks| - 1]|..]
    ensures Feed(net, lo, hi, chunks).1 == CacheOf(net, lo, hi, Concat(chunks))
  {
    var front, last := chunks[..|chunks| - 1], chunks[|chunks| - 1];
    assert last in chunks;
    if |chunks| == 1 {
      assert Concat(front) == [];
      EmptyCache(net, lo, hi);
      assert [] + last == last;
    } else {
      assert forall c :: c in front ==> c in chunks;
      FeedIsReference(net, lo, hi, front);
    }
    ForwardIsReference(net, lo, hi, Concat(front), last);
  }

  /**
  Any two ways of cutting the same rows into non-empty chunks (one prefill,
  many chunks, single-token decodes) leave the same caches and the same
  last-position row.
  */
  lemma {:induction false} CutsAgree(net: Net, lo: nat, hi: nat, a: seq<seq<Row>>, b: seq<seq<Row>>)
    requires lo <= hi && a != [] && b != []
    requires forall c :: c in a ==> c != []
    requires forall c :: c in b ==> c != []
    requires Concat(a) == Concat(b) && |Concat(a)| <= net.context
    ensures Feed(net, lo, hi, a).0.Done? && Feed(net, lo, hi, b).0.Done?
    ensures Feed(net, lo, hi, a).1 == Feed(net, lo, hi, b).1
    ensures var ra, rb := Feed(net, lo, hi, a).0.value, Feed(net, lo, hi, b).0.value;
            ra != [] && rb != [] && ra[|ra| - 1] == rb[|rb| - 1]
  {
    hide Feed, Rows, CacheOf, Concat;
    FeedIsReference(net, lo, hi, a);
    FeedIsReference(net, lo, hi, b);
    LastFed(a);
    LastFed(b);
  }

  lemma {:induction false} LastFed<T>(chunks: seq<seq<T>>)
    requires chunks != [] && forall c :: c in chunks ==> c != []
    ensures 0 < |chunks[|chunks| - 1]| <= |Concat(chunks)|
  {
    assert chunks[|chunks| - 1] in chunks;
  }
}
