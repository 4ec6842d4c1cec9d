/**
What the sliced pipeline computes as a whole. When a hop treats every row on
its own (f16), the pipeline is the unsliced model with the hop's rounding
applied at each slice boundary, whatever the chunking; when the wire is exact
it is the model itself.
*/
module PipelineWire {
  import opened Wrappers
  import opened Transformer
  import opened LayerSplit
  import opened PipelineReference

  type RowHop = Row -> Row

  function MapRows(f: RowHop, xs: seq<Row>): (r: seq<Row>)
    ensures |r| == |xs|
  {
    seq(|xs|, i requires 0 <= i < |xs| => f(xs[i]))
  }

  ghost predicate Rowwise(F: Fleet, send: RowHop, back: seq<RowHop>) {
    && |back| == |F.back|
    && (forall xs :: F.send(xs) == MapRows(send, xs))
    && (forall k, xs :: 0 <= k < |back| ==> F.back[k](xs) == MapRows(back[k], xs))
  }

  /** The rounding a row picks up after stage `k` of `n`. */
  function Crossing(n: nat, send: RowHop, back: seq<RowHop>, k: nat, x: Row): Row
    requires k < |back|
  {
    var y := if k == 0 then x else back[k](x);
    if k + 1 < n then send(y) else y
  }

  /** The stage whose slice ends at layer `e`, if any. */
  function StageEnding(ranges: seq<LayerRange>, e: nat): (r: Option<nat>)
    ensures r.Some? ==> r.value < |ranges| && ranges[r.value].end == e
    ensures r.None? ==> forall k :: 0 <= k < |ranges| ==> ranges[k].end != e
  {
    if ranges == [] then None
    else if ranges[|ranges| - 1].end == e then Some(|ranges| - 1)
    else StageEnding(ranges[..|ranges| - 1], e)
  }

  /** The unsliced model with the wire's rounding at the slice boundaries. */
  function WireNet(net: Net, ranges: seq<LayerRange>, send: RowHop, back: seq<RowHop>): Net
    requires |back| == |ranges|
  {
    net.(block := (l: nat, x: Row, p: nat, h: seq<Entry>) => WireBlock(net, ranges, send, back, l, x, p, h))
  }

  function WireBlock(net: Net, ranges: seq<LayerRange>, send: RowHop, back: seq<RowHop>,
                     l: nat, x: Row, p: nat, h: seq<Entry>): Row
    requires |back| == |ranges|
  {
    var y := net.block(l, x, p, h);
    var k := StageEnding(ranges, l + 1);
    if k.Some? then Crossing(|ranges|, send, back, k.value, y) else y
  }

  lemma {:induction false} BoundaryIsUnique(F: Fleet, k: nat, l: nat)
    requires Assembled(F) && k < |F.ranges| && F.ranges[k].start <= l < F.ranges[k].end
    ensures l + 1 < F.ranges[k].end ==> StageEnding(F.ranges, l + 1) == None
    ensures l + 1 == F.ranges[k].end ==> StageEnding(F.ranges, l + 1) == Some(k)
  {
    TilesOwnEachLayerOnce(F.ranges, 0, F.net.layers, l);
  }

  /** Inside stage `k` the two models agree; its last layer adds the crossing. */
  lemma {:induction false} WireInStage(F: Fleet, send: RowHop, back: seq<RowHop>, k: nat, ins: seq<Row>, l: nat, i: nat)
    requires Assembled(F) && |back| == |F.ranges| && k < |F.ranges| && i < |ins|
    requires F.ranges[k].start <= l <= F.ranges[k].end
    ensures var w := WireNet(F.net, F.ranges, send, back);
            var lo := F.ranges[k].start;
            RowAt(w, lo, ins, l, i) ==
              if l == F.ranges[k].end then Crossing(|F.ranges|, send, back, k, RowAt(F.net, lo, ins, l, i))
              else RowAt(F.net, lo, ins, l, i)
    decreases l
  {
    hide Assembled, Crossing, StageEnding, WireNet;
    StagesNonEmpty(F, k);
    var w := WireNet(F.net, F.ranges, send, back);
    var lo := F.ranges[k].start;
    if l > lo {
      var m := l - 1;
      forall j | 0 <= j <= i
        ensures RowAt(w, lo, ins, m, j) == RowAt(F.net, lo, ins, m, j)
      {
        WireInStage(F, send, back, k, ins, m, j);
      }
      BoundaryIsUnique(F, k, m);
      WireLayer(F.net, F.ranges, send, back, lo, ins, m, i);
    }
  }

  /** One layer of the wire model on rows the two models agree on. */
  lemma {:induction false} WireLayer(net: Net, ranges: seq<LayerRange>, send: RowHop, back: seq<RowHop>,
                                     lo: nat, ins: seq<Row>, l: nat, i: nat)
    requires |back| == |ranges| && lo <= l && i < |ins|
    requires forall j :: 0 <= j <= i ==>
      RowAt(WireNet(net, ranges, send, back), lo, ins, l, j) == RowAt(net, lo, ins, l, j)
    ensures var k, y := StageEnding(ranges, l + 1), RowAt(net, lo, ins, l + 1, i);
            RowAt(WireNet(net, ranges, send, back), lo, ins, l + 1, i) ==
              if k.Some? then Crossing(|ranges|, send, back, k.value, y) else y
  {
    hide Crossing, StageEnding;
    var w := WireNet(net, ranges, send, back);
    assert Keys(w, lo, ins, l, i + 1) == Keys(net, lo, ins, l, i + 1);
  }

  lemma {:induction false} StagesNonEmpty(F: Fleet, k: nat)
    requires Assembled(F) && k < |F.ranges|
    ensures F.ranges[k].start < F.ranges[k].end && |F.back| == |F.ranges|
  {
  }

  lemma {:induction false} ConsecutiveStages(F: Fleet, k: nat)
    requires Assembled(F) && 0 < k < |F.ranges|
    ensures F.ranges[k].start == F.ranges[k - 1].end
  {
    TilesSplit(F.ranges, 0, F.net.layers, k - 1);
    assert F.ranges[k - 1 + 1..][0] == F.ranges[k];
  }

  /** Sending on what stage `k` hands over applies the crossing row by row. */
  lemma {:induction false} HandedCrossed(F: Fleet, send: RowHop, back: seq<RowHop>, k: nat, log: Log)
    requires Assembled(F) && Rowwise(F, send, back) && k < |F.ranges| && log != []
    ensures var rows := Rows(F.net, F.ranges[k].start, Entering(F, k, log), F.ranges[k].end)[|Concat(Front(log))|..];
            var got := if k + 1 < |F.ranges| then F.send(Handed(F, k, log)) else Handed(F, k, log);
            |got| == |rows| && forall i :: 0 <= i < |rows| ==> got[i] == Crossing(|F.ranges|, send, back, k, rows[i])
  {
    hide Rows, Entering;
  }

  /** The rows handed on after stage `k`, once crossed, are the wire model's. */
  lemma {:induction false} HandedIsWire(F: Fleet, send: RowHop, back: seq<RowHop>, k: nat, log: Log)
    requires Assembled(F) && Rowwise(F, send, back) && k < |F.ranges| && log != []
    requires Entering(F, k, log)
       == Rows(WireNet(F.net, F.ranges, send, back), 0, Embed(F.net, Concat(log)), F.ranges[k].start)
    ensures var w := WireNet(F.net, F.ranges, send, back);
            var rows := Rows(w, 0, Embed(F.net, Concat(log)), F.ranges[k].end)[|Concat(Front(log))|..];
            (if k + 1 < |F.ranges| then F.send(Handed(F, k, log)) else Handed(F, k, log)) == rows
  {
    hide Entering, Handed, WireNet, Crossing, RowAt, Assembled, Rowwise;
    Widths(F, send, back);
    StagesNonEmpty(F, k);
    var w := WireNet(F.net, F.ranges, send, back);
    var lo, hi := F.ranges[k].start, F.ranges[k].end;
    var E := Embed(F.net, Concat(log));
    var ins := Entering(F, k, log);
    var n := |Concat(Front(log))|;
    var rows := Rows(w, 0, E, hi)[n..];
    var got := if k + 1 < |F.ranges| then F.send(Handed(F, k, log)) else Handed(F, k, log);
    HandedCrossed(F, send, back, k, log);
    assert |got| == |rows|;
    forall i | 0 <= i < |rows|
      ensures got[i] == rows[i]
    {
      CrossedRow(F, send, back, k, ins, E, n + i);
      assert Rows(F.net, lo, ins, hi)[n..][i] == RowAt(F.net, lo, ins, hi, n + i);
    }
  }

  lemma {:induction false} CrossedRow(F: Fleet, send: RowHop, back: seq<RowHop>, k: nat, ins: seq<Row>, E: seq<Row>,
                                      i: nat)
    requires Assembled(F) && |back| == |F.ranges| && k < |F.ranges| && i < |E|
    requires ins == Rows(WireNet(F.net, F.ranges, send, back), 0, E, F.ranges[k].start)
    ensures F.ranges[k].start <= F.ranges[k].end
    ensures RowAt(WireNet(F.net, F.ranges, send, back), 0, E, F.ranges[k].end, i)
         == Crossing(|F.ranges|, send, back, k, RowAt(F.net, F.ranges[k].start, ins, F.ranges[k].end, i))
  {
    hide WireNet, Crossing, RowAt, Assembled;
    StagesNonEmpty(F, k);
    WireInStage(F, send, back, k, ins, F.ranges[k].end, i);
    SliceRow(WireNet(F.net, F.ranges, send, back), 0, F.ranges[k].start, E, F.ranges[k].end, i);
  }

  lemma {:induction false} Widths(F: Fleet, send: RowHop, back: seq<RowHop>)
    requires Assembled(F) && Rowwise(F, send, back)
    ensures F.ranges != [] && |back| == |F.ranges|
  {
  }

  /** Every stage sees exactly the rows the wire model computes at its first layer. */
  lemma {:induction false} EnteringIsWire(F: Fleet, send: RowHop, back: seq<RowHop>, k: nat, log: Log)
    requires Assembled(F) && Rowwise(F, send, back) && k < |F.ranges|
    ensures Entering(F, k, log)
       == Rows(WireNet(F.net, F.ranges, send, back), 0, Embed(F.net, Concat(log)), F.ranges[k].start)
    decreases k, |log|
  {
    hide Handed, WireNet, RowAt, Rowwise, Assembled, Rows, Entering, Embed, Concat;
    Widths(F, send, back);
    if k == 0 || log == [] {
      EnteringAtEdge(F, send, back, k, log);
    } else {
      EnteringIsWire(F, send, back, k, Front(log));
      EnteringIsWire(F, send, back, k - 1, log);
      HandedIsWire(F, send, back, k - 1, log);
      EnteringGrows(F, send, back, k, log);
    }
  }

  lemma {:induction false} EnteringAtEdge(F: Fleet, send: RowHop, back: seq<RowHop>, k: nat, log: Log)
    requires Assembled(F) && |back| == |F.ranges| && k < |F.ranges| && (k == 0 || log == [])
    ensures Entering(F, k, log)
       == Rows(WireNet(F.net, F.ranges, send, back), 0, Embed(F.net, Concat(log)), F.ranges[k].start)
  {
    hide WireNet, RowAt, Assembled;
    if k == 0 {
      RowsAtFirst(WireNet(F.net, F.ranges, send, back), Embed(F.net, Concat(log)));
      StartsAtZero(F);
    }
  }

  lemma {:induction false} EnteringGrows(F: Fleet, send: RowHop, back: seq<RowHop>, k: nat, log: Log)
    requires Assembled(F) && |back| == |F.ranges| && 0 < k < |F.ranges| && log != []
    requires var w := WireNet(F.net, F.ranges, send, back);
             && Entering(F, k, Front(log)) == Rows(w, 0, Embed(F.net, Concat(Front(log))), F.ranges[k].start)
             && F.send(Handed(F, k - 1, log))
                  == Rows(w, 0, Embed(F.net, Concat(log)), F.ranges[k - 1].end)[|Concat(Front(log))|..]
    ensures Entering(F, k, log)
       == Rows(WireNet(F.net, F.ranges, send, back), 0, Embed(F.net, Concat(log)), F.ranges[k].start)
  {
    hide Handed, WireNet, RowAt, Assembled, Rows, Concat;
    var w := WireNet(F.net, F.ranges, send, back);
    ConsecutiveStages(F, k);
    EmbedLast(F.net, log);
    RowsExtend(w, 0, Embed(F.net, Concat(Front(log))), Embed(F.net, log[|log| - 1]), F.ranges[k].start);
  }

  lemma {:induction false} EmbedLast(net: Net, log: Log)
    requires log != []
    ensures Embed(net, Concat(log)) == Embed(net, Concat(Front(log))) + Embed(net, log[|log| - 1])
  {
  }

  lemma {:induction false} RowsAtFirst(net: Net, ins: seq<Row>)
    ensures Rows(net, 0, ins, 0) == ins
  {
  }

  lemma {:induction false} StartsAtZero(F: Fleet)
    requires Assembled(F)
    ensures F.ranges[0].start == 0
  {
  }

  lemma {:induction false} WireParts(net: Net, ranges: seq<LayerRange>, send: RowHop, back: seq<RowHop>, ts: seq<Token>)
    requires |back| == |ranges|
    ensures var w := WireNet(net, ranges, send, back);
            w.layers == net.layers && w.head == net.head && Embed(w, ts) == Embed(net, ts)
  {
  }

  lemma {:induction false} EndsAtLast(F: Fleet)
    requires Assembled(F)
    ensures F.ranges[|F.ranges| - 1].end == F.net.layers
  {
    TilesSplit(F.ranges, 0, F.net.layers, |F.ranges| - 1);
    assert F.ranges[|F.ranges| - 1 + 1..] == [];
  }

  /**
  With a row-wise wire the pipeline's answer depends on the tokens alone, not
  on how they were cut into chunks, and is the unsliced model's with the
  wire's rounding at each boundary.
  */
  lemma {:induction false} PipelineIsWireNet(F: Fleet, send: RowHop, back: seq<RowHop>, log: Log)
    requires Assembled(F) && Rowwise(F, send, back) && log != [] && log[|log| - 1] != []
    ensures Concat(log) != []
    ensures PipeLogits(F, log) == Logits(WireNet(F.net, F.ranges, send, back), Concat(log))
  {
    hide Entering, Handed, WireNet, RowAt, Assembled, Rowwise;
    Widths(F, send, back);
    var last := |F.ranges| - 1;
    EnteringIsWire(F, send, back, last, log);
    HandedIsWire(F, send, back, last, log);
    EndsAtLast(F);
    var w := WireNet(F.net, F.ranges, send, back);
    WireParts(F.net, F.ranges, send, back, Concat(log));
    LastRow(w, Embed(F.net, Concat(log)), F.net.layers, |Concat(Front(log))|);
  }

  lemma {:induction false} LastRow(w: Net, E: seq<Row>, l: nat, n: nat)
    requires n < |E|
    ensures var rows := Rows(w, 0, E, l)[n..];
            rows[|rows| - 1] == RowAt(w, 0, E, l, |E| - 1)
  {
  }

  ghost predicate Exact(send: RowHop, back: seq<RowHop>) {
    && (forall x :: send(x) == x)
    && (forall k, x :: 0 <= k < |back| ==> back[k](x) == x)
  }

  lemma {:induction false} ExactWireRow(net: Net, ranges: seq<LayerRange>, send: RowHop, back: seq<RowHop>,
                                        ins: seq<Row>, l: nat, i: nat)
    requires |back| == |ranges| && i < |ins|
    requires Exact(send, back)
    ensures RowAt(WireNet(net, ranges, send, back), 0, ins, l, i) == RowAt(net, 0, ins, l, i)
    decreases l
  {
    if l > 0 {
      ExactWireRow(net, ranges, send, back, ins, l - 1, i);
      var a := Keys(WireNet(net, ranges, send, back), 0, ins, l - 1, i + 1);
      var b := Keys(net, 0, ins, l - 1, i + 1);
      forall j | 0 <= j <= i
        ensures a[j] == b[j]
      {
        ExactWireRow(net, ranges, send, back, ins, l - 1, j);
      }
      assert a == b;
    }
  }

  /** Slicing the model across machines over an exact wire changes nothing. */
  lemma {:induction false} ExactWireIsWholeModel(F: Fleet, send: RowHop, back: seq<RowHop>, log: Log)
    requires Assembled(F) && Rowwise(F, send, back) && log != [] && log[|log| - 1] != []
    requires Exact(send, back)
    ensures Concat(log) != [] && PipeLogits(F, log) == Logits(F.net, Concat(log))
  {
    hide PipeLogits, RowAt, Assembled, Rowwise, WireNet, Exact;
    Widths(F, send, back);
    PipelineIsWireNet(F, send, back, log);
    WireParts(F.net, F.ranges, send, back, Concat(log));
    ExactWireRow(F.net, F.ranges, send, back, Embed(F.net, Concat(log)), F.net.layers, |Concat(log)| - 1);
  }

  // ---------------------------------------------------------------------
  // Wires that treat every row on its own
  // ---------------------------------------------------------------------

  ghost predicate PerRowHop(h: Hop) {
    forall xs: seq<Row>, ys: seq<Row> :: h(xs + ys) == h(xs) + h(ys)
  }

  ghost predicate PerRow(F: Fleet) {
    PerRowHop(F.send) && forall k :: 0 <= k < |F.back| ==> PerRowHop(F.back[k])
  }

  function RowOf(h: Hop): RowHop {
    (x: Row) => if |h([x])| == 1 then h([x])[0] else x
  }

  function RowsOf(hops: seq<Hop>): (r: seq<RowHop>)
    ensures |r| == |hops|
  {
    seq(|hops|, k requires 0 <= k < |hops| => RowOf(hops[k]))
  }

  lemma {:induction false} HopIsMap(h: Hop, xs: seq<Row>)
    requires PerRowHop(h) && forall ys: seq<Row> :: |h(ys)| == |ys|
    ensures h(xs) == MapRows(RowOf(h), xs)
  {
    if xs != [] {
      var n := |xs| - 1;
      HopIsMap(h, xs[..n]);
      assert xs == xs[..n] + [xs[n]];
      assert h(xs) == h(xs[..n]) + h([xs[n]]);
    }
  }

  lemma {:induction false} PerRowIsRowwise(F: Fleet)
    requires Assembled(F) && PerRow(F)
    ensures Rowwise(F, RowOf(F.send), RowsOf(F.back))
  {
    forall xs
      ensures F.send(xs) == MapRows(RowOf(F.send), xs)
    {
      HopIsMap(F.send, xs);
    }
    forall k, xs | 0 <= k < |F.back|
      ensures F.back[k](xs) == MapRows(RowsOf(F.back)[k], xs)
    {
      HopIsMap(F.back[k], xs);
    }
  }

  /** Over such a wire every machine's cache depends on the tokens alone. */
  lemma {:induction false} SameTokensSameCache(F: Fleet, k: nat, g: Log, h: Log)
    requires Assembled(F) && PerRow(F) && k < |F.ranges| && Concat(g) == Concat(h)
    ensures StageCache(F, k, g) == StageCache(F, k, h)
  {
    hide Entering, Rows, WireNet, Assembled, PerRow, Rowwise;
    PerRowIsRowwise(F);
    Widths(F, RowOf(F.send), RowsOf(F.back));
    EnteringIsWire(F, RowOf(F.send), RowsOf(F.back), k, g);
    EnteringIsWire(F, RowOf(F.send), RowsOf(F.back), k, h);
  }

  /** And so does its answer. */
  lemma {:induction false} SameTokensSameAnswer(F: Fleet, g: Log, h: Log)
    requires Assembled(F) && PerRow(F) && Concat(g) == Concat(h)
    requires g != [] && g[|g| - 1] != [] && h != [] && h[|h| - 1] != []
    ensures PipeLogits(F, g) == PipeLogits(F, h)
  {
    hide PipeLogits, WireNet, Assembled, PerRow, Rowwise;
    PerRowIsRowwise(F);
    Widths(F, RowOf(F.send), RowsOf(F.back));
    PipelineIsWireNet(F, RowOf(F.send), RowsOf(F.back), g);
    PipelineIsWireNet(F, RowOf(F.send), RowsOf(F.back), h);
  }
}
