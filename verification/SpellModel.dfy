/**
A one-layer model that tells every history apart: it answers its position and
the tokens of everything it attends to. An answer from a cache that is not the
history's own therefore differs from the right one.
*/
module SpellModel {
  import opened Wrappers
  import opened Transformer
  import opened BatchDecode
  import opened BatchedSpec

  function Spelled(h: seq<Entry>): Row {
    if h == [] then [] else Spelled(h[..|h| - 1]) + [if h[|h| - 1].0 == [] then 0.0 else h[|h| - 1].0[0]]
  }

  lemma {:induction false} SpelledLength(h: seq<Entry>)
    ensures |Spelled(h)| == |h|
  {
    if h != [] {
      SpelledLength(h[..|h| - 1]);
    }
  }

  /** One layer that answers its position and everything it attends to. */
  function SpellNet(context: nat): Net {
    Net(1, context,
        (t: Token) => [t as real],
        (l: nat, x: Row, p: nat) => (x, x),
        (l: nat, x: Row, p: nat, h: seq<Entry>) => [p as real] + Spelled(h),
        (x: Row) => x)
  }

  function AsReals(ts: seq<Token>): (r: Row)
    ensures |r| == |ts|
  {
    seq(|ts|, i requires 0 <= i < |ts| => ts[i] as real)
  }

  lemma {:induction false} SpelledTokens(context: nat, ts: seq<Token>, n: nat)
    requires n <= |ts|
    ensures Spelled(Keys(SpellNet(context), 0, Embed(SpellNet(context), ts), 0, n)) == AsReals(ts[..n])
  {
    if n > 0 {
      var net := SpellNet(context);
      var E := Embed(net, ts);
      SpelledTokens(context, ts, n - 1);
      assert Keys(net, 0, E, 0, n)[..n - 1] == Keys(net, 0, E, 0, n - 1);
      assert RowAt(net, 0, E, 0, n - 1) == [ts[n - 1] as real];
    }
  }

  lemma {:induction false} SpelledLogits(context: nat, ts: seq<Token>)
    requires ts != []
    ensures Logits(SpellNet(context), ts) == [(|ts| - 1) as real] + AsReals(ts)
  {
    var net := SpellNet(context);
    SpelledTokens(context, ts, |ts|);
    assert ts[..|ts|] == ts;
    var E := Embed(net, ts);
    assert RowAt(net, 0, E, 1, |ts| - 1)
      == net.block(0, RowAt(net, 0, E, 0, |ts| - 1), |ts| - 1, Keys(net, 0, E, 0, |ts|));
  }

  lemma {:induction false} SpelledApart(context: nat, a: seq<Token>, b: seq<Token>)
    requires a != [] && b != [] && Logits(SpellNet(context), a) == Logits(SpellNet(context), b)
    ensures a == b
  {
    SpelledLogits(context, a);
    SpelledLogits(context, b);
    hide Logits;
    var x, y := Logits(SpellNet(context), a), Logits(SpellNet(context), b);
    assert |x| == 1 + |a| && |y| == 1 + |b|;
    assert x[1..] == AsReals(a) && y[1..] == AsReals(b);
    forall i | 0 <= i < |a|
      ensures a[i] == b[i]
    {
      assert AsReals(a)[i] == AsReals(b)[i];
    }
  }

  /** A torn cache of reported length `n` answers more entries than any history
      of that length has. */
  lemma {:induction false} TornSpells(context: nat, kv: SeqKv, n: nat, t: Token)
    requires Seated(SpellNet(context), kv, Torn(n)) && n < context
    ensures var r := Alone(SpellNet(context), kv, t).0;
            r != [] && r[0] == n as real && |r| > n + 2
  {
    var net := SpellNet(context);
    var all := Grown(kv.entries[0], Fresh(net, 0, [net.embed(t)], n), n);
    SingleRow(net, 0, net.embed(t), n, kv.entries[0]);
    SpelledLength(all);
    var rows := [net.block(0, net.embed(t), n, all)];
    assert LayersForward(net, 0, 1, rows, n, None, kv.entries[0 := AsSlot(all)]).0 == Done(rows);
    assert Forward(net, 0, 1, [net.embed(t)], n, kv).0 == Done(rows);
  }
}
