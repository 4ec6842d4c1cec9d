/**
The continuous-batching runtime (rust/services/cgn-infer/src/runtime/mod.rs,
`BatchedLlama`): a map from sequence id to cache, over the whole model.
*/
module BatchedRuntime {
  import opened Wrappers
  import opened Transformer
  import opened BatchDecode
  import opened BatchContract
  import opened BatchedSpec

  /** `prefill`: find or create the cache, reset it at 0, check the position,
      run the pass. */
  method PrefillOn(net: Net, kvs: Caches, s: SeqId, tokens: seq<Token>, start: nat, want: bool)
    returns (out: Outcome, kvs': Caches)
    ensures (out, kvs') == PrefillResult(net, kvs, s, tokens, start, want)
  {
    hide Forward;
    var kv := if s in kvs then kvs[s] else NewKv(net.layers);
    if start == 0 {
      kv := kv.Clear();
    }
    if kv.tokens != start {
      return Failed, kvs[s := kv];
    }
    var hidden;
    hidden, kv := ForwardHidden(net, 0, net.layers, Embed(net, tokens), start, kv);
    kvs' := kvs[s := kv];
    out := if hidden.Failed? || (want && tokens == []) then Failed else Done(LastLogits(net, hidden.value, want));
  }

  /** Remove the listed caches one by one; stops at the first id that is
      missing, with the earlier ones already gone. */
  method TakeOut(kvs: Caches, batch: seq<(SeqId, Token)>)
    returns (taken: Option<seq<SeqKv>>, rest: Caches)
    ensures var n := Takeable(kvs.Keys, batch);
            && rest == kvs - Ids(batch[..n])
            && (taken.Some? <==> n == |batch|)
    ensures taken.Some? ==> |taken.value| == |batch| && Distinct(batch)
    ensures taken.Some? ==> forall j :: 0 <= j < |batch| ==> batch[j].0 in kvs && taken.value[j] == kvs[batch[j].0]
  {
    TakeableMeans(kvs.Keys, batch);
    var caches: seq<SeqKv> := [];
    rest := kvs;
    for n := 0 to |batch|
      invariant |caches| == n && rest == kvs - Ids(batch[..n])
      invariant n + Takeable(rest.Keys, batch[n..]) == Takeable(kvs.Keys, batch)
      invariant forall j :: 0 <= j < n ==> batch[j].0 in kvs && caches[j] == kvs[batch[j].0]
    {
      var s := batch[n].0;
      assert batch[n..][1..] == batch[n + 1..];
      if s !in rest {
        return None, rest;
      }
      caches, rest := caches + [rest[s]], rest - {s};
      IdsSnoc(batch, n);
    }
    taken := Some(caches);
  }

  lemma {:induction false} IdsSnoc(batch: seq<(SeqId, Token)>, n: nat)
    requires n < |batch|
    ensures Ids(batch[..n + 1]) == Ids(batch[..n]) + {batch[n].0}
  {
    assert forall i :: 0 <= i < n ==> batch[..n][i] == batch[i] == batch[..n + 1][i];
    assert batch[..n + 1][n] == batch[n];
  }

  /** `kvs'` differs from `kvs` only in holding `caches` for the listed ids. */
  ghost predicate Replaced(kvs: Caches, batch: seq<(SeqId, Token)>, caches: seq<SeqKv>, kvs': Caches)
    requires |caches| == |batch|
  {
    && kvs'.Keys == kvs.Keys
    && (forall q :: q in kvs' && !Listed(batch, q) ==> kvs'[q] == kvs[q])
    && (forall j :: 0 <= j < |batch| ==> batch[j].0 in kvs' && kvs'[batch[j].0] == caches[j])
  }

  method PutBack(ghost kvs: Caches, rest: Caches, batch: seq<(SeqId, Token)>, caches: seq<SeqKv>)
    returns (kvs': Caches)
    requires |caches| == |batch| && Distinct(batch) && Ids(batch) <= kvs.Keys && rest == kvs - Ids(batch)
    ensures Replaced(kvs, batch, caches, kvs')
  {
    kvs' := rest;
    for i := 0 to |batch|
      invariant forall q :: q in kvs' ==> q in kvs
      invariant forall q :: q in kvs && q !in Ids(batch) ==> q in kvs' && kvs'[q] == kvs[q]
      invariant forall j :: 0 <= j < i ==> batch[j].0 in kvs' && kvs'[batch[j].0] == caches[j]
    {
      assert batch[i].0 in Ids(batch);
      kvs' := kvs'[batch[i].0 := caches[i]];
    }
    forall q | q in Ids(batch)
      ensures q in kvs'
    {
      var j :| 0 <= j < |batch| && batch[j].0 == q;
    }
  }

  /** Putting back what a step left gives the stepped map. */
  lemma {:induction false} PutBackStepped(net: Net, kvs: Caches, batch: seq<(SeqId, Token)>, caches: seq<SeqKv>,
                                          kvs': Caches, n: nat, torn: bool)
    requires Shaped(net, kvs) && |caches| == |batch| && n <= |batch|
    requires Distinct(batch) && Replaced(kvs, batch, caches, kvs')
    requires forall i :: 0 <= i < |batch| ==> batch[i].0 in kvs
    requires forall i :: n <= i < |batch| ==> caches[i] == kvs[batch[i].0]
    requires forall i :: 0 <= i < n ==>
               var kv := kvs[batch[i].0];
               caches[i] ==
               if torn then Touched(net, 0, 0, net.embed(batch[i].1), kv.tokens, kv)
               else Alone(net, kv, batch[i].1).1
    ensures kvs' == Stepped(net, kvs, batch[..n], torn)
  {
    hide Touched, Alone;
    var front := batch[..n];
    forall q | q in kvs
      ensures kvs'[q] == Stepped(net, kvs, front, torn)[q]
    {
      if Listed(batch, q) {
        var i :| 0 <= i < |batch| && batch[i].0 == q;
        assert kvs'[batch[i].0] == caches[i];
        if i < n {
          assert front[i] == batch[i] && Listed(front, q);
          TokenForAt(front, i);
        } else {
          assert forall j :: 0 <= j < n ==> front[j] == batch[j] && batch[j].0 != q;
          assert !Listed(front, q);
        }
      } else {
        assert forall j :: 0 <= j < n ==> front[j] == batch[j];
        assert !Listed(front, q);
      }
    }
  }

  /** Step the caches taken out of the map. On success each is stepped as if
      alone; otherwise those before the first full one are touched. */
  method StepTaken(net: Net, batch: seq<(SeqId, Token)>, taken: seq<SeqKv>)
    returns (logits: Result<seq<Row>>, stepped: seq<SeqKv>)
    requires 0 < net.layers && |taken| == |batch| && forall j :: 0 <= j < |batch| ==> |taken[j].entries| == net.layers
    ensures |stepped| == |batch|
    ensures var f := FirstFull(net, seq(|batch|, i requires 0 <= i < |batch| => taken[i].tokens));
            && (logits.Done? <==> f == |batch|)
            && (logits.Done? ==> |logits.value| == |batch| && forall i :: 0 <= i < |batch| ==>
                  (logits.value[i], stepped[i]) == Alone(net, taken[i], batch[i].1))
            && (logits.Failed? ==> forall i :: 0 <= i < |batch| ==>
                  stepped[i] ==
                  if i < f then Touched(net, 0, 0, net.embed(batch[i].1), taken[i].tokens, taken[i]) else taken[i])
  {
    hide Forward, Touched;
    var positions := seq(|batch|, i requires 0 <= i < |batch| => taken[i].tokens);
    var tokens := seq(|batch|, i requires 0 <= i < |batch| => batch[i].1);
    var rows;
    rows, stepped := DecodeStep(net, 0, net.layers, Embed(net, tokens), positions, taken);
    assert forall i :: 0 <= i < |batch| ==> Embed(net, tokens)[i] == net.embed(batch[i].1);
    if rows.Failed? {
      return Failed, stepped;
    }
    logits := Done(seq(|batch|, i requires 0 <= i < |batch| => net.head(rows.value[i])));
  }

  /** `decode`: take the caches out, step them together, put them back. */
  method DecodeOn(net: Net, kvs: Caches, batch: seq<(SeqId, Token)>) returns (out: Outcome, kvs': Caches)
    requires Shaped(net, kvs)
    ensures (out, kvs') == DecodeResult(net, kvs, batch)
  {
    hide Alone, Touched, Stepped, Replaced, Takeable;
    if batch == [] {
      NothingToDecode(net, kvs);
      return Done([]), kvs;
    }
    TakeableMeans(kvs.Keys, batch);
    var taken, rest := TakeOut(kvs, batch);
    if taken.None? {
      return Failed, rest;
    }
    assert batch[..|batch|] == batch;
    var logits, stepped := StepTaken(net, batch, taken.value);
    kvs' := PutBack(kvs, rest, batch, stepped);
    assert Positions(kvs, batch) == seq(|batch|, i requires 0 <= i < |batch| => taken.value[i].tokens);
    ghost var f := FirstFull(net, Positions(kvs, batch));
    PutBackStepped(net, kvs, batch, stepped, kvs', f, logits.Failed?);
    out := logits;
    if out.Done? {
      assert out.value == DecodeResult(net, kvs, batch).0.value;
    }
  }

  lemma {:induction false} NothingToDecode(net: Net, kvs: Caches)
    requires Shaped(net, kvs)
    ensures DecodeResult(net, kvs, []) == (Done([]), kvs)
  {
    var none: seq<(SeqId, Token)> := [];
    assert Stepped(net, kvs, none, false) == kvs;
    assert Positions(kvs, none) == [];
    assert DecodeResult(net, kvs, none).0.value == [];
  }

  class BatchedLlama {
    const net: Net
    var kvs: Caches
    /** What the calls so far tell the caller about each cache. */
    ghost var seats: Seats

    ghost predicate Valid()
      reads this
    {
      Tracks(net, kvs, seats) && Shaped(net, kvs)
    }

    constructor (net: Net)
      requires 0 < net.layers
      ensures Valid() && this.net == net && seats == map[] && kvs == map[]
    {
      this.net, kvs, seats := net, map[], map[];
    }

    method Prefill(s: SeqId, tokens: seq<Token>, start: nat, wantLogits: bool) returns (out: Outcome)
      requires Valid()
      modifies this
      ensures Valid()
      ensures (out, kvs) == Next(net, old(kvs), Call.Prefill(s, tokens, start, wantLogits))
      ensures (out.Done?, seats) == NextSeats(net.context, old(seats), Call.Prefill(s, tokens, start, wantLogits))
      ensures Serves(net, BooksOf(old(seats)), Call.Prefill(s, tokens, start, wantLogits), out, BooksOf(seats))
    {
      hide Tracks, PrefillResult, PrefillSeat, Serves, BooksOf;
      ghost var call := Call.Prefill(s, tokens, start, wantLogits);
      NextServes(net, kvs, seats, call);
      out, kvs := PrefillOn(net, kvs, s, tokens, start, wantLogits);
      seats := NextSeats(net.context, seats, call).1;
    }

    method Decode(batch: seq<(SeqId, Token)>) returns (out: Outcome)
      requires Valid()
      modifies this
      ensures Valid()
      ensures (out, kvs) == Next(net, old(kvs), Call.Decode(batch))
      ensures (out.Done?, seats) == NextSeats(net.context, old(seats), Call.Decode(batch))
      ensures Serves(net, BooksOf(old(seats)), Call.Decode(batch), out, BooksOf(seats))
    {
      hide Tracks, DecodeResult, DecodeSeats, Serves, BooksOf;
      NextServes(net, kvs, seats, Call.Decode(batch));
      out, kvs := DecodeOn(net, kvs, batch);
      seats := NextSeats(net.context, seats, Call.Decode(batch)).1;
    }

    method DropSeq(s: SeqId)
      requires Valid()
      modifies this
      ensures Valid()
      ensures (Done([]), kvs) == Next(net, old(kvs), Call.Drop(s))
      ensures (true, seats) == NextSeats(net.context, old(seats), Call.Drop(s))
      ensures Serves(net, BooksOf(old(seats)), Call.Drop(s), Done([]), BooksOf(seats))
    {
      hide Tracks, Serves, BooksOf;
      NextServes(net, kvs, seats, Call.Drop(s));
      kvs, seats := kvs - {s}, seats - {s};
    }
  }
}
