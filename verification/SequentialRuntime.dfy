/**
The one-sequence-at-a-time runtime (rust/services/cgn-infer/src/runtime/mod.rs,
`SequentialModel`). The cache lives inside the stock model; only the id and
the length of the resident sequence are tracked outside it.
*/
module SequentialRuntime {
  import opened Wrappers
  import opened Transformer
  import opened BatchContract
  import opened BatchedSpec

  // ---------------------------------------------------------------------
  // What the code does
  // ---------------------------------------------------------------------

  /** The stock model's internal cache, and the resident id and length. */
  datatype Stock = Stock(cache: SeqKv, resident: Option<(SeqId, nat)>)

  /**
  The stock forward pass. It restarts at position 0, and its `(t, t)` mask does
  not compose with a non-empty cache, so a chunk is fed whole only when the
  cache is empty. It refuses positions past its tables before touching the
  cache, and an empty chunk has no last row to answer with.
  */
  function StockPass(net: Net, cache: SeqKv, tokens: seq<Token>, index: nat): (Result<Row>, SeqKv) {
    if index + |tokens| > net.context || tokens == [] then (Failed, cache)
    else
      var (res, kv) :=
        Forward(net, 0, net.layers, Embed(net, tokens), index, if index == 0 then cache.Clear() else cache);
      (if res.Failed? || res.value == [] then Failed else Done(net.head(res.value[|res.value| - 1])), kv)
  }

  /** Continuation chunks are fed token by token; the answer is the last one's,
      and an empty chunk answers an empty row. */
  function Continued(net: Net, cache: SeqKv, tokens: seq<Token>, start: nat): (Result<Row>, SeqKv) {
    if tokens == [] then (Done([]), cache)
    else
      var n := |tokens| - 1;
      var (res, kv) := Continued(net, cache, tokens[..n], start);
      if res.Failed? then (Failed, kv) else StockPass(net, kv, [tokens[n]], start + n)
  }

  function CallResult(net: Net, st: Stock, call: Call): (Outcome, Stock) {
    match call
    case Prefill(s, tokens, start, want) =>
      var resident := if start == 0 then Some((s, 0)) else st.resident;
      if resident != Some((s, start)) then (Failed, st.(resident := resident))
      else
        var (res, kv) :=
          if start == 0 then StockPass(net, st.cache, tokens, 0) else Continued(net, st.cache, tokens, start);
        if res.Failed? then (Failed, Stock(kv, resident))
        else (Done(if want then [res.value] else []), Stock(kv, Some((s, start + |tokens|))))
    case Decode(batch) =>
      if batch == [] then (Done([]), st)
      else if |batch| > 1 || st.resident.None? || st.resident.value.0 != batch[0].0 then (Failed, st)
      else
        var (s, n) := st.resident.value;
        var (res, kv) := StockPass(net, st.cache, [batch[0].1], n);
        if res.Failed? then (Failed, Stock(kv, st.resident)) else (Done([res.value]), Stock(kv, Some((s, n + 1))))
    case Drop(s) =>
      (Done([]), if st.resident.Some? && st.resident.value.0 == s then st.(resident := None) else st)
  }

  class SequentialModel {
    const net: Net
    var cache: SeqKv
    var resident: Option<(SeqId, nat)>

    function Now(): Stock
      reads this
    {
      Stock(cache, resident)
    }

    constructor (net: Net)
      ensures this.net == net && Now() == Stock(NewKv(net.layers), None)
    {
      this.net, cache, resident := net, NewKv(net.layers), None;
    }

    method ForwardTokens(tokens: seq<Token>, index: nat) returns (out: Result<Row>)
      modifies this`cache
      ensures (out, cache) == StockPass(net, old(cache), tokens, index)
    {
      if index + |tokens| > net.context || tokens == [] {
        return Failed;
      }
      var hidden;
      hidden, cache :=
        ForwardHidden(net, 0, net.layers, Embed(net, tokens), index, if index == 0 then cache.Clear() else cache);
      if hidden.Failed? || hidden.value == [] {
        return Failed;
      }
      out := Done(net.head(hidden.value[|hidden.value| - 1]));
    }

    method Prefill(s: SeqId, tokens: seq<Token>, start: nat, wantLogits: bool) returns (out: Outcome)
      modifies this
      ensures (out, Now()) == CallResult(net, old(Now()), Call.Prefill(s, tokens, start, wantLogits))
    {
      hide StockPass;
      if start == 0 {
        resident := Some((s, 0));
      }
      if resident != Some((s, start)) {
        return Failed;
      }
      var last: Result<Row> := Done([]);
      if start == 0 {
        last := ForwardTokens(tokens, 0);
        if last.Failed? {
          return Failed;
        }
      } else {
        for i := 0 to |tokens|
          invariant resident == Some((s, start)) && last.Done?
          invariant (last, cache) == Continued(net, old(cache), tokens[..i], start)
        {
          assert tokens[..i + 1][..i] == tokens[..i];
          last := ForwardTokens([tokens[i]], start + i);
          if last.Failed? {
            FailsOnward(net, old(cache), tokens, start, i + 1);
            return Failed;
          }
        }
        assert tokens[..|tokens|] == tokens;
      }
      resident := Some((s, start + |tokens|));
      out := Done(if wantLogits then [last.value] else []);
    }

    method Decode(batch: seq<(SeqId, Token)>) returns (out: Outcome)
      modifies this
      ensures (out, Now()) == CallResult(net, old(Now()), Call.Decode(batch))
    {
      hide StockPass;
      if batch == [] {
        return Done([]);
      }
      if |batch| > 1 || resident.None? || resident.value.0 != batch[0].0 {
        return Failed;
      }
      var (s, n) := resident.value;
      var logits := ForwardTokens([batch[0].1], n);
      if logits.Failed? {
        return Failed;
      }
      resident := Some((s, n + 1));
      out := Done([logits.value]);
    }

    method DropSeq(s: SeqId)
      modifies this
      ensures (Done([]), Now()) == CallResult(net, old(Now()), Call.Drop(s))
    {
      if resident.Some? && resident.value.0 == s {
        resident := None;
      }
    }
  }

  /** A chunk that failed part way is not taken up again. */
  lemma {:induction false} FailsOnward(net: Net, cache: SeqKv, tokens: seq<Token>, start: nat, i: nat)
    requires i <= |tokens| && Continued(net, cache, tokens[..i], start).0.Failed?
    ensures Continued(net, cache, tokens, start) == Continued(net, cache, tokens[..i], start)
    decreases |tokens| - i
  {
    hide StockPass;
    assert tokens[..|tokens|] == tokens;
    if i < |tokens| {
      assert tokens[..i + 1][..i] == tokens[..i];
      FailsOnward(net, cache, tokens, start, i + 1);
    }
  }

  // ---------------------------------------------------------------------
  // What a caller can know
  // ---------------------------------------------------------------------

  /** The resident sequence and what is known of its cache. */
  type Bench = Option<(SeqId, Seat)>

  ghost predicate Tracks(net: Net, st: Stock, bench: Bench) {
    && 0 < net.layers && |st.cache.entries| == net.layers
    && match bench
       case None => st.resident == None
       case Some((s, seat)) =>
         st.resident == Some((s, seat.Len())) && Seated(net, st.cache.(tokens := seat.Len()), seat)
  }

  /** A continuation that runs past the context is fed up to there, which
      tears the cache; one that starts there does nothing. */
  function ContinuedSeat(context: nat, seat: Seat, tokens: seq<Token>): (bool, Seat) {
    if seat.Len() + |tokens| <= context
    then (true, match seat case Intact(h) => Intact(h + tokens) case Torn(n) => Torn(n + |tokens|))
    else (false, if seat.Len() < context then Torn(seat.Len()) else seat)
  }

  function NextBench(context: nat, bench: Bench, call: Call): (bool, Bench) {
    match call
    case Prefill(s, tokens, start, _) =>
      if start == 0 then
        if |tokens| > context || tokens == [] then (false, Some((s, Intact([])))) else (true, Some((s, Intact(tokens))))
      else if bench.None? || bench.value.0 != s || bench.value.1.Len() != start then (false, bench)
      else
        var (ok, seat) := ContinuedSeat(context, bench.value.1, tokens);
        (ok, Some((s, seat)))
    case Decode(batch) =>
      if batch == [] then (true, bench)
      else if |batch| > 1 || bench.None? || bench.value.0 != batch[0].0 || bench.value.1.Len() >= context
      then (false, bench)
      else (true, Some((bench.value.0, SteppedSeat(bench.value.1, batch[0].1))))
    case Drop(s) => (true, if bench.Some? && bench.value.0 == s then None else bench)
  }

  function BooksOf(bench: Bench): Books {
    match bench
    case None => Books(map[], {})
    case Some((s, Intact(h))) => Books(map[s := h], {})
    case Some((s, Torn(_))) => Books(map[], {s})
  }

  // ---------------------------------------------------------------------
  // One pass
  // ---------------------------------------------------------------------

  /** The reported length plays no part in a pass that succeeds. */
  lemma {:induction false} LengthUnread(net: Net, xs: seq<Row>, start: nat, kv: SeqKv, n: nat)
    ensures var (a, ka) := Forward(net, 0, net.layers, xs, start, kv);
            var (b, kb) := Forward(net, 0, net.layers, xs, start, kv.(tokens := n));
            a == b && ka.entries == kb.entries && (a.Done? ==> ka == kb)
  {
  }

  /** One token on the resident cache. */
  lemma {:induction false} StockStep(net: Net, cache: SeqKv, seat: Seat, t: Token)
    requires Seated(net, cache.(tokens := seat.Len()), seat) && seat.Len() < net.context
    ensures var (res, kv) := StockPass(net, cache, [t], seat.Len());
            && res.Done? && Seated(net, kv, SteppedSeat(seat, t))
            && (seat.Intact? ==> res.value == Logits(net, seat.h + [t]))
            && res.value == Alone(net, if seat.Len() == 0 then cache.Clear() else cache.(tokens := seat.Len()), t).0
  {
    hide Forward, Cached, Logits;
    var n := seat.Len();
    var kv := if n == 0 then cache.Clear() else cache;
    LengthUnread(net, [net.embed(t)], n, cache, n);
    assert Embed(net, [t]) == [net.embed(t)];
    ClearedIsEmpty(net, cache);
    if seat.Intact? {
      IntactForward(net, kv.(tokens := n), seat.h, [t]);
      CachedIsSeated(net, seat.h + [t]);
    } else {
      TornForward(net, kv.(tokens := n), seat.n, [net.embed(t)]);
    }
  }

  lemma {:induction false} PastContext(net: Net, cache: SeqKv, t: Token, index: nat)
    requires index >= net.context
    ensures StockPass(net, cache, [t], index) == (Failed, cache)
  {
  }

  /** The continuation left the cache on the seat it should, and answered it. */
  ghost predicate Follows(net: Net, cache: SeqKv, seat: Seat, tokens: seq<Token>) {
    var (res, kv) := Continued(net, cache, tokens, seat.Len());
    var (ok, seat') := ContinuedSeat(net.context, seat, tokens);
    && Seated(net, kv.(tokens := seat'.Len()), seat') && (res.Done? <==> ok)
    && (ok && seat'.Intact? && tokens != [] ==> res.value == Logits(net, seat'.h))
  }

  /** Feeding a continuation token by token, from a seat of positive length. */
  lemma {:induction false} ContinuedSeated(net: Net, cache: SeqKv, seat: Seat, tokens: seq<Token>)
    requires Seated(net, cache.(tokens := seat.Len()), seat) && seat.Len() > 0
    ensures Follows(net, cache, seat, tokens)
  {
    SeatFits(net, cache, seat);
    if tokens == [] {
      hide Seated, Logits;
      assert seat.Intact? ==> seat.h + tokens == seat.h;
    } else {
      hide Follows, Seated;
      var n := |tokens| - 1;
      assert tokens == tokens[..n] + [tokens[n]];
      ContinuedSeated(net, cache, seat, tokens[..n]);
      ContinuedStep(net, cache, seat, tokens[..n], tokens[n]);
    }
  }

  lemma {:induction false} ContinuedStep(net: Net, cache: SeqKv, seat: Seat, front: seq<Token>, t: Token)
    requires Follows(net, cache, seat, front) && 0 < seat.Len() <= net.context
    ensures Follows(net, cache, seat, front + [t])
  {
    hide StockPass, Seated, Logits, Continued;
    ContinuedMore(net, cache, front, t, seat.Len());
    var (res, kv) := Continued(net, cache, front, seat.Len());
    var seat1 := ContinuedSeat(net.context, seat, front).1;
    if res.Done? {
      if seat1.Len() < net.context {
        StockStep(net, kv, seat1, t);
        assert seat.Intact? ==> seat.h + front + [t] == seat.h + (front + [t]);
        LengthIsSeat(net, StockPass(net, kv, [t], seat1.Len()).1, SteppedSeat(seat1, t));
      } else {
        PastContext(net, kv, t, seat1.Len());
        FedTooFar(net, kv, seat, seat1, front);
      }
    }
  }

  lemma {:induction false} ContinuedMore(net: Net, cache: SeqKv, front: seq<Token>, t: Token, start: nat)
    ensures var (res, kv) := Continued(net, cache, front, start);
            Continued(net, cache, front + [t], start) ==
            if res.Failed? then (Failed, kv) else StockPass(net, kv, [t], start + |front|)
  {
    hide StockPass;
    var tokens := front + [t];
    assert tokens[..|tokens| - 1] == front;
  }

  lemma {:induction false} SeatFits(net: Net, cache: SeqKv, seat: Seat)
    requires Seated(net, cache.(tokens := seat.Len()), seat)
    ensures seat.Len() <= net.context
  {
  }

  lemma {:induction false} LengthIsSeat(net: Net, kv: SeqKv, seat: Seat)
    requires Seated(net, kv, seat)
    ensures Seated(net, kv.(tokens := seat.Len()), seat)
  {
    assert kv.(tokens := seat.Len()) == kv;
  }

  /** The cache holds the tokens fed, the seat still reports the old length. */
  lemma {:induction false} FedTooFar(net: Net, kv: SeqKv, seat: Seat, seat1: Seat, front: seq<Token>)
    requires Seated(net, kv.(tokens := seat1.Len()), seat1) && 0 < seat.Len() <= seat1.Len()
    requires seat1 == match seat case Intact(h) => Intact(h + front) case Torn(n) => Torn(n + |front|)
    ensures Seated(net, kv.(tokens := seat.Len()), if seat.Len() < seat1.Len() then Torn(seat.Len()) else seat)
  {
    if seat.Len() < seat1.Len() {
      if seat.Intact? {
        assert kv.entries[0] == SlotOf(net, 0, Embed(net, seat.h + front), 0);
      }
    } else {
      assert front == [];
      assert seat.Intact? ==> seat.h + front == seat.h;
    }
  }

  lemma {:induction false} StartSeated(net: Net, cache: SeqKv, tokens: seq<Token>)
    requires 0 < net.layers == |cache.entries| && tokens != [] && |tokens| <= net.context
    ensures var (res, kv) := StockPass(net, cache, tokens, 0);
            res.Done? && Seated(net, kv, Intact(tokens)) && res.value == Logits(net, tokens)
  {
    hide Forward, Logits;
    ClearedIsEmpty(net, cache);
    ChunkOnHistory(net, [], tokens);
    assert [] + tokens == tokens;
    hide Cached;
    CachedIsSeated(net, tokens);
  }

  // ---------------------------------------------------------------------
  // Any call
  // ---------------------------------------------------------------------

  lemma {:induction false} PrefillTracks(net: Net, st: Stock, bench: Bench, s: SeqId, tokens: seq<Token>, start: nat,
                                         want: bool)
    requires Tracks(net, st, bench)
    ensures var call := Call.Prefill(s, tokens, start, want);
            var (out, st') := CallResult(net, st, call);
            var (ok, bench') := NextBench(net.context, bench, call);
            && Tracks(net, st', bench') && (out.Done? <==> ok)
            && (ok && bench'.Some? && bench'.value.1.Intact? && tokens != [] ==>
                  out.value == if want then [Logits(net, bench'.value.1.h)] else [])
  {
    hide StockPass, Continued, Cached, Logits, ContinuedSeat;
    if start == 0 {
      if tokens != [] && |tokens| <= net.context {
        StartSeated(net, st.cache, tokens);
      } else {
        assert StockPass(net, st.cache, tokens, 0) == (Failed, st.cache) by { NothingDone(net, st.cache, tokens); }
      }
    } else if bench.Some? && bench.value.0 == s && bench.value.1.Len() == start {
      ContinuedSeated(net, st.cache, bench.value.1, tokens);
      SeatLength(net.context, bench.value.1, tokens);
      var call := Call.Prefill(s, tokens, start, want);
      var (res, kv) := Continued(net, st.cache, tokens, start);
      var (ok, seat) := ContinuedSeat(net.context, bench.value.1, tokens);
      assert st.resident == Some((s, start));
      assert NextBench(net.context, bench, call) == (ok, Some((s, seat)));
      assert CallResult(net, st, call) ==
             if res.Failed? then (Failed, Stock(kv, st.resident))
             else (Done(if want then [res.value] else []), Stock(kv, Some((s, start + |tokens|))));
    }
  }

  lemma {:induction false} NothingDone(net: Net, cache: SeqKv, tokens: seq<Token>)
    requires tokens == [] || |tokens| > net.context
    ensures StockPass(net, cache, tokens, 0) == (Failed, cache)
  {
  }

  lemma {:induction false} SeatLength(context: nat, seat: Seat, tokens: seq<Token>)
    ensures var (ok, seat') := ContinuedSeat(context, seat, tokens);
            seat'.Len() == if ok then seat.Len() + |tokens| else seat.Len()
  {
  }

  lemma {:induction false} DecodeTracks(net: Net, st: Stock, bench: Bench, batch: seq<(SeqId, Token)>)
    requires Tracks(net, st, bench)
    ensures var (out, st') := CallResult(net, st, Call.Decode(batch));
            var (ok, bench') := NextBench(net.context, bench, Call.Decode(batch));
            && Tracks(net, st', bench') && (out.Done? <==> ok)
            && (ok ==> |out.value| == |batch|)
            && (ok && batch != [] && bench.value.1.Intact? ==>
                out.value == [Logits(net, bench.value.1.h + [batch[0].1])])
  {
    hide StockPass, Cached, Logits;
    if |batch| == 1 && bench.Some? && bench.value.0 == batch[0].0 {
      var seat, t := bench.value.1, batch[0].1;
      if seat.Len() < net.context {
        StockStep(net, st.cache, seat, t);
        LengthIsSeat(net, StockPass(net, st.cache, [t], seat.Len()).1, SteppedSeat(seat, t));
      } else {
        PastContext(net, st.cache, t, seat.Len());
      }
    }
  }

  lemma {:induction false} CallTracks(net: Net, st: Stock, bench: Bench, call: Call)
    requires Tracks(net, st, bench)
    ensures var (out, st') := CallResult(net, st, call);
            var (ok, bench') := NextBench(net.context, bench, call);
            Tracks(net, st', bench') && (out.Done? <==> ok)
  {
    match call
    case Prefill(s, tokens, start, want) =>
      hide CallResult, NextBench, Tracks;
      PrefillTracks(net, st, bench, s, tokens, start, want);
    case Decode(batch) =>
      hide CallResult, NextBench, Tracks;
      DecodeTracks(net, st, bench, batch);
    case Drop(s) =>
  }

  /** Every call does what the caller can predict, and serves the contract. */
  lemma {:induction false} NextServes(net: Net, st: Stock, bench: Bench, call: Call)
    requires Tracks(net, st, bench)
    ensures var (out, st') := CallResult(net, st, call);
            var (ok, bench') := NextBench(net.context, bench, call);
            && Tracks(net, st', bench') && (out.Done? <==> ok)
            && Serves(net, BooksOf(bench), call, out, BooksOf(bench'))
  {
    hide Logits, Tracks, StockPass, Continued;
    CallTracks(net, st, bench, call);
    match call
    case Prefill(s, tokens, start, want) =>
      PrefillTracks(net, st, bench, s, tokens, start, want);
    case Decode(batch) =>
      DecodeTracks(net, st, bench, batch);
      if |batch| == 1 {
        assert forall q :: Names(call, q) <==> q == batch[0].0;
      }
    case Drop(s) =>
  }
}
