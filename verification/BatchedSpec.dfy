/**
What `BatchedLlama` (rust/services/cgn-infer/src/runtime/mod.rs) does to its
map of caches, as functions, and what a caller can know of each cache from its
own calls: intact for some history, or torn by a failed batch.
*/
module BatchedSpec {
  import opened Wrappers
  import opened Transformer
  import opened BatchDecode
  import opened BatchContract

  type Caches = map<SeqId, SeqKv>

  /** The whole-model cache of a token history. */
  function Cached(net: Net, h: seq<Token>): SeqKv {
    CacheOf(net, 0, net.layers, Embed(net, h))
  }

  function LastLogits(net: Net, hidden: seq<Row>, want: bool): seq<Row> {
    if want && hidden != [] then [net.head(hidden[|hidden| - 1])] else []
  }

  /** A chunk on an intact cache: the answer is the model's on the longer history. */
  lemma {:induction false} ChunkOnHistory(net: Net, h: seq<Token>, ts: seq<Token>)
    requires |h| + |ts| <= net.context
    ensures var (res, kv) := Forward(net, 0, net.layers, Embed(net, ts), |h|, Cached(net, h));
            && kv == Cached(net, h + ts)
            && res.Done? && |res.value| == |ts|
            && (ts != [] ==> net.head(res.value[|ts| - 1]) == Logits(net, h + ts))
  {
    ForwardIsReference(net, 0, net.layers, Embed(net, h), Embed(net, ts));
    assert Embed(net, h) + Embed(net, ts) == Embed(net, h + ts);
  }

  lemma {:induction false} ClearedIsEmpty(net: Net, kv: SeqKv)
    requires |kv.entries| == net.layers
    ensures kv.Clear() == NewKv(net.layers) == Cached(net, [])
  {
    EmptyCache(net, 0, net.layers);
    assert Embed(net, []) == [];
    assert kv.Clear().entries == NewKv(net.layers).entries;
  }

  lemma {:induction false} CachedLen(net: Net, h: seq<Token>)
    ensures Cached(net, h).tokens == |h| && |Cached(net, h).entries| == net.layers
  {
  }

  // ---------------------------------------------------------------------
  // The caches
  // ---------------------------------------------------------------------

  ghost predicate Shaped(net: Net, kvs: Caches) {
    0 < net.layers && forall s :: s in kvs ==> |kvs[s].entries| == net.layers
  }

  /** `prefill` on the map of caches. Asking for the logits of an empty chunk
      fails after the pass: there is no last row. */
  function PrefillResult(net: Net, kvs: Caches, s: SeqId, tokens: seq<Token>, start: nat,
                         want: bool): (Outcome, Caches) {
    var found := if s in kvs then kvs[s] else NewKv(net.layers);
    var (out, kv) := PrefillOne(net, if start == 0 then found.Clear() else found, tokens, start, want);
    (out, kvs[s := kv])
  }

  function PrefillOne(net: Net, kv: SeqKv, tokens: seq<Token>, start: nat, want: bool): (Outcome, SeqKv) {
    if kv.tokens != start then (Failed, kv)
    else
      var (res, kv') := Forward(net, 0, net.layers, Embed(net, tokens), start, kv);
      (if res.Failed? || (want && tokens == []) then Failed else Done(LastLogits(net, res.value, want)), kv')
  }

  function Ids(batch: seq<(SeqId, Token)>): set<SeqId> {
    set i | 0 <= i < |batch| :: batch[i].0
  }

  predicate Listed(batch: seq<(SeqId, Token)>, q: SeqId) {
    exists i :: 0 <= i < |batch| && batch[i].0 == q
  }

  /** How many leading ids can be taken out of `ids` one after another. */
  function Takeable(ids: set<SeqId>, batch: seq<(SeqId, Token)>): (n: nat)
    ensures n <= |batch|
  {
    if batch == [] || batch[0].0 !in ids then 0 else 1 + Takeable(ids - {batch[0].0}, batch[1..])
  }

  lemma {:induction false} TakeableMeans(ids: set<SeqId>, batch: seq<(SeqId, Token)>)
    ensures var n := Takeable(ids, batch);
            && Distinct(batch[..n]) && Ids(batch[..n]) <= ids
            && (n < |batch| ==> batch[n].0 !in ids - Ids(batch[..n]))
            && (n == |batch| <==> Distinct(batch) && Ids(batch) <= ids)
  {
    var n := Takeable(ids, batch);
    if n > 0 {
      var s, rest := batch[0].0, batch[1..];
      TakeableMeans(ids - {s}, rest);
      assert rest[..n - 1] == batch[..n][1..];
      IdsCons(batch[..n]);
      IdsCons(batch);
      DistinctCons(batch[..n]);
      DistinctCons(batch);
      if n < |batch| {
        assert batch[n] == rest[n - 1];
      }
    } else {
      assert batch[..n] == [];
      if batch != [] {
        assert batch[0].0 in Ids(batch);
      }
    }
  }

  lemma {:induction false} IdsCons(batch: seq<(SeqId, Token)>)
    requires batch != []
    ensures Ids(batch) == {batch[0].0} + Ids(batch[1..])
  {
    var rest := batch[1..];
    forall q | q in Ids(batch)
      ensures q == batch[0].0 || q in Ids(rest)
    {
      var i :| 0 <= i < |batch| && batch[i].0 == q;
      assert i > 0 ==> rest[i - 1].0 == q;
    }
    forall q | q in Ids(rest)
      ensures q in Ids(batch)
    {
      var i :| 0 <= i < |rest| && rest[i].0 == q;
      assert batch[i + 1].0 == q;
    }
    assert batch[0].0 in Ids(batch);
  }

  lemma {:induction false} DistinctCons(batch: seq<(SeqId, Token)>)
    requires batch != []
    ensures Distinct(batch) <==> Distinct(batch[1..]) && batch[0].0 !in Ids(batch[1..])
  {
    var rest := batch[1..];
    assert forall i :: 0 <= i < |rest| ==> rest[i] == batch[i + 1] && rest[i].0 in Ids(rest);
    assert forall i :: 1 <= i < |batch| ==> batch[i] == rest[i - 1];
    if Distinct(rest) && batch[0].0 !in Ids(rest) {
      forall i, j | 0 <= i < j < |batch|
        ensures batch[i].0 != batch[j].0
      {
        assert batch[j] == rest[j - 1];
        assert i > 0 ==> batch[i] == rest[i - 1];
      }
    }
  }

  ghost predicate AllKnown(ids: set<SeqId>, batch: seq<(SeqId, Token)>) {
    forall i :: 0 <= i < |batch| ==> batch[i].0 in ids
  }

  function Positions(kvs: Caches, batch: seq<(SeqId, Token)>): (r: seq<nat>)
    requires forall i :: 0 <= i < |batch| ==> batch[i].0 in kvs
    ensures |r| == |batch|
  {
    seq(|batch|, i requires 0 <= i < |batch| => kvs[batch[i].0].tokens)
  }

  /** One sequence decoded on its own. */
  function Alone(net: Net, kv: SeqKv, t: Token): (Row, SeqKv) {
    var (res, kv') := Forward(net, 0, net.layers, [net.embed(t)], kv.tokens, kv);
    (if res.Done? && res.value != [] then net.head(res.value[0]) else [], kv')
  }

  /** `decode` on the map of caches: the listed caches are taken out in order,
      stepped together and put back. */
  ghost function DecodeResult(net: Net, kvs: Caches, batch: seq<(SeqId, Token)>): (Outcome, Caches)
    requires Shaped(net, kvs)
  {
    var n := Takeable(kvs.Keys, batch);
    if n < |batch| then (Failed, kvs - Ids(batch[..n]))
    else
      TakeableMeans(kvs.Keys, batch);
      assert forall i :: 0 <= i < |batch| ==> batch[i].0 in Ids(batch);
      var f := FirstFull(net, Positions(kvs, batch));
      if f < |batch| then (Failed, Stepped(net, kvs, batch[..f], true))
      else (Done(seq(|batch|, i requires 0 <= i < |batch| => Alone(net, kvs[batch[i].0], batch[i].1).0)),
            Stepped(net, kvs, batch, false))
  }

  /** The listed caches stepped, or only touched in their first layer. */
  ghost function Stepped(net: Net, kvs: Caches, batch: seq<(SeqId, Token)>, torn: bool): Caches
    requires Shaped(net, kvs)
  {
    map q | q in kvs ::
      if !Listed(batch, q) then kvs[q]
      else if torn then Touched(net, 0, 0, net.embed(TokenFor(batch, q)), kvs[q].tokens, kvs[q])
      else Alone(net, kvs[q], TokenFor(batch, q)).1
  }

  // ---------------------------------------------------------------------
  // What a caller can know
  // ---------------------------------------------------------------------

  /** A cache that is the cache of `h`, or one of reported length `n` whose
      first layer holds more entries than that. */
  datatype Seat = Intact(h: seq<Token>) | Torn(n: nat) {
    function Len(): nat { if Intact? then |h| else n }
  }

  type Seats = map<SeqId, Seat>

  /** An empty cache may hold leftovers: at position 0 they are never read. */
  ghost predicate Seated(net: Net, kv: SeqKv, seat: Seat) {
    && 0 < |kv.entries| == net.layers && kv.tokens == seat.Len() <= net.context
    && match seat
       case Intact(h) => h != [] ==> kv == Cached(net, h)
       case Torn(n) => n > 0 && kv.entries[0].Some? && |kv.entries[0].value| > n
  }

  ghost predicate Tracks(net: Net, kvs: Caches, seats: Seats) {
    0 < net.layers && kvs.Keys == seats.Keys && forall s :: s in kvs ==> Seated(net, kvs[s], seats[s])
  }

  function PrefillSeat(context: nat, seats: Seats, s: SeqId, tokens: seq<Token>, start: nat, want: bool): (bool, Seat) {
    FilledSeat(context, if start == 0 || s !in seats then Intact([]) else seats[s], tokens, start, want)
  }

  function FilledSeat(context: nat, seat: Seat, tokens: seq<Token>, start: nat, want: bool): (bool, Seat) {
    if seat.Len() != start || start + |tokens| > context then (false, seat)
    else match seat
         case Intact(h) => (!(want && tokens == []), Intact(h + tokens))
         case Torn(n) => if |tokens| > 1 then (false, seat) else (!(want && tokens == []), Torn(n + |tokens|))
  }

  ghost function DecodeSeats(context: nat, seats: Seats, batch: seq<(SeqId, Token)>): (bool, Seats) {
    var n := Takeable(seats.Keys, batch);
    if n < |batch| then (false, seats - Ids(batch[..n]))
    else
      var f := FirstFullSeat(context, seats, batch);
      if f < |batch| then (false, SteppedSeats(seats, batch[..f], true))
      else (true, SteppedSeats(seats, batch, false))
  }

  function FirstFullSeat(context: nat, seats: Seats, batch: seq<(SeqId, Token)>): (f: nat)
    ensures f <= |batch|
  {
    if batch == [] || (batch[0].0 in seats && seats[batch[0].0].Len() >= context) then 0
    else 1 + FirstFullSeat(context, seats, batch[1..])
  }

  ghost function SteppedSeats(seats: Seats, batch: seq<(SeqId, Token)>, torn: bool): Seats {
    map q | q in seats ::
      if !Listed(batch, q) then seats[q]
      else if torn then TornSeat(seats[q])
      else SteppedSeat(seats[q], TokenFor(batch, q))
  }

  function TornSeat(seat: Seat): Seat { if seat.Len() == 0 then seat else Torn(seat.Len()) }

  function SteppedSeat(seat: Seat, t: Token): Seat {
    if seat.Intact? then Intact(seat.h + [t]) else Torn(seat.n + 1)
  }

  ghost function NextSeats(context: nat, seats: Seats, call: Call): (bool, Seats) {
    match call
    case Prefill(s, tokens, start, want) =>
      var (ok, seat) := PrefillSeat(context, seats, s, tokens, start, want);
      (ok, seats[s := seat])
    case Decode(batch) => DecodeSeats(context, seats, batch)
    case Drop(s) => (true, seats - {s})
  }

  ghost function Next(net: Net, kvs: Caches, call: Call): (Outcome, Caches)
    requires Shaped(net, kvs)
  {
    match call
    case Prefill(s, tokens, start, want) => PrefillResult(net, kvs, s, tokens, start, want)
    case Decode(batch) => DecodeResult(net, kvs, batch)
    case Drop(s) => (Done([]), kvs - {s})
  }

  lemma {:induction false} TracksShaped(net: Net, kvs: Caches, seats: Seats)
    requires Tracks(net, kvs, seats)
    ensures Shaped(net, kvs)
  {
  }

  // ---------------------------------------------------------------------
  // One cache
  // ---------------------------------------------------------------------

  /** At position 0 whatever the slots held is dropped. */
  lemma {:induction false} LayersAtZero(net: Net, lo: nat, k: nat, xs: seq<Row>, a: seq<Slot>, b: seq<Slot>)
    requires k <= |a| == |b| && a[..k] == b[..k] && |xs| <= net.context
    ensures LayersForward(net, lo, k, xs, 0, CausalMask(|xs|, 0), a)
       == LayersForward(net, lo, k, xs, 0, CausalMask(|xs|, 0), b)
    decreases |a| - k
  {
    if k == |a| {
      assert a == a[..k] && b == b[..k];
    } else {
      var mask := CausalMask(|xs|, 0);
      var (res, slot) := LayerForward(net, lo + k, xs, 0, mask, a[k]);
      assert LayerForward(net, lo + k, xs, 0, mask, b[k]) == (res, slot);
      if res.Done? {
        assert a[k := slot][..k + 1] == a[..k] + [slot] && b[k := slot][..k + 1] == b[..k] + [slot];
        LayersAtZero(net, lo, k + 1, res.value, a[k := slot], b[k := slot]);
      } else {
        FitsAtZero(net, lo + k, xs, a[k]);
      }
    }
  }

  lemma {:induction false} FitsAtZero(net: Net, l: nat, xs: seq<Row>, slot: Slot)
    requires |xs| <= net.context
    ensures LayerForward(net, l, xs, 0, CausalMask(|xs|, 0), slot).0.Done?
  {
  }

  lemma {:induction false} IntactForward(net: Net, kv: SeqKv, h: seq<Token>, ts: seq<Token>)
    requires Seated(net, kv, Intact(h)) && |h| + |ts| <= net.context
    requires h == [] && ts == [] ==> kv == Cached(net, [])
    ensures var (res, kv') := Forward(net, 0, net.layers, Embed(net, ts), |h|, kv);
            && kv' == Cached(net, h + ts)
            && res.Done? && |res.value| == |ts|
            && (ts != [] ==> net.head(res.value[|ts| - 1]) == Logits(net, h + ts))
  {
    hide LayersForward, CacheOf, Logits;
    ChunkOnHistory(net, h, ts);
    CachedLen(net, h);
    if h == [] {
      LayersAtZero(net, 0, 0, Embed(net, ts), kv.entries, Cached(net, []).entries);
    }
  }

  lemma {:induction false} CachedIsSeated(net: Net, h: seq<Token>)
    requires 0 < net.layers && |h| <= net.context
    ensures Seated(net, Cached(net, h), Intact(h))
  {
    CachedLen(net, h);
  }

  /** Later layers leave earlier slots alone. */
  lemma {:induction false} EarlierSlots(net: Net, lo: nat, k: nat, xs: seq<Row>, start: nat,
                                        mask: Option<seq<seq<bool>>>, slots: seq<Slot>)
    requires k <= |slots|
    ensures LayersForward(net, lo, k, xs, start, mask, slots).1[..k] == slots[..k]
    decreases |slots| - k
  {
    if k < |slots| {
      var (res, slot) := LayerForward(net, lo + k, xs, start, mask, slots[k]);
      if res.Done? {
        EarlierSlots(net, lo, k + 1, res.value, start, mask, slots[k := slot]);
        var after := LayersForward(net, lo, k, xs, start, mask, slots).1;
        assert after[..k] == after[..k + 1][..k];
        assert slots[k := slot][..k + 1][..k] == slots[..k];
      }
    }
  }

  /** With at most one row no mask can fail, whatever the caches hold. */
  lemma {:induction false} NarrowIsDone(net: Net, lo: nat, k: nat, xs: seq<Row>, start: nat, slots: seq<Slot>)
    requires k <= |slots| && |xs| <= 1 && start + |xs| <= net.context
    ensures LayersForward(net, lo, k, xs, start, CausalMask(|xs|, start), slots).0.Done?
    decreases |slots| - k
  {
    if k < |slots| {
      var (res, slot) := LayerForward(net, lo + k, xs, start, CausalMask(|xs|, start), slots[k]);
      assert res.Done?;
      NarrowIsDone(net, lo, k + 1, res.value, start, slots[k := slot]);
    }
  }

  /** A torn cache takes single tokens, growing as if nothing had happened, and
      refuses longer chunks because the mask no longer fits. */
  lemma {:induction false} TornForward(net: Net, kv: SeqKv, n: nat, xs: seq<Row>)
    requires Seated(net, kv, Torn(n)) && n + |xs| <= net.context
    ensures var (res, kv') := Forward(net, 0, net.layers, xs, n, kv);
            && (res.Done? <==> |xs| <= 1)
            && (res.Done? ==> |res.value| == |xs|)
            && Seated(net, kv', Torn(if |xs| <= 1 then n + |xs| else n))
  {
    var mask := CausalMask(|xs|, n);
    var all := Grown(kv.entries[0], Fresh(net, 0, xs, n), n);
    assert |all| > n + |xs|;
    var (first, slot) := LayerForward(net, 0, xs, n, mask, kv.entries[0]);
    assert slot == Some(all);
    if |xs| <= 1 {
      NarrowIsDone(net, 0, 0, xs, n, kv.entries);
      EarlierSlots(net, 0, 1, first.value, n, mask, kv.entries[0 := slot]);
      var after := LayersForward(net, 0, 0, xs, n, mask, kv.entries).1;
      assert after[0] == after[..1][0] == slot;
    } else {
      assert |mask.value[0]| == n + |xs|;
      assert first.Failed?;
    }
  }

  // ---------------------------------------------------------------------
  // Prefill
  // ---------------------------------------------------------------------

  lemma {:induction false} PrefillOneSeated(net: Net, kv: SeqKv, seat: Seat, tokens: seq<Token>, start: nat, want: bool)
    requires Seated(net, kv, seat) && (start == 0 ==> seat == Intact([]) && kv == Cached(net, []))
    ensures var (out, kv') := PrefillOne(net, kv, tokens, start, want);
            var (ok, seat') := FilledSeat(net.context, seat, tokens, start, want);
            && Seated(net, kv', seat') && (out.Done? <==> ok)
            && (ok && seat'.Intact? && tokens != [] ==> out.value == if want then [Logits(net, seat'.h)] else [])
  {
    hide Forward, Cached, Logits;
    if kv.tokens == start {
      if start + |tokens| > net.context {
        ForwardPastContext(net, 0, net.layers, Embed(net, tokens), start, kv);
      } else if seat.Intact? {
        IntactForward(net, kv, seat.h, tokens);
        CachedIsSeated(net, seat.h + tokens);
      } else {
        TornForward(net, kv, seat.n, Embed(net, tokens));
        var out, res :=
          PrefillOne(net, kv, tokens, start, want).0, Forward(net, 0, net.layers, Embed(net, tokens), start, kv).0;
        assert out.Done? <==> res.Done? && !(want && tokens == []);
      }
    }
  }

  lemma {:induction false} PrefillTracks(net: Net, kvs: Caches, seats: Seats, s: SeqId, tokens: seq<Token>, start: nat,
                                         want: bool)
    requires Tracks(net, kvs, seats)
    ensures var (out, kvs') := PrefillResult(net, kvs, s, tokens, start, want);
            var (ok, seat) := PrefillSeat(net.context, seats, s, tokens, start, want);
            && Tracks(net, kvs', seats[s := seat])
            && (out.Done? <==> ok)
            && (ok && seat.Intact? && tokens != [] ==> out.value == if want then [Logits(net, seat.h)] else [])
  {
    hide Cached, Logits, PrefillOne, FilledSeat;
    var found := if s in kvs then kvs[s] else NewKv(net.layers);
    ClearedIsEmpty(net, found);
    CachedLen(net, []);
    PrefillOneSeated(net, if start == 0 then found.Clear() else found,
                     if start == 0 || s !in seats then Intact([]) else seats[s], tokens, start, want);
  }

  /** The contract's view of the seats. */
  function BooksOf(seats: Seats): Books {
    Books(map s | s in seats && seats[s].Intact? :: seats[s].h, set s | s in seats && seats[s].Torn?)
  }

  lemma {:induction false} PrefillServes(net: Net, kvs: Caches, seats: Seats, s: SeqId, tokens: seq<Token>, start: nat,
                                         want: bool)
    requires Tracks(net, kvs, seats)
    ensures var seats' := seats[s := PrefillSeat(net.context, seats, s, tokens, start, want).1];
            Serves(net, BooksOf(seats), Call.Prefill(s, tokens, start, want),
                   PrefillResult(net, kvs, s, tokens, start, want).0, BooksOf(seats'))
  {
    hide PrefillResult, Tracks, Logits;
    PrefillTracks(net, kvs, seats, s, tokens, start, want);
  }

  // ---------------------------------------------------------------------
  // Decode
  // ---------------------------------------------------------------------

  lemma {:induction false} AloneSeated(net: Net, kv: SeqKv, seat: Seat, t: Token)
    requires Seated(net, kv, seat) && seat.Len() < net.context
    ensures var (logits, kv') := Alone(net, kv, t);
            && Seated(net, kv', SteppedSeat(seat, t))
            && (seat.Intact? ==> logits == Logits(net, seat.h + [t]))
  {
    hide Forward, Cached, Logits;
    assert Embed(net, [t]) == [net.embed(t)];
    if seat.Intact? {
      IntactForward(net, kv, seat.h, [t]);
      CachedIsSeated(net, seat.h + [t]);
    } else {
      TornForward(net, kv, seat.n, [net.embed(t)]);
    }
  }

  /** A touched cache is torn, unless it was empty. */
  lemma {:induction false} TouchedSeated(net: Net, kv: SeqKv, seat: Seat, x: Row)
    requires Seated(net, kv, seat)
    ensures Seated(net, Touched(net, 0, 0, x, kv.tokens, kv), TornSeat(seat))
  {
    if seat.Intact? && seat.h != [] {
      assert kv.entries[0] == SlotOf(net, 0, Embed(net, seat.h), 0);
    }
  }

  lemma {:induction false} FullSeats(net: Net, kvs: Caches, seats: Seats, batch: seq<(SeqId, Token)>)
    requires Tracks(net, kvs, seats) && forall i :: 0 <= i < |batch| ==> batch[i].0 in kvs
    ensures var f := FirstFull(net, Positions(kvs, batch));
            && FirstFullSeat(net.context, seats, batch) == f
            && (forall i :: 0 <= i < f ==> seats[batch[i].0].Len() < net.context)
  {
    if batch != [] {
      assert Positions(kvs, batch)[1..] == Positions(kvs, batch[1..]);
      FullSeats(net, kvs, seats, batch[1..]);
      assert Positions(kvs, batch)[0] == seats[batch[0].0].Len();
      var f := FirstFull(net, Positions(kvs, batch));
      assert forall i :: 0 < i < f ==> batch[i] == batch[1..][i - 1];
    }
  }

  lemma {:induction false} SteppedTracks(net: Net, kvs: Caches, seats: Seats, batch: seq<(SeqId, Token)>, torn: bool)
    requires Tracks(net, kvs, seats) && Shaped(net, kvs)
    requires torn || forall i :: 0 <= i < |batch| ==> batch[i].0 in seats && seats[batch[i].0].Len() < net.context
    ensures Tracks(net, Stepped(net, kvs, batch, torn), SteppedSeats(seats, batch, torn))
  {
    hide Seated, Alone, Touched;
    var kvs', seats' := Stepped(net, kvs, batch, torn), SteppedSeats(seats, batch, torn);
    forall q | q in kvs'
      ensures Seated(net, kvs'[q], seats'[q])
    {
      if Listed(batch, q) {
        if torn {
          TouchedSeated(net, kvs[q], seats[q], net.embed(TokenFor(batch, q)));
        } else {
          var i :| 0 <= i < |batch| && batch[i].0 == q;
          AloneSeated(net, kvs[q], seats[q], TokenFor(batch, q));
        }
      }
    }
  }

  /** Everything a decode does, seen from the seats: whether it succeeds, what
      it leaves, and that every intact sequence is answered from its own
      history. */
  lemma {:induction false} DecodeTracks(net: Net, kvs: Caches, seats: Seats, batch: seq<(SeqId, Token)>)
    requires Tracks(net, kvs, seats) && Shaped(net, kvs)
    ensures var (out, kvs') := DecodeResult(net, kvs, batch);
            var (ok, seats') := DecodeSeats(net.context, seats, batch);
            && Tracks(net, kvs', seats')
            && (out.Done? <==> ok)
            && (ok ==> |out.value| == |batch| && Distinct(batch) && AllKnown(seats.Keys, batch))
            && (ok ==> forall i :: 0 <= i < |batch| && seats[batch[i].0].Intact? ==>
                         out.value[i] == Logits(net, seats[batch[i].0].h + [batch[i].1]))
  {
    hide Stepped, SteppedSeats, Alone, Logits, Seated;
    TakeableMeans(kvs.Keys, batch);
    var n := Takeable(kvs.Keys, batch);
    if n == |batch| {
      assert forall i :: 0 <= i < |batch| ==> batch[i].0 in Ids(batch);
      FullSeats(net, kvs, seats, batch);
      var f := FirstFull(net, Positions(kvs, batch));
      if f < |batch| {
        SteppedTracks(net, kvs, seats, batch[..f], true);
      } else {
        SteppedTracks(net, kvs, seats, batch, false);
        forall i | 0 <= i < |batch| && seats[batch[i].0].Intact?
          ensures Alone(net, kvs[batch[i].0], batch[i].1).0 == Logits(net, seats[batch[i].0].h + [batch[i].1])
        {
          AloneSeated(net, kvs[batch[i].0], seats[batch[i].0], batch[i].1);
        }
      }
    }
  }

  lemma {:induction false} NamedIsListed(batch: seq<(SeqId, Token)>, n: nat)
    requires n <= |batch|
    ensures forall q :: q in Ids(batch[..n]) || Listed(batch[..n], q) ==> Names(Call.Decode(batch), q)
  {
    forall q | q in Ids(batch[..n]) || Listed(batch[..n], q)
      ensures Names(Call.Decode(batch), q)
    {
      var i :| 0 <= i < |batch[..n]| && batch[..n][i].0 == q;
      assert batch[i].0 == q;
    }
  }

  /** A failed decode, seen through the contract. */
  lemma {:induction false} FailedDecodeServes(net: Net, seats: Seats, batch: seq<(SeqId, Token)>)
    requires !DecodeSeats(net.context, seats, batch).0
    ensures Serves(net, BooksOf(seats), Call.Decode(batch), Failed, BooksOf(DecodeSeats(net.context, seats, batch).1))
  {
    var n, f := Takeable(seats.Keys, batch), FirstFullSeat(net.context, seats, batch);
    NamedIsListed(batch, n);
    NamedIsListed(batch, f);
    hide Names, Ids, Listed;
  }

  lemma {:induction false} DecodeServes(net: Net, kvs: Caches, seats: Seats, batch: seq<(SeqId, Token)>)
    requires Tracks(net, kvs, seats) && Shaped(net, kvs)
    ensures Serves(net, BooksOf(seats), Call.Decode(batch), DecodeResult(net, kvs, batch).0,
                   BooksOf(DecodeSeats(net.context, seats, batch).1))
  {
    hide DecodeResult, Tracks, Logits, Takeable, FirstFullSeat, Serves;
    DecodeTracks(net, kvs, seats, batch);
    var out := DecodeResult(net, kvs, batch).0;
    if out.Failed? {
      FailedDecodeServes(net, seats, batch);
    } else {
      DoneDecodeServes(net, seats, batch, out.value);
    }
  }

  lemma {:induction false} DoneDecodeServes(net: Net, seats: Seats, batch: seq<(SeqId, Token)>, logits: seq<Row>)
    requires Distinct(batch) && |logits| == |batch| && AllKnown(seats.Keys, batch)
    requires forall i :: 0 <= i < |batch| && seats[batch[i].0].Intact? ==>
               logits[i] == Logits(net, seats[batch[i].0].h + [batch[i].1])
    ensures Serves(net, BooksOf(seats), Call.Decode(batch), Done(logits), BooksOf(SteppedSeats(seats, batch, false)))
  {
    hide Logits;
    var b, b' := BooksOf(seats), BooksOf(SteppedSeats(seats, batch, false));
    forall i | 0 <= i < |batch|
      ensures DecodeAnswered(net, b, batch[i].0, batch[i].1, logits[i], b')
    {
      TokenForAt(batch, i);
      assert Listed(batch, batch[i].0);
    }
    assert forall q :: Listed(batch, q) <==> Names(Call.Decode(batch), q);
  }

  // ---------------------------------------------------------------------
  // Any call
  // ---------------------------------------------------------------------

  /** Every call does what the caller can predict from the seats, and serves
      the shared contract. */
  lemma {:induction false} NextServes(net: Net, kvs: Caches, seats: Seats, call: Call)
    requires Tracks(net, kvs, seats) && Shaped(net, kvs)
    ensures var (out, kvs') := Next(net, kvs, call);
            var (ok, seats') := NextSeats(net.context, seats, call);
            && Tracks(net, kvs', seats') && Shaped(net, kvs') && (out.Done? <==> ok)
            && Serves(net, BooksOf(seats), call, out, BooksOf(seats'))
  {
    hide PrefillResult, PrefillSeat, DecodeResult, DecodeSeats, Seated;
    match call
    case Prefill(s, tokens, start, want) =>
      PrefillTracks(net, kvs, seats, s, tokens, start, want);
      PrefillServes(net, kvs, seats, s, tokens, start, want);
      TracksShaped(net, Next(net, kvs, call).1, NextSeats(net.context, seats, call).1);
    case Decode(batch) =>
      DecodeTracks(net, kvs, seats, batch);
      DecodeServes(net, kvs, seats, batch);
      TracksShaped(net, Next(net, kvs, call).1, NextSeats(net.context, seats, call).1);
    case Drop(s) =>
      TracksShaped(net, kvs - {s}, seats - {s});
  }
}
