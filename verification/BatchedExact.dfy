/**
Runs of `BatchedLlama` as the caller sees them, and exactly when a decode that
succeeds can be relied on.
*/
module BatchedExact {
  import opened Wrappers
  import opened Transformer
  import opened BatchDecode
  import opened BatchContract
  import opened BatchedSpec
  import opened BatchedRuntime
  import opened SpellModel

  // ---------------------------------------------------------------------
  // Runs
  // ---------------------------------------------------------------------

  function Earlier(calls: seq<Call>): seq<Call>
    requires calls != []
  {
    calls[..|calls| - 1]
  }

  ghost function SeatsAfter(context: nat, calls: seq<Call>): Seats {
    if calls == [] then map[] else NextSeats(context, SeatsAfter(context, Earlier(calls)), calls[|calls| - 1]).1
  }

  /** Whether the last call of a run succeeds. */
  ghost predicate Succeeds(context: nat, calls: seq<Call>)
    requires calls != []
  {
    NextSeats(context, SeatsAfter(context, Earlier(calls)), calls[|calls| - 1]).0
  }

  ghost function CachesAfter(net: Net, calls: seq<Call>): (kvs: Caches)
    requires 0 < net.layers
    ensures Shaped(net, kvs) && Tracks(net, kvs, SeatsAfter(net.context, calls))
  {
    if calls == [] then map[]
    else
      var kvs := CachesAfter(net, Earlier(calls));
      NextServes(net, kvs, SeatsAfter(net.context, Earlier(calls)), calls[|calls| - 1]);
      Next(net, kvs, calls[|calls| - 1]).1
  }

  /** What the last call of a run answers. */
  ghost function Answered(net: Net, calls: seq<Call>): Outcome
    requires 0 < net.layers && calls != []
  {
    Next(net, CachesAfter(net, Earlier(calls)), calls[|calls| - 1]).0
  }

  ghost function Events(net: Net, calls: seq<Call>): (r: seq<Event>)
    requires 0 < net.layers
    ensures |r| == |calls|
  {
    if calls == [] then []
    else Events(net, Earlier(calls)) + [Event(calls[|calls| - 1], Answered(net, calls))]
  }

  ghost function BookStates(net: Net, calls: seq<Call>): (r: seq<Books>)
    ensures |r| == |calls| + 1 && r[|calls|] == BooksOf(SeatsAfter(net.context, calls))
  {
    if calls == [] then [BooksOf(map[])]
    else BookStates(net, Earlier(calls)) + [BooksOf(SeatsAfter(net.context, calls))]
  }

  /** Every run of calls is a run of the shared contract. */
  lemma {:induction false} RunServes(net: Net, calls: seq<Call>)
    requires 0 < net.layers
    ensures IsRun(net, BookStates(net, calls), Events(net, calls))
    decreases |calls|
  {
    hide Serves, BooksOf, NextSeats, Next, Tracks;
    if calls == [] {
      NoBooks();
    } else {
      var before, call, n := Earlier(calls), calls[|calls| - 1], |calls| - 1;
      RunServes(net, before);
      NextServes(net, CachesAfter(net, before), SeatsAfter(net.context, before), call);
      var states, events := BookStates(net, calls), Events(net, calls);
      forall i | 0 <= i < |events|
        ensures Serves(net, states[i], events[i].call, events[i].out, states[i + 1])
      {
        if i < n {
          assert events[i] == Events(net, before)[i];
          assert states[i] == BookStates(net, before)[i] && states[i + 1] == BookStates(net, before)[i + 1];
        }
      }
    }
  }

  lemma {:induction false} NoBooks()
    ensures BooksOf(map[]) == Books(map[], {})
  {
  }

  /** The runtime, given the calls one after another, is such a run. */
  method Play(net: Net, calls: seq<Call>) returns (events: seq<Event>)
    requires 0 < net.layers
    ensures events == Events(net, calls)
    ensures IsRun(net, BookStates(net, calls), events)
  {
    hide Tracks, Next, NextSeats, Serves, BooksOf;
    var rt := new BatchedLlama(net);
    events := [];
    for i := 0 to |calls|
      invariant rt.Valid() && rt.net == net && events == Events(net, calls[..i])
      invariant rt.kvs == CachesAfter(net, calls[..i]) && rt.seats == SeatsAfter(net.context, calls[..i])
    {
      assert Earlier(calls[..i + 1]) == calls[..i] && calls[..i + 1][i] == calls[i];
      var out: Outcome;
      match calls[i] {
        case Prefill(s, tokens, start, want) =>
          out := rt.Prefill(s, tokens, start, want);
        case Decode(batch) =>
          out := rt.Decode(batch);
        case Drop(s) =>
          rt.DropSeq(s);
          out := Done([]);
      }
      events := events + [Event(calls[i], out)];
    }
    assert calls[..|calls|] == calls;
    RunServes(net, calls);
  }

  // ---------------------------------------------------------------------
  // What the caller means, and what it may still rely on
  // ---------------------------------------------------------------------

  /** The tokens the caller had accepted for `q` since it last started it;
      a failed call adds none. Starting over and failing leaves none. */
  ghost function Own(context: nat, calls: seq<Call>, q: SeqId): Option<seq<Token>> {
    if calls == [] then None
    else
      var before, call, ok := Own(context, Earlier(calls), q), calls[|calls| - 1], Succeeds(context, calls);
      match call
      case Prefill(s, tokens, start, _) =>
        if s != q then before
        else if start == 0 then (if ok then Some(tokens) else None)
        else if ok && before.Some? then Some(before.value + tokens)
        else before
      case Decode(batch) =>
        if ok && before.Some? && Listed(batch, q) then Some(before.value + [TokenFor(batch, q)]) else before
      case Drop(s) => if s == q then None else before
  }

  /** A failed decode harms the sequences it lists before the id it failed on:
      the first unknown or repeated one, or else the first full one. */
  ghost predicate Harms(context: nat, seats: Seats, call: Call, q: SeqId) {
    && call.Decode? && q in seats && seats[q].Len() > 0
    && var n := Takeable(seats.Keys, call.batch);
       var f := FirstFullSeat(context, seats, call.batch);
       if n < |call.batch| then Listed(call.batch[..n], q) else f < |call.batch| && Listed(call.batch[..f], q)
  }

  /** No failed decode harmed `q` since it was last started. */
  ghost predicate Whole(context: nat, calls: seq<Call>, q: SeqId) {
    calls != [] &&
    var before, call := Earlier(calls), calls[|calls| - 1];
    if call.Prefill? && call.s == q && call.start == 0 then Succeeds(context, calls)
    else Whole(context, before, q) && !Harms(context, SeatsAfter(context, before), call, q)
  }

  lemma {:induction false} ListedIsId(batch: seq<(SeqId, Token)>, q: SeqId)
    ensures Listed(batch, q) <==> q in Ids(batch)
  {
  }

  /** What is known of `q` when the caller means `own`. */
  ghost predicate Accounted(seats: Seats, q: SeqId, own: seq<Token>, whole: bool) {
    && (!whole ==> own != [])
    && if q in seats then
         if whole then seats[q] == Intact(own) else seats[q].Torn? || |seats[q].h| < |own|
       else whole ==> own == []
  }

  lemma {:induction false} DecodeAccounts(context: nat, seats: Seats, batch: seq<(SeqId, Token)>, q: SeqId,
                                          own: seq<Token>, whole: bool)
    requires Accounted(seats, q, own, whole)
    ensures var (ok, seats') := DecodeSeats(context, seats, batch);
            Accounted(seats', q, if ok && Listed(batch, q) then own + [TokenFor(batch, q)] else own,
                      whole && !Harms(context, seats, Call.Decode(batch), q))
  {
    hide FirstFullSeat;
    var n := Takeable(seats.Keys, batch);
    TakeableMeans(seats.Keys, batch);
    ListedIsId(batch[..n], q);
    ListedIsId(batch, q);
    hide Takeable, Ids;
  }

  lemma {:induction false} PrefillAccounts(context: nat, seats: Seats, s: SeqId, tokens: seq<Token>, start: nat,
                                           want: bool, q: SeqId, own: seq<Token>, whole: bool)
    requires Accounted(seats, q, own, whole) && (start > 0 || s != q)
    ensures var (ok, seat) := PrefillSeat(context, seats, s, tokens, start, want);
            Accounted(seats[s := seat], q, if ok && s == q then own + tokens else own, whole)
  {
  }

  /** While `q` is whole its cache is that of the caller's own tokens; once
      harmed it is gone, torn, or that of fewer tokens. */
  lemma {:induction false} WholeMeansIntact(context: nat, calls: seq<Call>, q: SeqId)
    requires Own(context, calls, q).Some?
    ensures Accounted(SeatsAfter(context, calls), q, Own(context, calls, q).value, Whole(context, calls, q))
    decreases |calls|
  {
    hide Accounted, DecodeSeats, Harms, PrefillSeat;
    var before, call := Earlier(calls), calls[|calls| - 1];
    var seats := SeatsAfter(context, before);
    match call
    case Prefill(s, tokens, start, want) =>
      if s == q && start == 0 {
        Restarts(context, seats, q, tokens, want);
      } else {
        WholeMeansIntact(context, before, q);
        PrefillAccounts(context, seats, s, tokens, start, want, q, Own(context, before, q).value,
                        Whole(context, before, q));
        assert !Harms(context, seats, call, q) by { OnlyDecodeHarms(context, seats, call, q); }
      }
    case Decode(batch) =>
      WholeMeansIntact(context, before, q);
      DecodeAccounts(context, seats, batch, q, Own(context, before, q).value, Whole(context, before, q));
    case Drop(s) =>
      WholeMeansIntact(context, before, q);
      DropAccounts(seats, s, q, Own(context, before, q).value, Whole(context, before, q));
      assert !Harms(context, seats, call, q) by { OnlyDecodeHarms(context, seats, call, q); }
  }

  lemma {:induction false} OnlyDecodeHarms(context: nat, seats: Seats, call: Call, q: SeqId)
    requires !call.Decode?
    ensures !Harms(context, seats, call, q)
  {
  }

  lemma {:induction false} DropAccounts(seats: Seats, s: SeqId, q: SeqId, own: seq<Token>, whole: bool)
    requires Accounted(seats, q, own, whole) && s != q
    ensures Accounted(seats - {s}, q, own, whole)
  {
  }

  lemma {:induction false} Restarts(context: nat, seats: Seats, q: SeqId, tokens: seq<Token>, want: bool)
    ensures var (ok, seat) := PrefillSeat(context, seats, q, tokens, 0, want);
            ok ==> Accounted(seats[q := seat], q, tokens, true)
  {
    assert [] + tokens == tokens;
  }

  // ---------------------------------------------------------------------
  // The exact guarantee
  // ---------------------------------------------------------------------

  ghost predicate RightFor(net: Net, calls: seq<Call>, q: SeqId)
    requires 0 < net.layers && calls != [] && calls[|calls| - 1].Decode?
  {
    Answered(net, calls).Done? ==>
      forall i :: 0 <= i < |calls[|calls| - 1].batch| && calls[|calls| - 1].batch[i].0 == q ==>
        && i < |Answered(net, calls).value|
        && Own(net.context, calls, q).Some? && Own(net.context, calls, q).value != []
        && Answered(net, calls).value[i] == Logits(net, Own(net.context, calls, q).value)
  }

  lemma {:induction false} AnswerAt(net: Net, calls: seq<Call>, i: nat)
    requires 0 < net.layers && calls != [] && calls[|calls| - 1].Decode? && i < |calls[|calls| - 1].batch|
    requires Succeeds(net.context, calls)
    ensures var before := Earlier(calls);
            var (q, t) := calls[|calls| - 1].batch[i];
            var kvs, seats := CachesAfter(net, before), SeatsAfter(net.context, before);
            && Answered(net, calls).Done? && i < |Answered(net, calls).value|
            && q in seats && Seated(net, kvs[q], seats[q]) && seats[q].Len() < net.context
            && Answered(net, calls).value[i] == Alone(net, kvs[q], t).0
            && (Own(net.context, before, q).Some? ==>
                Own(net.context, calls, q) == Some(Own(net.context, before, q).value + [t]))
  {
    hide Alone, Stepped, SteppedSeats, Seated;
    var before, batch := Earlier(calls), calls[|calls| - 1].batch;
    var kvs, seats := CachesAfter(net, before), SeatsAfter(net.context, before);
    DecodeTracks(net, kvs, seats, batch);
    FullSeats(net, kvs, seats, batch);
    TokenForAt(batch, i);
    assert Listed(batch, batch[i].0);
  }

  /**
  A decode that succeeds for `q` answers the caller's own tokens under every
  model, if and only if no failed decode harmed `q` since it was last started.
  Everything in the condition is known before the call.
  */
  lemma {:induction false} RightIffWhole(context: nat, calls: seq<Call>, i: nat)
    requires calls != [] && calls[|calls| - 1].Decode? && i < |calls[|calls| - 1].batch| && Succeeds(context, calls)
    requires Own(context, Earlier(calls), calls[|calls| - 1].batch[i].0).Some?
    ensures var q := calls[|calls| - 1].batch[i].0;
            Whole(context, Earlier(calls), q) <==>
              forall net: Net :: 0 < net.layers && net.context == context ==> RightFor(net, calls, q)
  {
    var before, q := Earlier(calls), calls[|calls| - 1].batch[i].0;
    WholeMeansIntact(context, before, q);
    if Whole(context, before, q) {
      forall net: Net | 0 < net.layers && net.context == context
        ensures RightFor(net, calls, q)
      {
        WholeIsRight(net, calls, i);
      }
    } else {
      HarmedIsWrong(context, calls, i);
    }
  }

  lemma {:induction false} WholeIsRight(net: Net, calls: seq<Call>, i: nat)
    requires 0 < net.layers && calls != [] && calls[|calls| - 1].Decode? && i < |calls[|calls| - 1].batch|
    requires Succeeds(net.context, calls)
    requires var q := calls[|calls| - 1].batch[i].0;
             Own(net.context, Earlier(calls), q).Some? && Whole(net.context, Earlier(calls), q)
    ensures RightFor(net, calls, calls[|calls| - 1].batch[i].0)
  {
    hide Answered, Alone, Whole, Succeeds, SeatsAfter, CachesAfter, Seated;
    var batch, q := calls[|calls| - 1].batch, calls[|calls| - 1].batch[i].0;
    WholeMeansIntact(net.context, Earlier(calls), q);
    forall j | 0 <= j < |batch| && batch[j].0 == q
      ensures && Answered(net, calls).Done? && j < |Answered(net, calls).value|
              && Own(net.context, calls, q).Some? && Own(net.context, calls, q).value != []
              && Answered(net, calls).value[j] == Logits(net, Own(net.context, calls, q).value)
    {
      AnswerAt(net, calls, j);
      AloneSeated(net, CachesAfter(net, Earlier(calls))[q], SeatsAfter(net.context, Earlier(calls))[q], batch[j].1);
    }
  }

  lemma {:induction false} HarmedIsWrong(context: nat, calls: seq<Call>, i: nat)
    requires calls != [] && calls[|calls| - 1].Decode? && i < |calls[|calls| - 1].batch| && Succeeds(context, calls)
    requires var q := calls[|calls| - 1].batch[i].0;
             Own(context, Earlier(calls), q).Some? && !Whole(context, Earlier(calls), q)
    ensures !RightFor(SpellNet(context), calls, calls[|calls| - 1].batch[i].0)
  {
    hide Answered, Alone, Whole, Succeeds, SeatsAfter, CachesAfter, Logits;
    var net, before := SpellNet(context), Earlier(calls);
    var (q, t) := calls[|calls| - 1].batch[i];
    WholeMeansIntact(context, before, q);
    AnswerAt(net, calls, i);
    var kv, seat, own := CachesAfter(net, before)[q], SeatsAfter(context, before)[q], Own(context, before, q).value;
    if seat.Torn? {
      TornSpells(context, kv, seat.n, t);
      SpelledLogits(context, own + [t]);
    } else {
      AloneSeated(net, kv, seat, t);
      if Logits(net, seat.h + [t]) == Logits(net, own + [t]) {
        SpelledApart(context, seat.h + [t], own + [t]);
      }
    }
  }

  // ---------------------------------------------------------------------
  // After a loss
  // ---------------------------------------------------------------------

  lemma {:induction false} OnlyPrefillSeats(context: nat, seats: Seats, call: Call, q: SeqId)
    requires q !in seats && !(call.Prefill? && call.s == q)
    ensures q !in NextSeats(context, seats, call).1
  {
  }

  /** Once a cache is lost, a decode of it succeeds only after another prefill
      of it was attempted. */
  lemma {:induction false} LostUntilPrefill(context: nat, calls: seq<Call>, more: seq<Call>, q: SeqId)
    requires q !in SeatsAfter(context, calls) && more != []
    requires more[|more| - 1].Decode? && Listed(more[|more| - 1].batch, q) && Succeeds(context, calls + more)
    ensures exists k :: 0 <= k < |more| - 1 && more[k].Prefill? && more[k].s == q
  {
    hide NextSeats;
    if forall k :: 0 <= k < |more| - 1 ==> !(more[k].Prefill? && more[k].s == q) {
      var before := more[..|more| - 1];
      StaysLost(context, calls, before, q);
      assert Earlier(calls + more) == calls + before && (calls + more)[|calls + more| - 1] == more[|more| - 1];
      UnknownFails(context, SeatsAfter(context, calls + before), more[|more| - 1].batch, q);
    }
  }

  lemma {:induction false} StaysLost(context: nat, calls: seq<Call>, more: seq<Call>, q: SeqId)
    requires q !in SeatsAfter(context, calls) && forall k :: 0 <= k < |more| ==> !(more[k].Prefill? && more[k].s == q)
    ensures q !in SeatsAfter(context, calls + more)
    decreases |more|
  {
    hide NextSeats;
    if more == [] {
      assert calls + more == calls;
    } else {
      var before := more[..|more| - 1];
      StaysLost(context, calls, before, q);
      assert Earlier(calls + more) == calls + before && (calls + more)[|calls + more| - 1] == more[|more| - 1];
      OnlyPrefillSeats(context, SeatsAfter(context, calls + before), more[|more| - 1], q);
    }
  }

  lemma {:induction false} UnknownFails(context: nat, seats: Seats, batch: seq<(SeqId, Token)>, q: SeqId)
    requires Listed(batch, q) && q !in seats
    ensures !NextSeats(context, seats, Call.Decode(batch)).0
  {
    TakeableMeans(seats.Keys, batch);
    ListedIsId(batch, q);
  }

  // ---------------------------------------------------------------------
  // Two runs that go wrong
  // ---------------------------------------------------------------------

  /** A sequence listed before a full one: its next decode succeeds and
      answers something no history of its length answers. */
  method TornSequenceAnswersWrong(q: SeqId, full: SeqId, a: Token, t: Token) returns (out: Outcome)
    requires q != full
    ensures out.Done? && |out.value| == 1 && out.value[0] != Logits(SpellNet(2), [a, t])
  {
    hide Logits, Forward, Tracks, PrefillResult, DecodeResult, Serves;
    var net := SpellNet(2);
    var rt := new BatchedLlama(net);
    out := rt.Prefill(q, [a], 0, false);
    assert [] + [a] == [a];
    assert rt.seats == map[q := Intact([a])];
    out := rt.Prefill(full, [a, a], 0, false);
    assert [] + [a, a] == [a, a];
    assert rt.seats == map[q := Intact([a]), full := Intact([a, a])];
    ghost var seats := rt.seats;
    out := rt.Decode([(q, t), (full, t)]);
    TornByFull(q, full, a, t);
    assert rt.seats == map[q := Torn(1), full := Intact([a, a])];
    ghost var kvs := rt.kvs;
    out := rt.Decode([(q, t)]);
    AfterTorn(net, kvs, rt.seats, q, full, a, t, out);
  }

  lemma {:induction false} TornByFull(q: SeqId, full: SeqId, a: Token, t: Token)
    requires q != full
    ensures DecodeSeats(2, map[q := Intact([a]), full := Intact([a, a])], [(q, t), (full, t)])
         == (false, map[q := Torn(1), full := Intact([a, a])])
  {
    var seats: Seats := map[q := Intact([a]), full := Intact([a, a])];
    var batch: seq<(SeqId, Token)>, rest: seq<(SeqId, Token)> := [(q, t), (full, t)], [(full, t)];
    assert batch[1..] == rest && rest[1..] == [];
    assert Takeable(seats.Keys - {q}, [(full, t)]) == 1;
    assert Takeable(seats.Keys, batch) == 2;
    assert FirstFullSeat(2, seats, batch) == 1;
    var front := batch[..1];
    assert front == [(q, t)] && front[0].0 == q;
    assert Listed(front, q) && !Listed(front, full);
    assert SteppedSeats(seats, front, true) == map[q := Torn(1), full := Intact([a, a])];
  }

  lemma {:induction false} AfterTorn(net: Net, kvs: Caches, seats': Seats, q: SeqId, full: SeqId, a: Token, t: Token,
                                     out: Outcome)
    requires net == SpellNet(2) && q != full && Shaped(net, kvs)
    requires Tracks(net, kvs, map[q := Torn(1), full := Intact([a, a])])
    requires out == DecodeResult(net, kvs, [(q, t)]).0
    ensures out.Done? && |out.value| == 1 && out.value[0] != Logits(net, [a, t])
  {
    hide Logits, Forward;
    var batch: seq<(SeqId, Token)> := [(q, t)];
    assert batch[1..] == [];
    assert Takeable(kvs.Keys, batch) == 1;
    assert kvs[q].tokens == 1 by { assert Seated(net, kvs[q], Torn(1)); }
    assert Positions(kvs, batch) == [1] && [1][1..] == [];
    assert FirstFull(net, [1]) == 1;
    TornSpells(2, kvs[q], 1, t);
    SpelledLogits(2, [a, t]);
  }

  /** A cache lost to a failed batch, then a refused continuation: the empty
      cache that leaves under the id answers for the one new token. */
  method LostSequenceAnswersAfresh(net: Net, q: SeqId, unknown: SeqId, h: seq<Token>, c: seq<Token>, t: Token)
    returns (out: Outcome)
    requires 0 < net.layers && q != unknown && h != [] && |h| <= net.context
    ensures out == Done([Logits(net, [t])])
  {
    hide Logits, Tracks, PrefillResult, DecodeResult, Serves;
    var rt := new BatchedLlama(net);
    out := rt.Prefill(q, h, 0, false);
    assert [] + h == h;
    assert rt.seats == map[q := Intact(h)];
    out := rt.Decode([(q, t), (unknown, t)]);
    LostToUnknown(net.context, q, unknown, h, t);
    assert rt.seats == map[];
    out := rt.Prefill(q, c, |h|, false);
    assert rt.seats == map[q := Intact([])];
    ghost var kvs := rt.kvs;
    out := rt.Decode([(q, t)]);
    AfterLoss(net, kvs, q, t, out);
  }

  lemma {:induction false} LostToUnknown(context: nat, q: SeqId, unknown: SeqId, h: seq<Token>, t: Token)
    requires q != unknown
    ensures DecodeSeats(context, map[q := Intact(h)], [(q, t), (unknown, t)]) == (false, map[])
  {
    var seats: Seats := map[q := Intact(h)];
    var batch: seq<(SeqId, Token)> := [(q, t), (unknown, t)];
    assert batch[1..] == [(unknown, t)];
    assert Takeable(seats.Keys - {q}, [(unknown, t)]) == 0;
    assert Takeable(seats.Keys, batch) == 1;
    assert batch[..1] == [(q, t)] && batch[..1][0].0 == q;
    assert q in Ids(batch[..1]);
  }

  lemma {:induction false} AfterLoss(net: Net, kvs: Caches, q: SeqId, t: Token, out: Outcome)
    requires Shaped(net, kvs) && Tracks(net, kvs, map[q := Intact([])]) && 0 < net.context
    requires out == DecodeResult(net, kvs, [(q, t)]).0
    ensures out == Done([Logits(net, [t])])
  {
    hide Logits;
    var seats: Seats := map[q := Intact([])];
    var batch: seq<(SeqId, Token)> := [(q, t)];
    assert batch[1..] == [];
    assert Takeable(seats.Keys, batch) == 1;
    assert FirstFullSeat(net.context, seats, batch) == 1;
    DecodeTracks(net, kvs, seats, batch);
    assert [] + [t] == [t];
    assert out.value == [out.value[0]];
  }
}
