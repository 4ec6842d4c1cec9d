/**
Runs of `SequentialModel` as the caller sees them, and exactly when a decode
that succeeds can be relied on.
*/
module SequentialExact {
  import opened Wrappers
  import opened Transformer
  import opened BatchContract
  import opened BatchedSpec
  import opened SpellModel
  import SR = SequentialRuntime

  function Earlier(calls: seq<Call>): seq<Call>
    requires calls != []
  {
    calls[..|calls| - 1]
  }

  function BenchAfter(context: nat, calls: seq<Call>): SR.Bench {
    if calls == [] then None else SR.NextBench(context, BenchAfter(context, Earlier(calls)), calls[|calls| - 1]).1
  }

  predicate Succeeds(context: nat, calls: seq<Call>)
    requires calls != []
  {
    SR.NextBench(context, BenchAfter(context, Earlier(calls)), calls[|calls| - 1]).0
  }

  function StockAfter(net: Net, calls: seq<Call>): SR.Stock {
    if calls == [] then SR.Stock(NewKv(net.layers), None)
    else SR.CallResult(net, StockAfter(net, Earlier(calls)), calls[|calls| - 1]).1
  }

  function Answered(net: Net, calls: seq<Call>): Outcome
    requires calls != []
  {
    SR.CallResult(net, StockAfter(net, Earlier(calls)), calls[|calls| - 1]).0
  }

  lemma {:induction false} RunTracks(net: Net, calls: seq<Call>)
    requires 0 < net.layers
    ensures SR.Tracks(net, StockAfter(net, calls), BenchAfter(net.context, calls))
    ensures calls != [] ==> (Answered(net, calls).Done? <==> Succeeds(net.context, calls))
    decreases |calls|
  {
    hide SR.CallResult, SR.NextBench;
    if calls != [] {
      RunTracks(net, Earlier(calls));
      SR.CallTracks(net, StockAfter(net, Earlier(calls)), BenchAfter(net.context, Earlier(calls)), calls[|calls| - 1]);
    }
  }

  function Events(net: Net, calls: seq<Call>): (r: seq<Event>)
    ensures |r| == |calls|
  {
    if calls == [] then []
    else Events(net, Earlier(calls)) + [Event(calls[|calls| - 1], Answered(net, calls))]
  }

  function BookStates(net: Net, calls: seq<Call>): (r: seq<Books>)
    ensures |r| == |calls| + 1 && r[|calls|] == SR.BooksOf(BenchAfter(net.context, calls))
  {
    if calls == [] then [SR.BooksOf(None)]
    else BookStates(net, Earlier(calls)) + [SR.BooksOf(BenchAfter(net.context, calls))]
  }

  /** Every run of calls is a run of the shared contract. */
  lemma {:induction false} RunServes(net: Net, calls: seq<Call>)
    requires 0 < net.layers
    ensures IsRun(net, BookStates(net, calls), Events(net, calls))
    decreases |calls|
  {
    hide Serves, SR.NextBench, SR.CallResult, SR.Tracks;
    if calls != [] {
      var before, call, n := Earlier(calls), calls[|calls| - 1], |calls| - 1;
      RunServes(net, before);
      RunTracks(net, before);
      SR.NextServes(net, StockAfter(net, before), BenchAfter(net.context, before), call);
      var states, events := BookStates(net, calls), Events(net, calls);
      forall i | 0 <= i < |events|
        ensures Serves(net, states[i], events[i].call, events[i].out, states[i + 1])
      {
        if i < n {
          assert events[i] == Events(net, before)[i];
          assert states[i] == BookStates(net, before)[i] && states[i + 1] == BookStates(net, before)[i + 1];
        }
      }
    }
  }

  /** The runtime, given the calls one after another, is such a run. */
  method Play(net: Net, calls: seq<Call>) returns (events: seq<Event>)
    requires 0 < net.layers
    ensures events == Events(net, calls)
    ensures IsRun(net, BookStates(net, calls), events)
  {
    hide SR.CallResult, Serves;
    var rt := new SR.SequentialModel(net);
    events := [];
    for i := 0 to |calls|
      invariant rt.net == net && events == Events(net, calls[..i]) && rt.Now() == StockAfter(net, calls[..i])
    {
      assert Earlier(calls[..i + 1]) == calls[..i] && calls[..i + 1][i] == calls[i];
      var out: Outcome;
      match calls[i] {
        case Prefill(s, tokens, start, want) =>
          out := rt.Prefill(s, tokens, start, want);
        case Decode(batch) =>
          out := rt.Decode(batch);
        case Drop(s) =>
          rt.DropSeq(s);
          out := Done([]);
      }
      events := events + [Event(calls[i], out)];
    }
    assert calls[..|calls|] == calls;
    RunServes(net, calls);
  }

  // ---------------------------------------------------------------------
  // The exact guarantee
  // ---------------------------------------------------------------------

  /** The tokens the caller had accepted for `q` since it last started it. */
  function Own(context: nat, calls: seq<Call>, q: SeqId): Option<seq<Token>> {
    if calls == [] then None
    else
      var before, call, ok := Own(context, Earlier(calls), q), calls[|calls| - 1], Succeeds(context, calls);
      match call
      case Prefill(s, tokens, start, _) =>
        if s != q then before
        else if start == 0 then (if ok then Some(tokens) else None)
        else if ok && before.Some? then Some(before.value + tokens)
        else before
      case Decode(batch) =>
        if ok && before.Some? && batch != [] && batch[0].0 == q then Some(before.value + [batch[0].1]) else before
      case Drop(s) => if s == q then None else before
  }

  /** Since `q` was last started, no continuation of it at its own length ran
      past the context after starting inside it. */
  predicate Whole(context: nat, calls: seq<Call>, q: SeqId) {
    calls != [] &&
    var before, call := Earlier(calls), calls[|calls| - 1];
    if call.Prefill? && call.s == q && call.start == 0 then Succeeds(context, calls)
    else Whole(context, before, q) && !Harms(context, BenchAfter(context, before), call, q)
  }

  predicate Harms(context: nat, bench: SR.Bench, call: Call, q: SeqId) {
    && call.Prefill? && call.s == q && bench.Some? && bench.value.0 == q && bench.value.1.Len() == call.start
    && 0 < call.start < context < call.start + |call.tokens|
  }

  lemma {:induction false} WholeMeansIntact(context: nat, calls: seq<Call>, q: SeqId)
    requires Own(context, calls, q).Some?
    ensures var bench := BenchAfter(context, calls);
            bench.Some? && bench.value.0 == q ==>
              if Whole(context, calls, q) then bench.value.1 == Intact(Own(context, calls, q).value)
              else bench.value.1.Torn?
    decreases |calls|
  {
    var before := Earlier(calls);
    if Own(context, before, q).Some? {
      WholeMeansIntact(context, before, q);
    }
  }

  ghost predicate RightFor(net: Net, calls: seq<Call>, q: SeqId)
    requires calls != []
  {
    Answered(net, calls).Done? ==>
      && Own(net.context, calls, q).Some? && Own(net.context, calls, q).value != []
      && Answered(net, calls).value == [Logits(net, Own(net.context, calls, q).value)]
  }

  lemma {:induction false} AnswerIs(net: Net, calls: seq<Call>, q: SeqId, t: Token)
    requires 0 < net.layers && calls != []
    requires calls[|calls| - 1] == Call.Decode([(q, t)]) && Succeeds(net.context, calls)
    ensures var before := Earlier(calls);
            var st, bench := StockAfter(net, before), BenchAfter(net.context, before);
            && bench.Some? && bench.value.0 == q && bench.value.1.Len() < net.context
            && Seated(net, st.cache.(tokens := bench.value.1.Len()), bench.value.1)
            && SR.StockPass(net, st.cache, [t], bench.value.1.Len()).0.Done?
            && Answered(net, calls) == Done([SR.StockPass(net, st.cache, [t], bench.value.1.Len()).0.value])
            && (Own(net.context, before, q).Some? ==>
                Own(net.context, calls, q) == Some(Own(net.context, before, q).value + [t]))
  {
    hide SR.StockPass, Seated;
    RunTracks(net, Earlier(calls));
    RunTracks(net, calls);
  }

  /**
  A decode that succeeds for `q` answers the caller's own tokens under every
  model, if and only if no continuation ran past the context after starting
  inside it, since `q` was last started.
  */
  lemma {:induction false} RightIffWhole(context: nat, calls: seq<Call>, q: SeqId, t: Token)
    requires calls != [] && calls[|calls| - 1] == Call.Decode([(q, t)]) && Succeeds(context, calls)
    requires Own(context, Earlier(calls), q).Some?
    ensures Whole(context, Earlier(calls), q) <==>
              forall net: Net :: 0 < net.layers && net.context == context ==> RightFor(net, calls, q)
  {
    hide Answered, StockAfter, BenchAfter, SR.StockPass, Seated, Logits, Whole, Succeeds, Own;
    WholeMeansIntact(context, Earlier(calls), q);
    if Whole(context, Earlier(calls), q) {
      forall net: Net | 0 < net.layers && net.context == context
        ensures RightFor(net, calls, q)
      {
        AnswerIs(net, calls, q, t);
        SR.StockStep(net, StockAfter(net, Earlier(calls)).cache, BenchAfter(context, Earlier(calls)).value.1, t);
      }
    } else {
      HarmedIsWrong(context, calls, q, t);
    }
  }

  lemma {:induction false} HarmedIsWrong(context: nat, calls: seq<Call>, q: SeqId, t: Token)
    requires calls != [] && calls[|calls| - 1] == Call.Decode([(q, t)]) && Succeeds(context, calls)
    requires Own(context, Earlier(calls), q).Some? && !Whole(context, Earlier(calls), q)
    ensures !RightFor(SpellNet(context), calls, q)
  {
    hide Answered, StockAfter, BenchAfter, SR.StockPass, Logits, Whole, Succeeds, Own, Alone;
    var net, before := SpellNet(context), Earlier(calls);
    WholeMeansIntact(context, before, q);
    AnswerIs(net, calls, q, t);
    var cache, seat, own :=
      StockAfter(net, before).cache, BenchAfter(context, before).value.1, Own(context, before, q).value;
    SR.StockStep(net, cache, seat, t);
    TornSpells(context, cache.(tokens := seat.n), seat.n, t);
    SpelledLogits(context, own + [t]);
  }

  /** The smallest such run: one token, a continuation of two at a context of
      two, and a decode that succeeds. */
  lemma {:induction false} TornContinuationExample(q: SeqId, a: Token, b: Token, c: Token, t: Token)
    ensures var calls := [Call.Prefill(q, [a], 0, false), Call.Prefill(q, [b, c], 1, false), Call.Decode([(q, t)])];
            && Succeeds(2, calls) && Own(2, Earlier(calls), q) == Some([a]) && !Whole(2, Earlier(calls), q)
            && !RightFor(SpellNet(2), calls, q)
  {
    var c1, c2, c3 := Call.Prefill(q, [a], 0, false), Call.Prefill(q, [b, c], 1, false), Call.Decode([(q, t)]);
    assert Earlier([c1, c2, c3]) == [c1, c2] && Earlier([c1, c2]) == [c1] && Earlier([c1]) == [];
    assert BenchAfter(2, [c1]) == Some((q, Intact([a])));
    assert BenchAfter(2, [c1, c2]) == Some((q, Torn(1)));
    assert Own(2, [c1], q) == Some([a]);
    HarmedIsWrong(2, [c1, c2, c3], q, t);
  }
}
