/**
The contract every runtime claims (rust/services/cgn-infer/src/runtime/mod.rs,
`BatchModel`): sequences keyed by id, logits a function of the sequence's own
token history. `Serves` states it once; each runtime is proved against it.
*/
module BatchContract {
  import opened Wrappers
  import opened Transformer

  type SeqId = nat

  /** The token history recorded for each sequence whose cache is intact. */
  type Histories = map<SeqId, seq<Token>>

  datatype Call =
    | Prefill(s: SeqId, tokens: seq<Token>, start: nat, wantLogits: bool)
    | Decode(batch: seq<(SeqId, Token)>)
    | Drop(s: SeqId)

  /** The logits returned, in order. */
  type Outcome = Result<seq<Row>>

  predicate Names(call: Call, q: SeqId) {
    match call
    case Prefill(s, _, _, _) => q == s
    case Decode(batch) => exists i :: 0 <= i < |batch| && batch[i].0 == q
    case Drop(s) => q == s
  }

  predicate Distinct(batch: seq<(SeqId, Token)>) {
    forall i, j :: 0 <= i < j < |batch| ==> batch[i].0 != batch[j].0
  }

  /**
  What is known of the runtime's caches: the history each intact cache
  records, and the sequences a failed call left with a cache that no history
  accounts for.
  */
  datatype Books = Books(H: Histories, tainted: set<SeqId>)

  /** A sequence the call does not name keeps its history, or is lost. */
  ghost predicate OthersKept(b: Books, call: Call, b': Books) {
    forall q :: !Names(call, q) ==>
      && (q in b'.H ==> q in b.H && b'.H[q] == b.H[q])
      && (q in b'.tainted ==> q in b.tainted)
  }

  /** The histories a failed call may leave for a sequence it names. */
  ghost predicate AfterFailure(H: Histories, call: Call, H': Histories) {
    forall q :: q in H' && Names(call, q) ==>
      || H'[q] == []
      || (q in H && H'[q] == H[q])
      || (call.Prefill? && call.start == 0 && H'[q] == call.tokens)
      || (call.Prefill? && q in H && H'[q] == H[q] + call.tokens)
      || (call.Decode? && q in H && exists i :: 0 <= i < |call.batch| && H'[q] == H[q] + [call.batch[i].1])
  }

  ghost predicate PrefillAnswered(net: Net, b: Books, s: SeqId, tokens: seq<Token>, start: nat, want: bool,
                                  logits: seq<Row>, b': Books)
  {
    && (s in b'.tainted <==> start > 0 && s in b.tainted)
    && (s !in b'.tainted ==>
          && (start > 0 ==> s in b.H && |b.H[s]| == start)
          && s in b'.H && b'.H[s] == (if start == 0 then [] else b.H[s]) + tokens
          && (tokens != [] ==> logits == if want then [Logits(net, b'.H[s])] else []))
  }

  ghost predicate DecodeAnswered(net: Net, b: Books, q: SeqId, t: Token, logits: Row, b': Books) {
    && (q in b'.tainted <==> q in b.tainted)
    && (q !in b.tainted ==>
          && q in b.H && q in b'.H && b'.H[q] == b.H[q] + [t]
          && logits == Logits(net, b'.H[q]))
  }

  ghost predicate Serves(net: Net, b: Books, call: Call, out: Outcome, b': Books) {
    && OthersKept(b, call, b')
    && b'.H.Keys !! b'.tainted
    && (out.Failed? ==> AfterFailure(b.H, call, b'.H))
    && (out.Done? ==>
          match call
          case Prefill(s, tokens, start, want) => PrefillAnswered(net, b, s, tokens, start, want, out.value, b')
          case Decode(batch) =>
            && Distinct(batch) && |out.value| == |batch|
            && forall i :: 0 <= i < |batch| ==> DecodeAnswered(net, b, batch[i].0, batch[i].1, out.value[i], b')
          case Drop(s) => s !in b'.H && (s in b'.tainted ==> s in b.tainted) && out.value == [])
  }

  // ---------------------------------------------------------------------
  // Whole runs, as the caller sees them
  // ---------------------------------------------------------------------

  datatype Event = Event(call: Call, out: Outcome)

  ghost predicate IsRun(net: Net, states: seq<Books>, events: seq<Event>) {
    && |states| == |events| + 1
    && states[0] == Books(map[], {})
    && forall i :: 0 <= i < |events| ==>
         Serves(net, states[i], events[i].call, events[i].out, states[i + 1])
  }

  /** The token a decode batch lists for `q`. */
  function TokenFor(batch: seq<(SeqId, Token)>, q: SeqId): Token
    requires exists i :: 0 <= i < |batch| && batch[i].0 == q
  {
    if batch[0].0 == q then batch[0].1 else TokenFor(batch[1..], q)
  }

  /** What a caller that tracks only its own successful calls believes the
      history of `q` to be; any failed call naming `q` forfeits the belief
      until the next successful restart. */
  function Believed(events: seq<Event>, q: SeqId): Option<seq<Token>> {
    if events == [] then None
    else
      var e := events[|events| - 1];
      var before := Believed(events[..|events| - 1], q);
      if !Names(e.call, q) then before
      else if e.out.Failed? then None
      else match e.call
           case Prefill(_, tokens, start, _) =>
             if start == 0 then Some(tokens)
             else if before.Some? then Some(before.value + tokens)
             else None
           case Decode(batch) =>
             if before.Some? then Some(before.value + [TokenFor(batch, q)]) else None
           case Drop(_) => None
  }

  lemma {:induction false} TokenForAt(batch: seq<(SeqId, Token)>, i: nat)
    requires Distinct(batch) && i < |batch|
    ensures TokenFor(batch, batch[i].0) == batch[i].1
  {
    if i > 0 {
      assert batch[1..][i - 1] == batch[i];
      TokenForAt(batch[1..], i - 1);
    }
  }

  /** In every run of a runtime that serves the contract, a belief is never
      wrong: the cache is not tainted, and the recorded history, if the
      sequence has not been displaced, is the believed one. */
  lemma {:induction false} BeliefIsRecorded(net: Net, states: seq<Books>, events: seq<Event>, q: SeqId)
    requires IsRun(net, states, events)
    ensures Believed(events, q).Some? ==> q !in states[|events|].tainted
    ensures Believed(events, q).Some? && q in states[|events|].H
        ==> states[|events|].H[q] == Believed(events, q).value
  {
    if events != [] {
      var n := |events| - 1;
      var e := events[n];
      assert IsRun(net, states[..n + 1], events[..n]);
      BeliefIsRecorded(net, states[..n + 1], events[..n], q);
      assert Serves(net, states[n], e.call, e.out, states[n + 1]);
      if Names(e.call, q) && e.out.Done? && e.call.Decode? {
        var i :| 0 <= i < |e.call.batch| && e.call.batch[i].0 == q;
        assert DecodeAnswered(net, states[n], e.call.batch[i].0, e.call.batch[i].1, e.out.value[i], states[n + 1]);
        TokenForAt(e.call.batch, i);
      }
    }
  }

  /**
  The answer theorem. Whatever else the run did to other sequences, a decode
  that succeeds for `q` answers the whole model applied to the caller's own
  tokens, and so does a prefill that asked for logits.
  */
  lemma {:induction false} AnswersMatchCaller(net: Net, states: seq<Books>, events: seq<Event>, q: SeqId)
    requires IsRun(net, states, events) && events != []
    requires Names(events[|events| - 1].call, q) && events[|events| - 1].out.Done?
    requires Believed(events, q).Some?
    ensures match events[|events| - 1].call
            case Prefill(_, tokens, _, want) =>
              want && tokens != [] ==>
                && Believed(events, q).value != []
                && events[|events| - 1].out.value == [Logits(net, Believed(events, q).value)]
            case Decode(batch) =>
              |events[|events| - 1].out.value| == |batch| &&
              Believed(events, q).value != [] &&
              forall i :: 0 <= i < |batch| && batch[i].0 == q ==>
                events[|events| - 1].out.value[i] == Logits(net, Believed(events, q).value)
            case Drop(_) => true
  {
    var n := |events| - 1;
    var e := events[n];
    assert Serves(net, states[n], e.call, e.out, states[n + 1]);
    BeliefIsRecorded(net, states, events, q);
    if e.call.Decode? {
      var batch := e.call.batch;
      var k :| 0 <= k < |batch| && batch[k].0 == q;
      assert DecodeAnswered(net, states[n], batch[k].0, batch[k].1, e.out.value[k], states[n + 1]);
    }
  }
}
