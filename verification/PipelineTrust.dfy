/**
When the pipeline's answers can be relied on, and its refinement of the
contract every runtime shares.
*/
module PipelineTrust {
  import opened Wrappers
  import opened Transformer
  import opened BatchContract
  import opened BatchedSpec
  import opened PipelineReference
  import opened PipelineWire
  import opened Pipeline
  import opened PipelinedRuntime

  ghost predicate Chunks(log: Log) {
    forall c :: c in log ==> c != []
  }

  /** The last restart succeeded: a worker can only lag behind. */
  ghost predicate Settled(v: View, s: SeqId) {
    && s in v.logs && v.logs[s] != [] && Chunks(v.logs[s])
    && forall h :: h in v.HeldFor(s) ==> h.Pure? && h.log <= v.logs[s]
  }

  lemma {:induction false} LaggingIsShorter(g: Log, log: Log)
    requires g <= log && Chunks(log)
    ensures |Concat(g)| <= |Concat(log)| && (|Concat(g)| == |Concat(log)| ==> g == log)
    decreases |log|
  {
    if log != [] && g != log {
      assert log[|log| - 1] in log;
      assert g <= Front(log) && forall c :: c in Front(log) ==> c in log;
      LaggingIsShorter(g, Front(log));
    }
  }

  lemma {:induction false} SettledIsTrusted(v: View, s: SeqId)
    requires Settled(v, s)
    ensures v.Trusted(s)
  {
    forall h | h in v.HeldFor(s) && h.Len() == |Concat(v.logs[s])|
      ensures h.Pure? && h.log == v.logs[s]
    {
      LaggingIsShorter(h.log, v.logs[s]);
    }
  }

  /**
  The caller's rule. A chunk that succeeds on a trusted sequence (in
  particular any successful restart) settles it; once settled it stays
  settled, and so trusted, through every later success and failure.
  */
  lemma {:induction false} SettledFromSuccessOn(v: View, s: SeqId, c: seq<Token>, done: bool)
    requires s in v.logs && c != [] && Chunks(v.logs[s])
    ensures v.Trusted(s) && done ==> Settled(Sent(v, s, c, done), s)
    ensures Settled(v, s) ==> Settled(Sent(v, s, c, done), s) && Sent(v, s, c, done).Trusted(s)
  {
    var v' := Sent(v, s, c, done);
    if Settled(v, s) {
      SettledIsTrusted(v, s);
      assert Settled(v', s);
    }
    if Settled(v', s) {
      SettledIsTrusted(v', s);
    }
  }

  // ---------------------------------------------------------------------
  // Refinement of the shared contract
  // ---------------------------------------------------------------------

  /** A trusted sequence's history is on the books; an untrusted one is tainted. */
  ghost function BooksOf(v: View): Books {
    Books(map s | s in v.logs && v.Trusted(s) :: Concat(v.logs[s]), set s | s in v.logs && !v.Trusted(s))
  }

  lemma {:induction false} BooksAt(v: View, s: SeqId)
    ensures s in BooksOf(v).H <==> s in v.logs && v.Trusted(s)
    ensures s in BooksOf(v).H ==> BooksOf(v).H[s] == Concat(v.logs[s])
    ensures s in BooksOf(v).tainted <==> s in v.logs && !v.Trusted(s)
    ensures BooksOf(v).H.Keys !! BooksOf(v).tainted
  {
  }

  ghost predicate ViewChanges(v: View, s: SeqId, v': View) {
    && v'.perRow == v.perRow
    && forall q :: q != s ==>
         && (q in v'.logs <==> q in v.logs) && (q in v.logs ==> v'.logs[q] == v.logs[q])
         && v'.HeldFor(q) == v.HeldFor(q)
  }

  ghost predicate OnlyChanges(b: Books, s: SeqId, b': Books) {
    forall q :: q != s ==>
      && (q in b'.H <==> q in b.H) && (q in b.H ==> b'.H[q] == b.H[q])
      && (q in b'.tainted <==> q in b.tainted)
  }

  lemma {:induction false} OthersOnTheBooks(v: View, s: SeqId, v': View)
    requires ViewChanges(v, s, v')
    ensures OnlyChanges(BooksOf(v), s, BooksOf(v'))
  {
    hide Safe;
  }

  lemma {:induction false} SentChanges(v: View, s: SeqId, c: seq<Token>, done: bool)
    requires s in v.logs
    ensures ViewChanges(v, s, Sent(v, s, c, done)) && s in Sent(v, s, c, done).logs
  {
    hide Taken, AfterError;
  }

  /** Whether the sequence is trusted after a chunk was sent. */
  lemma {:induction false} SentTrust(v: View, s: SeqId, c: seq<Token>, done: bool)
    requires s in v.logs && Chunks(v.logs[s])
    ensures var v' := Sent(v, s, c, done);
            && Concat(v'.logs[s]) == Concat(v.logs[s]) + c
            && (done ==> (v'.Trusted(s) <==> v.Trusted(s)))
            && (!v.Trusted(s) ==> !v'.Trusted(s))
  {
    hide Safe, Taken, AfterError;
    var v', log, held := Sent(v, s, c, done), v.logs[s], v.HeldFor(s);
    if c != [] {
      FrontOfAppend(log, c);
    } else {
      assert Concat(log) + c == Concat(log);
    }
    if done {
      TakenTrust(v.perRow, held, log, c);
    } else if !v.Trusted(s) {
      AfterErrorTrust(v.perRow, held, log, c);
    }
  }

  lemma {:induction false} TakenTrust(p: bool, held: set<Held>, log: Log, c: seq<Token>)
    requires Concat(Extend(log, c)) == Concat(log) + c && Chunks(log)
    ensures Safe(p, Extend(log, c), {Taken(p, held, log, c)}) <==> Safe(p, log, held)
  {
  }

  lemma {:induction false} AfterErrorTrust(p: bool, held: set<Held>, log: Log, c: seq<Token>)
    requires Concat(Extend(log, c)) == Concat(log) + c && !Safe(p, log, held)
    ensures !Safe(p, Extend(log, c), AfterError(p, held, log, c))
  {
    var h :| h in held && h.Len() == |Concat(log)| && !(h.Pure? && Alike(p, h.log, log));
    assert Accepts(log, held);
    assert Impure(|Concat(log)| + |c|) in AfterError(p, held, log, c);
  }

  /** A chunk sent on: what the books say and what was answered. */
  lemma {:induction false} ChunkServes(F: Fleet, send: RowHop, back: seq<RowHop>, v: View, s: SeqId, c: seq<Token>,
                                       want: bool, out: Outcome, done: bool)
    requires Assembled(F) && Rowwise(F, send, back) && s in v.logs && Chunks(v.logs[s]) && (out.Done? ==> done)
    requires out.Done? && v.Trusted(s) && c != [] ==> out.value == if want then [PipeLogits(F, v.logs[s] + [c])] else []
    ensures var w := WireNet(F.net, F.ranges, send, back);
            var b, b' := BooksOf(v), BooksOf(Sent(v, s, c, done));
            && OnlyChanges(b, s, b')
            && (done ==> (s in b'.tainted <==> s in b.tainted))
            && (s in b.tainted ==> s in b'.tainted)
            && (s in b'.H ==> b'.H[s] == Concat(v.logs[s]) + c)
            && (s in b'.H || s in b'.tainted)
            && (out.Done? && s !in b.tainted && c != [] ==>
                s in b'.H && out.value == if want then [Logits(w, b'.H[s])] else [])
  {
    hide PipeLogits, WireNet, Logits, Assembled, Rowwise, Safe, Sent, BooksOf;
    Widths(F, send, back);
    SentChanges(v, s, c, done);
    SentTrust(v, s, c, done);
    OthersOnTheBooks(v, s, Sent(v, s, c, done));
    BooksAt(v, s);
    BooksAt(Sent(v, s, c, done), s);
    if c != [] {
      FrontOfAppend(v.logs[s], c);
      PipelineIsWireNet(F, send, back, v.logs[s] + [c]);
    }
  }

  lemma {:induction false} PrefillRefused(w: Net, v: View, s: SeqId, tokens: seq<Token>, start: nat, want: bool)
    ensures Serves(w, BooksOf(v), Call.Prefill(s, tokens, start, want), Failed, BooksOf(RestartedView(v, s, start)))
  {
    hide BooksOf;
    var v0 := RestartedView(v, s, start);
    BooksAt(v, s);
    BooksAt(v0, s);
    OthersOnTheBooks(v, s, v0);
  }

  lemma {:induction false} PrefillSent(F: Fleet, send: RowHop, back: seq<RowHop>, v: View, s: SeqId, tokens: seq<Token>,
                                       start: nat, want: bool, out: Outcome, done: bool)
    requires Assembled(F) && Rowwise(F, send, back) && (out.Done? ==> done)
    requires start == 0 || (s in v.logs && Chunks(v.logs[s]) && |Concat(v.logs[s])| == start)
    requires var v0 := RestartedView(v, s, start);
             out.Done? && v0.Trusted(s) && tokens != [] ==>
               out.value == if want then [PipeLogits(F, v0.logs[s] + [tokens])] else []
    ensures Serves(WireNet(F.net, F.ranges, send, back), BooksOf(v), Call.Prefill(s, tokens, start, want), out,
                   BooksOf(Sent(RestartedView(v, s, start), s, tokens, done)))
  {
    hide PipeLogits, WireNet, Logits, Assembled, Rowwise, Sent, BooksOf, Safe;
    var v0 := RestartedView(v, s, start);
    BooksAt(v, s);
    BooksAt(v0, s);
    BooksAt(Sent(v0, s, tokens, done), s);
    OthersOnTheBooks(v, s, v0);
    Widths(F, send, back);
    ChunkServes(F, send, back, v0, s, tokens, want, out, done);
    assert start == 0 ==> v0.Trusted(s) by { StartIsSafe(v0.perRow, v0.HeldFor(s)); }
    assert start == 0 ==> Concat(v0.logs[s]) + tokens == tokens;
  }

  /**
  `PipelinedModel` serves the same contract as the local runtimes, for the
  wire model: what its methods promise implies `Serves`.
  */
  lemma {:induction false} PrefillServes(F: Fleet, send: RowHop, back: seq<RowHop>, v: View, s: SeqId,
                                         tokens: seq<Token>, start: nat, want: bool, out: Outcome, v': View)
    requires Assembled(F) && Rowwise(F, send, back)
    requires forall q :: q in v.logs ==> Chunks(v.logs[q])
    requires PrefillOutcome(F, v, s, tokens, start, want, out, v')
    ensures Serves(WireNet(F.net, F.ranges, send, back), BooksOf(v), Call.Prefill(s, tokens, start, want), out,
                   BooksOf(v'))
  {
    hide PipeLogits, WireNet, Logits, Assembled, Rowwise, Sent, BooksOf, Serves, Safe;
    Widths(F, send, back);
    var v0 := RestartedView(v, s, start);
    if s in v0.logs && |Concat(v0.logs[s])| == start && start + |tokens| <= F.net.context {
      PrefillSent(F, send, back, v, s, tokens, start, want, out, out.Done?);
      if out.Failed? {
        PrefillSent(F, send, back, v, s, tokens, start, want, out, true);
      }
    } else {
      PrefillRefused(WireNet(F.net, F.ranges, send, back), v, s, tokens, start, want);
      assert v' == v0;
    }
  }

  lemma {:induction false} DecodeServes(F: Fleet, send: RowHop, back: seq<RowHop>, v: View, batch: seq<(SeqId, Token)>,
                                        out: Outcome, v': View)
    requires Assembled(F) && Rowwise(F, send, back)
    requires forall q :: q in v.logs ==> Chunks(v.logs[q])
    requires DecodeOutcome(F, v, batch, out, v')
    ensures Serves(WireNet(F.net, F.ranges, send, back), BooksOf(v), Call.Decode(batch), out, BooksOf(v'))
  {
    hide PipeLogits, WireNet, Logits, Assembled, Rowwise, Safe, Sent, BooksOf;
    Widths(F, send, back);
    if batch != [] {
      var (s, t) := batch[0];
      BooksAt(v, s);
      BooksAt(v', s);
      if |batch| == 1 {
        assert forall q :: Names(Call.Decode(batch), q) <==> q == s;
        if s in v.logs && |Concat(v.logs[s])| < F.net.context {
          ChunkServes(F, send, back, v, s, [t], true, out, out.Done?);
        }
      }
    } else {
      BooksAt(v, 0);
    }
  }

  lemma {:induction false} DropServes(w: Net, v: View, s: SeqId)
    ensures Serves(w, BooksOf(v), Call.Drop(s), Done([]), BooksOf(v.(logs := v.logs - {s})))
  {
    hide BooksOf;
    var v' := v.(logs := v.logs - {s});
    assert ViewChanges(v, s, v');
    OthersOnTheBooks(v, s, v');
    BooksAt(v, s);
    BooksAt(v', s);
  }

  // ---------------------------------------------------------------------
  // Whole runs
  // ---------------------------------------------------------------------

  /** What goes wrong during one call: the faults of its exchanges, and which
      workers a reset reaches. */
  datatype Weather = Weather(faults: seq<Fault>, reached: seq<bool>)

  type Record = map<SeqId, seq<Token>>

  /**
  The tokens the coordinator records after a call. A restart empties the
  record, even one that is then refused. A chunk at the recorded length that
  fits the context extends it, whether or not the workers take it. Any other
  chunk is refused locally, and a drop forgets the sequence.
  */
  function NextRecord(context: nat, rec: Record, call: Call): Record {
    match call
    case Prefill(s, tokens, start, _) =>
      if start > 0 && s !in rec then rec
      else
        var rec0 := if start == 0 then rec[s := []] else rec;
        if |rec0[s]| != start || start + |tokens| > context then rec0 else rec0[s := rec0[s] + tokens]
    case Decode(batch) =>
      if |batch| != 1 || batch[0].0 !in rec || |rec[batch[0].0]| >= context then rec
      else rec[batch[0].0 := rec[batch[0].0] + [batch[0].1]]
    case Drop(s) => rec - {s}
  }

  /** The record after a run of calls, whatever their outcomes. */
  function Recorded(context: nat, calls: seq<Call>): Record {
    if calls == [] then map[]
    else NextRecord(context, Recorded(context, calls[..|calls| - 1]), calls[|calls| - 1])
  }

  /** The call sends tokens on rather than refusing them locally. */
  predicate SendsOn(context: nat, rec: Record, call: Call) {
    match call
    case Prefill(s, tokens, start, _) =>
      tokens != [] && start + |tokens| <= context && (start == 0 || (s in rec && |rec[s]| == start))
    case Decode(batch) => |batch| == 1 && batch[0].0 in rec && |rec[batch[0].0]| < context
    case Drop(_) => false
  }

  /** The record allows the call: it continues where the record stands, or
      restarts, it fits, and it asks no logits of an empty chunk. */
  predicate Servable(context: nat, rec: Record, call: Call) {
    match call
    case Prefill(s, tokens, start, want) =>
      && (start == 0 || (s in rec && |rec[s]| == start))
      && start + |tokens| <= context && !(want && tokens == [])
    case Decode(batch) => batch == [] || SendsOn(context, rec, call)
    case Drop(_) => true
  }

  predicate SentAt(context: nat, calls: seq<Call>, i: nat)
    requires i < |calls|
  {
    SendsOn(context, Recorded(context, calls[..i]), calls[i])
  }

  /** The tokens of the coordinator's logs. */
  ghost function TokensOf(logs: map<SeqId, Log>): Record {
    map s | s in logs :: Concat(logs[s])
  }

  /** A success answers exactly the tokens on record. */
  ghost predicate RightOn(w: Net, rec: Record, e: Event) {
    e.out.Done? ==>
      match e.call
      case Prefill(s, tokens, _, want) =>
        tokens != [] ==> s in rec && rec[s] != [] && e.out.value == if want then [Logits(w, rec[s])] else []
      case Decode(batch) =>
        batch != [] ==>
          && |batch| == 1 && batch[0].0 in rec && rec[batch[0].0] != []
          && e.out.value == [Logits(w, rec[batch[0].0])]
      case Drop(_) => true
  }

  /** No codec fails during the run. */
  predicate ClearSky(sky: seq<Weather>) {
    forall i :: 0 <= i < |sky| ==> Clean(sky[i].faults)
  }

  /** Nothing at all goes wrong during the run. */
  predicate FairSky(sky: seq<Weather>) {
    forall i :: 0 <= i < |sky| ==> Healthy(sky[i].faults)
  }

  /** Exactly the calls the record allows succeed. */
  ghost predicate FairRun(context: nat, calls: seq<Call>, events: seq<Event>)
    requires |calls| == |events|
  {
    forall i :: 0 <= i < |events| ==>
      (events[i].out.Done? <==> Servable(context, Recorded(context, calls[..i]), calls[i]))
  }

  lemma {:induction false} FairRunGrows(context: nat, calls: seq<Call>, events: seq<Event>, e: Event)
    requires |calls| == |events| && FairRun(context, calls, events)
    requires e.out.Done? <==> Servable(context, Recorded(context, calls), e.call)
    ensures FairRun(context, calls + [e.call], events + [e])
  {
    hide Recorded, Servable;
    var n, calls' := |calls|, calls + [e.call];
    assert calls'[..n] == calls;
    forall i | 0 <= i < n
      ensures Recorded(context, calls'[..i]) == Recorded(context, calls[..i])
    {
      assert calls'[..i] == calls[..i];
    }
  }

  lemma {:induction false} FairIsClear(sky: seq<Weather>)
    requires FairSky(sky)
    ensures ClearSky(sky)
  {
  }

  lemma {:induction false} SkyAt(sky: seq<Weather>, i: nat)
    requires i < |sky|
    ensures ClearSky(sky) ==> Clean(sky[i].faults)
    ensures FairSky(sky) ==> Healthy(sky[i].faults)
  {
  }

  lemma {:induction false} RecordedMore(context: nat, calls: seq<Call>, call: Call)
    ensures Recorded(context, calls + [call]) == NextRecord(context, Recorded(context, calls), call)
  {
    assert (calls + [call])[..|calls|] == calls;
  }

  /** Call `i` sent tokens and failed. */
  predicate InVain(context: nat, calls: seq<Call>, events: seq<Event>, i: nat)
    requires i < |calls| == |events|
  {
    SentAt(context, calls, i) && events[i].out.Failed?
  }

  /** Every success answers the tokens on record, and none of them was sent in
      vain: after tokens sent in vain nothing is sent with success. */
  ghost predicate ClearRun(w: Net, context: nat, calls: seq<Call>, events: seq<Event>)
    requires |calls| == |events|
  {
    && (forall i :: 0 <= i < |events| ==> RightOn(w, Recorded(context, calls[..i + 1]), events[i]))
    && (forall i, j :: 0 <= i < j < |events| && InVain(context, calls, events, i) && SentAt(context, calls, j) ==>
          events[j].out.Failed?)
  }

  ghost predicate AnyInVain(context: nat, calls: seq<Call>, events: seq<Event>)
    requires |calls| == |events|
  {
    exists i :: 0 <= i < |calls| && InVain(context, calls, events, i)
  }

  lemma {:induction false} ClearRunGrows(w: Net, context: nat, calls: seq<Call>, events: seq<Event>, e: Event)
    requires |calls| == |events| && ClearRun(w, context, calls, events)
    requires RightOn(w, Recorded(context, calls + [e.call]), e)
    requires AnyInVain(context, calls, events) && SendsOn(context, Recorded(context, calls), e.call) ==> e.out.Failed?
    ensures ClearRun(w, context, calls + [e.call], events + [e])
    ensures AnyInVain(context, calls + [e.call], events + [e]) ==>
              AnyInVain(context, calls, events) || (SendsOn(context, Recorded(context, calls), e.call) && e.out.Failed?)
  {
    hide RightOn, Recorded, SendsOn;
    var n, calls', events' := |calls|, calls + [e.call], events + [e];
    assert calls'[..n + 1] == calls' && calls'[..n] == calls;
    forall i | 0 <= i < n
      ensures InVain(context, calls', events', i) <==> InVain(context, calls, events, i)
      ensures SentAt(context, calls', i) <==> SentAt(context, calls, i)
    {
      assert calls'[..i] == calls[..i];
    }
    forall i | 0 <= i <= n
      ensures RightOn(w, Recorded(context, calls'[..i + 1]), events'[i])
    {
      if i < n {
        assert calls'[..i + 1] == calls[..i + 1];
      }
    }
  }

  /**
  The runtime, given calls and weather, is a run of the shared contract. As
  long as no codec fails every success answers exactly the tokens that the
  calls so far put on record, whatever requests, replies and workers are lost;
  and once tokens were sent in vain none are ever sent with success again, so
  that record holds the tokens of successful calls only. When nothing goes
  wrong at all, exactly the calls the record allows succeed.
  */
  method Play(F: Fleet, send: RowHop, back: seq<RowHop>, workers: seq<Caches>, calls: seq<Call>, sky: seq<Weather>)
    returns (events: seq<Event>, ghost states: seq<Books>)
    requires Assembled(F) && Rowwise(F, send, back)
    requires |workers| == |F.ranges| == |back| && |sky| == |calls|
    requires forall i :: 0 <= i < |sky| ==> |sky[i].faults| == |sky[i].reached| == |F.ranges|
    requires forall k, s :: 0 < k < |workers| && s in workers[k] ==> |workers[k][s].entries| == SliceLen(F.ranges[k])
    ensures IsRun(WireNet(F.net, F.ranges, send, back), states, events)
    ensures |events| == |calls| && forall i :: 0 <= i < |calls| ==> events[i].call == calls[i]
    ensures ClearSky(sky) ==> ClearRun(WireNet(F.net, F.ranges, send, back), F.net.context, calls, events)
    ensures FairSky(sky) ==> ClearSky(sky) && FairRun(F.net.context, calls, events)
  {
    hide WireNet, Assembled, Rowwise, Sync, InStep, Serves, BooksOf, Clean, RightOn, TokensOf, NextRecord, SendsOn;
    hide AllOpen, ClearRun, AnyInVain, Healthy, FairRun, Servable, ClearSky, FairSky, Recorded;
    if FairSky(sky) {
      FairIsClear(sky);
    }
    ghost var w, context := WireNet(F.net, F.ranges, send, back), F.net.context;
    var rt := new PipelinedModel(F, workers, false);
    events, states := [], [BooksOf(rt.view)];
    NothingYet(w, context, rt.view);
    for i := 0 to |calls|
      invariant rt.Valid() && rt.F == F && fresh(rt)
      invariant |events| == i && |states| == i + 1 && states[i] == BooksOf(rt.view) && states[0] == Books(map[], {})
      invariant forall j :: 0 <= j < i ==> Serves(w, states[j], events[j].call, events[j].out, states[j + 1])
      invariant forall j :: 0 <= j < i ==> events[j].call == calls[j]
      invariant TokensOf(rt.view.logs) == Recorded(context, calls[..i])
      invariant ClearSky(sky) ==> rt.clean && ClearRun(w, context, calls[..i], events)
      invariant ClearSky(sky) && AnyInVain(context, calls[..i], events) ==> !AllOpen(rt.links)
      invariant FairSky(sky) ==> AllOpen(rt.links) && FairRun(context, calls[..i], events)
    {
      assert calls[..i] + [calls[i]] == calls[..i + 1];
      RecordedMore(context, calls[..i], calls[i]);
      SkyAt(sky, i);
      var out := PlayOne(rt, send, back, calls[i], sky[i]);
      if ClearSky(sky) {
        ClearRunGrows(w, context, calls[..i], events, Event(calls[i], out));
      }
      if FairSky(sky) {
        FairRunGrows(context, calls[..i], events, Event(calls[i], out));
      }
      events, states := events + [Event(calls[i], out)], states + [BooksOf(rt.view)];
    }
    assert calls[..|calls|] == calls;
  }

  /** One call of a run. */
  method PlayOne(rt: PipelinedModel, send: RowHop, back: seq<RowHop>, call: Call, sky: Weather) returns (out: Outcome)
    requires rt.Valid() && Assembled(rt.F) && Rowwise(rt.F, send, back)
    requires |back| == |rt.F.ranges| == |sky.faults| == |sky.reached|
    modifies rt
    ensures rt.Valid()
    ensures old(rt.clean) && Clean(sky.faults) ==> rt.clean
    ensures TokensOf(rt.view.logs) == NextRecord(rt.F.net.context, TokensOf(old(rt.view).logs), call)
    ensures var sent := SendsOn(rt.F.net.context, TokensOf(old(rt.view).logs), call);
            rt.clean ==> Severs(old(rt.links), rt.links, sent, sent && out.Done?)
    ensures rt.clean && Healthy(sky.faults) && AllOpen(old(rt.links)) ==>
      && AllOpen(rt.links)
      && (out.Done? <==> Servable(rt.F.net.context, TokensOf(old(rt.view).logs), call))
    ensures var w := WireNet(rt.F.net, rt.F.ranges, send, back);
            && Serves(w, BooksOf(old(rt.view)), call, out, BooksOf(rt.view))
            && (rt.clean ==> RightOn(w, TokensOf(rt.view.logs), Event(call, out)))
  {
    hide WireNet, Assembled, Rowwise, Sync, InStep, PrefillOutcome, DecodeOutcome, Serves, BooksOf, Clean, RightOn;
    hide PipeLogits, TokensOf, NextRecord, Sends, SendsOn, AllOpen, Healthy, Takes, Servable;
    var F := rt.F;
    ghost var v := rt.view;
    AllChunks(F, rt.kvs, rt.workers, v);
    match call {
      case Prefill(s, tokens, start, want) =>
        out := rt.Prefill(s, tokens, start, want, sky.faults);
        PrefillServes(F, send, back, v, s, tokens, start, want, out, rt.view);
        PrefillRecords(F, v, s, tokens, start, want, out, rt.view);
        PrefillSends(F.net.context, v, s, tokens, start, want);
      case Decode(batch) =>
        out := rt.Decode(batch, sky.faults);
        DecodeServes(F, send, back, v, batch, out, rt.view);
        DecodeRecords(F, v, batch, out, rt.view);
        DecodeSends(F.net.context, v, batch);
        OneAtATime(F, v, batch, out, rt.view);
      case Drop(s) =>
        rt.DropSeq(s, sky.reached);
        out := Done([]);
        DropServes(WireNet(F.net, F.ranges, send, back), v, s);
        assert v.(logs := v.logs - {s}) == rt.view;
        DropRecords(F.net.context, v.logs, s);
        NothingSent(F.net.context, TokensOf(v.logs), s);
    }
    if rt.clean {
      CleanIsRight(F, send, back, rt.view.logs, Event(call, out));
    }
  }

  lemma {:induction false} ExtendRecords(logs: map<SeqId, Log>, s: SeqId, c: seq<Token>)
    requires s in logs
    ensures TokensOf(logs[s := Extend(logs[s], c)]) == TokensOf(logs)[s := TokensOf(logs)[s] + c]
  {
    if c != [] {
      FrontOfAppend(logs[s], c);
    } else {
      assert Concat(logs[s]) + c == Concat(logs[s]);
    }
  }

  lemma {:induction false} TokensAt(logs: map<SeqId, Log>, s: SeqId)
    ensures s in TokensOf(logs) <==> s in logs
    ensures s in logs ==> TokensOf(logs)[s] == Concat(logs[s])
  {
  }

  lemma {:induction false} RestartRecords(logs: map<SeqId, Log>, s: SeqId)
    ensures TokensOf(logs[s := []]) == TokensOf(logs)[s := []]
  {
  }

  /** The logs after a prefill. */
  lemma {:induction false} PrefillLogs(F: Fleet, v: View, s: SeqId, tokens: seq<Token>, start: nat, want: bool,
                                       out: Outcome, v': View)
    requires Assembled(F) && PrefillOutcome(F, v, s, tokens, start, want, out, v')
    ensures var logs := RestartedView(v, s, start).logs;
            v'.logs ==
            if s !in logs || |Concat(logs[s])| != start || start + |tokens| > F.net.context then logs
            else logs[s := Extend(logs[s], tokens)]
  {
    hide PipeLogits, Assembled, Taken, AfterError, Safe, Concat, Extend;
  }

  lemma {:induction false} PrefillRecords(F: Fleet, v: View, s: SeqId, tokens: seq<Token>, start: nat, want: bool,
                                          out: Outcome, v': View)
    requires Assembled(F) && PrefillOutcome(F, v, s, tokens, start, want, out, v')
    ensures TokensOf(v'.logs) == NextRecord(F.net.context, TokensOf(v.logs), Call.Prefill(s, tokens, start, want))
  {
    hide TokensOf, PrefillOutcome, Extend, Concat, Assembled;
    var v0 := RestartedView(v, s, start);
    RestartRecords(v.logs, s);
    TokensAt(v.logs, s);
    if s in v0.logs {
      TokensAt(v0.logs, s);
      ExtendRecords(v0.logs, s, tokens);
    }
    PrefillLogs(F, v, s, tokens, start, want, out, v');
  }

  lemma {:induction false} PrefillSends(context: nat, v: View, s: SeqId, tokens: seq<Token>, start: nat, want: bool)
    ensures Sends(context, v, s, tokens, start)
       <==> SendsOn(context, TokensOf(v.logs), Call.Prefill(s, tokens, start, want))
    ensures Takes(context, v, s, tokens, start, want)
       <==> Servable(context, TokensOf(v.logs), Call.Prefill(s, tokens, start, want))
  {
  }

  lemma {:induction false} DecodeSends(context: nat, v: View, batch: seq<(SeqId, Token)>)
    ensures SendsOn(context, TokensOf(v.logs), Call.Decode(batch))
       <==> |batch| == 1 && batch[0].0 in v.logs && |Concat(v.logs[batch[0].0])| < context
    ensures Servable(context, TokensOf(v.logs), Call.Decode(batch))
       <==> batch == [] || SendsOn(context, TokensOf(v.logs), Call.Decode(batch))
  {
  }

  lemma {:induction false} NothingSent(context: nat, rec: Record, s: SeqId)
    ensures !SendsOn(context, rec, Call.Drop(s)) && Servable(context, rec, Call.Drop(s))
  {
  }

  lemma {:induction false} DecodeRecords(F: Fleet, v: View, batch: seq<(SeqId, Token)>, out: Outcome, v': View)
    requires Assembled(F) && DecodeOutcome(F, v, batch, out, v')
    ensures TokensOf(v'.logs) == NextRecord(F.net.context, TokensOf(v.logs), Call.Decode(batch))
  {
    hide PipeLogits, Assembled, Taken, AfterError, Safe;
    if |batch| == 1 && batch[0].0 in v.logs {
      ExtendRecords(v.logs, batch[0].0, [batch[0].1]);
    }
  }

  lemma {:induction false} DropRecords(context: nat, logs: map<SeqId, Log>, s: SeqId)
    ensures TokensOf(logs - {s}) == NextRecord(context, TokensOf(logs), Call.Drop(s))
  {
  }

  lemma {:induction false} NothingYet(w: Net, context: nat, v: View)
    requires v.logs == map[]
    ensures BooksOf(v) == Books(map[], {}) && TokensOf(v.logs) == Recorded(context, [])
    ensures ClearRun(w, context, [], []) && !AnyInVain(context, [], []) && FairRun(context, [], [])
  {
  }

  lemma {:induction false} AllChunks(F: Fleet, kvs: Caches, workers: seq<Caches>, v: View)
    requires Sync(F, kvs, workers, v)
    ensures forall q :: q in v.logs ==> Chunks(v.logs[q])
  {
    hide Holds, StageCache, PerRow;
  }

  lemma {:induction false} OneAtATime(F: Fleet, v: View, batch: seq<(SeqId, Token)>, out: Outcome, v': View)
    requires Assembled(F) && DecodeOutcome(F, v, batch, out, v')
    ensures out.Done? ==> |batch| <= 1
  {
  }

  /** Answers on the recorded log are answers on the recorded tokens. */
  lemma {:induction false} CleanIsRight(F: Fleet, send: RowHop, back: seq<RowHop>, logs: map<SeqId, Log>, e: Event)
    requires Assembled(F) && Rowwise(F, send, back) && |back| == |F.ranges|
    requires e.out.Done? && e.call.Prefill? && e.call.tokens != [] ==>
      var s := e.call.s;
      && s in logs && logs[s] != [] && logs[s][|logs[s]| - 1] == e.call.tokens
      && e.out.value == if e.call.wantLogits then [PipeLogits(F, logs[s])] else []
    requires e.out.Done? && e.call.Decode? && e.call.batch != [] ==>
      var s := e.call.batch[0].0;
      && |e.call.batch| == 1 && s in logs && logs[s] != [] && logs[s][|logs[s]| - 1] == [e.call.batch[0].1]
      && e.out.value == [PipeLogits(F, logs[s])]
    ensures RightOn(WireNet(F.net, F.ranges, send, back), TokensOf(logs), e)
  {
    hide PipeLogits, WireNet, Logits, Assembled, Rowwise;
    if e.out.Done? {
      match e.call
      case Prefill(s, tokens, _, _) =>
        if tokens != [] {
          PipelineIsWireNet(F, send, back, logs[s]);
        }
      case Decode(batch) =>
        if batch != [] {
          PipelineIsWireNet(F, send, back, logs[batch[0].0]);
        }
      case Drop(_) =>
    }
  }
}
