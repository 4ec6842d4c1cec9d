/**
The coordinator and worker code (rust/services/cgn-infer/src/pipeline/mod.rs).
Worker states are other machines' memory: they change only through the
messages the coordinator's methods exchange.
*/
module PipelinedRuntime {
  import opened Wrappers
  import opened Transformer
  import opened LayerSplit
  import opened BatchContract
  import opened BatchedSpec
  import opened PipelineReference
  import opened PipelineWire
  import opened Pipeline

  /** A worker's step: find or create the cache, reset it at position 0, refuse
      a position that is not the cache's length, then run the slice. */
  method StepWorker(net: Net, r: LayerRange, kvs: Caches, s: SeqId, pos: nat, rows: seq<Row>)
    returns (res: Result<seq<Row>>, kvs': Caches)
    requires r.start < r.end
    ensures (res, kvs') == WorkerStep(net, r, kvs, s, pos, rows)
  {
    hide Forward;
    var kv := if s in kvs then kvs[s] else NewKv(SliceLen(r));
    if pos == 0 {
      kv := kv.Clear();
    }
    if kv.tokens != pos {
      return Failed, kvs[s := kv];
    }
    res, kv := ForwardHidden(net, r.start, r.end, rows, pos, kv);
    kvs' := kvs[s := kv];
  }

  /** `forward_remote`: carry the rows through every worker in order. The
      position travels as a 32-bit number. */
  method ForwardRemote(F: Fleet, workers: seq<Caches>, links: seq<bool>, s: SeqId, pos: nat, hidden: seq<Row>,
                       faults: seq<Fault>)
    returns (pass: Pass)
    requires Assembled(F) && |workers| == |links| == |faults| == |F.ranges| && pos <= F.net.context
    ensures pass == Remote(F, 1, workers, links, s, pos, hidden, faults)
  {
    hide WorkerStep;
    var current, ws, open := hidden, workers, links;
    for k := 1 to |F.ranges|
      invariant |ws| == |workers| && |open| == |links|
      invariant Remote(F, k, ws, open, s, pos, current, faults) == Remote(F, 1, workers, links, s, pos, hidden, faults)
    {
      var index := pos % 0x1_0000_0000;
      var f := Through(open[k], faults[k]);
      if f.NotEncoded? {
        return Pass(Failed, ws, open);
      }
      if f.Closes() {
        open := open[k := false];
      }
      if f.NotReceived? {
        return Pass(Failed, ws, open);
      }
      if f.Wiped? {
        return Pass(Failed, ws[k := map[]], open);
      }
      var reply, kvs := StepWorker(F.net, F.ranges[k], ws[k], s, index, F.send(current));
      ws := ws[k := kvs];
      if f.ReplyLost? || f.NotDecoded? || reply.Failed? {
        return Pass(Failed, ws, open);
      }
      current := F.back[k](reply.value);
    }
    pass := Pass(Done(current), ws, open);
  }

  /** The part `prefill` and `decode` share: local slice, remote pass, head. */
  method PushChunk(F: Fleet, kvs: Caches, workers: seq<Caches>, links: seq<bool>, s: SeqId, tokens: seq<Token>,
                   want: bool, faults: seq<Fault>, ghost v: View)
    returns (out: Outcome, kvs': Caches, ws: seq<Caches>, open: seq<bool>, ghost v': View)
    requires Sync(F, kvs, workers, v) && s in kvs && |faults| == |links| == |F.ranges|
    ensures Sync(F, kvs', ws, v') && |open| == |links|
    ensures |Concat(v.logs[s])| + |tokens| > F.net.context ==> out.Failed? && v' == v && ws == workers && open == links
    ensures |Concat(v.logs[s])| + |tokens| <= F.net.context ==>
      v' == Sent(v, s, tokens, out.Done?) || (want && tokens == [] && out.Failed? && v' == Sent(v, s, tokens, true))
    ensures out.Done? && v.Trusted(s) && tokens != [] ==>
      out.value == if want then [PipeLogits(F, v.logs[s] + [tokens])] else []
    ensures out.Done? && want ==> tokens != [] && |out.value| == 1
    ensures v'.perRow == v.perRow && (out.Done? && tokens != [] ==> v'.logs == v.logs[s := v.logs[s] + [tokens]])
    ensures |Concat(v.logs[s])| + |tokens| <= F.net.context ==>
      var log := v.logs[s];
      var pass := Remote(F, 1, workers, links, s, |Concat(log)|, Given(F, 0, log, tokens), faults);
      && ws == pass.workers && open == pass.links
      && (out.Done? <==> pass.res.Done? && !(want && tokens == []))
      && (out.Done? ==> out.value == LastLogits(F.net, pass.res.value, want))
    ensures InStep(F, workers, links, v.logs) && Clean(faults) ==>
      && InStep(F, ws, open, v'.logs)
      && (AllOpen(links) && Healthy(faults) ==> open == links)
      && (AllOpen(links) && Healthy(faults) && |Concat(v.logs[s])| + |tokens| <= F.net.context ==>
            (out.Done? <==> !(want && tokens == [])))
      && Severs(links, open, |Concat(v.logs[s])| + |tokens| <= F.net.context && tokens != [], out.Done?)
      && (out.Done? && tokens != [] ==> out.value == if want then [PipeLogits(F, v.logs[s] + [tokens])] else [])
  {
    hide Forward, StageCache, Handed, Remote, Sync, InStep, Clean, Safe, Taken, AfterError, AllOpen, Healthy;
    var kv := kvs[s];
    var pos := kv.tokens;
    SyncEntry(F, kvs, workers, v, s);
    ghost var log := v.logs[s];
    if |Concat(log)| + |tokens| <= F.net.context {
      ChunkSound(F, kvs, workers, links, v, s, tokens, faults);
      HeadPass(F, log, tokens);
      if InStep(F, workers, links, v.logs) && Clean(faults) {
        CleanPush(F, kvs, workers, links, v, s, tokens, faults);
      }
    } else {
      ForwardPastContext(F.net, 0, F.ranges[0].end, Embed(F.net, tokens), |Concat(log)|, kv);
    }
    var hidden;
    hidden, kv := ForwardHidden(F.net, 0, F.ranges[0].end, Embed(F.net, tokens), pos, kv);
    kvs', ws, open, v' := kvs[s := kv], workers, links, v;
    if hidden.Failed? {
      assert kvs[s := kvs[s]] == kvs;
      return Failed, kvs', ws, open, v';
    }
    var pass := ForwardRemote(F, workers, links, s, pos, hidden.value, faults);
    ws, open, v' := pass.workers, pass.links, Sent(v, s, tokens, pass.res.Done?);
    if pass.res.Failed? || (want && tokens == []) {
      return Failed, kvs', ws, open, v';
    }
    out := Done(LastLogits(F.net, pass.res.value, want));
  }

  /** The coordinator's own slice of a chunk. */
  lemma {:induction false} HeadPass(F: Fleet, log: Log, c: seq<Token>)
    requires Assembled(F) && ProperLog(F, log) && |Concat(log)| + |c| <= F.net.context
    ensures F.ranges[0].start == 0
    ensures Forward(F.net, 0, F.ranges[0].end, Embed(F.net, c), |Concat(log)|, StageCache(F, 0, log))
         == (Done(Given(F, 0, log, c)), StageCache(F, 0, Extend(log, c)))
  {
    hide Forward, StageCache, Handed;
    if c == [] {
      assert Embed(F.net, c) == [];
      PureTakes(F, 0, log, []);
      ForwardShape(F.net, 0, F.ranges[0].end, [], |Concat(log)|, StageCache(F, 0, log));
    } else {
      FrontOfAppend(log, c);
      StageForward(F, 0, log, c);
    }
  }

  lemma {:induction false} SyncEntry(F: Fleet, kvs: Caches, workers: seq<Caches>, v: View, s: SeqId)
    requires Sync(F, kvs, workers, v) && s in kvs
    ensures s in v.logs && ProperLog(F, v.logs[s]) && |workers| == |F.ranges| && Assembled(F)
    ensures kvs[s] == StageCache(F, 0, v.logs[s]) && kvs[s].tokens == |Concat(v.logs[s])|
    ensures F.ranges[0].start == 0
  {
    hide Holds, PerRow;
  }

  class PipelinedModel {
    const F: Fleet
    var kvs: Caches
    /** Index 0 is the coordinator's own place and stays unused. */
    var workers: seq<Caches>
    /** Which streams are still open; none is ever reopened. */
    var links: seq<bool>
    ghost var view: View
    /** No codec has failed so far. */
    ghost var clean: bool

    ghost predicate Valid()
      reads this
    {
      Sync(F, kvs, workers, view) && |links| == |F.ranges| && (clean ==> InStep(F, workers, links, view.logs))
    }

    /** `connect`: the workers may still hold caches of an earlier coordinator. */
    constructor (F: Fleet, workers: seq<Caches>, ghost perRow: bool)
      requires Assembled(F) && |workers| == |F.ranges| && (perRow ==> PerRow(F))
      requires forall k, s :: 0 < k < |workers| && s in workers[k] ==> |workers[k][s].entries| == SliceLen(F.ranges[k])
      ensures Valid() && this.F == F && view.logs == map[] && view.perRow == perRow && clean
      ensures AllOpen(links)
    {
      this.F, this.workers, kvs := F, workers, map[];
      links := seq(|workers|, _ => true);
      view, clean := Unknown(perRow, workers), true;
      new;
      Connected(F, workers, perRow);
    }

    /**
    Every outcome, for every pattern of faults. A success on a trusted
    sequence is the reference answer to exactly the log the coordinator
    records, and so is every success as long as no codec has failed.
    */
    method Prefill(s: SeqId, tokens: seq<Token>, start: nat, wantLogits: bool, faults: seq<Fault>)
      returns (out: Outcome)
      requires Valid() && |faults| == |F.ranges|
      modifies this
      ensures Valid() && clean == (old(clean) && Clean(faults)) && view.perRow == old(view).perRow
      ensures PrefillOutcome(F, old(view), s, tokens, start, wantLogits, out, view)
      ensures clean ==> Severs(old(links), links, Sends(F.net.context, old(view), s, tokens, start), out.Done?)
      ensures clean && Healthy(faults) && AllOpen(old(links)) ==>
        links == old(links) && (out.Done? <==> Takes(F.net.context, old(view), s, tokens, start, wantLogits))
      ensures clean && out.Done? && tokens != [] ==>
        && s in view.logs && view.logs[s] != [] && view.logs[s][|view.logs[s]| - 1] == tokens
        && out.value == if wantLogits then [PipeLogits(F, view.logs[s])] else []
    {
      hide Sync, InStep, Clean, Assembled, StageCache, Sent, Safe, PipeLogits, AllOpen, Healthy, Remote, Given,
        LastLogits;
      clean := clean && Clean(faults);
      if start == 0 {
        Restarted(F, kvs, workers, links, view, s);
        kvs, view := kvs[s := NewKv(F.ranges[0].end)], view.(logs := view.logs[s := []]);
      }
      if s !in kvs {
        SyncKeys(F, kvs, workers, view);
        return Failed;
      }
      SyncEntry(F, kvs, workers, view, s);
      if kvs[s].tokens != start {
        return Failed;
      }
      out, kvs, workers, links, view := PushChunk(F, kvs, workers, links, s, tokens, wantLogits, faults, view);
    }

    method Decode(batch: seq<(SeqId, Token)>, faults: seq<Fault>) returns (out: Outcome)
      requires Valid() && |faults| == |F.ranges|
      modifies this
      ensures Valid() && clean == (old(clean) && Clean(faults)) && view.perRow == old(view).perRow
      ensures DecodeOutcome(F, old(view), batch, out, view)
      ensures clean ==>
        Severs(old(links), links,
               |batch| == 1 && batch[0].0 in old(view).logs && |Concat(old(view).logs[batch[0].0])| < F.net.context,
               batch != [] && out.Done?)
      ensures clean && Healthy(faults) && AllOpen(old(links)) ==>
        && links == old(links)
        && (out.Done? <==>
              batch == []
              || (|batch| == 1 && batch[0].0 in old(view).logs
                  && |Concat(old(view).logs[batch[0].0])| < F.net.context))
      ensures clean && out.Done? && batch != [] ==>
        var s := batch[0].0;
        && s in view.logs && view.logs[s] != [] && view.logs[s][|view.logs[s]| - 1] == [batch[0].1]
        && out.value == [PipeLogits(F, view.logs[s])]
    {
      hide Sync, InStep, Clean, Assembled, StageCache, Sent, Safe, PipeLogits, AllOpen, Healthy, Remote, Given,
        LastLogits;
      clean := clean && Clean(faults);
      if batch == [] {
        return Done([]);
      }
      if |batch| > 1 || batch[0].0 !in kvs {
        SyncKeys(F, kvs, workers, view);
        return Failed;
      }
      SyncEntry(F, kvs, workers, view, batch[0].0);
      out, kvs, workers, links, view := PushChunk(F, kvs, workers, links, batch[0].0, [batch[0].1], true, faults, view);
    }

    /** Workers that cannot be reached keep what they hold. The reset travels
        outside the activation streams. */
    method DropSeq(s: SeqId, reached: seq<bool>)
      requires Valid() && |reached| == |F.ranges|
      modifies this
      ensures Valid() && clean == old(clean) && links == old(links)
      ensures view == if s in old(view).logs then old(view).(logs := old(view).logs - {s}) else old(view)
      ensures kvs == old(kvs) - {s} && |workers| == |old(workers)|
      ensures forall k :: 0 < k < |workers| ==>
        workers[k] == if s in old(kvs) && reached[k] then old(workers)[k] - {s} else old(workers)[k]
    {
      hide Sync, InStep;
      SyncKeys(F, kvs, workers, view);
      if s !in kvs {
        return;
      }
      Forgotten(F, kvs, workers, links, view, s);
      kvs, view := kvs - {s}, view.(logs := view.logs - {s});
      var k := 1;
      while k < |workers|
        invariant |workers| == |F.ranges| == |links| && 1 <= k
        invariant Sync(F, kvs, workers, view) && view == old(view).(logs := old(view).logs - {s})
        invariant kvs == old(kvs) - {s}
        invariant forall j :: 0 < j < |workers| ==>
          workers[j] == if j < k && reached[j] then old(workers)[j] - {s} else old(workers)[j]
        invariant clean == old(clean) && links == old(links) && (clean ==> InStep(F, workers, links, view.logs))
      {
        if reached[k] {
          ResetKeeps(F, kvs, workers, links, view, k, s);
          workers := workers[k := workers[k] - {s}];
        }
        k := k + 1;
      }
    }
  }

  ghost function Present(workers: seq<Caches>): set<SeqId> {
    set k, s | 0 <= k < |workers| && s in workers[k] :: s
  }

  ghost function Lengths(workers: seq<Caches>, s: SeqId): set<Held> {
    set k | 0 <= k < |workers| && s in workers[k] :: Impure(workers[k][s].tokens)
  }

  /** Nothing is known of what the workers hold but its length. */
  ghost function Unknown(perRow: bool, workers: seq<Caches>): View {
    View(perRow, map[], map s | s in Present(workers) :: Lengths(workers, s))
  }

  lemma {:induction false} Connected(F: Fleet, workers: seq<Caches>, perRow: bool)
    requires Assembled(F) && |workers| == |F.ranges| && (perRow ==> PerRow(F))
    requires forall k, s :: 0 < k < |workers| && s in workers[k] ==> |workers[k][s].entries| == SliceLen(F.ranges[k])
    ensures Sync(F, map[], workers, Unknown(perRow, workers))
  {
    var v := Unknown(perRow, workers);
    forall k, s | 0 < k < |workers|
      ensures Holds(F, k, workers[k], s, v.HeldFor(s))
    {
      if s in workers[k] {
        var h := Impure(workers[k][s].tokens);
        assert s in Present(workers) && h in Lengths(workers, s);
        assert h in v.HeldFor(s) && Matches(F, k, workers[k][s], h);
      }
    }
  }

  lemma {:induction false} SyncKeys(F: Fleet, kvs: Caches, workers: seq<Caches>, v: View)
    requires Sync(F, kvs, workers, v)
    ensures kvs.Keys == v.logs.Keys && |workers| == |F.ranges| && Assembled(F)
  {
  }

  lemma {:induction false} FreshHead(F: Fleet)
    requires Assembled(F)
    ensures StageCache(F, 0, []) == NewKv(F.ranges[0].end) && ProperLog(F, [])
  {
    EmptyLogCache(F, 0);
  }

  lemma {:induction false} Restarted(F: Fleet, kvs: Caches, workers: seq<Caches>, links: seq<bool>, v: View, s: SeqId)
    requires Sync(F, kvs, workers, v)
    ensures F.ranges != []
    ensures Sync(F, kvs[s := NewKv(F.ranges[0].end)], workers, v.(logs := v.logs[s := []]))
    ensures InStep(F, workers, links, v.logs) ==> InStep(F, workers, links, v.logs[s := []])
  {
    hide StageCache, Holds, ProperLog, PerRow;
    FreshHead(F);
    var v' := v.(logs := v.logs[s := []]);
    assert forall q :: v'.HeldFor(q) == v.HeldFor(q);
    var none: Log := [];
    assert v'.logs[s] == none && ProperLog(F, none);
  }

  lemma {:induction false} Forgotten(F: Fleet, kvs: Caches, workers: seq<Caches>, links: seq<bool>, v: View, s: SeqId)
    requires Sync(F, kvs, workers, v)
    ensures Sync(F, kvs - {s}, workers, v.(logs := v.logs - {s}))
    ensures InStep(F, workers, links, v.logs) ==> InStep(F, workers, links, v.logs - {s})
  {
    hide Holds, StageCache, PerRow;
    assert forall q :: v.(logs := v.logs - {s}).HeldFor(q) == v.HeldFor(q);
  }

  lemma {:induction false} ResetKeeps(F: Fleet, kvs: Caches, workers: seq<Caches>, links: seq<bool>, v: View, k: nat,
                                      s: SeqId)
    requires Sync(F, kvs, workers, v) && 0 < k < |workers| && s !in v.logs
    ensures Sync(F, kvs, workers[k := workers[k] - {s}], v)
    ensures InStep(F, workers, links, v.logs) ==> InStep(F, workers[k := workers[k] - {s}], links, v.logs)
  {
    hide StageCache, PerRow, Matches;
  }
}
