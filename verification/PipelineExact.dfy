/**
The exact limit of what the `index_pos` check guarantees once codecs may fail.

A caller sees its own calls and whether each succeeded. From that, and from the
lengths of caches an earlier coordinator may have left behind, it can compute
the set of caches a worker may still hold. The next call's success is
guaranteed to be right, over every pattern of faults that explains what the
caller saw, every such leftover and every model, if and only if no cache in the
set has the coordinator's length without being the cache of the coordinator's
tokens.
*/
module PipelineExact {
  import opened Wrappers
  import opened Transformer
  import opened LayerSplit
  import opened BatchContract
  import opened BatchedSpec
  import opened PipelineReference
  import opened PipelineWire
  import opened Pipeline
  import opened StaleWitness

  /** One chunk sent for a sequence, from position 0 or not, and whether the
      call succeeded; or the sequence dropped. */
  datatype Move = Push(restart: bool, chunk: seq<Token>, done: bool) | Dropped

  type History = seq<Move>

  function Earlier(run: History): History
    requires run != []
  {
    run[..|run| - 1]
  }

  predicate EndsInPush(run: History) { run != [] && run[|run| - 1].Push? }

  /** The log the coordinator records. */
  function LogAfter(run: History): Log
    decreases |run|, 1
  {
    if EndsInPush(run) then LogBefore(run) + [run[|run| - 1].chunk] else []
  }

  /** The log the last push was sent at. */
  function LogBefore(run: History): Log
    requires EndsInPush(run)
    decreases |run|, 0
  {
    if run[|run| - 1].restart then [] else LogAfter(Earlier(run))
  }

  /** What a worker may hold of an earlier coordinator's, knowing only the
      lengths it may have. */
  ghost function Leftover(left: set<nat>): set<Held> {
    {Pure([])} + set n | n in left :: Impure(n)
  }

  /** What a worker may hold, as the caller can compute it. A drop may reach a
      worker or not. */
  ghost function HeldAfter(p: bool, left: set<nat>, run: History): set<Held> {
    if run == [] then Leftover(left)
    else if run[|run| - 1].Dropped? then HeldAfter(p, left, Earlier(run))
    else
      var held, log, e := HeldAfter(p, left, Earlier(run)), LogBefore(run), run[|run| - 1];
      if e.done then {Taken(p, held, log, e.chunk)} else AfterError(p, held, log, e.chunk)
  }

  /** Every chunk has tokens, fits the context, and is not refused locally. */
  predicate Fits(context: nat, run: History) {
    run != [] ==>
      && Fits(context, Earlier(run))
      && (EndsInPush(run) ==>
            && run[|run| - 1].chunk != [] && |Concat(LogBefore(run))| + |run[|run| - 1].chunk| <= context
            && (!run[|run| - 1].restart ==> LogBefore(run) != []))
  }

  /** A push can only have succeeded where some worker could take it. */
  ghost predicate Possible(p: bool, left: set<nat>, run: History) {
    run != [] ==>
      && Possible(p, left, Earlier(run))
      && (EndsInPush(run) && run[|run| - 1].done ==> Accepts(LogBefore(run), HeldAfter(p, left, Earlier(run))))
  }

  lemma {:induction false} LogsFit(F: Fleet, run: History)
    requires Fits(F.net.context, run)
    ensures ProperLog(F, LogAfter(run))
    ensures EndsInPush(run) ==>
      ProperLog(F, LogBefore(run)) && Concat(LogAfter(run)) == Concat(LogBefore(run)) + run[|run| - 1].chunk
    decreases |run|
  {
    if EndsInPush(run) {
      LogsFit(F, Earlier(run));
      FrontOfAppend(LogBefore(run), run[|run| - 1].chunk);
    }
  }

  ghost function Lengths(held: set<Held>): set<nat> { set h | h in held :: h.Len() }

  /** The lengths a worker may have, and so what it can take, do not depend on
      whether the wire treats rows separately. */
  lemma {:induction false} SameLengths(left: set<nat>, run: History)
    ensures Lengths(HeldAfter(true, left, run)) == Lengths(HeldAfter(false, left, run))
    ensures Possible(true, left, run) <==> Possible(false, left, run)
    decreases |run|
  {
    hide Taken, AfterError, Accepts;
    if run != [] {
      SameLengths(left, Earlier(run));
      if EndsInPush(run) {
        var log, c := LogBefore(run), run[|run| - 1].chunk;
        LengthsAfter(true, HeldAfter(true, left, Earlier(run)), log, c);
        LengthsAfter(false, HeldAfter(false, left, Earlier(run)), log, c);
      }
    }
  }

  lemma {:induction false} LengthsAfter(p: bool, held: set<Held>, log: Log, c: seq<Token>)
    ensures Accepts(log, held) <==> log == [] || |Concat(log)| in Lengths(held)
    ensures Lengths({Taken(p, held, log, c)}) == {|Concat(log)| + |c|}
    ensures Lengths(AfterError(p, held, log, c))
         == Lengths(held) + {0} + if Accepts(log, held) then {|Concat(log)| + |c|} else {}
  {
    var taken, none := Taken(p, held, log, c), Pure([]);
    assert taken.Len() == |Concat(log)| + |c| by {
      if c != [] {
        FrontOfAppend(log, c);
      }
    }
    assert none.Len() == 0;
    assert Lengths({taken}) == {taken.Len()} && Lengths({none}) == {0};
    LengthsOfBoth(held, {none});
    LengthsOfBoth(held + {none}, {taken});
    assert AfterError(p, held, log, c) == held + {none} + if Accepts(log, held) then {taken} else {};
  }

  lemma {:induction false} LengthsOfBoth(a: set<Held>, b: set<Held>)
    ensures Lengths(a + b) == Lengths(a) + Lengths(b)
  {
  }

  // ---------------------------------------------------------------------
  // What the workers really hold
  // ---------------------------------------------------------------------

  datatype World = World(workers: seq<Caches>, links: seq<bool>)

  /** The links are new; the caches may be an earlier coordinator's. */
  function NewWorld(was: seq<Caches>): World {
    World(was, seq(|was|, _ => true))
  }

  /** Caches of the right shape whose lengths for `s` are among `left`. */
  ghost predicate LeftBy(F: Fleet, was: seq<Caches>, s: SeqId, left: set<nat>) {
    && |was| == |F.ranges|
    && (forall k :: 0 < k < |was| && s in was[k] ==>
          |was[k][s].entries| == SliceLen(F.ranges[k]) && was[k][s].tokens in left)
  }

  /** The workers after a reset of `s` that reaches those with no fault. */
  function ResetBy(workers: seq<Caches>, s: SeqId, fs: seq<Fault>): (r: seq<Caches>)
    requires |fs| == |workers|
    ensures |r| == |workers|
  {
    seq(|workers|, k requires 0 <= k < |workers| => if fs[k].Fine? then workers[k] - {s} else workers[k])
  }

  ghost predicate Sized(F: Fleet, w: World) { |w.workers| == |w.links| == |F.ranges| }

  ghost function Deliver(F: Fleet, w: World, s: SeqId, log: Log, c: seq<Token>, faults: seq<Fault>): Pass
    requires Assembled(F) && Sized(F, w) && |faults| == |F.ranges|
  {
    Remote(F, 1, w.workers, w.links, s, |Concat(log)|, Given(F, 0, log, c), faults)
  }

  type Skies = seq<seq<Fault>>

  ghost predicate Cover(F: Fleet, run: History, fss: Skies) {
    |fss| == |run| && forall i :: 0 <= i < |fss| ==> |fss[i]| == |F.ranges|
  }

  /** The workers after the run under the faults `fss`, provided they produce
      exactly the outcomes the caller saw. */
  ghost function Replay(F: Fleet, was: seq<Caches>, s: SeqId, run: History, fss: Skies): (w: Option<World>)
    requires Assembled(F) && |was| == |F.ranges| && Cover(F, run, fss)
    ensures w.Some? ==> Sized(F, w.value)
    decreases |run|
  {
    if run == [] then Some(NewWorld(was))
    else
      var n := |run| - 1;
      var w := Replay(F, was, s, Earlier(run), fss[..n]);
      if w.None? then None
      else if run[n].Dropped? then Some(w.value.(workers := ResetBy(w.value.workers, s, fss[n])))
      else
        var pass := Deliver(F, w.value, s, LogBefore(run), run[n].chunk, fss[n]);
        if pass.res.Done? == run[n].done then Some(World(pass.workers, pass.links)) else None
  }

  ghost predicate AllHold(F: Fleet, w: World, s: SeqId, held: set<Held>)
    requires Assembled(F) && Sized(F, w)
  {
    forall k :: 0 < k < |w.workers| ==> Holds(F, k, w.workers[k], s, held)
  }

  /** Every fault pattern that explains the run leaves every worker within the
      caller's set, and the run was possible. */
  lemma {:induction false} ReplaySound(F: Fleet, p: bool, left: set<nat>, was: seq<Caches>, s: SeqId, run: History,
                                       fss: Skies)
    requires Assembled(F) && (p ==> PerRow(F)) && LeftBy(F, was, s, left)
    requires Cover(F, run, fss) && Fits(F.net.context, run) && Replay(F, was, s, run, fss).Some?
    ensures AllHold(F, Replay(F, was, s, run, fss).value, s, HeldAfter(p, left, run))
    ensures |F.ranges| > 1 ==> Possible(p, left, run)
    decreases |run|
  {
    hide Holds, PerRow, Assembled, Deliver, Taken, AfterError, Accepts;
    if run == [] {
      LeftoverHolds(F, left, was, s);
    } else {
      var n := |run| - 1;
      LogsFit(F, run);
      ReplaySound(F, p, left, was, s, Earlier(run), fss[..n]);
      var w, held := Replay(F, was, s, Earlier(run), fss[..n]).value, HeldAfter(p, left, Earlier(run));
      if run[n].Push? {
        DeliverSound(F, p, w, s, held, LogBefore(run), run[n].chunk, fss[n]);
      } else {
        ResetHolds(F, w, s, held, fss[n]);
      }
    }
  }

  lemma {:induction false} LeftoverHolds(F: Fleet, left: set<nat>, was: seq<Caches>, s: SeqId)
    requires Assembled(F) && LeftBy(F, was, s, left)
    ensures AllHold(F, NewWorld(was), s, Leftover(left))
  {
    forall k | 0 < k < |was|
      ensures Holds(F, k, was[k], s, Leftover(left))
    {
      if s in was[k] {
        assert Impure(was[k][s].tokens) in Leftover(left) && Matches(F, k, was[k][s], Impure(was[k][s].tokens));
      }
    }
  }

  lemma {:induction false} ResetHolds(F: Fleet, w: World, s: SeqId, held: set<Held>, fs: seq<Fault>)
    requires Assembled(F) && Sized(F, w) && |fs| == |F.ranges| && AllHold(F, w, s, held)
    ensures AllHold(F, w.(workers := ResetBy(w.workers, s, fs)), s, held)
  {
    hide Matches;
  }

  lemma {:induction false} DeliverSound(F: Fleet, p: bool, w: World, s: SeqId, held: set<Held>, log: Log, c: seq<Token>,
                                        faults: seq<Fault>)
    requires Assembled(F) && (p ==> PerRow(F)) && Sized(F, w) && |faults| == |F.ranges| && AllHold(F, w, s, held)
    requires ProperLog(F, log) && |Concat(log)| + |c| <= F.net.context
    ensures var pass := Deliver(F, w, s, log, c, faults);
            && AllHold(F, World(pass.workers, pass.links), s,
                       if pass.res.Done? then {Taken(p, held, log, c)} else AfterError(p, held, log, c))
            && (|F.ranges| > 1 && pass.res.Done? ==> Accepts(log, held))
            && (Safe(p, log, held) && pass.res.Done? ==> pass.res.value == Given(F, |F.ranges| - 1, log, c))
  {
    hide Holds, PerRow, Given, Remote, Safe, Accepts, Assembled;
    ChunkPassed(F, w.workers, w.links, s, held, p, log, c, faults);
    if |F.ranges| > 1 {
      DoneMeansTaken(F, w, s, held, log, c, faults);
    }
  }

  lemma {:induction false} DoneMeansTaken(F: Fleet, w: World, s: SeqId, held: set<Held>, log: Log, c: seq<Token>,
                                          faults: seq<Fault>)
    requires Assembled(F) && |F.ranges| > 1 && Sized(F, w) && |faults| == |F.ranges| && AllHold(F, w, s, held)
    requires ProperLog(F, log) && |Concat(log)| + |c| <= F.net.context
    ensures Deliver(F, w, s, log, c, faults).res.Done? ==> Accepts(log, held)
  {
    hide Holds, Given, WorkerStep;
    if log != [] {
      var pos, rows := |Concat(log)|, Given(F, 0, log, c);
      WorkerAny(F, 1, w.workers[1], s, held, log, F.send(rows));
      var step := WorkerStep(F.net, F.ranges[1], w.workers[1], s, pos, F.send(rows));
      assert step.0.Failed? ==> Remote(F, 1, w.workers, w.links, s, pos, rows, faults).res.Failed?;
    }
  }

  /** The call under faults `fs`, after `fss`, is not answered wrongly. */
  ghost predicate RightAnswer(F: Fleet, was: seq<Caches>, s: SeqId, run: History, fss: Skies, c: seq<Token>,
                              fs: seq<Fault>)
    requires Assembled(F) && |was| == |F.ranges| && Cover(F, run, fss) && Replay(F, was, s, run, fss).Some?
    requires c != [] && |fs| == |F.ranges|
  {
    var log := LogAfter(run);
    var res := Deliver(F, Replay(F, was, s, run, fss).value, s, log, c, fs).res;
    res.Done? ==> LastLogits(F.net, res.value, true) == [PipeLogits(F, log + [c])]
  }

  /** The sufficient half, for every model, every wire and any number of
      workers. */
  lemma {:induction false} SafeIsRight(F: Fleet, p: bool, left: set<nat>, was: seq<Caches>, s: SeqId, run: History,
                                       fss: Skies, c: seq<Token>, fs: seq<Fault>)
    requires Assembled(F) && (p ==> PerRow(F)) && LeftBy(F, was, s, left)
    requires Cover(F, run, fss) && Fits(F.net.context, run) && Replay(F, was, s, run, fss).Some?
    requires c != [] && |Concat(LogAfter(run))| + |c| <= F.net.context && |fs| == |F.ranges|
    requires Safe(p, LogAfter(run), HeldAfter(p, left, run))
    ensures RightAnswer(F, was, s, run, fss, c, fs)
  {
    hide Deliver, Replay, Handed, Assembled, PerRow, Safe;
    ReplaySound(F, p, left, was, s, run, fss);
    LogsFit(F, run);
    DeliverSound(F, p, Replay(F, was, s, run, fss).value, s, HeldAfter(p, left, run), LogAfter(run), c, fs);
  }

  // ---------------------------------------------------------------------
  // Which of its own prefixes the coordinator had when each position arrived
  // ---------------------------------------------------------------------

  /** What every worker has seen, when all of them start from `was`, take the
      pushes marked in `took`, none takes the others, and no reset arrives. */
  function SeenAfter(was: seq<seq<Token>>, run: History, took: seq<bool>): seq<seq<Token>>
    requires |took| == |run|
    decreases |run|
  {
    if run == [] then was
    else
      var n := |run| - 1;
      var seen := SeenAfter(was, Earlier(run), took[..n]);
      if run[n].Dropped? || !took[n] then seen
      else
        var log := LogBefore(run);
        (if log == [] then [] else seen) + Prefixes(Concat(log), run[n].chunk)
  }

  /** Successful pushes are taken, and only where the lengths agree. */
  predicate WellTaken(was: seq<seq<Token>>, run: History, took: seq<bool>)
    requires |took| == |run|
    decreases |run|
  {
    run != [] ==>
      var n := |run| - 1;
      && WellTaken(was, Earlier(run), took[..n])
      && (run[n].Push? ==>
            var log := LogBefore(run);
            && (run[n].done ==> took[n])
            && (took[n] ==> log == [] || |SeenAfter(was, Earlier(run), took[..n])| == |Concat(log)|))
  }

  /** The item of the caller's set that describes what was seen. */
  ghost predicate Describes(h: Held, seen: seq<seq<Token>>) {
    match h
    case Pure(g) => seen == Prefixes([], Concat(g))
    case Impure(n) => |seen| == n && forall l: seq<Token> :: |l| == n ==> seen != Prefixes([], l)
  }

  lemma {:induction false} DescribedLength(h: Held, seen: seq<seq<Token>>)
    requires Describes(h, seen)
    ensures |seen| == h.Len()
  {
  }

  /** Taking a chunk on what does not match the coordinator's tokens leaves
      something that matches no tokens at all. */
  lemma {:induction false} MixedMatchesNothing(seen: seq<seq<Token>>, tokens: seq<Token>, c: seq<Token>)
    requires |seen| == |tokens| && seen != Prefixes([], tokens) && c != []
    ensures Describes(Impure(|tokens| + |c|), seen + Prefixes(tokens, c))
  {
    forall l: seq<Token> | |l| == |tokens| + |c|
      ensures seen + Prefixes(tokens, c) != Prefixes([], l)
    {
      if seen + Prefixes(tokens, c) == Prefixes([], l) {
        MatchedToTheEnd(seen, tokens, c, l);
      }
    }
  }

  lemma {:induction false} MatchedToTheEnd(seen: seq<seq<Token>>, tokens: seq<Token>, c: seq<Token>, l: seq<Token>)
    requires |seen| == |tokens| && c != [] && |l| == |tokens| + |c| && seen + Prefixes(tokens, c) == Prefixes([], l)
    ensures seen == Prefixes([], tokens)
  {
    var n, more := |tokens|, seen + Prefixes(tokens, c);
    PrefixesAt(l, n);
    assert more[n] == (tokens + c)[..n + 1] == l[..n + 1];
    assert l[..n] == l[..n + 1][..n] == tokens;
    PrefixesSplit(l[..n], l[n..]);
    assert l[..n] + l[n..] == l;
    assert seen == more[..n];
  }

  lemma {:induction false} SameOrNot(a: seq<Token>, b: seq<Token>)
    requires |a| == |b| && Prefixes([], a) == Prefixes([], b)
    ensures a == b
  {
    if a != [] {
      PrefixesAt(a, |a| - 1);
      PrefixesAt(b, |b| - 1);
    }
  }

  /** Something a worker may hold that makes it take the next chunk, unsafe if
      there is any such. */
  lemma {:induction false} TakingItem(held: set<Held>, log: Log) returns (h: Held)
    requires log != [] && Accepts(log, held)
    ensures h in held && h.Len() == |Concat(log)|
    ensures !Safe(true, log, held) ==> !(h.Pure? && Concat(h.log) == Concat(log))
  {
    if Safe(true, log, held) {
      h :| h in held && h.Len() == |Concat(log)|;
    } else {
      h :| h in held && h.Len() == |Concat(log)| && !(h.Pure? && Alike(true, h.log, log));
    }
  }

  /** Taking a chunk from a described state is described by the taken item. */
  lemma {:induction false} TakingDescribed(held: set<Held>, log: Log, c: seq<Token>, h: Held, seen: seq<seq<Token>>)
    requires c != [] && Describes(h, seen)
    requires log != [] ==>
      h in held && h.Len() == |Concat(log)| && (!Safe(true, log, held) ==> !(h.Pure? && Concat(h.log) == Concat(log)))
    ensures Describes(Taken(true, held, log, c), (if log == [] then [] else seen) + Prefixes(Concat(log), c))
  {
    FrontOfAppend(log, c);
    PrefixesSplit(Concat(log), c);
    DescribedLength(h, seen);
    if log != [] {
      if Safe(true, log, held) {
        assert h.Pure? && Concat(h.log) == Concat(log);
      } else {
        if seen == Prefixes([], Concat(log)) {
          if h.Pure? {
            SameOrNot(Concat(h.log), Concat(log));
          }
        }
        MixedMatchesNothing(seen, Concat(log), c);
      }
    } else {
      assert Concat(log) == [];
      assert Prefixes([], []) == [];
    }
  }

  /** Everything in the caller's set can come about, at all workers together:
      leftovers and a way of taking and missing pushes that agree with the
      outcomes. */
  lemma {:induction false} PlanFor(context: nat, left: set<nat>, run: History, want: Option<Held>)
    returns (was: seq<seq<Token>>, took: seq<bool>, h: Held)
    requires Fits(context, run) && Possible(true, left, run)
    requires want.Some? ==> want.value in HeldAfter(true, left, run) && want.value.Len() > 0
    ensures |took| == |run| && WellTaken(was, run, took) && Describes(h, SeenAfter(was, run, took))
    ensures was == [] || |was| in left
    ensures want.Some? ==> h == want.value
    decreases |run|
  {
    hide Describes, Taken, Safe, Accepts;
    if run == [] {
      was, took, h := [], [], Pure([]);
      NothingSeen();
      if want.Some? {
        was, h := Unlike(want.value.n), want.value;
        UnlikeAnything(want.value.n);
      }
    } else {
      var n, before, e := |run| - 1, Earlier(run), run[|run| - 1];
      var held := HeldAfter(true, left, before);
      if e.Push? && (e.done || (want.Some? && want.value !in held)) {
        var log := LogBefore(run);
        var from: Option<Held> := None;
        if log != [] {
          PositiveLog(context, run);
          var item := TakingItem(held, log);
          from := Some(item);
        }
        was, took, h := PlanFor(context, left, before, from);
        TakingDescribed(held, log, e.chunk, h, SeenAfter(was, before, took));
        assert (took + [true])[..n] == took;
        assert log != [] ==> |SeenAfter(was, before, took)| == |Concat(log)| by {
          DescribedLength(h, SeenAfter(was, before, took));
        }
        took, h := took + [true], Taken(true, held, log, e.chunk);
        if want.Some? && !e.done {
          MustBeTaken(held, log, e.chunk, want.value);
        }
      } else {
        was, took, h := PlanFor(context, left, before, want);
        assert (took + [false])[..n] == took;
        took := took + [false];
      }
    }
  }

  /** A leftover that matches no tokens at all. */
  function Unlike(n: nat): seq<seq<Token>> { seq(n, _ => []) }

  lemma {:induction false} UnlikeAnything(n: nat)
    requires n > 0
    ensures |Unlike(n)| == n && Describes(Impure(n), Unlike(n))
  {
    forall l: seq<Token> | |l| == n
      ensures Unlike(n) != Prefixes([], l)
    {
      PrefixesAt(l, 0);
      assert Unlike(n)[0] == [];
    }
  }

  lemma {:induction false} NothingSeen()
    ensures Describes(Pure([]), [])
  {
    assert Prefixes([], []) == [];
  }

  lemma {:induction false} MustBeTaken(held: set<Held>, log: Log, c: seq<Token>, want: Held)
    requires want.Len() > 0 && want in AfterError(true, held, log, c) && want !in held
    ensures want == Taken(true, held, log, c) && Accepts(log, held)
  {
  }

  lemma {:induction false} PositiveLog(context: nat, run: History)
    requires EndsInPush(run) && Fits(context, run) && LogBefore(run) != []
    ensures |Concat(LogBefore(run))| > 0
  {
    if EndsInPush(Earlier(run)) {
      FrontOfAppend(LogBefore(Earlier(run)), Earlier(run)[|Earlier(run)| - 1].chunk);
    }
  }

  // ---------------------------------------------------------------------
  // Carrying a plan out
  // ---------------------------------------------------------------------

  /** A push taken by all and answered, taken by all in vain, or never sent. */
  function FaultsOf(n: nat, done: bool, took: bool): (r: seq<Fault>)
    requires n > 1
    ensures |r| == n
  {
    if done then AllFine(n) else if took then AllFine(n)[n - 1 := NotDecoded] else AllFine(n)[1 := NotEncoded]
  }

  function SkiesOf(n: nat, run: History, took: seq<bool>): (r: Skies)
    requires n > 1 && |took| == |run|
    ensures |r| == |run| && forall i :: 0 <= i < |r| ==> |r[i]| == n
  {
    seq(|run|, i requires 0 <= i < |run| =>
          if run[i].Dropped? then seq(n, _ => NotReceived) else FaultsOf(n, run[i].done, took[i]))
  }

  lemma {:induction false} Delivered(F: Fleet, mark: seq<Token>, w: World, s: SeqId, seen: seq<seq<Token>>, log: Log,
                                     c: seq<Token>, done: bool, took: bool)
    requires Uniform(F, mark, w.workers, w.links, s, seen) && c != [] && (done ==> took)
    requires took ==> (log == [] || |seen| == |Concat(log)|) && (log != [] ==> Concat(log) != [])
    requires |Concat(log)| + |c| <= F.net.context
    ensures Sized(F, w) && Assembled(F) && |F.ranges| > 1
    ensures var pass := Deliver(F, w, s, log, c, FaultsOf(|F.ranges|, done, took));
            && pass.res.Done? == done
            && Uniform(F, mark, pass.workers, pass.links, s,
                       if took then (if log == [] then [] else seen) + Prefixes(Concat(log), c) else seen)
  {
    hide IsWitness, Remote, Fed, FedBits, Given;
    WitnessIsAssembled(F, mark);
    var pos, rows := |Concat(log)|, Given(F, 0, log, c);
    if took {
      assert log == [] ==> Concat(log) == [];
      UniformPush(F, mark, w.workers, w.links, s, seen, log, c);
      if !done {
        TakenInVain(F, 1, w.workers, w.links, s, pos, rows);
      }
    } else {
      NeverSent(F, w.workers, w.links, s, pos, rows);
    }
  }

  /** Every worker left with rows that say which of `was` is the mark. */
  ghost function LeftWith(F: Fleet, mark: seq<Token>, s: SeqId, was: seq<seq<Token>>): (r: seq<Caches>)
    requires Assembled(F)
    ensures |r| == |F.ranges|
  {
    seq(|F.ranges|, k requires 0 <= k < |F.ranges| =>
          if was == [] then map[]
          else map[s := CacheOf(F.net, F.ranges[k].start, F.ranges[k].end, Marks(mark, was))])
  }

  lemma {:induction false} LeftWithUniform(F: Fleet, mark: seq<Token>, s: SeqId, was: seq<seq<Token>>, left: set<nat>)
    requires IsWitness(F, mark) && (was == [] || |was| in left)
    ensures var ws := LeftWith(F, mark, s, was);
            LeftBy(F, ws, s, left) && Uniform(F, mark, NewWorld(ws).workers, NewWorld(ws).links, s, was)
  {
    hide SlotOf, BitHop, WitnessNet;
    var ws := LeftWith(F, mark, s, was);
    assert |Marks(mark, was)| == |was|;
    forall k | 1 < k < |F.ranges|
      ensures FedBits(F, k, ws[k], s, |was|)
    {
      assert Bits(Marks(mark, was)) && Fed(F, k, ws[k], s, Marks(mark, was));
    }
  }

  lemma {:induction false} ResetMissesAll(workers: seq<Caches>, s: SeqId)
    ensures ResetBy(workers, s, seq(|workers|, _ => NotReceived)) == workers
  {
  }

  /** The plan is carried out by codec errors alone, resets reaching nobody. */
  lemma {:induction false} Executes(F: Fleet, mark: seq<Token>, left: set<nat>, s: SeqId, was: seq<seq<Token>>,
                                    run: History, took: seq<bool>)
    requires IsWitness(F, mark) && (was == [] || |was| in left)
    requires |took| == |run| && WellTaken(was, run, took) && Fits(F.net.context, run)
    ensures Assembled(F) && |F.ranges| > 1 && LeftBy(F, LeftWith(F, mark, s, was), s, left)
    ensures var w := Replay(F, LeftWith(F, mark, s, was), s, run, SkiesOf(|F.ranges|, run, took));
            w.Some? && Uniform(F, mark, w.value.workers, w.value.links, s, SeenAfter(was, run, took))
    decreases |run|
  {
    hide IsWitness, Uniform, Deliver, FaultsOf, LeftBy, LeftWith;
    WitnessIsAssembled(F, mark);
    LeftWithUniform(F, mark, s, was, left);
    if run != [] {
      var n, ws := |run| - 1, LeftWith(F, mark, s, was);
      Executes(F, mark, left, s, was, Earlier(run), took[..n]);
      assert SkiesOf(|F.ranges|, run, took)[..n] == SkiesOf(|F.ranges|, Earlier(run), took[..n]);
      var w := Replay(F, ws, s, Earlier(run), SkiesOf(|F.ranges|, Earlier(run), took[..n])).value;
      if run[n].Dropped? {
        ResetMissesAll(w.workers, s);
      } else {
        var log := LogBefore(run);
        if log != [] {
          PositiveLog(F.net.context, run);
        }
        Delivered(F, mark, w, s, SeenAfter(was, Earlier(run), took[..n]), log, run[n].chunk, run[n].done, took[n]);
      }
    }
  }

  // ---------------------------------------------------------------------
  // The exact guarantee
  // ---------------------------------------------------------------------

  /** The machines and the wire between them, for any model of the given size. */
  datatype Rig = Rig(ranges: seq<LayerRange>, layers: nat, context: nat, send: Hop, back: seq<Hop>) {
    function With(net: Net): Fleet { Fleet(net, ranges, send, back) }

    predicate Takes(net: Net) { net.layers == layers && net.context == context }

    /** A working pipeline of two or more machines whose wire carries single
        bits exactly, as f16 and int8 do. */
    ghost predicate Valid() {
      && |ranges| > 1 && |back| == |ranges| && Tiles(ranges, 0, layers) && context < 0x1_0000_0000
      && (forall k :: 0 <= k < |ranges| ==> ranges[k].start < ranges[k].end)
      && (forall xs: seq<Row> :: |send(xs)| == |xs|)
      && (forall k, xs: seq<Row> :: 0 <= k < |back| ==> |back[k](xs)| == |xs|)
      && BitHop(send) && (forall k :: 0 <= k < |back| ==> BitHop(back[k]))
    }

    /** The wire treats every row on its own, as f16 does. */
    ghost predicate RowByRow() {
      PerRowHop(send) && (forall k :: 0 <= k < |back| ==> PerRowHop(back[k]))
    }
  }

  lemma {:induction false} RigAssembled(rig: Rig, net: Net)
    requires rig.Valid() && rig.Takes(net)
    ensures Assembled(rig.With(net)) && (rig.RowByRow() ==> PerRow(rig.With(net)))
  {
    hide PerRowHop, BitHop;
  }

  ghost function WitnessOn(rig: Rig, mark: seq<Token>): Net
    requires rig.Valid()
  {
    WitnessNet(rig.layers, rig.context, rig.ranges[1].start, mark)
  }

  lemma {:induction false} WitnessFits(rig: Rig, mark: seq<Token>)
    requires rig.Valid() && mark != []
    ensures rig.Takes(WitnessOn(rig, mark)) && IsWitness(rig.With(WitnessOn(rig, mark)), mark)
  {
    hide PerRowHop, BitHop;
    RigAssembled(rig, WitnessOn(rig, mark));
  }

  /** Workers that took exactly the chunks of `log`. */
  lemma {:induction false} WorldOf(F: Fleet, mark: seq<Token>, log: Log) returns (w: World)
    requires IsWitness(F, mark) && ProperLog(F, log)
    ensures Assembled(F) && Sized(F, w) && AllHold(F, w, 0, {Pure(log)})
    ensures Uniform(F, mark, w.workers, w.links, 0, Prefixes([], Concat(log)))
    decreases |log|
  {
    hide IsWitness, Remote, Uniform, Holds, Given;
    WitnessIsAssembled(F, mark);
    if log == [] {
      w := NewWorld(LeftWith(F, mark, 0, []));
      LeftWithUniform(F, mark, 0, [], {});
      LeftoverHolds(F, {}, LeftWith(F, mark, 0, []), 0);
      assert Leftover({}) == {Pure([])};
      assert Prefixes([], []) == [];
    } else {
      var front, c := Front(log), log[|log| - 1];
      assert log == front + [c] && c in log;
      FrontOfAppend(front, c);
      ProperFront(F, log);
      var w0 := WorldOf(F, mark, front);
      w := Pushed(F, mark, w0, front, c);
    }
  }

  lemma {:induction false} ProperFront(F: Fleet, log: Log)
    requires log != [] && ProperLog(F, log)
    ensures ProperLog(F, Front(log)) && |Concat(Front(log))| + |log[|log| - 1]| <= F.net.context
    ensures log[|log| - 1] != []
  {
    assert log[|log| - 1] in log;
    assert forall c :: c in Front(log) ==> c in log;
  }

  /** One more chunk for such workers. */
  lemma {:induction false} Pushed(F: Fleet, mark: seq<Token>, w: World, log: Log, c: seq<Token>) returns (w': World)
    requires IsWitness(F, mark) && Assembled(F) && Sized(F, w) && AllHold(F, w, 0, {Pure(log)}) && c != []
    requires Uniform(F, mark, w.workers, w.links, 0, Prefixes([], Concat(log)))
    requires ProperLog(F, log) && |Concat(log)| + |c| <= F.net.context
    ensures Sized(F, w') && AllHold(F, w', 0, {Pure(log + [c])})
    ensures Uniform(F, mark, w'.workers, w'.links, 0, Prefixes([], Concat(log) + c))
    ensures Given(F, |F.ranges| - 1, log, c)[|c| - 1]
       == Bit(|mark| <= |Concat(log) + c| && (Concat(log) + c)[..|mark|] == mark)
  {
    hide IsWitness, Remote, Holds, Given, Fed, FedBits;
    var n, held := |F.ranges|, {Pure(log)};
    UniformPush(F, mark, w.workers, w.links, 0, Prefixes([], Concat(log)), log, c);
    assert Safe(false, log, held);
    ChunkPassed(F, w.workers, w.links, 0, held, false, log, c, AllFine(n));
    var pass := Remote(F, 1, w.workers, w.links, 0, |Concat(log)|, Given(F, 0, log, c), AllFine(n));
    w' := World(pass.workers, pass.links);
    PrefixesSplit(Concat(log), c);
    assert Concat(log) == [] ==> Prefixes([], Concat(log)) == [];
    MarkedNonEmpty(F, mark);
    if |mark| <= |Concat(log) + c| {
      PrefixesAt(Concat(log) + c, |mark| - 1);
    }
  }

  /** The right answer of the witness to tokens that begin with its mark. */
  lemma {:induction false} RightBit(F: Fleet, mark: seq<Token>, log: Log, c: seq<Token>)
    requires IsWitness(F, mark) && ProperLog(F, log) && c != []
    requires |Concat(log)| + |c| <= F.net.context && mark <= Concat(log) + c
    ensures Assembled(F) && PipeLogits(F, log + [c]) == Bit(true)
  {
    hide IsWitness, Uniform, AllHold, Handed;
    var w := WorldOf(F, mark, log);
    var w' := Pushed(F, mark, w, log, c);
    assert (Concat(log) + c)[..|mark|] == mark;
    HeadIsIdentity(F, mark, Given(F, |F.ranges| - 1, log, c)[|c| - 1]);
  }

  lemma {:induction false} MarkedNonEmpty(F: Fleet, mark: seq<Token>)
    requires IsWitness(F, mark)
    ensures mark != []
  {
  }

  lemma {:induction false} HeadIsIdentity(F: Fleet, mark: seq<Token>, x: Row)
    requires IsWitness(F, mark)
    ensures F.net.head(x) == x
  {
  }

  /** Where what was seen first differs from the coordinator's tokens. */
  lemma {:induction false} FirstDifference(seen: seq<seq<Token>>, tokens: seq<Token>) returns (p: nat)
    requires |seen| == |tokens| && seen != Prefixes([], tokens)
    ensures p < |tokens| && seen[p] != tokens[..p + 1]
  {
    var all := Prefixes([], tokens);
    p :| 0 <= p < |seen| && seen[p] != all[p];
    PrefixesAt(tokens, p);
  }

  /** The necessary half: once the state is unsafe, some model, some leftovers
      and some faults that explain everything the caller saw make the next push
      succeed with a wrong answer. */
  lemma {:induction false} UnsafeCanBeWrong(rig: Rig, left: set<nat>, s: SeqId, run: History, c: seq<Token>)
    returns (net: Net, ws: seq<Caches>, fss: Skies)
    requires rig.Valid() && Fits(rig.context, run) && Possible(true, left, run)
    requires c != [] && |Concat(LogAfter(run))| + |c| <= rig.context
    requires !Safe(true, LogAfter(run), HeldAfter(true, left, run))
    ensures Explains(rig, net, left, ws, s, run, fss)
    ensures !RightAnswer(rig.With(net), ws, s, run, fss, c, AllFine(|rig.ranges|))
  {
    hide Replay, RightAnswer, Explains, Rig.Valid, HeldAfter, LogAfter, Fits, Possible, Describes, WellTaken;
    var log, held := LogAfter(run), HeldAfter(true, left, run);
    var tokens := Concat(log);
    var bad :| bad in held && bad.Len() == |tokens| && !(bad.Pure? && Alike(true, bad.log, log));
    assert |tokens| > 0 by { NonEmptyLog(rig.context, run); }
    var was, took, h := PlanFor(rig.context, left, run, Some(bad));
    var seen := SeenAfter(was, run, took);
    DescribedLength(bad, seen);
    Differs(bad, log, seen);
    net, ws, fss := PlanGoesWrong(rig, left, s, run, c, was, took);
  }

  /** A plan that leaves the workers with something else than the tokens on
      record, carried out on the model that tells them apart. */
  lemma {:induction false} PlanGoesWrong(rig: Rig, left: set<nat>, s: SeqId, run: History, c: seq<Token>,
                                         was: seq<seq<Token>>, took: seq<bool>)
    returns (net: Net, ws: seq<Caches>, fss: Skies)
    requires rig.Valid() && Fits(rig.context, run) && c != [] && |Concat(LogAfter(run))| + |c| <= rig.context
    requires (was == [] || |was| in left) && |took| == |run| && WellTaken(was, run, took)
    requires var seen, tokens := SeenAfter(was, run, took), Concat(LogAfter(run));
             |seen| == |tokens| && seen != Prefixes([], tokens)
    ensures Explains(rig, net, left, ws, s, run, fss)
    ensures !RightAnswer(rig.With(net), ws, s, run, fss, c, AllFine(|rig.ranges|))
  {
    hide Replay, Deliver, Uniform, IsWitness, Rig.Valid, LeftBy, LeftWith, LogAfter, Fits, WellTaken, SeenAfter;
    var log, seen := LogAfter(run), SeenAfter(was, run, took);
    var p := FirstDifference(seen, Concat(log));
    var mark := Concat(log)[..p + 1];
    net := WitnessOn(rig, mark);
    var F := rig.With(net);
    WitnessFits(rig, mark);
    RigAssembled(rig, net);
    RigWide(rig);
    ws, fss := LeftWith(F, mark, s, was), SkiesOf(|rig.ranges|, run, took);
    Executes(F, mark, left, s, was, run, took);
    LogsFit(F, run);
    WrongBit(F, mark, Replay(F, ws, s, run, fss).value, s, seen, log, c, p);
  }

  lemma {:induction false} RigWide(rig: Rig)
    requires rig.Valid()
    ensures |rig.ranges| > 1
  {
  }

  lemma {:induction false} NonEmptyLog(context: nat, run: History)
    requires Fits(context, run) && LogAfter(run) != []
    ensures |Concat(LogAfter(run))| > 0
  {
    FrontOfAppend(LogBefore(run), run[|run| - 1].chunk);
  }

  lemma {:induction false} Differs(bad: Held, log: Log, seen: seq<seq<Token>>)
    requires Describes(bad, seen) && bad.Len() == |Concat(log)| && !(bad.Pure? && Concat(bad.log) == Concat(log))
    ensures seen != Prefixes([], Concat(log))
  {
    if bad.Pure? && seen == Prefixes([], Concat(log)) {
      SameOrNot(Concat(bad.log), Concat(log));
    }
  }

  lemma {:induction false} WrongBit(F: Fleet, mark: seq<Token>, w: World, s: SeqId, seen: seq<seq<Token>>, log: Log,
                                    c: seq<Token>, p: nat)
    requires Uniform(F, mark, w.workers, w.links, s, seen) && ProperLog(F, log)
    requires c != [] && |Concat(log)| + |c| <= F.net.context
    requires p < |seen| == |Concat(log)| && mark == Concat(log)[..p + 1] && seen[p] != mark
    ensures Assembled(F) && Sized(F, w)
    ensures var res := Deliver(F, w, s, log, c, AllFine(|F.ranges|)).res;
            res.Done? && LastLogits(F.net, res.value, true) != [PipeLogits(F, log + [c])]
  {
    hide IsWitness, Remote, Given, PipeLogits, Fed, FedBits;
    WitnessIsAssembled(F, mark);
    UniformPush(F, mark, w.workers, w.links, s, seen, log, c);
    assert mark <= Concat(log) + c;
    RightBit(F, mark, log, c);
    var res := Deliver(F, w, s, log, c, AllFine(|F.ranges|)).res;
    HeadIsIdentity(F, mark, res.value[|c| - 1]);
  }

  /** These leftovers and faults produce what the caller saw, under this
      model. */
  ghost predicate Explains(rig: Rig, net: Net, left: set<nat>, ws: seq<Caches>, s: SeqId, run: History, fss: Skies) {
    && rig.Takes(net) && Assembled(rig.With(net)) && LeftBy(rig.With(net), ws, s, left)
    && Cover(rig.With(net), run, fss) && Replay(rig.With(net), ws, s, run, fss).Some?
  }

  /** The next push is not answered wrongly, whatever explains the run. */
  ghost predicate Guaranteed(rig: Rig, left: set<nat>, s: SeqId, run: History, c: seq<Token>)
    requires c != []
  {
    forall net: Net, ws: seq<Caches>, fss: Skies, fs: seq<Fault> ::
      Explains(rig, net, left, ws, s, run, fss) && |fs| == |rig.ranges| ==>
        RightAnswer(rig.With(net), ws, s, run, fss, c, fs)
  }

  lemma {:induction false} SafeGuarantees(rig: Rig, p: bool, left: set<nat>, s: SeqId, run: History, c: seq<Token>)
    requires rig.Valid() && (p ==> rig.RowByRow()) && Fits(rig.context, run)
    requires c != [] && |Concat(LogAfter(run))| + |c| <= rig.context
    requires Safe(p, LogAfter(run), HeldAfter(p, left, run))
    ensures Guaranteed(rig, left, s, run, c)
  {
    hide Replay, RightAnswer, Safe, HeldAfter, LogAfter, Rig.Valid, PerRow;
    forall net: Net, ws: seq<Caches>, fss: Skies, fs: seq<Fault>
      | Explains(rig, net, left, ws, s, run, fss) && |fs| == |rig.ranges|
      ensures RightAnswer(rig.With(net), ws, s, run, fss, c, fs)
    {
      RigAssembled(rig, net);
      SafeIsRight(rig.With(net), p, left, ws, s, run, fss, c, fs);
    }
  }

  lemma {:induction false} GuaranteedIsSafe(rig: Rig, left: set<nat>, s: SeqId, run: History, c: seq<Token>)
    requires rig.Valid() && Fits(rig.context, run) && Possible(true, left, run)
    requires c != [] && |Concat(LogAfter(run))| + |c| <= rig.context
    requires Guaranteed(rig, left, s, run, c)
    ensures Safe(true, LogAfter(run), HeldAfter(true, left, run))
  {
    hide Explains, RightAnswer, Safe, HeldAfter, LogAfter, Rig.Valid;
    if !Safe(true, LogAfter(run), HeldAfter(true, left, run)) {
      var net, ws, fss := UnsafeCanBeWrong(rig, left, s, run, c);
      assert false;
    }
  }

  /**
  The exact guarantee, for any number of workers, any leftovers and any run a
  caller can see. Over a wire that treats every row on its own the next push is
  answered correctly under every model and every explanation of the run, if and
  only if nothing a worker may hold has the coordinator's length without being
  the cache of the coordinator's tokens.
  */
  lemma {:induction false} GuaranteeIff(rig: Rig, left: set<nat>, s: SeqId, run: History, c: seq<Token>)
    requires rig.Valid() && rig.RowByRow() && Fits(rig.context, run) && Possible(true, left, run)
    requires c != [] && |Concat(LogAfter(run))| + |c| <= rig.context
    ensures Safe(true, LogAfter(run), HeldAfter(true, left, run)) <==> Guaranteed(rig, left, s, run, c)
  {
    hide Guaranteed, Safe, HeldAfter, LogAfter, Rig.Valid, Rig.RowByRow;
    if Safe(true, LogAfter(run), HeldAfter(true, left, run)) {
      SafeGuarantees(rig, true, left, s, run, c);
    }
    if Guaranteed(rig, left, s, run, c) {
      GuaranteedIsSafe(rig, left, s, run, c);
    }
  }

  /**
  Over any wire that carries bits, int8 among them: a push is guaranteed when
  every cache of the coordinator's length is that of its very chunks, and only
  when every such cache is that of its tokens. Between the two lie caches of
  the same tokens cut differently.
  */
  lemma {:induction false} GuaranteeBounds(rig: Rig, left: set<nat>, s: SeqId, run: History, c: seq<Token>)
    requires rig.Valid() && Fits(rig.context, run) && Possible(false, left, run)
    requires c != [] && |Concat(LogAfter(run))| + |c| <= rig.context
    ensures Safe(false, LogAfter(run), HeldAfter(false, left, run)) ==> Guaranteed(rig, left, s, run, c)
    ensures Guaranteed(rig, left, s, run, c) ==> Safe(true, LogAfter(run), HeldAfter(true, left, run))
  {
    hide Guaranteed, Safe, HeldAfter, LogAfter, Rig.Valid, Possible;
    SameLengths(left, run);
    if Safe(false, LogAfter(run), HeldAfter(false, left, run)) {
      SafeGuarantees(rig, false, left, s, run, c);
    }
    if Guaranteed(rig, left, s, run, c) {
      GuaranteedIsSafe(rig, left, s, run, c);
    }
  }

  /**
  The smallest unsafe run: a prefill, then a restart with another prompt of the
  same length that fails before any worker sees it. A decode of any token may
  then be answered from the was prompt's caches.
  */
  lemma {:induction false} StaleRestartExample(rig: Rig, s: SeqId, a: Token, b: Token, t: Token)
    requires rig.Valid() && rig.context >= 2 && a != b
    ensures !Guaranteed(rig, {}, s, [Push(true, [a], true), Push(true, [b], false)], [t])
  {
    hide Rig.Valid, Explains, Guaranteed;
    var one: Log, two: Log := [[a]], [[b]];
    var none: Log := [];
    var r1, r2 := [Push(true, [a], true)], [Push(true, [a], true), Push(true, [b], false)];
    assert Earlier(r2) == r1 && Earlier(r1) == [];
    assert LogBefore(r1) == none && LogBefore(r2) == none;
    assert none + [[a]] == one && none + [[b]] == two;
    assert LogAfter(r1) == one && LogAfter(r2) == two;
    FrontOfAppend(none, [a]);
    FrontOfAppend(none, [b]);
    assert Concat(one) == [a] && Concat(two) == [b];
    hide LogAfter, LogBefore, Concat;
    assert Fits(rig.context, []);
    assert Fits(rig.context, r1) by { EmptyConcat(); }
    assert Fits(rig.context, r2) by { EmptyConcat(); }
    assert HeldAfter(true, {}, r1) == {Pure(one)};
    assert Pure(one) in HeldAfter(true, {}, r2);
    assert Possible(true, {}, []);
    assert Possible(true, {}, r1);
    assert Possible(true, {}, r2);
    assert Pure(one).Len() == 1;
    assert !Safe(true, two, HeldAfter(true, {}, r2));
    if Guaranteed(rig, {}, s, r2, [t]) {
      GuaranteedIsSafe(rig, {}, s, r2, [t]);
    }
  }

  /** With leftovers one push is enough: a first prompt that fails before any
      worker sees it, where an earlier coordinator left a cache of its length. */
  lemma {:induction false} LeftoverExample(rig: Rig, left: set<nat>, s: SeqId, a: Token, t: Token)
    requires rig.Valid() && rig.context >= 2 && 1 in left
    ensures !Guaranteed(rig, left, s, [Push(true, [a], false)], [t])
  {
    hide Rig.Valid, Explains, Guaranteed;
    var none: Log, one: Log := [], [[a]];
    var r1 := [Push(true, [a], false)];
    assert Earlier(r1) == [];
    assert LogBefore(r1) == none && none + [[a]] == one && LogAfter(r1) == one;
    FrontOfAppend(none, [a]);
    assert Concat(one) == [a];
    hide LogAfter, LogBefore, Concat;
    assert Fits(rig.context, []);
    assert Fits(rig.context, r1) by { EmptyConcat(); }
    assert Possible(true, left, []);
    assert Possible(true, left, r1);
    assert Impure(1) in HeldAfter(true, left, []);
    assert Impure(1) in HeldAfter(true, left, r1);
    assert Impure(1).Len() == 1;
    assert !Safe(true, one, HeldAfter(true, left, r1));
    if Guaranteed(rig, left, s, r1, [t]) {
      GuaranteedIsSafe(rig, left, s, r1, [t]);
    }
  }

  lemma {:induction false} EmptyConcat()
    ensures var none: Log := []; Concat(none) == []
  {
  }
}
