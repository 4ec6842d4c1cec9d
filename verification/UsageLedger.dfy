/**
Token accounting per API key: a lifetime total and the current minute's count,
checked before dispatch and charged after the response.
*/
module UsageLedger {
  import opened Wrappers
  import opened Sums

  const MinuteSecs := 60

  type Subject = string

  const Word64: nat := 0x1_0000_0000_0000_0000

  /** Counters are 64 bits wide. */
  function Wrap(x: nat): nat { x % Word64 }

  /** Lifetime total, and (minute number, tokens charged in it). */
  datatype Entry = Entry(total: nat, minute: nat, inMinute: nat)

  const Unused := Entry(0, 0, 0)

  type Entries = map<Subject, Entry>

  datatype Limits = Limits(tpm: Option<nat>, budget: Option<nat>)

  datatype Verdict = Allowed | OverBudget | OverRate(retryAfter: nat)

  function At(entries: Entries, s: Subject): Entry { if s in entries then entries[s] else Unused }

  /** The tokens already charged in the minute of `now`. */
  function ThisMinute(e: Entry, now: nat): nat { if e.minute == now / MinuteSecs then e.inMinute else 0 }

  function ChargedEntry(e: Entry, tokens: nat, now: nat): Entry {
    var minute := now / MinuteSecs;
    Entry(Wrap(e.total + tokens), minute, Wrap((if e.minute != minute then 0 else e.inMinute) + tokens))
  }

  function Charged(entries: Entries, s: Subject, tokens: nat, now: nat): Entries {
    entries[s := ChargedEntry(At(entries, s), tokens, now)]
  }

  /** Refuse a known key that has spent its budget, or this minute's allowance,
      whichever is asked first. */
  function Check(entries: Entries, s: Subject, limits: Limits, now: nat): Verdict {
    if s !in entries then Allowed
    else if limits.budget.Some? && entries[s].total >= limits.budget.value then OverBudget
    else if limits.tpm.Some? && entries[s].minute == now / MinuteSecs && entries[s].inMinute >= limits.tpm.value
    then OverRate(MinuteSecs - now % MinuteSecs)
    else Allowed
  }

  class Ledger {
    var entries: Entries

    constructor ()
      ensures entries == map[]
    {
      entries := map[];
    }

    /** Restore a ledger from saved totals: every total is back, and windows
        start empty. */
    constructor Open(saved: map<Subject, nat>)
      ensures entries.Keys == saved.Keys
      ensures forall s :: s in saved ==> entries[s] == Unused.(total := saved[s])
    {
      entries := map s | s in saved :: Unused.(total := saved[s]);
    }

    /** A refusal for the rate says exactly when the next minute starts. */
    method CheckAt(s: Subject, limits: Limits, now: nat) returns (r: Verdict)
      ensures r == Check(entries, s, limits, now)
      ensures r == Allowed <==>
                (limits.budget.Some? && s in entries ==> entries[s].total < limits.budget.value) &&
                (limits.tpm.Some? && s in entries ==>
                 ThisMinute(entries[s], now) < limits.tpm.value || entries[s].minute != now / MinuteSecs)
      ensures r == OverBudget <==> s in entries && limits.budget.Some? && entries[s].total >= limits.budget.value
      ensures r.OverRate? ==>
        0 < r.retryAfter <= MinuteSecs && (now + r.retryAfter) / MinuteSecs == now / MinuteSecs + 1
                              && (now + r.retryAfter) % MinuteSecs == 0
    {
      if limits.tpm.None? && limits.budget.None? {
        return Allowed;
      }
      if s !in entries {
        return Allowed;
      }
      var e := entries[s];
      if limits.budget.Some? && e.total >= limits.budget.value {
        return OverBudget;
      }
      if limits.tpm.Some? && e.minute == now / MinuteSecs && e.inMinute >= limits.tpm.value {
        return OverRate(MinuteSecs - now % MinuteSecs);
      }
      return Allowed;
    }

    method ChargeAt(s: Subject, prompt: nat, completion: nat, now: nat)
      modifies this
      ensures entries == Charged(old(entries), s, prompt + completion, now)
    {
      var tokens := prompt + completion;
      var e := if s in entries then entries[s] else Unused;
      e := e.(total := Wrap(e.total + tokens));
      var minute := now / MinuteSecs;
      if e.minute != minute {
        e := e.(minute := minute, inMinute := 0);
      }
      e := e.(inMinute := Wrap(e.inMinute + tokens));
      entries := entries[s := e];
    }

    /** The totals written to the usage file. */
    method Persist() returns (saved: map<Subject, nat>)
      ensures saved.Keys == entries.Keys && forall s :: s in saved ==> saved[s] == entries[s].total
    {
      saved := map s | s in entries :: entries[s].total;
    }
  }

  // ---------------------------------------------------------------------
  // What a refusal means
  // ---------------------------------------------------------------------

  /** A caller refused for the rate that asks again after the time it was told
      is let through, if nothing was charged to it since. */
  lemma {:induction false} RetryAfterIsEnough(entries: Entries, s: Subject, limits: Limits, now: nat)
    requires Check(entries, s, limits, now).OverRate?
    ensures Check(entries, s, limits, now + Check(entries, s, limits, now).retryAfter) == Allowed
  {
    NextMinute(now);
  }

  /** And not a second sooner. */
  lemma {:induction false} RetryAfterIsNeeded(entries: Entries, s: Subject, limits: Limits, now: nat, wait: nat)
    requires Check(entries, s, limits, now).OverRate? && wait < Check(entries, s, limits, now).retryAfter
    ensures Check(entries, s, limits, now + wait).OverRate?
  {
    SameMinute(now, wait);
  }

  lemma {:induction false} NextMinute(now: nat)
    ensures (now + (MinuteSecs - now % MinuteSecs)) / MinuteSecs == now / MinuteSecs + 1
  {
  }

  lemma {:induction false} SameMinute(now: nat, wait: nat)
    requires wait < MinuteSecs - now % MinuteSecs
    ensures (now + wait) / MinuteSecs == now / MinuteSecs
  {
  }

  /** A rate refusal comes only from a rate limit that is reached, with the
      budget, if there is one, not spent. */
  lemma {:induction false} RateRefusalMeans(entries: Entries, s: Subject, limits: Limits, now: nat)
    ensures Check(entries, s, limits, now).OverRate? <==>
            && s in entries && limits.tpm.Some? && entries[s].minute == now / MinuteSecs
            && entries[s].inMinute >= limits.tpm.value
            && (limits.budget.Some? ==> entries[s].total < limits.budget.value)
  {
  }

  /** Persisting and reopening preserves every total. */
  method Reopen(before: Ledger) returns (after: Ledger)
    ensures forall s :: At(after.entries, s).total == At(before.entries, s).total
    ensures forall s :: s in after.entries <==> s in before.entries
  {
    var saved := before.Persist();
    after := new Ledger.Open(saved);
  }

  // ---------------------------------------------------------------------
  // Totals and windows over whole runs
  // ---------------------------------------------------------------------

  datatype Charge = Charge(subject: Subject, tokens: nat, now: nat)

  function After(charges: seq<Charge>): Entries {
    if charges == [] then map[]
    else
      var c := charges[|charges| - 1];
      Charged(After(charges[..|charges| - 1]), c.subject, c.tokens, c.now)
  }

  /** Everything charged to `s`, and what of it fell in one minute. */
  function Spent(charges: seq<Charge>, s: Subject): nat {
    if charges == [] then 0
    else
      var c := charges[|charges| - 1];
      Spent(charges[..|charges| - 1], s) + (if c.subject == s then c.tokens else 0)
  }

  function SpentIn(charges: seq<Charge>, s: Subject, minute: nat): nat {
    if charges == [] then 0
    else
      var c := charges[|charges| - 1];
      SpentIn(charges[..|charges| - 1], s, minute)
      + (if c.subject == s && c.now / MinuteSecs == minute then c.tokens else 0)
  }

  /** The lifetime total is the sum of all charges to the key, as far as 64
      bits can say. */
  lemma {:induction false} TotalIsSum(charges: seq<Charge>, s: Subject)
    ensures At(After(charges), s).total == Wrap(Spent(charges, s))
  {
    hide Wrap;
    NothingWraps();
    if charges != [] {
      TotalIsSum(charges[..|charges| - 1], s);
      WrapAdds(Spent(charges[..|charges| - 1], s), charges[|charges| - 1].tokens);
    }
  }

  lemma {:induction false} WrapAdds(a: nat, b: nat)
    ensures Wrap(Wrap(a) + b) == Wrap(a + b)
  {
  }

  lemma {:induction false} NothingWraps()
    ensures Wrap(0) == 0
  {
  }

  /** What was charged in `minute` before the last charge of another minute:
      exactly what the window forgets. */
  function Forgotten(charges: seq<Charge>, s: Subject, minute: nat): (f: nat)
    ensures f <= SpentIn(charges, s, minute)
  {
    if charges == [] then 0
    else
      var before, c := charges[..|charges| - 1], charges[|charges| - 1];
      if c.subject == s && c.now / MinuteSecs != minute then SpentIn(before, s, minute)
      else Forgotten(before, s, minute)
  }

  /** A caller refused for its budget is refused at every later time, however
      much is charged meanwhile, as long as its total fits 64 bits. */
  lemma {:induction false} BudgetRefusalIsFinal(before: seq<Charge>, more: seq<Charge>, s: Subject, limits: Limits,
                                                now: nat, later: nat)
    requires Check(After(before), s, limits, now) == OverBudget && Spent(before + more, s) < Word64
    ensures Check(After(before + more), s, limits, later) == OverBudget
  {
    TotalIsSum(before, s);
    TotalIsSum(before + more, s);
    SpentGrows(before, more, s);
    StaysKnown(before, more, s);
  }

  lemma {:induction false} SpentGrows(before: seq<Charge>, more: seq<Charge>, s: Subject)
    ensures Spent(before, s) <= Spent(before + more, s)
    decreases |more|
  {
    if more == [] {
      assert before + more == before;
    } else {
      SpentGrows(before, more[..|more| - 1], s);
      assert (before + more)[..|before + more| - 1] == before + more[..|more| - 1];
    }
  }

  lemma {:induction false} StaysKnown(before: seq<Charge>, more: seq<Charge>, s: Subject)
    requires s in After(before)
    ensures s in After(before + more)
    decreases |more|
  {
    if more == [] {
      assert before + more == before;
    } else {
      StaysKnown(before, more[..|more| - 1], s);
      assert (before + more)[..|before + more| - 1] == before + more[..|more| - 1];
    }
  }

  /** The window of a minute holds that minute's charges less what it forgot. */
  lemma {:induction false} WindowHolds(charges: seq<Charge>, s: Subject, minute: nat)
    ensures var e := At(After(charges), s);
            (if e.minute == minute then e.inMinute else 0)
              == Wrap(SpentIn(charges, s, minute) - Forgotten(charges, s, minute))
  {
    hide Wrap;
    NothingWraps();
    if charges != [] {
      var before, c := charges[..|charges| - 1], charges[|charges| - 1];
      WindowHolds(before, s, minute);
      WrapAdds(SpentIn(before, s, minute) - Forgotten(before, s, minute), c.tokens);
    }
  }

  /** On any clock, the window is exact for a minute if and only if what was
      charged in it before a charge of another minute adds up to nothing. */
  lemma {:induction false} WindowExactIff(charges: seq<Charge>, s: Subject, now: nat)
    ensures ThisMinute(At(After(charges), s), now) == Wrap(SpentIn(charges, s, now / MinuteSecs)) <==>
              Wrap(Forgotten(charges, s, now / MinuteSecs)) == 0
  {
    WindowHolds(charges, s, now / MinuteSecs);
    WrapLess(SpentIn(charges, s, now / MinuteSecs), Forgotten(charges, s, now / MinuteSecs));
  }

  lemma {:induction false} WrapLess(a: nat, b: nat)
    requires b <= a
    ensures Wrap(a - b) == Wrap(a) <==> Wrap(b) == 0
  {
    assert a == Word64 * (a / Word64) + Wrap(a) && b == Word64 * (b / Word64) + Wrap(b);
    var d, q := a - b, a / Word64 - b / Word64;
    assert d == Word64 * q + (Wrap(a) - Wrap(b));
    if Wrap(b) == 0 {
      Shifted(Wrap(a), q);
    }
    if Wrap(a - b) == Wrap(a) {
      assert b == Word64 * (a / Word64 - d / Word64);
      Shifted(0, a / Word64 - d / Word64);
    }
  }

  lemma {:induction false} Shifted(r: nat, q: int)
    requires r < Word64
    ensures (Word64 * q + r) % Word64 == r
  {
  }

  ghost predicate Monotone(charges: seq<Charge>) {
    forall i, j :: 0 <= i <= j < |charges| ==> charges[i].now <= charges[j].now
  }

  lemma {:induction false} NothingForgotten(charges: seq<Charge>, s: Subject, minute: nat)
    requires Monotone(charges) && (charges != [] ==> charges[|charges| - 1].now / MinuteSecs <= minute)
    ensures Forgotten(charges, s, minute) == 0
  {
    if charges != [] {
      var before, c := charges[..|charges| - 1], charges[|charges| - 1];
      assert before != [] ==> before[|before| - 1] == charges[|before| - 1];
      if c.subject == s && c.now / MinuteSecs != minute {
        NoneYet(before, s, minute);
      } else {
        NothingForgotten(before, s, minute);
      }
    }
  }

  lemma {:induction false} NoneYet(charges: seq<Charge>, s: Subject, minute: nat)
    requires forall i :: 0 <= i < |charges| ==> charges[i].now / MinuteSecs < minute
    ensures SpentIn(charges, s, minute) == 0
  {
    if charges != [] {
      NoneYet(charges[..|charges| - 1], s, minute);
    }
  }

  /** With a clock that never goes back the window holds exactly the charges
      of its minute, at every later reading. */
  lemma {:induction false} WindowIsExact(charges: seq<Charge>, s: Subject, now: nat)
    requires Monotone(charges) && (charges != [] ==> charges[|charges| - 1].now <= now)
    ensures ThisMinute(At(After(charges), s), now) == Wrap(SpentIn(charges, s, now / MinuteSecs))
  {
    NothingForgotten(charges, s, now / MinuteSecs);
    WindowHolds(charges, s, now / MinuteSecs);
  }

  // ---------------------------------------------------------------------
  // Concurrent check-then-charge
  // ---------------------------------------------------------------------

  type Request = nat

  /** The moment a limit was reached: what had been used before the charge that
      reached it, and every request then in flight, that one included. */
  datatype Reach = Reach(base: nat, flight: map<Request, nat>)

  /** The ledger, the clock, and the requests of one key that passed their
      check and are not yet charged. */
  datatype Desk = Desk(entries: Entries, now: nat, inFlight: map<Request, nat>, reached: Option<Reach>)

  datatype Kind = Budget | PerMinute

  function LimitOf(kind: Kind, limit: nat): Limits {
    if kind.Budget? then Limits(None, Some(limit)) else Limits(Some(limit), None)
  }

  /** What counts against the limit. */
  function Used(kind: Kind, d: Desk, s: Subject): nat {
    if kind.Budget? then At(d.entries, s).total else ThisMinute(At(d.entries, s), d.now)
  }

  datatype Step =
    | Dispatch(id: Request, size: nat)
    | Settle(id: Request)
    | ChargeOther(subject: Subject, tokens: nat)
    | Tick(to: nat)

  /** A request is dispatched only when its check passes, and the clock never
      goes back. Charges stop short of 2^64 tokens. */
  predicate Enabled(kind: Kind, limit: nat, s: Subject, d: Desk, e: Step) {
    match e
    case Dispatch(id, _) => id !in d.inFlight && Check(d.entries, s, LimitOf(kind, limit), d.now) == Allowed
    case Settle(id) =>
      id in d.inFlight && At(d.entries, s).total + d.inFlight[id] < Word64 && Used(kind, d, s) + d.inFlight[id] < Word64
    case ChargeOther(t, _) => t != s
    case Tick(to) => d.now <= to
  }

  function Next(kind: Kind, limit: nat, s: Subject, d: Desk, e: Step): Desk
    requires Enabled(kind, limit, s, d, e)
  {
    match e
    case Dispatch(id, size) => d.(inFlight := d.inFlight[id := size])
    case Settle(id) =>
      var used := Used(kind, d, s);
      d.(entries := Charged(d.entries, s, d.inFlight[id], d.now), inFlight := d.inFlight - {id},
         reached :=
           if d.reached.None? && used + d.inFlight[id] >= limit then Some(Reach(used, d.inFlight)) else d.reached)
    case ChargeOther(t, tokens) => d.(entries := Charged(d.entries, t, tokens, d.now))
    case Tick(to) =>
      d.(now := to, reached := if kind.PerMinute? && to / MinuteSecs != d.now / MinuteSecs then None else d.reached)
  }

  /** Below the limit until it is reached; then what is used and what is still
      in flight add up to what was used and in flight at that moment. */
  ghost predicate Accounted(kind: Kind, limit: nat, s: Subject, d: Desk) {
    && At(d.entries, s).minute <= d.now / MinuteSecs
    && match d.reached
       case None => Used(kind, d, s) < limit
       case Some(r) =>
         r.base < limit <= Used(kind, d, s) && Used(kind, d, s) + Sum(d.inFlight) == r.base + Sum(r.flight)
  }

  /** A check passes exactly while the key is under its limit. */
  lemma {:induction false} CheckMeansUnder(kind: Kind, limit: nat, s: Subject, d: Desk)
    requires limit >= 1
    ensures Check(d.entries, s, LimitOf(kind, limit), d.now) == Allowed <==> Used(kind, d, s) < limit
  {
  }

  /** A budget of zero refuses exactly the keys that were charged before. */
  lemma {:induction false} ZeroBudgetIff(entries: Entries, s: Subject, now: nat)
    ensures Check(entries, s, LimitOf(Budget, 0), now) == Allowed <==> s !in entries
  {
  }

  /** A charge adds its tokens to what counts. */
  lemma {:induction false} ChargeCounts(kind: Kind, d: Desk, s: Subject, tokens: nat)
    requires At(d.entries, s).total + tokens < Word64 && Used(kind, d, s) + tokens < Word64
    ensures Used(kind, d.(entries := Charged(d.entries, s, tokens, d.now)), s) == Used(kind, d, s) + tokens
  {
  }

  lemma {:induction false} StepAccounted(kind: Kind, limit: nat, s: Subject, d: Desk, e: Step)
    requires limit >= 1 && Accounted(kind, limit, s, d) && Enabled(kind, limit, s, d, e)
    ensures Accounted(kind, limit, s, Next(kind, limit, s, d, e))
  {
    hide Sum;
    CheckMeansUnder(kind, limit, s, d);
    if e.Settle? {
      SumRemove(d.inFlight, e.id);
      ChargeCounts(kind, d, s, d.inFlight[e.id]);
      var d' := Next(kind, limit, s, d, e);
      assert Used(kind, d', s) == Used(kind, d, s) + d.inFlight[e.id];
    }
  }

  ghost predicate Reaches(kind: Kind, limit: nat, s: Subject, d: Desk, steps: seq<Step>, d': Desk)
    decreases |steps|
  {
    if steps == [] then d' == d
    else
      && Enabled(kind, limit, s, d, steps[0])
      && Reaches(kind, limit, s, Next(kind, limit, s, d, steps[0]), steps[1..], d')
  }

  /**
  However checks and charges interleave, a key with a limit of at least one
  token stays below it until it is reached. From then on nothing new is
  dispatched, and once the requests in flight at that moment are charged what
  is used is exactly what was used before plus all their sizes.
  */
  lemma {:induction false} OvershootIsExact(kind: Kind, limit: nat, s: Subject, d: Desk, steps: seq<Step>, d': Desk)
    requires limit >= 1 && Accounted(kind, limit, s, d) && Reaches(kind, limit, s, d, steps, d')
    ensures Accounted(kind, limit, s, d')
    ensures d'.reached.None? ==> Used(kind, d', s) < limit
    ensures d'.reached.Some? ==>
      d'.reached.value.base < limit && Used(kind, d', s) <= d'.reached.value.base + Sum(d'.reached.value.flight)
    ensures d'.reached.Some? && d'.inFlight == map[] ==>
      Used(kind, d', s) == d'.reached.value.base + Sum(d'.reached.value.flight)
    decreases |steps|
  {
    hide Enabled, Next, Used;
    if steps != [] {
      StepAccounted(kind, limit, s, d, steps[0]);
      OvershootIsExact(kind, limit, s, Next(kind, limit, s, d, steps[0]), steps[1..], d');
    } else {
      SumNonNegative(d.inFlight);
    }
  }

  /** The key that reached its limit ends less than one request's own size
      above it, if and only if the others in flight would have fitted. */
  lemma {:induction false} WithinOwnSizeIff(r: Reach, limit: nat, id: Request)
    requires id in r.flight
    ensures r.base + Sum(r.flight) < limit + r.flight[id] <==> r.base + Sum(r.flight - {id}) < limit
  {
    SumRemove(r.flight, id);
  }

  lemma {:induction false} Cons(kind: Kind, limit: nat, s: Subject, d: Desk, e: Step, rest: seq<Step>, d': Desk)
    requires Enabled(kind, limit, s, d, e) && Reaches(kind, limit, s, Next(kind, limit, s, d, e), rest, d')
    ensures Reaches(kind, limit, s, d, [e] + rest, d')
  {
    assert ([e] + rest)[1..] == rest;
  }

  /** Two requests in flight overshoot by more than either one's size. */
  lemma {:induction false} TwoInFlightExample(s: Subject)
    ensures exists d ::
      && Reaches(Budget, 1, s, Desk(map[], 0, map[], None),
                 [Dispatch(0, 10)] + ([Dispatch(1, 10)] + ([Settle(0)] + ([Settle(1)] + []))), d)
      && Used(Budget, d, s) == 20
  {
    var d0 := Desk(map[], 0, map[], None);
    var d1 := Next(Budget, 1, s, d0, Dispatch(0, 10));
    var d2 := Next(Budget, 1, s, d1, Dispatch(1, 10));
    var d3 := Next(Budget, 1, s, d2, Settle(0));
    var d4 := Next(Budget, 1, s, d3, Settle(1));
    assert Used(Budget, d4, s) == 20;
    hide Next, Enabled, Used;
    Cons(Budget, 1, s, d3, Settle(1), [], d4);
    Cons(Budget, 1, s, d2, Settle(0), [Settle(1)] + [], d4);
    Cons(Budget, 1, s, d1, Dispatch(1, 10), [Settle(0)] + ([Settle(1)] + []), d4);
    Cons(Budget, 1, s, d0, Dispatch(0, 10), [Dispatch(1, 10)] + ([Settle(0)] + ([Settle(1)] + [])), d4);
  }

  /** A key nobody charged yet passes its check even with a budget of zero. */
  method ZeroBudgetExample() returns (r: Verdict)
    ensures r == Allowed
  {
    var ledger := new Ledger();
    r := ledger.CheckAt("key", Limits(None, Some(0)), 0);
  }
}
