/**
The shared rate limiter: a token bucket per key, read, refilled, charged and
written back by one atomic script. Tokens are counted in thousandths, so that
a refill of `rps` tokens a second is `rps` thousandths a millisecond.
*/
module TokenBucket {
  import opened Wrappers

  datatype Config = Config(burst: nat, rps: nat) {
    predicate Valid() { burst >= 1 && rps >= 1 }

    function Cap(): nat { 1000 * burst }

    /** Thousandths of a token gained in `ms` milliseconds. */
    function Refill(ms: nat): nat { ms * rps }

    /** How long an idle key is kept. */
    function TtlMs(): nat
      requires Valid()
    {
      var t := burst * 5000 / rps;
      if t < 1000 then 1000 else t
    }
  }

  function Connect(rps: nat, burst: nat): (c: Config)
    ensures c.Valid() && (rps >= 1 ==> c.rps == rps) && (burst >= 1 ==> c.burst == burst)
    ensures (rps == 0 ==> c.rps == 1) && (burst == 0 ==> c.burst == 1)
  {
    Config(if burst < 1 then 1 else burst, if rps < 1 then 1 else rps)
  }

  datatype Bucket = Bucket(milli: nat, last: nat)

  function Elapsed(now: nat, last: nat): nat { if now < last then 0 else now - last }

  /** Tokens available at `now`, before the charge. */
  function Available(c: Config, b: Option<Bucket>, now: nat): (t: nat)
    ensures t <= c.Cap()
  {
    if b.None? then c.Cap()
    else
      var t := b.value.milli + c.Refill(Elapsed(now, b.value.last));
      if t < c.Cap() then t else c.Cap()
  }

  function Charged(c: Config, b: Option<Bucket>, now: nat): (bool, Bucket) {
    var t := Available(c, b, now);
    if t >= 1000 then (true, Bucket(t - 1000, now)) else (false, Bucket(t, now))
  }

  /** The store drops a key that was not written for the configured time. */
  function Expire(c: Config, b: Option<Bucket>, now: nat): Option<Bucket>
    requires c.Valid()
  {
    if b.Some? && now >= b.value.last + c.TtlMs() then None else b
  }

  /** The decisions for a run of checks on one key, with or without expiry. */
  function Decisions(c: Config, b: Option<Bucket>, times: seq<nat>, expiring: bool): (r: seq<bool>)
    requires c.Valid()
    ensures |r| == |times|
    decreases |times|
  {
    if times == [] then []
    else
      var seen := if expiring then Expire(c, b, times[0]) else b;
      var (ok, b') := Charged(c, seen, times[0]);
      [ok] + Decisions(c, Some(b'), times[1..], expiring)
  }

  // ---------------------------------------------------------------------
  // Expiry never changes a decision
  // ---------------------------------------------------------------------

  /** An idle key is kept at least as long as it takes to fill up. */
  lemma {:induction false} TtlCoversRefill(c: Config)
    requires c.Valid()
    ensures c.Refill(c.TtlMs()) >= c.Cap()
  {
    var whole := c.burst * 5000;
    var t := whole / c.rps;
    assert t * c.rps + whole % c.rps == whole;
    if c.rps <= 4000 * c.burst + 1 {
      assert t * c.rps >= whole - (c.rps - 1);
      Grow(t, c.TtlMs(), c.rps);
    } else {
      Grow(1000, c.TtlMs(), c.rps);
    }
  }

  /** It is kept for five fills, in whole milliseconds, and at least a second. */
  lemma {:induction false} TtlIsFiveFills(c: Config, t: nat)
    requires c.Valid()
    ensures t <= c.TtlMs() <==> t <= 1000 || c.Refill(t) <= 5 * c.Cap()
  {
    var whole := c.burst * 5000;
    var k := whole / c.rps;
    assert k * c.rps + whole % c.rps == whole;
    if t <= k {
      Grow(t, k, c.rps);
    } else {
      Grow(k + 1, t, c.rps);
    }
  }

  lemma {:induction false} Grow(a: nat, b: nat, k: nat)
    requires a <= b
    ensures a * k <= b * k
  {
  }

  lemma {:induction false} ExpireKeepsAvailable(c: Config, b: Option<Bucket>, now: nat)
    requires c.Valid()
    ensures Available(c, Expire(c, b, now), now) == Available(c, b, now)
  {
    if Expire(c, b, now) != b {
      TtlCoversRefill(c);
      Grow(c.TtlMs(), now - b.value.last, c.rps);
    }
  }

  /** Whenever the store drops a key, by whatever clock, the tokens available
      are unchanged if and only if the bucket would have been full by now. */
  lemma {:induction false} DropInvisibleIff(c: Config, b: Bucket, now: nat)
    ensures Available(c, None, now) == Available(c, Some(b), now) <==>
            b.milli + c.Refill(Elapsed(now, b.last)) >= c.Cap()
  {
  }

  /** Dropping idle keys never changes a decision, on any run of any clock. */
  lemma {:induction false} ExpiryIsInvisible(c: Config, b: Option<Bucket>, times: seq<nat>)
    requires c.Valid()
    ensures Decisions(c, b, times, true) == Decisions(c, b, times, false)
    decreases |times|
  {
    if times != [] {
      ExpireKeepsAvailable(c, b, times[0]);
      ExpiryIsInvisible(c, Some(Charged(c, b, times[0]).1), times[1..]);
    }
  }

  // ---------------------------------------------------------------------
  // The rate bound
  // ---------------------------------------------------------------------

  function Admitted(r: seq<bool>): nat {
    if r == [] then 0 else (if r[0] then 1 else 0) + Admitted(r[1..])
  }

  /** How far the clock moved forward in all, backward moves not counted. */
  function Forward(times: seq<nat>): nat {
    if |times| < 2 then 0 else Elapsed(times[1], times[0]) + Forward(times[1..])
  }

  /** On any clock, what is admitted is paid for by the bucket and the refill. */
  lemma {:induction false} PaidFor(c: Config, b: Option<Bucket>, times: seq<nat>)
    requires c.Valid() && times != []
    ensures 1000 * Admitted(Decisions(c, b, times, false)) <= Available(c, b, times[0]) + c.Refill(Forward(times))
    decreases |times|
  {
    hide Config.Refill;
    var (ok, b') := Charged(c, b, times[0]);
    var rest := times[1..];
    var r := Decisions(c, b, times, false);
    assert r[1..] == Decisions(c, Some(b'), rest, false);
    if rest != [] {
      PaidFor(c, Some(b'), rest);
      RefillAdds(c, Elapsed(times[1], times[0]), Forward(rest));
    }
  }

  lemma {:induction false} RefillAdds(c: Config, a: nat, b: nat)
    ensures c.Refill(a + b) == c.Refill(a) + c.Refill(b)
  {
  }

  // ---------------------------------------------------------------------
  // Exactly who is admitted
  // ---------------------------------------------------------------------

  /** What a key that was full at check `j` can still spend at check `i`: the
      burst and the refill since, less what was admitted since. */
  function Left(c: Config, times: seq<nat>, decided: seq<bool>, j: nat, i: nat): int
    requires j <= i < |times| == |decided|
  {
    1000 * c.burst + c.Refill(Forward(times[j..i + 1])) - 1000 * Admitted(decided[j..i])
  }

  lemma {:induction false} RefillIs(c: Config, ms: nat)
    ensures c.Refill(ms) == c.rps * ms
  {
  }

  lemma {:induction false} ForwardMore(times: seq<nat>, j: nat, i: nat)
    requires j <= i && i + 1 < |times|
    ensures Forward(times[j..i + 2]) == Forward(times[j..i + 1]) + Elapsed(times[i + 1], times[i])
    decreases i - j
  {
    if j < i {
      ForwardMore(times, j + 1, i);
      assert times[j..i + 2][1..] == times[j + 1..i + 2] && times[j..i + 1][1..] == times[j + 1..i + 1];
    } else {
      assert times[j..i + 2][1..] == [times[i + 1]];
    }
  }

  lemma {:induction false} AdmittedMore(r: seq<bool>, x: bool)
    ensures Admitted(r + [x]) == Admitted(r) + (if x then 1 else 0)
  {
    if r == [] {
      assert [x][1..] == [];
    } else {
      assert (r + [x])[1..] == r[1..] + [x];
      AdmittedMore(r[1..], x);
    }
  }

  lemma {:induction false} LeftMore(c: Config, times: seq<nat>, decided: seq<bool>, j: nat, i: nat)
    requires j <= i && i + 1 < |times| == |decided|
    ensures Left(c, times, decided, j, i + 1) ==
            Left(c, times, decided, j, i) + c.Refill(Elapsed(times[i + 1], times[i])) - (if decided[i] then 1000 else 0)
  {
    hide Config.Refill, Forward, Elapsed;
    ForwardMore(times, j, i);
    assert decided[j..i + 1] == decided[j..i] + [decided[i]];
    AdmittedMore(decided[j..i], decided[i]);
    RefillAdds(c, Forward(times[j..i + 1]), Elapsed(times[i + 1], times[i]));
  }

  lemma {:induction false} LeftNow(c: Config, times: seq<nat>, decided: seq<bool>, i: nat)
    requires i < |times| == |decided|
    ensures Left(c, times, decided, i, i) == c.Cap()
  {
    assert |times[i..i + 1]| == 1 && decided[i..i] == [];
  }

  /** The tokens available at a check are what the tightest window leaves. */
  lemma {:induction false} AvailableIsTightest(c: Config, times: seq<nat>, i: nat) returns (j: nat)
    requires c.Valid() && i < |times|
    ensures var decided, t := Decisions(c, None, times, false), Available(c, StateAt(c, None, times, i), times[i]);
            && j <= i && t == Left(c, times, decided, j, i)
            && (forall k :: 0 <= k <= i ==> t <= Left(c, times, decided, k, i))
    decreases i
  {
    hide Decisions, Left, Config.Refill;
    var decided := Decisions(c, None, times, false);
    LeftNow(c, times, decided, i);
    if i == 0 {
      j := 0;
    } else {
      j := AvailableIsTightest(c, times, i - 1);
      DecisionAt(c, None, times, i - 1);
      forall k | 0 <= k <= i - 1
        ensures Left(c, times, decided, k, i) == Left(c, times, decided, k, i - 1)
                  + c.Refill(Elapsed(times[i], times[i - 1])) - (if decided[i - 1] then 1000 else 0)
      {
        LeftMore(c, times, decided, k, i - 1);
      }
      if Available(c, StateAt(c, None, times, i), times[i]) == c.Cap() {
        j := i;
      }
    }
  }

  /**
  Exactly who is admitted, on any clock, expiry included: a check of a key that
  started full is admitted if and only if it keeps every window that ends with
  it within the burst and the refill.
  */
  lemma {:induction false} AdmittedIff(c: Config, times: seq<nat>, i: nat)
    requires c.Valid() && i < |times|
    ensures var decided := Decisions(c, None, times, true);
            decided[i] <==>
            forall j :: 0 <= j <= i ==>
              1000 * (Admitted(decided[j..i]) + 1) <= 1000 * c.burst + c.rps * Forward(times[j..i + 1])
  {
    hide Decisions, StateAt, Config.Refill;
    ExpiryIsInvisible(c, None, times);
    var decided := Decisions(c, None, times, false);
    DecisionAt(c, None, times, i);
    var j := AvailableIsTightest(c, times, i);
    forall k | 0 <= k <= i
      ensures Left(c, times, decided, k, i) >= 1000 <==>
              1000 * (Admitted(decided[k..i]) + 1) <= 1000 * c.burst + c.rps * Forward(times[k..i + 1])
    {
      RefillIs(c, Forward(times[k..i + 1]));
    }
  }

  /** A caller whose checks are spaced by the refill of one token is never
      refused. */
  lemma {:induction false} SpacedIsAdmitted(c: Config, times: seq<nat>, i: nat)
    requires c.Valid() && i < |times|
    requires forall k :: 0 <= k && k + 1 < |times| ==> 1000 <= c.Refill(Elapsed(times[k + 1], times[k]))
    ensures Decisions(c, None, times, true)[i]
  {
    hide Decisions, Config.Refill;
    var decided := Decisions(c, None, times, true);
    AdmittedIff(c, times, i);
    forall j | 0 <= j <= i
      ensures 1000 * (Admitted(decided[j..i]) + 1) <= 1000 * c.burst + c.rps * Forward(times[j..i + 1])
    {
      SpacedRefill(c, times, j, i);
      RefillIs(c, Forward(times[j..i + 1]));
      AtMostAll(decided[j..i]);
    }
  }

  lemma {:induction false} AtMostAll(r: seq<bool>)
    ensures Admitted(r) <= |r|
  {
    if r != [] {
      AtMostAll(r[1..]);
    }
  }

  lemma {:induction false} SpacedRefill(c: Config, times: seq<nat>, j: nat, i: nat)
    requires j <= i < |times|
    requires forall k :: 0 <= k && k + 1 < |times| ==> 1000 <= c.Refill(Elapsed(times[k + 1], times[k]))
    ensures c.Refill(Forward(times[j..i + 1])) >= 1000 * (i - j)
    decreases i - j
  {
    hide Config.Refill, Forward, Elapsed;
    if j < i {
      SpacedRefill(c, times, j, i - 1);
      ForwardMore(times, j, i - 1);
      RefillAdds(c, Forward(times[j..i]), Elapsed(times[i], times[i - 1]));
    }
  }

  ghost predicate Monotone(times: seq<nat>) {
    forall i, j :: 0 <= i <= j < |times| ==> times[i] <= times[j]
  }

  lemma {:induction false} ForwardIsSpan(times: seq<nat>)
    requires Monotone(times) && times != []
    ensures Forward(times) == times[|times| - 1] - times[0]
  {
    if |times| > 1 {
      assert Monotone(times[1..]);
      ForwardIsSpan(times[1..]);
    }
  }

  /** On a clock that never goes back, in clock readings alone. */
  lemma {:induction false} AdmittedIffInTime(c: Config, times: seq<nat>, i: nat)
    requires c.Valid() && i < |times| && Monotone(times)
    ensures var decided := Decisions(c, None, times, true);
            decided[i] <==>
            forall j :: 0 <= j <= i ==>
              1000 * (Admitted(decided[j..i]) + 1) <= 1000 * c.burst + c.rps * (times[i] - times[j])
  {
    hide Decisions, Forward, Admitted;
    AdmittedIff(c, times, i);
    forall j | 0 <= j <= i
      ensures Forward(times[j..i + 1]) == times[i] - times[j]
    {
      ForwardIsSpan(times[j..i + 1]);
    }
  }

  /** The state before check `i`. */
  function StateAt(c: Config, b: Option<Bucket>, times: seq<nat>, i: nat): Option<Bucket>
    requires i <= |times|
    decreases i
  {
    if i == 0 then b else Some(Charged(c, StateAt(c, b, times, i - 1), times[i - 1]).1)
  }

  lemma {:induction false} DecisionAt(c: Config, b: Option<Bucket>, times: seq<nat>, i: nat)
    requires c.Valid() && i < |times|
    ensures Decisions(c, b, times, false)[i] == Charged(c, StateAt(c, b, times, i), times[i]).0
    decreases i
  {
    if i > 0 {
      var b' := Some(Charged(c, b, times[0]).1);
      DecisionAt(c, b', times[1..], i - 1);
      StateShift(c, b, times, i);
    }
  }

  lemma {:induction false} StateShift(c: Config, b: Option<Bucket>, times: seq<nat>, i: nat)
    requires c.Valid() && 0 < i <= |times|
    ensures StateAt(c, b, times, i) == StateAt(c, Some(Charged(c, b, times[0]).1), times[1..], i - 1)
    decreases i
  {
    if i > 1 {
      StateShift(c, b, times, i - 1);
    }
  }

  lemma {:induction false} StateSlice(c: Config, b: Option<Bucket>, times: seq<nat>, i: nat, j: nat, k: nat)
    requires c.Valid() && i + k <= j <= |times|
    ensures StateAt(c, b, times, i + k) == StateAt(c, StateAt(c, b, times, i), times[i..j], k)
    decreases k
  {
    if k > 0 {
      StateSlice(c, b, times, i, j, k - 1);
    }
  }

  lemma {:induction false} WindowIsRun(c: Config, b: Option<Bucket>, times: seq<nat>, i: nat, j: nat)
    requires c.Valid() && i <= j <= |times|
    ensures Decisions(c, b, times, false)[i..j] == Decisions(c, StateAt(c, b, times, i), times[i..j], false)
  {
    hide Decisions, StateAt, Charged;
    forall k | 0 <= k < j - i
      ensures Decisions(c, b, times, false)[i + k] == Decisions(c, StateAt(c, b, times, i), times[i..j], false)[k]
    {
      DecisionAt(c, b, times, i + k);
      DecisionAt(c, StateAt(c, b, times, i), times[i..j], k);
      StateSlice(c, b, times, i, j, k);
    }
  }

  /**
  In every run on a clock that never goes back, expiry included, the checks
  admitted from check `i` to check `j - 1` number at most the burst plus the
  refill over the time between them.
  */
  lemma {:induction false} WindowBound(c: Config, times: seq<nat>, i: nat, j: nat)
    requires c.Valid() && Monotone(times) && i < j <= |times|
    ensures 1000 * Admitted(Decisions(c, None, times, true)[i..j]) <= 1000 * c.burst + (times[j - 1] - times[i]) * c.rps
  {
    ExpiryIsInvisible(c, None, times);
    WindowIsRun(c, None, times, i, j);
    var window := times[i..j];
    PaidFor(c, StateAt(c, None, times, i), window);
    ForwardIsSpan(window);
  }

  function Span(from: nat, to: nat): int { to as int - from as int }

  /** The promised bound for the checks from `i` to `j - 1`. */
  ghost predicate Meets(c: Config, times: seq<nat>, i: nat, j: nat)
    requires c.Valid() && i < j <= |times|
  {
    1000 * Admitted(Decisions(c, None, times, true)[i..j]) <= 1000 * c.burst + Span(times[i], times[j - 1]) * c.rps
  }

  /** Every window of a run meets the bound under every configuration, if and
      only if the clock never goes back. */
  lemma {:induction false} BoundIffMonotone(times: seq<nat>)
    ensures Monotone(times) <==>
            forall c: Config, i: nat, j: nat :: c.Valid() && i < j <= |times| ==> Meets(c, times, i, j)
  {
    if Monotone(times) {
      forall c: Config, i: nat, j: nat | c.Valid() && i < j <= |times|
        ensures Meets(c, times, i, j)
      {
        WindowBound(c, times, i, j);
      }
    } else {
      var k := StepBack(times);
      BackwardStepBreaks(times, k);
    }
  }

  lemma {:induction false} StepBack(times: seq<nat>) returns (k: nat)
    requires !Monotone(times)
    ensures k + 1 < |times| && times[k] > times[k + 1]
  {
    var i, j :| 0 <= i <= j < |times| && times[i] > times[j];
    k := i;
    while times[k] <= times[k + 1]
      invariant i <= k < j && times[k] >= times[i]
      decreases j - k
    {
      k := k + 1;
    }
  }

  /** A burst that covers every check so far admits them all. */
  lemma {:induction false} Covered(c: Config, times: seq<nat>, i: nat)
    requires c.Valid() && i < |times| && i <= c.burst
    ensures Available(c, StateAt(c, None, times, i), times[i]) >= 1000 * (c.burst - i)
    decreases i
  {
    hide Config.Refill;
    if i > 0 {
      Covered(c, times, i - 1);
    }
  }

  lemma {:induction false} BackwardStepBreaks(times: seq<nat>, k: nat)
    requires k + 1 < |times| && times[k] > times[k + 1]
    ensures var c := Config(k + 2, 1000 * k + 1);
            c.Valid() && !Meets(c, times, k, k + 2)
  {
    var c := Config(k + 2, 1000 * k + 1);
    hide Decisions, Config.Refill, StateAt;
    Covered(c, times, k);
    Covered(c, times, k + 1);
    DecisionAt(c, None, times, k);
    DecisionAt(c, None, times, k + 1);
    ExpiryIsInvisible(c, None, times);
    var window := Decisions(c, None, times, true)[k..k + 2];
    assert window == [true, true] && window[1..] == [true] && [true][1..] == [];
    assert Admitted(window) == 2;
    var owed := Span(times[k], times[k + 1]) * c.rps;
    Deficit(Span(times[k], times[k + 1]), c.rps);
    assert owed <= 0 - (1000 * k + 1);
    assert times[k + 2 - 1] == times[k + 1];
  }

  lemma {:induction false} Deficit(d: int, rps: nat)
    requires d < 0
    ensures d * rps <= 0 - rps
  {
  }

  /** The script stores every reading, so a clock that steps back refills the
      same time twice: three admissions within one second of a bucket of one
      token refilled once a second. */
  lemma {:induction false} BackwardClockExample()
    ensures Decisions(Config(1, 1), None, [0, 1000, 0, 1000], true) == [true, true, false, true]
  {
    var c := Config(1, 1);
    ExpiryIsInvisible(c, None, [0, 1000, 0, 1000]);
    assert [0, 1000, 0, 1000][1..] == [1000, 0, 1000];
    assert [1000, 0, 1000][1..] == [0, 1000] && [0, 1000][1..] == [1000] && [1000][1..] == [];
    assert Decisions(c, Some(Bucket(0, 0)), [1000], false) == [true];
    assert Decisions(c, Some(Bucket(0, 1000)), [0, 1000], false) == [false, true];
    assert Decisions(c, Some(Bucket(0, 0)), [1000, 0, 1000], false) == [true, false, true];
  }

  // ---------------------------------------------------------------------
  // The limiter
  // ---------------------------------------------------------------------

  class Limiter {
    const config: Config
    var store: map<string, Bucket>

    constructor (rps: nat, burst: nat)
      ensures config == Connect(rps, burst) && store == map[]
    {
      config, store := Connect(rps, burst), map[];
    }

    function Stored(key: string): Option<Bucket>
      reads this
    {
      if key in store then Some(store[key]) else None
    }

    /** One check of `key`, which the store may have dropped by its own clock.
        The other keys are untouched. The key's bucket decides, dropped or not,
        as long as a drop means the key was idle for its whole lifetime. */
    method Check(key: string, now: nat, dropped: bool) returns (admitted: bool)
      requires config.Valid()
      modifies this
      ensures var (admits, bucket) := Charged(config, if dropped then None else old(Stored(key)), now);
              admitted == admits && store == old(store)[key := bucket]
      ensures (dropped && old(Stored(key)).Some? ==> now >= old(Stored(key)).value.last + config.TtlMs()) ==>
        (admitted <==> Available(config, old(Stored(key)), now) >= 1000)
    {
      ghost var b0 := Stored(key);
      ExpireKeepsAvailable(config, b0, now);
      if dropped {
        store := store - {key};
      }
      var tokens, last := config.Cap(), now;
      if key in store {
        tokens, last := store[key].milli, store[key].last;
      }
      var delta := if now < last then 0 else now - last;
      tokens := if tokens + delta * config.rps < config.Cap() then tokens + delta * config.rps else config.Cap();
      assert tokens == Available(config, if dropped then None else b0, now);
      if tokens >= 1000 {
        tokens := tokens - 1000;
        admitted := true;
      } else {
        admitted := false;
      }
      store := store[key := Bucket(tokens, now)];
      assert store == old(store)[key := Bucket(tokens, now)];
    }
  }
}
