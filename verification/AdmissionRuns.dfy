/**
What holds over whole runs of the admission pool: a granted slot stays granted,
slots are lost in exactly one way, and no parked request is overtaken more
than its place in the rotation allows.
*/
module AdmissionRuns {
  import opened Admission

  ghost predicate Live(s: State, w: Waiter) { w in s.chan && s.chan[w].Pending? }

  /** From `s` to `s'` the waiters popped, in rotation order, were all gone but
      the last; that one was sent the slot, or nobody was live and the slot
      was freed. */
  ghost predicate Passed(s: State, s': State) {
    var n, m := |s.popped|, |s'.popped|;
    && s.popped <= s'.popped && s'.arrived == s.arrived && |s'.turn| <= |s.turn|
    && (forall k :: n <= k < m - 1 ==> !Live(s, s'.popped[k].1))
    && (if m > n && Live(s, s'.popped[m - 1].1)
        then s'.chan == s.chan[s'.popped[m - 1].1 := Sent] && s'.inflight == s.inflight
        else s'.chan == s.chan && s'.turn == [] && s'.inflight == s.inflight - 1)
  }

  lemma {:induction false} PassedAfterPop(s: State, s': State)
    requires Lined(s) && s.turn != [] && !Live(s, s.waiting[s.turn[0]][0]) && Passed(Pop(s), s')
    ensures Passed(s, s')
  {
    var p := Pop(s);
    assert forall w :: Live(p, w) <==> Live(s, w);
    assert s'.popped[|s.popped|] == p.popped[|s.popped|];
  }

  lemma {:induction false} PassedAtOnce(s: State, s': State)
    requires Lined(s) && s.turn != [] && Live(s, s.waiting[s.turn[0]][0])
    requires s' == Pop(s).(chan := s.chan[s.waiting[s.turn[0]][0] := Sent], permits := s'.permits)
    ensures Passed(s, s')
  {
  }

  /** A release skips waiters that are gone and sends the slot to the first
      live one in rotation; only when nobody is live is the slot freed. */
  lemma {:induction false} ReleaseOutcome(c: Config, s: State)
    requires Inv(c, s) && s.permits > 0
    ensures Passed(s, Released(s))
    decreases Parked(s.turn, s.waiting)
  {
    hide Linked, InOrder, Capped, Passed, Pop;
    if s.turn == [] {
      assert Passed(s, Released(s)) by {
        ReleaseKeeps(c, s);
        NothingToPop(s, Released(s));
      }
    } else {
      FrontKnown(s);
      PopShrinks(s);
      if s.chan[s.waiting[s.turn[0]][0]].Pending? {
        PassedAtOnce(s, Released(s));
      } else {
        PopKeepsInv(c, s);
        PopParts(s);
        ReleaseOutcome(c, Pop(s));
        PassedAfterPop(s, Released(s));
      }
    }
  }

  lemma {:induction false} NothingToPop(s: State, s': State)
    requires s.turn == [] && s.inflight > 0 && s' == s.(inflight := s.inflight - 1, permits := s'.permits)
    ensures Passed(s, s')
  {
  }

  lemma {:induction false} PopKeepsInv(c: Config, s: State)
    requires Inv(c, s) && s.turn != []
    requires s.waiting[s.turn[0]][0] in s.chan && !s.chan[s.waiting[s.turn[0]][0]].Pending?
    ensures Inv(c, Pop(s))
  {
    hide Linked, InOrder, Capped, Pop;
    PopKeeps(c, s);
    PopLinked(s);
    PopParts(s);
  }

  // ---------------------------------------------------------------------
  // Grants and losses
  // ---------------------------------------------------------------------

  /** A channel that was granted stays granted, one that ended without a slot
      stays so, and only a pending one can change its mind. */
  lemma {:induction false} StepChannels(c: Config, s: State, e: Step, w: Waiter)
    requires Inv(c, s) && Enabled(s, e) && w in s.chan
    ensures var s' := Next(c, s, e);
            && w in s'.chan
            && (s.chan[w].Granted() ==> s'.chan[w].Granted())
            && (s.chan[w].TimedOut? || s.chan[w].Gone? ==> s'.chan[w] == s.chan[w])
            && (s.chan[w].Closing? ==> s'.chan[w].Closing? || s'.chan[w].TimedOut?)
            && (s'.chan[w].TimedOut? && !s.chan[w].TimedOut? ==> s.chan[w].Closing?)
  {
    hide Inv, Released;
    if e == Release {
      ReleaseOutcome(c, s);
    }
  }

  /** A waiter that reports a wait timeout was never sent a slot, and never
      will be: granted at any time excludes timed out at any other. */
  lemma {:induction false} TimeoutMeansNeverGranted(c: Config, s: State, steps: seq<Step>, s': State, w: Waiter)
    requires Inv(c, s) && Reaches(c, s, steps, s') && w in s.chan
    ensures w in s'.chan
    ensures s.chan[w].Granted() ==> s'.chan[w].Granted()
    ensures s.chan[w].TimedOut? || s.chan[w].Gone? ==> s'.chan[w] == s.chan[w]
    decreases |steps|
  {
    hide Inv, Next, Enabled;
    if steps != [] {
      StepKeeps(c, s, steps[0]);
      StepChannels(c, s, steps[0], w);
      TimeoutMeansNeverGranted(c, Next(c, s, steps[0]), steps[1..], s', w);
    }
  }

  /** A slot is lost exactly when a request goes away between being sent a
      slot and collecting it, and a lost slot never comes back. */
  lemma {:induction false} LostIff(c: Config, s: State, e: Step)
    requires Inv(c, s) && Enabled(s, e)
    ensures var s' := Next(c, s, e);
            if e.Abandon? && s.chan[e.waiter].Sent?
            then Lost(s'.chan) == Lost(s.chan) + {e.waiter} && e.waiter !in Lost(s.chan)
            else Lost(s'.chan) == Lost(s.chan)
  {
    hide Inv, Released, Lost;
    match e
    case Release =>
      ReleaseOutcome(c, s);
      var s' := Next(c, s, e);
      if s'.chan != s.chan {
        var w := s'.popped[|s'.popped| - 1].1;
        Recount(s.chan, w, Sent);
      }
    case TryAdmit =>
    case Park(t, w) => Recount(s.chan, w, Pending);
    case Collect(w) => Recount(s.chan, w, Taken);
    case Close(w) => Recount(s.chan, w, if s.chan[w].Sent? then SentClosing else Closing);
    case TryRecv(w) => Recount(s.chan, w, if s.chan[w].SentClosing? then Taken else TimedOut);
    case Abandon(w) => Recount(s.chan, w, if s.chan[w].Sent? then Leaked else Gone);
  }

  lemma {:induction false} OneMore(c: Config, s: State, e: Step, m: State, steps: seq<Step>, s': State)
    requires Inv(c, s) && Enabled(s, e) && Next(c, s, e) == m && Inv(c, m) && Reaches(c, m, steps, s')
    ensures Reaches(c, s, [e] + steps, s')
  {
    assert ([e] + steps)[1..] == steps;
  }

  /** One slot, one request holding it, one parked: the holder finishes, the
      parked request goes away before looking, and the slot is never freed. */
  lemma {:induction false} LostSlotExample()
    ensures var c := Config(1, 1);
            && Inv(c, Idle)
            && Reaches(c, Idle, [TryAdmit] + ([Park("a", 0)] + ([Release] + ([Abandon(0)] + []))),
                       State(1, map[], [], map[0 := Leaked], 0, [("a", 0)], [("a", 0)]))
  {
    hide Inv, Enqueued, Released, Reaches, Queue;
    var c := Config(1, 1);
    var s1 := State(1, map[], [], map[], 1, [], []);
    var s2 := State(1, map["a" := [0]], ["a"], map[0 := Pending], 1, [("a", 0)], []);
    IdleInv(c);
    StepKeeps(c, Idle, TryAdmit);
    StepKeeps(c, s1, Park("a", 0));
    FirstInLine(s1, s2);
    var s4 := LostFromHere(c, s2);
    OneMore(c, s1, Park("a", 0), s2, [Release] + ([Abandon(0)] + []), s4);
    OneMore(c, Idle, TryAdmit, s1, [Park("a", 0)] + ([Release] + ([Abandon(0)] + [])), s4);
  }

  lemma {:induction false} LostFromHere(c: Config, s2: State) returns (s4: State)
    requires Inv(c, s2) && s2 == State(1, map["a" := [0]], ["a"], map[0 := Pending], 1, [("a", 0)], [])
    ensures s4 == State(1, map[], [], map[0 := Leaked], 0, [("a", 0)], [("a", 0)])
    ensures Reaches(c, s2, [Release] + ([Abandon(0)] + []), s4)
  {
    hide Inv, Released, Reaches;
    var s3 := State(1, map[], [], map[0 := Sent], 0, [("a", 0)], [("a", 0)]);
    s4 := s3.(chan := map[0 := Leaked]);
    StepKeeps(c, s2, Release);
    HandedOver(c, s2, s3);
    StepKeeps(c, s3, Abandon(0));
    assert s3.chan[0 := Leaked] == s4.chan;
    Stay(c, s4);
    OneMore(c, s3, Abandon(0), s4, [], s4);
    OneMore(c, s2, Release, s3, [Abandon(0)] + [], s4);
  }

  lemma {:induction false} Stay(c: Config, s: State)
    requires Inv(c, s)
    ensures Reaches(c, s, [], s)
  {
  }

  lemma {:induction false} FirstInLine(s: State, s': State)
    requires s == State(1, map[], [], map[], 1, [], [])
    requires s' == State(1, map["a" := [0]], ["a"], map[0 := Pending], 1, [("a", 0)], [])
    ensures Enqueued(s, "a", 0) == s' && Queue(s, "a") == []
  {
    assert Queue(s, "a") + [0] == [0];
    assert s.turn + ["a"] == ["a"] && s.arrived + [("a", 0)] == [("a", 0)];
    assert s.waiting["a" := [0]] == s'.waiting && s.chan[0 := Pending] == s'.chan;
  }

  lemma {:induction false} HandedOver(c: Config, s: State, s': State)
    requires Inv(c, s) && s == State(1, map["a" := [0]], ["a"], map[0 := Pending], 1, [("a", 0)], [])
    requires s' == State(1, map[], [], map[0 := Sent], 0, [("a", 0)], [("a", 0)])
    ensures Released(s) == s'
  {
    assert s.waiting - {"a"} == map[];
    assert s.turn[1..] == [];
    assert s.chan[0 := Sent] == s'.chan;
  }

  /** Once every slot is lost nobody is ever admitted again. */
  lemma {:induction false} AllLostIsForever(c: Config, s: State, steps: seq<Step>, s': State)
    requires Inv(c, s) && Reaches(c, s, steps, s') && |Lost(s.chan)| == c.max
    ensures s'.permits == 0 && s'.inflight == c.max && |Lost(s'.chan)| == c.max
    decreases |steps|
  {
    hide Next, Enabled, Lost, InTransit, Linked, InOrder, Lined, Capped;
    if steps != [] {
      StepKeeps(c, s, steps[0]);
      LostIff(c, s, steps[0]);
      AllLostIsForever(c, Next(c, s, steps[0]), steps[1..], s');
    }
  }

  /** Nobody waits for nothing: while a request is parked and no slot was
      lost, some permit is live or on its way, so a release is still to come. */
  lemma {:induction false} ParkedMeansBusy(c: Config, s: State)
    requires Inv(c, s) && s.turn != [] && c.max > |Lost(s.chan)|
    ensures s.permits > 0 || InTransit(s.chan) != {}
  {
  }

  // ---------------------------------------------------------------------
  // Bounded bypass
  // ---------------------------------------------------------------------

  /** Waiter `w` is at index `i` of the queue of `t`, which is at place `p`. */
  ghost predicate Due(s: State, t: Tenant, i: nat, w: Waiter, p: nat) {
    At(s, t, i, w) && p < |s.turn| && s.turn[p] == t
  }

  function Allowance(p: nat, i: nat, tenants: nat): nat { p + 1 + i * tenants }

  lemma {:induction false} AllowanceStep(i: nat, tenants: nat, p: nat)
    requires i > 0 && p < tenants
    ensures Allowance(p, i - 1, tenants) + 1 <= Allowance(0, i, tenants)
  {
    assert i * tenants == (i - 1) * tenants + tenants;
  }

  /** Between `s` and `s'` waiter `w` was popped within its allowance, or it
      is still due with what remains of it. The front waiter of a queue is
      popped after exactly its tenant's place. */
  ghost predicate OnTime(s: State, s': State, t: Tenant, i: nat, w: Waiter, p: nat, tenants: nat) {
    && s.popped <= s'.popped
    && (PoppedInTime(s, s', t, i, w, p, tenants) || StillDue(s, s', t, i, w, p, tenants))
  }

  ghost predicate PoppedInTime(s: State, s': State, t: Tenant, i: nat, w: Waiter, p: nat, tenants: nat) {
    exists k :: |s.popped| <= k < |s'.popped| && k < |s.popped| + Allowance(p, i, tenants)
             && s'.popped[k] == (t, w) && (i == 0 ==> k == |s.popped| + p)
  }

  ghost predicate StillDue(s: State, s': State, t: Tenant, i: nat, w: Waiter, p: nat, tenants: nat)
    requires |s.popped| <= |s'.popped|
  {
    var n := |s'.popped| - |s.popped|;
    exists j: nat, q: nat :: Due(s', t, j, w, q) && Allowance(q, j, tenants) + n <= Allowance(p, i, tenants)
             && (i == 0 ==> j == 0 && q + n == p)
  }

  lemma {:induction false} OnTimeCompose(a: State, b: State, d: State, t: Tenant, i: nat, w: Waiter, p: nat,
                                         j: nat, q: nat, tenants: nat)
    requires a.popped <= b.popped && OnTime(b, d, t, j, w, q, tenants)
    requires Allowance(q, j, tenants) + |b.popped| - |a.popped| <= Allowance(p, i, tenants)
    requires i == 0 ==> j == 0 && q + |b.popped| - |a.popped| == p
    ensures OnTime(a, d, t, i, w, p, tenants)
  {
    hide Allowance, Due;
    if PoppedInTime(b, d, t, j, w, q, tenants) {
      var k :| |b.popped| <= k < |d.popped| && k < |b.popped| + Allowance(q, j, tenants)
            && d.popped[k] == (t, w) && (j == 0 ==> k == |b.popped| + q);
      assert d.popped[k] == (t, w);
      assert PoppedInTime(a, d, t, i, w, p, tenants);
    } else {
      var j': nat, q': nat :|
        && Due(d, t, j', w, q')
        && Allowance(q', j', tenants) + |d.popped| - |b.popped| <= Allowance(q, j, tenants)
            && (j == 0 ==> j' == 0 && q' + |d.popped| - |b.popped| == q);
      assert Due(d, t, j', w, q');
      assert StillDue(a, d, t, i, w, p, tenants);
    }
  }

  lemma {:induction false} DueNow(s: State, s': State, t: Tenant, i: nat, w: Waiter, p: nat, tenants: nat)
    requires Due(s', t, i, w, p) && s'.popped == s.popped
    ensures OnTime(s, s', t, i, w, p, tenants)
  {
    hide Allowance, Due;
    assert StillDue(s, s', t, i, w, p, tenants);
  }

  /** One pop either takes the waiter or brings it closer. */
  lemma {:induction false} PopBrings(s: State, t: Tenant, i: nat, w: Waiter, p: nat, tenants: nat)
    returns (taken: bool, j: nat, q: nat)
    requires Lined(s) && Due(s, t, i, w, p) && |s.turn| <= tenants
    ensures s.popped <= Pop(s).popped && |Pop(s).popped| == |s.popped| + 1
    ensures taken ==> i == 0 && p == 0 && Pop(s).popped[|s.popped|] == (t, w)
    ensures !taken ==> Due(Pop(s), t, j, w, q) && Allowance(q, j, tenants) + 1 <= Allowance(p, i, tenants)
    ensures !taken && i == 0 ==> j == 0 && q + 1 == p
  {
    hide Pop, At, Lined, Allowance;
    PopAt(s);
    PopPlaces(s);
    taken, j, q := p == 0 && i == 0, i, p;
    if p > 0 {
      q := p - 1;
      Closer(p, i, tenants);
    } else if i > 0 {
      j, q := i - 1, |s.turn| - 1;
      Behind(s, t, i, w);
      AllowanceStep(i, tenants, q);
    } else {
      AtHead(s, t, w);
    }
  }

  lemma {:induction false} Closer(p: nat, i: nat, tenants: nat)
    requires p > 0
    ensures Allowance(p - 1, i, tenants) + 1 == Allowance(p, i, tenants)
  {
  }

  /** A pop moves every later tenant one place forward, and the front tenant to
      the back if it has more waiters. */
  lemma {:induction false} PopPlaces(s: State)
    requires Lined(s) && s.turn != []
    ensures Pop(s).popped == s.popped + [(s.turn[0], s.waiting[s.turn[0]][0])]
    ensures forall p :: 0 < p < |s.turn| ==>
      p - 1 < |Pop(s).turn| && Pop(s).turn[p - 1] == s.turn[p] && s.turn[p] != s.turn[0]
    ensures |s.waiting[s.turn[0]]| > 1 ==> |Pop(s).turn| == |s.turn| && Pop(s).turn[|s.turn| - 1] == s.turn[0]
  {
  }

  lemma {:induction false} Behind(s: State, t: Tenant, i: nat, w: Waiter)
    requires Lined(s) && s.turn != [] && s.turn[0] == t && At(s, t, i, w) && i > 0
    ensures |s.waiting[t]| > 1
  {
  }

  lemma {:induction false} AtHead(s: State, t: Tenant, w: Waiter)
    requires Lined(s) && s.turn != [] && s.turn[0] == t && At(s, t, 0, w)
    ensures t in s.waiting && s.waiting[t] != [] && s.waiting[t][0] == w
  {
  }

  lemma {:induction false} TakenNow(s: State, s': State, t: Tenant, w: Waiter, tenants: nat)
    requires s.popped <= s'.popped && |s.popped| < |s'.popped| && s'.popped[|s.popped|] == (t, w)
    ensures OnTime(s, s', t, 0, w, 0, tenants)
  {
    assert PoppedInTime(s, s', t, 0, w, 0, tenants);
  }

  lemma {:induction false} ReleaseOnTime(c: Config, s: State, t: Tenant, i: nat, w: Waiter, p: nat, tenants: nat)
    requires Inv(c, s) && s.permits > 0 && Due(s, t, i, w, p) && |s.turn| <= tenants
    ensures OnTime(s, Released(s), t, i, w, p, tenants)
    decreases Parked(s.turn, s.waiting)
  {
    hide Linked, InOrder, Balanced, Capped, OnTime, Allowance, At, Pop;
    var front, s' := s.waiting[s.turn[0]][0], Released(s);
    FrontKnown(s);
    PopShrinks(s);
    PopParts(s);
    ReleaseOutcome(c, s);
    var taken, j, q := PopBrings(s, t, i, w, p, tenants);
    if s.chan[front].Pending? {
      assert s'.popped == Pop(s).popped;
      if taken {
        TakenNow(s, s', t, w, tenants);
      } else {
        assert Due(s', t, j, w, q) by { DueSame(Pop(s), s', t, j, w, q); }
        DueNow(Pop(s), s', t, j, w, q, tenants);
        OnTimeCompose(s, Pop(s), s', t, i, w, p, j, q, tenants);
      }
    } else {
      PopKeepsInv(c, s);
      ReleaseOutcome(c, Pop(s));
      if taken {
        TakenNow(s, s', t, w, tenants);
      } else {
        ReleaseOnTime(c, Pop(s), t, j, w, q, tenants);
        OnTimeCompose(s, Pop(s), s', t, i, w, p, j, q, tenants);
      }
    }
  }

  lemma {:induction false} DueSame(s: State, s': State, t: Tenant, i: nat, w: Waiter, p: nat)
    requires Due(s, t, i, w, p) && s'.waiting == s.waiting && s'.turn == s.turn
    ensures Due(s', t, i, w, p)
  {
  }

  lemma {:induction false} StepOnTime(c: Config, s: State, e: Step, t: Tenant, i: nat, w: Waiter, p: nat, tenants: nat)
    requires Inv(c, s) && Enabled(s, e) && Due(s, t, i, w, p) && |s.turn| <= tenants
    ensures OnTime(s, Next(c, s, e), t, i, w, p, tenants)
  {
    hide Inv, OnTime, Allowance, Due;
    var s' := Next(c, s, e);
    if e == Release {
      ReleaseOnTime(c, s, t, i, w, p, tenants);
    } else {
      if e.Park? && s' == Enqueued(s, e.tenant, e.waiter) {
        DueParked(s, e.tenant, e.waiter, t, i, w, p);
      } else {
        DueSame(s, s', t, i, w, p);
      }
      DueNow(s, s', t, i, w, p, tenants);
    }
  }

  lemma {:induction false} DueParked(s: State, u: Tenant, v: Waiter, t: Tenant, i: nat, w: Waiter, p: nat)
    requires Due(s, t, i, w, p)
    ensures Due(Enqueued(s, u, v), t, i, w, p)
  {
  }

  /** At most `tenants` tenants are parked at every point of the run. */
  ghost predicate Crowd(c: Config, s: State, steps: seq<Step>, tenants: nat)
    requires Inv(c, s)
    decreases |steps|
  {
    && |s.turn| <= tenants
    && (steps != [] && Enabled(s, steps[0]) ==>
          (StepKeeps(c, s, steps[0]); Crowd(c, Next(c, s, steps[0]), steps[1..], tenants)))
  }

  lemma {:induction false} StaysPopped(s: State, m: State, s': State, t: Tenant, i: nat, w: Waiter, p: nat,
                                       tenants: nat)
    requires s.popped <= m.popped <= s'.popped && PoppedInTime(s, m, t, i, w, p, tenants)
    ensures OnTime(s, s', t, i, w, p, tenants)
  {
    hide Allowance;
    var k :| |s.popped| <= k < |m.popped| && k < |s.popped| + Allowance(p, i, tenants)
          && m.popped[k] == (t, w) && (i == 0 ==> k == |s.popped| + p);
    assert s'.popped[k] == (t, w);
    assert PoppedInTime(s, s', t, i, w, p, tenants);
  }

  lemma {:induction false} RunOnTime(c: Config, s: State, steps: seq<Step>, s': State,
                                     t: Tenant, i: nat, w: Waiter, p: nat, tenants: nat)
    requires Inv(c, s) && Reaches(c, s, steps, s') && Crowd(c, s, steps, tenants) && Due(s, t, i, w, p)
    ensures OnTime(s, s', t, i, w, p, tenants)
    decreases |steps|
  {
    hide Inv, Next, Enabled, Allowance, Due;
    if steps == [] {
      DueNow(s, s', t, i, w, p, tenants);
    } else {
      var m := Next(c, s, steps[0]);
      StepKeeps(c, s, steps[0]);
      StepOnTime(c, s, steps[0], t, i, w, p, tenants);
      PoppedGrows(c, m, steps[1..], s');
      if PoppedInTime(s, m, t, i, w, p, tenants) {
        StaysPopped(s, m, s', t, i, w, p, tenants);
      } else {
        var j: nat, q: nat :|
          && Due(m, t, j, w, q)
          && Allowance(q, j, tenants) + |m.popped| - |s.popped| <= Allowance(p, i, tenants)
              && (i == 0 ==> j == 0 && q + |m.popped| - |s.popped| == p);
        RunOnTime(c, m, steps[1..], s', t, j, w, q, tenants);
        OnTimeCompose(s, m, s', t, i, w, p, j, q, tenants);
      }
    }
  }

  lemma {:induction false} PoppedGrows(c: Config, s: State, steps: seq<Step>, s': State)
    requires Inv(c, s) && Reaches(c, s, steps, s')
    ensures s.popped <= s'.popped
    decreases |steps|
  {
    if steps != [] {
      StepKeeps(c, s, steps[0]);
      if steps[0] == Release {
        ReleaseOutcome(c, s);
      }
      PoppedGrows(c, Next(c, s, steps[0]), steps[1..], s');
    }
  }

  /**
  Bounded bypass, whatever arrives meanwhile. The front waiter of the tenant
  at place `p` is exactly the `p + 1`st to be popped; the one at index `i` is
  popped within `p + 1 + i * tenants` pops.
  */
  lemma {:induction false} BoundedBypass(c: Config, s: State, steps: seq<Step>, s': State,
                                         t: Tenant, i: nat, w: Waiter, p: nat, tenants: nat)
    requires Inv(c, s) && Reaches(c, s, steps, s') && Crowd(c, s, steps, tenants) && Due(s, t, i, w, p)
    ensures |s'.popped| >= |s.popped| + p + 1 + i * tenants ==>
              exists k :: |s.popped| <= k < |s.popped| + p + 1 + i * tenants && s'.popped[k] == (t, w)
    ensures i == 0 && |s'.popped| > |s.popped| + p ==> s'.popped[|s.popped| + p] == (t, w)
  {
    hide Inv, Reaches, Crowd;
    RunOnTime(c, s, steps, s', t, i, w, p, tenants);
  }
}
