/**
The pool as the router runs it: fields changed in place under the lock. Each
method is one step of the protocol and keeps its invariant.
*/
module AdmissionPool {
  import opened Admission

  datatype Outcome = Permit | QueueFull | InLine
  datatype Answer = Slot | WaitTimeout

  class Pool {
    var inflight: nat
    var waiting: map<Tenant, seq<Waiter>>
    var turn: seq<Tenant>
    var chan: map<Waiter, Channel>
    ghost var permits: nat
    ghost var arrived: seq<(Tenant, Waiter)>
    ghost var popped: seq<(Tenant, Waiter)>

    ghost function Now(): State
      reads this
    {
      State(inflight, waiting, turn, chan, permits, arrived, popped)
    }

    constructor ()
      ensures Now() == Idle
      ensures forall c :: Inv(c, Now())
    {
      inflight, waiting, turn, chan := 0, map[], [], map[];
      permits, arrived, popped := 0, [], [];
      new;
      forall c
        ensures Inv(c, Now())
      {
        IdleInv(c);
      }
    }

    /** Admit now if a slot is free and nobody is ahead in line. */
    method TryAdmit(c: Config) returns (admitted: bool)
      requires Inv(c, Now())
      modifies this
      ensures Now() == Next(c, old(Now()), Admission.TryAdmit) && Inv(c, Now())
      ensures admitted <==> permits == old(permits) + 1
      ensures admitted <==> old(inflight) < c.max && old(turn) == []
    {
      StepKeeps(c, Now(), Admission.TryAdmit);
      if inflight >= c.max || |turn| != 0 {
        return false;
      }
      inflight := inflight + 1;
      permits := permits + 1;
      return true;
    }

    /** The locked part of an admit after its fast path failed. */
    method Park(c: Config, tenant: Tenant, waiter: Waiter) returns (r: Outcome)
      requires Inv(c, Now()) && waiter !in chan
      modifies this
      ensures Now() == Next(c, old(Now()), Admission.Park(tenant, waiter)) && Inv(c, Now())
      ensures r == Permit <==> permits == old(permits) + 1
      ensures r == InLine <==> waiter in chan
      ensures r == QueueFull ==> |Queue(old(Now()), tenant)| == c.perTenant && Now() == old(Now())
    {
      hide Linked, Balanced, InOrder, Released, Lined, Inv;
      NotFull(c, Now(), tenant);
      StepKeeps(c, Now(), Admission.Park(tenant, waiter));
      if inflight < c.max && |turn| == 0 {
        inflight := inflight + 1;
        permits := permits + 1;
        return Permit;
      }
      if tenant !in waiting {
        waiting := waiting[tenant := []];
      }
      if |waiting[tenant]| >= c.perTenant {
        if |waiting[tenant]| == 0 {
          waiting := waiting - {tenant};
        }
        return QueueFull;
      }
      waiting := waiting[tenant := waiting[tenant] + [waiter]];
      chan := chan[waiter := Pending];
      arrived := arrived + [(tenant, waiter)];
      if |waiting[tenant]| == 1 {
        turn := turn + [tenant];
      }
      return InLine;
    }

    /** Dropping a permit: give the slot to the next live waiter, or free it. */
    method Release(c: Config)
      requires Inv(c, Now()) && permits > 0
      modifies this
      ensures Now() == Released(old(Now())) && Inv(c, Now())
      ensures permits == old(permits) - 1
    {
      hide Linked, Balanced, InOrder, Capped, Lined, Pop, Released, Parked;
      ghost var s0 := Now();
      ReleaseKeeps(c, s0);
      while |turn| > 0
        invariant Inv(c, Now()) && permits == old(permits)
        invariant Released(Now()) == Released(s0)
        decreases Parked(turn, waiting), |turn|
      {
        ghost var s := Now();
        FrontOfLine(c, s);
        var tenant := turn[0];
        turn := turn[1..];
        if tenant in waiting {
          var queue := waiting[tenant];
          var waiter := queue[0];
          queue := queue[1..];
          if |queue| == 0 {
            waiting := waiting - {tenant};
          } else {
            waiting := waiting[tenant := queue];
            turn := turn + [tenant];
          }
          popped := popped + [(tenant, waiter)];
          assert Now() == Pop(s) by { PopIs(s); }
          if chan[waiter].Pending? {
            chan := chan[waiter := Sent];
            permits := permits - 1;
            return;
          }
        }
      }
      NobodyParked(c, Now());
      inflight := SaturatingDec(inflight);
      permits := permits - 1;
    }

    /** The waiter's future resolves with the slot it was sent. */
    method Collect(c: Config, waiter: Waiter)
      requires Inv(c, Now()) && waiter in chan && chan[waiter].Sent?
      modifies this
      ensures Now() == Next(c, old(Now()), Admission.Collect(waiter)) && Inv(c, Now())
    {
      StepKeeps(c, Now(), Admission.Collect(waiter));
      chan := chan[waiter := Taken];
      permits := permits + 1;
    }

    /** The timer fires: the receiver closes its end. */
    method Close(c: Config, waiter: Waiter)
      requires Inv(c, Now()) && waiter in chan && (chan[waiter].Pending? || chan[waiter].Sent?)
      modifies this
      ensures Now() == Next(c, old(Now()), Admission.Close(waiter)) && Inv(c, Now())
    {
      StepKeeps(c, Now(), Admission.Close(waiter));
      chan := chan[waiter := if chan[waiter].Sent? then SentClosing else Closing];
    }

    /** A slot can arrive as the timer fires; it is kept if so. */
    method TryRecv(c: Config, waiter: Waiter) returns (r: Answer)
      requires Inv(c, Now()) && waiter in chan && (chan[waiter].Closing? || chan[waiter].SentClosing?)
      modifies this
      ensures Now() == Next(c, old(Now()), Admission.TryRecv(waiter)) && Inv(c, Now())
      ensures r == Slot <==> old(chan)[waiter].Granted()
      ensures r == WaitTimeout <==> chan[waiter] == TimedOut
    {
      StepKeeps(c, Now(), Admission.TryRecv(waiter));
      if chan[waiter].SentClosing? {
        chan := chan[waiter := Taken];
        permits := permits + 1;
        return Slot;
      }
      chan := chan[waiter := TimedOut];
      return WaitTimeout;
    }
  }

  lemma {:induction false} PopIs(s: State)
    requires Lined(s) && s.turn != []
    ensures var t, q := s.turn[0], s.waiting[s.turn[0]];
            Pop(s) == s.(waiting := if |q| == 1 then s.waiting - {t} else s.waiting[t := q[1..]],
                         turn := if |q| == 1 then s.turn[1..] else s.turn[1..] + [t],
                         popped := s.popped + [(t, q[0])])
  {
  }

  /** The front of the line exists, is known, and popping it makes progress. */
  lemma {:induction false} FrontOfLine(c: Config, s: State)
    requires Inv(c, s) && s.turn != []
    ensures s.turn[0] in s.waiting && s.waiting[s.turn[0]] != []
    ensures var w := s.waiting[s.turn[0]][0];
            && w in s.chan
            && Parked(Pop(s).turn, Pop(s).waiting) < Parked(s.turn, s.waiting)
            && (!s.chan[w].Pending? ==> Inv(c, Pop(s)))
            && (s.permits > 0 && !s.chan[w].Pending? ==> Released(s) == Released(Pop(s)))
            && (s.permits > 0 && s.chan[w].Pending? ==>
                  Released(s) == Pop(s).(chan := s.chan[w := Sent], permits := s.permits - 1))
  {
    hide Linked, InOrder, Capped, Pop;
    FrontKnown(s);
    PopShrinks(s);
    PopKeeps(c, s);
    PopParts(s);
    if !s.chan[s.waiting[s.turn[0]][0]].Pending? {
      PopLinked(s);
    }
  }

  lemma {:induction false} NobodyParked(c: Config, s: State)
    requires Inv(c, s) && s.permits > 0 && s.turn == []
    ensures Released(s) == s.(inflight := s.inflight - 1, permits := s.permits - 1) && Inv(c, Released(s))
    ensures s.inflight > 0
  {
    ReleaseKeeps(c, s);
  }

  lemma {:induction false} NotFull(c: Config, s: State, t: Tenant)
    requires Inv(c, s)
    ensures |Queue(s, t)| <= c.perTenant && (t in s.waiting ==> s.waiting[t] != [])
  {
  }
}
