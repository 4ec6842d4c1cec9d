/**
The router's admission pool: a slot counter, one queue of parked requests per
tenant, a rotating turn queue and one-shot channels that hand a released slot
to a waiter. Every operation is an atomic step; a run interleaves them freely.
*/
module Admission {
  type Tenant = string
  type Waiter = nat

  /** A waiter's channel as its receiver sees it. */
  datatype Channel =
    | Pending      // waiting, nothing sent
    | Sent         // a slot was sent and not yet collected
    | Closing      // timer fired and closed it empty
    | SentClosing  // timer fired and closed it with a slot inside
    | Taken        // the slot was collected: a permit exists or existed
    | TimedOut     // reported a wait timeout
    | Gone         // the request went away before any slot was sent
    | Leaked       // the request went away after a slot was sent
  {
    predicate Granted() { Sent? || SentClosing? || Taken? || Leaked? }
    predicate InTransit() { Sent? || SentClosing? }
  }

  datatype Config = Config(max: nat, perTenant: nat)

  /** `permits` counts the live permits; `arrived` and `popped` are the
      history of parked and popped waiters. */
  datatype State = State(
    inflight: nat,
    waiting: map<Tenant, seq<Waiter>>,
    turn: seq<Tenant>,
    chan: map<Waiter, Channel>,
    permits: nat,
    arrived: seq<(Tenant, Waiter)>,
    popped: seq<(Tenant, Waiter)>)

  function Queue(s: State, t: Tenant): seq<Waiter> {
    if t in s.waiting then s.waiting[t] else []
  }

  // ---------------------------------------------------------------------
  // What the pool keeps
  // ---------------------------------------------------------------------

  ghost predicate NoRepeats(turn: seq<Tenant>) {
    forall i, j :: 0 <= i < j < |turn| ==> turn[i] != turn[j]
  }

  /** `turn` lists exactly the tenants with a non-empty queue, once each. */
  ghost predicate Lined(s: State) {
    && NoRepeats(s.turn)
    && (forall t :: t in s.turn <==> t in s.waiting)
    && (forall t :: t in s.waiting ==> s.waiting[t] != [])
  }

  ghost predicate At(s: State, t: Tenant, i: int, w: Waiter) {
    t in s.waiting && 0 <= i < |s.waiting[t]| && s.waiting[t][i] == w
  }

  /** Queued waiters are known, distinct and were never sent a slot; every
      waiter still pending is queued. */
  ghost predicate Linked(s: State) {
    && (forall t, i, w :: At(s, t, i, w) ==> w in s.chan && !s.chan[w].Granted())
    && (forall t, i, u, j, w :: At(s, t, i, w) && At(s, u, j, w) ==> t == u && i == j)
    && (forall w :: w in s.chan && s.chan[w].Pending? ==> exists t, i :: At(s, t, i, w))
  }

  ghost function InTransit(chan: map<Waiter, Channel>): set<Waiter> {
    set w | w in chan && chan[w].InTransit()
  }

  ghost function Lost(chan: map<Waiter, Channel>): set<Waiter> {
    set w | w in chan && chan[w].Leaked?
  }

  /** Every slot is accounted for, and none is free while anyone is parked. */
  ghost predicate Balanced(c: Config, s: State) {
    && s.inflight == s.permits + |InTransit(s.chan)| + |Lost(s.chan)|
    && s.inflight <= c.max
    && (s.turn != [] ==> s.inflight == c.max)
  }

  function Of(h: seq<(Tenant, Waiter)>, t: Tenant): seq<Waiter> {
    if h == [] then []
    else Of(h[..|h| - 1], t) + (if h[|h| - 1].0 == t then [h[|h| - 1].1] else [])
  }

  /** Each tenant's waiters leave in the order they came. */
  ghost predicate InOrder(s: State) {
    forall t :: Of(s.arrived, t) == Of(s.popped, t) + Queue(s, t)
  }

  ghost predicate Capped(c: Config, s: State) {
    forall t :: t in s.waiting ==> |s.waiting[t]| <= c.perTenant
  }

  ghost predicate Inv(c: Config, s: State) {
    Lined(s) && Linked(s) && Balanced(c, s) && InOrder(s) && Capped(c, s)
  }

  // ---------------------------------------------------------------------
  // Steps
  // ---------------------------------------------------------------------

  function Parked(turn: seq<Tenant>, waiting: map<Tenant, seq<Waiter>>): nat {
    if turn == [] then 0
    else (if turn[0] in waiting then |waiting[turn[0]]| else 0) + Parked(turn[1..], waiting)
  }

  /** One iteration of the release loop's queue work. */
  function Pop(s: State): State
    requires s.turn != [] && s.turn[0] in s.waiting && s.waiting[s.turn[0]] != []
  {
    var t, q := s.turn[0], s.waiting[s.turn[0]];
    s.(waiting := if |q| == 1 then s.waiting - {t} else s.waiting[t := q[1..]],
       turn := if |q| == 1 then s.turn[1..] else s.turn[1..] + [t],
       popped := s.popped + [(t, q[0])])
  }

  lemma {:induction false} PopLined(s: State)
    requires Lined(s) && s.turn != []
    ensures Lined(Pop(s))
  {
    var t, rest, s' := s.turn[0], s.turn[1..], Pop(s);
    assert t !in rest && NoRepeats(rest);
    forall u
      ensures u in s'.turn <==> u in s'.waiting
    {
      assert u in s.turn <==> u == t || u in rest;
    }
    if |s.waiting[t]| > 1 {
      assert forall i :: 0 <= i < |rest| ==> rest[i] != t;
    }
  }

  lemma {:induction false} PopShrinks(s: State)
    requires Lined(s) && s.turn != []
    ensures Parked(Pop(s).turn, Pop(s).waiting) == Parked(s.turn, s.waiting) - 1
  {
    var t, rest, s' := s.turn[0], s.turn[1..], Pop(s);
    assert t !in rest;
    Unaffected(rest, s.waiting, s'.waiting, t) by {
      assert forall u :: u in rest ==> u in s.turn;
    }
    if |s.waiting[t]| > 1 {
      ParkedAppend(rest, t, s'.waiting);
    }
  }

  lemma {:induction false} Unaffected(turn: seq<Tenant>, a: map<Tenant, seq<Waiter>>, b: map<Tenant, seq<Waiter>>,
                                      t: Tenant)
    requires t !in turn && forall u :: u in turn ==> (u in a <==> u in b) && (u in a ==> a[u] == b[u])
    ensures Parked(turn, a) == Parked(turn, b)
  {
    if turn != [] {
      Unaffected(turn[1..], a, b, t);
    }
  }

  lemma {:induction false} ParkedAppend(turn: seq<Tenant>, t: Tenant, waiting: map<Tenant, seq<Waiter>>)
    requires t in waiting
    ensures Parked(turn + [t], waiting) == Parked(turn, waiting) + |waiting[t]|
  {
    if turn == [] {
      assert [t][1..] == [];
    } else {
      assert (turn + [t])[1..] == turn[1..] + [t];
      ParkedAppend(turn[1..], t, waiting);
    }
  }

  function SaturatingDec(n: nat): nat { if n == 0 then 0 else n - 1 }

  /** Give the slot to the next live waiter, or free it. Terminates because
      every iteration leaves one waiter fewer. */
  function Released(s: State): State
    requires Lined(s) && Linked(s) && s.permits > 0
    decreases Parked(s.turn, s.waiting)
  {
    if s.turn == [] then
      s.(inflight := SaturatingDec(s.inflight), permits := s.permits - 1)
    else
      FrontKnown(s);
      var w := s.waiting[s.turn[0]][0];
      if s.chan[w].Pending? then Pop(s).(chan := s.chan[w := Sent], permits := s.permits - 1)
      else
        PopLined(s);
        PopShrinks(s);
        PopLinked(s);
        Released(Pop(s))
  }

  lemma {:induction false} FrontKnown(s: State)
    requires Lined(s) && Linked(s) && s.turn != []
    ensures s.waiting[s.turn[0]][0] in s.chan && !s.chan[s.waiting[s.turn[0]][0]].Granted()
  {
    assert At(s, s.turn[0], 0, s.waiting[s.turn[0]][0]);
  }

  /** Popping a waiter that is no longer pending keeps the links. */
  lemma {:induction false} PopLinked(s: State)
    requires Lined(s) && Linked(s) && s.turn != []
    requires s.waiting[s.turn[0]][0] in s.chan && !s.chan[s.waiting[s.turn[0]][0]].Pending?
    ensures Linked(Pop(s))
  {
    PopAt(s);
    var t0 := s.turn[0];
    forall w | w in s.chan && s.chan[w].Pending?
      ensures exists t, i :: At(Pop(s), t, i, w)
    {
      var t, i :| At(s, t, i, w);
      assert At(Pop(s), t, if t == t0 then i - 1 else i, w);
    }
    hide At;
  }

  lemma {:induction false} PopAt(s: State)
    requires Lined(s) && s.turn != []
    ensures forall t, i, w :: At(Pop(s), t, i, w) ==>
              i >= 0 && At(s, t, if t == s.turn[0] then i + 1 else i, w)
    ensures forall t, i, w :: At(s, t, i, w) && !(t == s.turn[0] && i == 0) ==>
              At(Pop(s), t, if t == s.turn[0] then i - 1 else i, w)
  {
  }

  datatype Step =
    | TryAdmit
    | Park(tenant: Tenant, waiter: Waiter)
    | Release
    | Collect(waiter: Waiter)
    | Close(waiter: Waiter)
    | TryRecv(waiter: Waiter)
    | Abandon(waiter: Waiter)

  /** When each step can happen: a parked request has a new channel, a release
      drops a live permit, and a receiver moves only its own channel. */
  predicate Enabled(s: State, e: Step) {
    match e
    case TryAdmit => true
    case Park(_, w) => w !in s.chan
    case Release => s.permits > 0
    case Collect(w) => w in s.chan && s.chan[w].Sent?
    case Close(w) => w in s.chan && (s.chan[w].Pending? || s.chan[w].Sent?)
    case TryRecv(w) => w in s.chan && (s.chan[w].Closing? || s.chan[w].SentClosing?)
    case Abandon(w) => w in s.chan && (s.chan[w].Pending? || s.chan[w].Sent?)
  }

  function Open(c: Config, s: State): bool { s.inflight < c.max && s.turn == [] }

  function Admitted(s: State): State { s.(inflight := s.inflight + 1, permits := s.permits + 1) }

  function Enqueued(s: State, t: Tenant, w: Waiter): State {
    s.(waiting := s.waiting[t := Queue(s, t) + [w]],
       turn := if Queue(s, t) == [] then s.turn + [t] else s.turn,
       chan := s.chan[w := Pending],
       arrived := s.arrived + [(t, w)])
  }

  ghost function Next(c: Config, s: State, e: Step): State
    requires Inv(c, s) && Enabled(s, e)
  {
    match e
    case TryAdmit => if Open(c, s) then Admitted(s) else s
    case Park(t, w) =>
      if Open(c, s) then Admitted(s)
      else if |Queue(s, t)| >= c.perTenant then s
      else Enqueued(s, t, w)
    case Release => Released(s)
    case Collect(w) => s.(chan := s.chan[w := Taken], permits := s.permits + 1)
    case Close(w) => s.(chan := s.chan[w := if s.chan[w].Sent? then SentClosing else Closing])
    case TryRecv(w) =>
      if s.chan[w].SentClosing? then s.(chan := s.chan[w := Taken], permits := s.permits + 1)
      else s.(chan := s.chan[w := TimedOut])
    case Abandon(w) => s.(chan := s.chan[w := if s.chan[w].Sent? then Leaked else Gone])
  }

  // ---------------------------------------------------------------------
  // Every step keeps the invariant
  // ---------------------------------------------------------------------

  lemma {:induction false} Recount(chan: map<Waiter, Channel>, w: Waiter, ch: Channel)
    ensures InTransit(chan[w := ch]) == if ch.InTransit() then InTransit(chan) + {w} else InTransit(chan) - {w}
    ensures Lost(chan[w := ch]) == if ch.Leaked? then Lost(chan) + {w} else Lost(chan) - {w}
    ensures w in InTransit(chan) <==> w in chan && chan[w].InTransit()
    ensures w in Lost(chan) <==> w in chan && chan[w].Leaked?
  {
  }

  /** A receiver's own move keeps the queues' view of the channels. */
  lemma {:induction false} MoveLinked(s: State, s': State, w: Waiter, ch: Channel)
    requires Linked(s) && w in s.chan && !ch.Pending? && (ch.Granted() ==> s.chan[w].Granted())
    requires s'.waiting == s.waiting && s'.chan == s.chan[w := ch]
    ensures Linked(s')
  {
    assert forall t, i, v :: At(s', t, i, v) <==> At(s, t, i, v);
  }

  lemma {:induction false} EnqueuedAt(s: State, t: Tenant, w: Waiter)
    ensures forall u, i, v :: At(Enqueued(s, t, w), u, i, v) <==>
              At(s, u, i, v) || (u == t && i == |Queue(s, t)| && v == w)
  {
  }

  lemma {:induction false} EnqueuedLinked(s: State, t: Tenant, w: Waiter)
    requires Linked(s) && w !in s.chan
    ensures Linked(Enqueued(s, t, w))
  {
    EnqueuedAt(s, t, w);
    var s' := Enqueued(s, t, w);
    hide Enqueued, At;
    assert s'.chan == s.chan[w := Pending] by { EnqueuedParts(s, t, w); }
    forall v | v in s'.chan && s'.chan[v].Pending?
      ensures exists u, i :: At(s', u, i, v)
    {
      if v == w {
        assert At(s', t, |Queue(s, t)|, w);
      } else {
        var u, i :| At(s, u, i, v);
        assert At(s', u, i, v);
      }
    }
  }

  lemma {:induction false} EnqueuedParts(s: State, t: Tenant, w: Waiter)
    ensures Enqueued(s, t, w).chan == s.chan[w := Pending]
  {
  }

  lemma {:induction false} OfAppend(h: seq<(Tenant, Waiter)>, t: Tenant, w: Waiter, u: Tenant)
    ensures Of(h + [(t, w)], u) == Of(h, u) + (if t == u then [w] else [])
  {
    assert (h + [(t, w)])[..|h|] == h;
  }

  lemma {:induction false} EnqueuedLined(s: State, t: Tenant, w: Waiter)
    requires Lined(s) && InOrder(s)
    ensures Lined(Enqueued(s, t, w)) && InOrder(Enqueued(s, t, w))
  {
    var s' := Enqueued(s, t, w);
    assert t in s.turn <==> Queue(s, t) != [];
    forall u
      ensures Of(s'.arrived, u) == Of(s'.popped, u) + Queue(s', u)
    {
      OfAppend(s.arrived, t, w, u);
    }
  }

  lemma {:induction false} PopInOrder(s: State)
    requires Lined(s) && InOrder(s) && s.turn != []
    ensures InOrder(Pop(s))
  {
    var t, s' := s.turn[0], Pop(s);
    var q := s.waiting[t];
    forall u
      ensures Of(s'.arrived, u) == Of(s'.popped, u) + Queue(s', u)
    {
      OfAppend(s.popped, t, q[0], u);
      assert q == [q[0]] + q[1..];
      assert Queue(s', u) == if u == t then q[1..] else Queue(s, u);
    }
  }

  lemma {:induction false} PopUnique(s: State)
    requires Lined(s) && Linked(s) && s.turn != []
    ensures forall t, i, w :: At(Pop(s), t, i, w) ==> w in s.chan && !s.chan[w].Granted()
    ensures forall t, i, u, j, w :: At(Pop(s), t, i, w) && At(Pop(s), u, j, w) ==> t == u && i == j
  {
    PopAt(s);
    hide Pop, At;
  }

  lemma {:induction false} PopCapped(c: Config, s: State)
    requires Lined(s) && Capped(c, s) && s.turn != []
    ensures Capped(c, Pop(s))
  {
  }

  lemma {:induction false} PopKeeps(c: Config, s: State)
    requires Lined(s) && Linked(s) && InOrder(s) && Capped(c, s) && s.turn != []
    ensures var s' := Pop(s);
            && Lined(s') && InOrder(s') && Capped(c, s')
            && (forall t, i, w :: At(s', t, i, w) ==> w in s.chan && !s.chan[w].Granted())
            && (forall t, i, u, j, w :: At(s', t, i, w) && At(s', u, j, w) ==> t == u && i == j)
  {
    PopLined(s);
    PopInOrder(s);
    PopUnique(s);
    PopCapped(c, s);
  }

  /** Popping the waiter that is sent the slot keeps the links. */
  lemma {:induction false} PopLive(s: State, w: Waiter)
    requires Lined(s) && Linked(s) && s.turn != [] && w == s.waiting[s.turn[0]][0]
    ensures forall t, i :: !At(Pop(s), t, i, w)
    ensures forall v :: v in s.chan && v != w && s.chan[v].Pending? ==> exists t, i :: At(Pop(s), t, i, v)
  {
    PopAt(s);
    var t0 := s.turn[0];
    assert At(s, t0, 0, w);
    forall v | v in s.chan && v != w && s.chan[v].Pending?
      ensures exists t, i :: At(Pop(s), t, i, v)
    {
      var t, i :| At(s, t, i, v);
      assert At(Pop(s), t, if t == t0 then i - 1 else i, v);
    }
  }

  lemma {:induction false} SentKeeps(c: Config, s: State, w: Waiter)
    requires Inv(c, s) && s.permits > 0 && s.turn != [] && w == s.waiting[s.turn[0]][0]
    requires w in s.chan && s.chan[w].Pending?
    ensures Inv(c, Pop(s).(chan := s.chan[w := Sent], permits := s.permits - 1))
  {
    hide Pop, At, InTransit, Lost, InOrder, Capped;
    PopKeeps(c, s);
    PopLive(s, w);
    Recount(s.chan, w, Sent);
    PopParts(s);
    SameQueues(Pop(s), Pop(s).(chan := s.chan[w := Sent], permits := s.permits - 1));
  }

  /** The queue facts depend on the queues and their history alone. */
  lemma {:induction false} SameQueues(s: State, s': State)
    requires s'.waiting == s.waiting && s'.turn == s.turn && s'.arrived == s.arrived && s'.popped == s.popped
    ensures Lined(s) ==> Lined(s')
    ensures InOrder(s) ==> InOrder(s')
    ensures forall c :: Capped(c, s) ==> Capped(c, s')
    ensures forall t, i, w :: At(s', t, i, w) <==> At(s, t, i, w)
  {
    assert forall t :: Queue(s', t) == Queue(s, t);
  }

  lemma {:induction false} PopParts(s: State)
    requires Lined(s) && s.turn != []
    ensures var p := Pop(s);
            && p.inflight == s.inflight && p.chan == s.chan && p.permits == s.permits && p.arrived == s.arrived
            && |p.turn| <= |s.turn|
  {
  }

  /** What a release does: it skips waiters that are gone and sends the slot to
      the first live one, or frees it when there is none. */
  lemma {:induction false} ReleaseKeeps(c: Config, s: State)
    requires Inv(c, s) && s.permits > 0
    ensures Inv(c, Released(s))
    ensures s.inflight > 0
    ensures Released(s).permits == s.permits - 1
    decreases Parked(s.turn, s.waiting)
  {
    if s.turn != [] {
      var w, s' := s.waiting[s.turn[0]][0], Pop(s);
      FrontKnown(s);
      PopKeeps(c, s);
      PopShrinks(s);
      if s.chan[w].Pending? {
        SentKeeps(c, s, w);
      } else {
        PopLinked(s);
        ReleaseKeeps(c, s');
      }
    }
  }

  lemma {:induction false} MoveKeeps(c: Config, s: State, w: Waiter, ch: Channel, taken: nat)
    requires Inv(c, s) && w in s.chan && !ch.Pending? && (ch.Granted() ==> s.chan[w].Granted())
    requires !s.chan[w].Leaked? && !(s.chan[w].Taken? && ch.Leaked?)
    requires taken + (if ch.InTransit() then 1 else 0) + (if ch.Leaked? then 1 else 0)
       == if s.chan[w].InTransit() then 1 else 0
    ensures Inv(c, s.(chan := s.chan[w := ch], permits := s.permits + taken))
  {
    hide Linked, InTransit, Lost, Lined, InOrder, Capped;
    var s' := s.(chan := s.chan[w := ch], permits := s.permits + taken);
    MoveLinked(s, s', w, ch);
    Recount(s.chan, w, ch);
    SameQueues(s, s');
  }

  /** Every step of every interleaving keeps the invariant. */
  lemma {:induction false} StepKeeps(c: Config, s: State, e: Step)
    requires Inv(c, s) && Enabled(s, e)
    ensures Inv(c, Next(c, s, e))
  {
    hide Linked, InOrder, Lined, Capped;
    match e
    case TryAdmit =>
      AdmitKeeps(c, s);
    case Park(t, w) =>
      AdmitKeeps(c, s);
      if !Open(c, s) && |Queue(s, t)| < c.perTenant {
        ParkKeeps(c, s, t, w);
      }
    case Release =>
      ReleaseKeeps(c, s);
    case Collect(w) =>
      MoveKeeps(c, s, w, Taken, 1);
    case Close(w) =>
      MoveKeeps(c, s, w, if s.chan[w].Sent? then SentClosing else Closing, 0);
    case TryRecv(w) =>
      if s.chan[w].SentClosing? {
        MoveKeeps(c, s, w, Taken, 1);
      } else {
        MoveKeeps(c, s, w, TimedOut, 0);
      }
    case Abandon(w) =>
      MoveKeeps(c, s, w, if s.chan[w].Sent? then Leaked else Gone, 0);
  }

  lemma {:induction false} AdmitKeeps(c: Config, s: State)
    requires Inv(c, s)
    ensures Open(c, s) ==> Inv(c, Admitted(s))
  {
    var s' := Admitted(s);
    assert forall t, i, w :: At(s', t, i, w) <==> At(s, t, i, w);
    assert forall t :: Queue(s', t) == Queue(s, t);
  }

  lemma {:induction false} ParkKeeps(c: Config, s: State, t: Tenant, w: Waiter)
    requires Inv(c, s) && !Open(c, s) && |Queue(s, t)| < c.perTenant && w !in s.chan
    ensures Inv(c, Enqueued(s, t, w))
  {
    hide Linked, InOrder, Lined, InTransit, Lost;
    EnqueuedLined(s, t, w);
    EnqueuedLinked(s, t, w);
    Recount(s.chan, w, Pending);
    assert InTransit(s.chan) - {w} == InTransit(s.chan) && Lost(s.chan) - {w} == Lost(s.chan);
  }

  // ---------------------------------------------------------------------
  // Runs
  // ---------------------------------------------------------------------

  const Idle := State(0, map[], [], map[], 0, [], [])

  lemma {:induction false} IdleInv(c: Config)
    ensures Inv(c, Idle)
  {
    assert InTransit(map[]) == {} && Lost(map[]) == {};
  }

  /** The run `steps` from `s` reaches `s'`. */
  ghost predicate Reaches(c: Config, s: State, steps: seq<Step>, s': State)
    requires Inv(c, s)
    decreases |steps|
  {
    if steps == [] then s' == s
    else
      && Enabled(s, steps[0])
      && (StepKeeps(c, s, steps[0]); Reaches(c, Next(c, s, steps[0]), steps[1..], s'))
  }

  lemma {:induction false} RunKeeps(c: Config, s: State, steps: seq<Step>, s': State)
    requires Inv(c, s) && Reaches(c, s, steps, s')
    ensures Inv(c, s')
    decreases |steps|
  {
    if steps != [] {
      StepKeeps(c, s, steps[0]);
      RunKeeps(c, Next(c, s, steps[0]), steps[1..], s');
    }
  }

  /** Safety of the pool in every reachable state. */
  lemma {:induction false} PoolIsSafe(c: Config, steps: seq<Step>, s: State)
    requires Inv(c, Idle) && Reaches(c, Idle, steps, s)
    ensures s.inflight == s.permits + |InTransit(s.chan)| + |Lost(s.chan)| <= c.max
    ensures NoRepeats(s.turn) && forall t :: t in s.turn <==> Queue(s, t) != []
    ensures forall t :: |Queue(s, t)| <= c.perTenant
    ensures s.turn != [] ==> s.inflight == c.max
    ensures s.permits > 0 ==> s.inflight > 0
    ensures forall w :: w in s.chan && s.chan[w].Pending? ==> exists t, i :: At(s, t, i, w)
    ensures forall t :: Of(s.arrived, t) == Of(s.popped, t) + Queue(s, t)
  {
    RunKeeps(c, Idle, steps, s);
  }
}
