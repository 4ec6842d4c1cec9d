/**
The router's prefix index: which node recently claimed which digest, and the
walk that turns claims on chained digests into prefix lengths. Times are
clock readings; ages saturate at zero.
*/
module PrefixIndex {
  import opened Bytes

  type Node = string

  datatype NodeEntry = NodeEntry(node: Node, lastSeen: nat)

  type Inner = map<Digest, seq<NodeEntry>>

  function Age(now: nat, seen: nat): nat { if now < seen then 0 else now - seen }

  ghost predicate Claims(inner: Inner, d: Digest, e: NodeEntry) { d in inner && e in inner[d] }

  ghost predicate Distinct(v: seq<NodeEntry>) {
    forall i, j :: 0 <= i < j < |v| ==> v[i].node != v[j].node
  }

  /** No digest has an empty list, and no list names a node twice. */
  ghost predicate Tidy(inner: Inner) {
    forall d :: d in inner ==> inner[d] != [] && Distinct(inner[d])
  }

  function LiveIn(v: seq<NodeEntry>, ttl: nat, now: nat): set<Node> {
    set e | e in v && Age(now, e.lastSeen) < ttl :: e.node
  }

  /** The nodes whose claim on `d` has not expired. */
  function Live(inner: Inner, ttl: nat, now: nat, d: Digest): set<Node> {
    if d in inner then LiveIn(inner[d], ttl, now) else {}
  }

  // ---------------------------------------------------------------------
  // Removing claims
  // ---------------------------------------------------------------------

  datatype Sweep =
    | ForgetClaim(digest: Digest, node: Node)
    | ForgetNode(node: Node)
    | ForgetStale(node: Node, olderThan: nat, now: nat)
    | Gc(ttl: nat, now: nat)

  predicate Keeps(s: Sweep, d: Digest, e: NodeEntry) {
    match s
    case ForgetClaim(digest, node) => d != digest || e.node != node
    case ForgetNode(node) => e.node != node
    case ForgetStale(node, olderThan, now) => e.node != node || Age(now, e.lastSeen) < olderThan
    case Gc(ttl, now) => Age(now, e.lastSeen) < ttl
  }

  function Retain(v: seq<NodeEntry>, s: Sweep, d: Digest): (r: seq<NodeEntry>)
    ensures forall e :: e in r <==> e in v && Keeps(s, d, e)
    ensures Distinct(v) ==> Distinct(r)
    ensures (forall e :: e in v ==> Keeps(s, d, e)) ==> r == v
  {
    if v == [] then []
    else
      var n := |v| - 1;
      assert v == v[..n] + [v[n]];
      var r := Retain(v[..n], s, d);
      assert Distinct(v) ==> forall e :: e in r ==> e in v[..n] && e.node != v[n].node;
      if Keeps(s, d, v[n]) then r + [v[n]] else r
  }

  function Swept(inner: Inner, s: Sweep): Inner {
    map d | d in inner && Retain(inner[d], s, d) != [] :: Retain(inner[d], s, d)
  }

  lemma {:induction false} SweptClaims(inner: Inner, s: Sweep)
    ensures forall d, e :: Claims(Swept(inner, s), d, e) <==> Claims(inner, d, e) && Keeps(s, d, e)
    ensures Tidy(inner) ==> Tidy(Swept(inner, s))
  {
    var after := Swept(inner, s);
    forall d, e
      ensures Claims(after, d, e) <==> Claims(inner, d, e) && Keeps(s, d, e)
    {
      if d in inner {
        assert e in Retain(inner[d], s, d) <==> e in inner[d] && Keeps(s, d, e);
      }
    }
  }

  /** What each sweep means for the live nodes of a digest: a claim or a node
      is gone, a node's old claims are gone, and a collection changes nothing. */
  lemma {:induction false} SweepOnLive(inner: Inner, s: Sweep, ttl: nat, now: nat, d: Digest, n: Node)
    requires s.ForgetStale? || s.Gc? ==> s.now == now
    requires s.Gc? ==> s.ttl == ttl
    ensures n in Live(Swept(inner, s), ttl, now, d) <==>
            n in (match s
                  case ForgetClaim(digest, node) =>
                    if d == digest then Live(inner, ttl, now, d) - {node} else Live(inner, ttl, now, d)
                  case ForgetNode(node) => Live(inner, ttl, now, d) - {node}
                  case ForgetStale(node, older, _) =>
                    if n == node then Live(inner, if older < ttl then older else ttl, now, d)
                    else Live(inner, ttl, now, d)
                  case Gc(_, _) => Live(inner, ttl, now, d))
  {
    hide Swept;
    SweptClaims(inner, s);
    LiveMeans(Swept(inner, s), ttl, now, d, n);
    LiveMeans(inner, ttl, now, d, n);
    if s.ForgetStale? {
      LiveMeans(inner, if s.olderThan < ttl then s.olderThan else ttl, now, d, n);
    }
    hide Live, Claims;
  }

  lemma {:induction false} LiveMeans(inner: Inner, ttl: nat, now: nat, d: Digest, n: Node)
    ensures n in Live(inner, ttl, now, d) <==>
            exists e :: Claims(inner, d, e) && e.node == n && Age(now, e.lastSeen) < ttl
  {
    if n in Live(inner, ttl, now, d) {
      var e :| e in inner[d] && Age(now, e.lastSeen) < ttl && e.node == n;
      assert Claims(inner, d, e);
    }
  }

  // ---------------------------------------------------------------------
  // Adding claims
  // ---------------------------------------------------------------------

  /** `after` is `inner` with the claim of `n` on `d` renewed at `now`. */
  ghost predicate Renewed(inner: Inner, after: Inner, d: Digest, n: Node, now: nat) {
    && Tidy(after)
    && forall d', e :: Claims(after, d', e) <==>
         (if d' == d && e.node == n then e.lastSeen == now else Claims(inner, d', e))
  }

  function Put(v: seq<NodeEntry>, n: Node, now: nat): (r: seq<NodeEntry>) {
    if v == [] then [NodeEntry(n, now)]
    else if v[0].node == n then [NodeEntry(n, now)] + v[1..]
    else [v[0]] + Put(v[1..], n, now)
  }

  lemma {:induction false} PutClaims(v: seq<NodeEntry>, n: Node, now: nat)
    requires Distinct(v)
    ensures Put(v, n, now) != []
    ensures forall e :: e in Put(v, n, now) <==> if e.node == n then e.lastSeen == now else e in v
    ensures Distinct(Put(v, n, now))
  {
    if v != [] {
      assert v == [v[0]] + v[1..];
      FrontDiffers(v);
      if v[0].node != n {
        PutClaims(v[1..], n, now);
        DistinctCons(v[0], Put(v[1..], n, now));
      } else {
        DistinctCons(NodeEntry(n, now), v[1..]);
      }
    }
  }

  lemma {:induction false} FrontDiffers(v: seq<NodeEntry>)
    requires v != [] && Distinct(v)
    ensures Distinct(v[1..]) && forall e :: e in v[1..] ==> e.node != v[0].node
  {
  }

  lemma {:induction false} DistinctCons(e: NodeEntry, v: seq<NodeEntry>)
    requires Distinct(v) && forall o :: o in v ==> o.node != e.node
    ensures Distinct([e] + v)
  {
  }

  function Added(inner: Inner, d: Digest, n: Node, now: nat): Inner {
    inner[d := Put(if d in inner then inner[d] else [], n, now)]
  }

  lemma {:induction false} AddedRenews(inner: Inner, d: Digest, n: Node, now: nat)
    requires Tidy(inner)
    ensures Renewed(inner, Added(inner, d, n, now), d, n, now)
  {
    PutClaims(if d in inner then inner[d] else [], n, now);
    hide Put;
  }

  // ---------------------------------------------------------------------
  // Prefix length
  // ---------------------------------------------------------------------

  /** The largest `k` with every live digest `0..k` held by `n`. */
  function Depth(inner: Inner, ttl: nat, now: nat, digests: seq<Digest>, n: Node): (k: nat)
    ensures k <= |digests|
    ensures forall i :: 0 <= i < k ==> n in Live(inner, ttl, now, digests[i])
    ensures k < |digests| ==> n !in Live(inner, ttl, now, digests[k])
  {
    if digests == [] then 0
    else
      var m := |digests| - 1;
      var k := Depth(inner, ttl, now, digests[..m], n);
      if k == m && n in Live(inner, ttl, now, digests[m]) then m + 1 else k
  }

  /** How many of `digests` node `n` holds, position ignored. */
  function Count(inner: Inner, ttl: nat, now: nat, digests: seq<Digest>, n: Node): nat {
    if digests == [] then 0
    else
      var m := |digests| - 1;
      Count(inner, ttl, now, digests[..m], n) + (if n in Live(inner, ttl, now, digests[m]) then 1 else 0)
  }

  /** Renew the entry of `n` where it stands, or append one. */
  method Upsert(v: seq<NodeEntry>, n: Node, now: nat) returns (r: seq<NodeEntry>)
    ensures r == Put(v, n, now)
  {
    var i := 0;
    while i < |v| && v[i].node != n
      invariant 0 <= i <= |v|
      invariant Put(v, n, now) == v[..i] + Put(v[i..], n, now)
    {
      assert v[i..][1..] == v[i + 1..];
      assert v[..i] + [v[i]] == v[..i + 1];
      i := i + 1;
    }
    if i < |v| {
      assert v[i..][1..] == v[i + 1..];
      r := v[i := NodeEntry(n, now)];
      assert r == v[..i] + ([NodeEntry(n, now)] + v[i + 1..]);
    } else {
      r := v + [NodeEntry(n, now)];
    }
  }

  lemma {:induction false} ForgetIsLocal(inner: Inner, d: Digest, n: Node)
    requires Tidy(inner)
    ensures var s := ForgetClaim(d, n);
            Swept(inner, s) ==
              if d !in inner then inner
              else if Retain(inner[d], s, d) == [] then inner - {d}
              else inner[d := Retain(inner[d], s, d)]
  {
    hide Retain, Distinct;
    var s := ForgetClaim(d, n);
    forall d' | d' in inner && d' != d
      ensures Retain(inner[d'], s, d') == inner[d'] != []
    {
    }
  }

  class Index {
    var inner: Inner
    const ttl: nat

    constructor (ttl: nat)
      ensures this.ttl == ttl && inner == map[] && Tidy(inner)
    {
      this.ttl, inner := ttl, map[];
    }

    method Insert(d: Digest, n: Node, now: nat)
      requires Tidy(inner)
      modifies this
      ensures Renewed(old(inner), inner, d, n, now)
      ensures inner == Added(old(inner), d, n, now)
    {
      AddedRenews(inner, d, n, now);
      var v := Upsert(if d in inner then inner[d] else [], n, now);
      inner := inner[d := v];
    }

    /** Record one claim per digest, each at its own clock reading. */
    method InsertMany(digests: seq<Digest>, n: Node, times: seq<nat>)
      requires Tidy(inner) && |times| == |digests|
      modifies this
      ensures Tidy(inner)
      ensures inner == Applied(old(inner), Adds(digests, n, times))
    {
      for i := 0 to |digests|
        invariant Tidy(inner)
        invariant inner == Applied(old(inner), Adds(digests[..i], n, times[..i]))
      {
        Insert(digests[i], n, times[i]);
        AddsSnoc(digests[..i], n, times[..i], digests[i], times[i]);
        assert digests[..i] + [digests[i]] == digests[..i + 1] && times[..i] + [times[i]] == times[..i + 1];
      }
      assert digests[..|digests|] == digests && times[..|digests|] == times;
    }

    method Forget(d: Digest, n: Node)
      requires Tidy(inner)
      modifies this
      ensures inner == Swept(old(inner), ForgetClaim(d, n)) && Tidy(inner)
    {
      hide Retain, Swept, Tidy;
      SweptClaims(inner, ForgetClaim(d, n));
      ForgetIsLocal(inner, d, n);
      if d in inner {
        var kept := Retain(inner[d], ForgetClaim(d, n), d);
        inner := if kept == [] then inner - {d} else inner[d := kept];
      }
    }

    /** `forget_node`, `forget_node_stale` and `gc`: retain, then purge. */
    method RetainAll(s: Sweep)
      requires Tidy(inner) && !s.ForgetClaim?
      modifies this
      ensures inner == Swept(old(inner), s) && Tidy(inner)
    {
      SweptClaims(inner, s);
      inner := map d | d in inner :: Retain(inner[d], s, d);
      inner := map d | d in inner && inner[d] != [] :: inner[d];
    }

    method Lookup(d: Digest, now: nat) returns (r: seq<Node>)
      requires Tidy(inner)
      ensures (set n | n in r) == Live(inner, ttl, now, d)
      ensures forall i, j :: 0 <= i < j < |r| ==> r[i] != r[j]
    {
      r := [];
      if d !in inner {
        return;
      }
      var v := inner[d];
      for i := 0 to |v|
        invariant forall n :: n in r <==> n in LiveIn(v[..i], ttl, now)
        invariant forall j, k :: 0 <= j < k < |r| ==> r[j] != r[k]
        invariant forall n :: n in r ==> exists j :: 0 <= j < i && v[j].node == n
      {
        assert v[..i + 1] == v[..i] + [v[i]];
        assert v[i].node !in r;
        if Age(now, v[i].lastSeen) < ttl {
          r := r + [v[i].node];
        }
      }
      assert v[..|v|] == v;
    }

    method Overlap(digests: seq<Digest>, now: nat) returns (out: map<Node, nat>)
      requires Tidy(inner)
      ensures forall n :: n in out <==> Count(inner, ttl, now, digests, n) > 0
      ensures forall n :: n in out ==> out[n] == Count(inner, ttl, now, digests, n)
    {
      out := map[];
      for i := 0 to |digests|
        invariant Tallied(inner, ttl, now, digests[..i], {}, out)
      {
        assert digests[..i + 1][..i] == digests[..i];
        if digests[i] in inner {
          var v := inner[digests[i]];
          for j := 0 to |v|
            invariant Tallied(inner, ttl, now, digests[..i], LiveIn(v[..j], ttl, now), out)
          {
            assert v[..j + 1] == v[..j] + [v[j]];
            if Age(now, v[j].lastSeen) < ttl {
              var n := v[j].node;
              assert n !in LiveIn(v[..j], ttl, now);
              assert LiveIn(v[..j + 1], ttl, now) == LiveIn(v[..j], ttl, now) + {n};
              out := out[n := (if n in out then out[n] else 0) + 1];
            } else {
              assert LiveIn(v[..j + 1], ttl, now) == LiveIn(v[..j], ttl, now);
            }
          }
          assert v[..|v|] == v;
        }
        TallyNext(inner, ttl, now, digests[..i + 1], out);
      }
      assert digests[..|digests|] == digests;
    }

    /** Walk forward, intersecting the active nodes with the holders of each
        next chunk. */
    method LongestPrefixOverlap(digests: seq<Digest>, now: nat) returns (out: map<Node, nat>)
      ensures forall n :: n in out <==> Depth(inner, ttl, now, digests, n) > 0
      ensures forall n :: n in out ==> out[n] == Depth(inner, ttl, now, digests, n)
    {
      hide Depth, Reached;
      out := map[];
      if digests == [] {
        return;
      }
      ReachedFirst(inner, ttl, now, digests);
      if digests[0] !in inner {
        return;
      }
      var active := LiveIn(inner[digests[0]], ttl, now);
      out := map n | n in active :: 1;
      var i := 1;
      while i < |digests|
        invariant 1 <= i <= |digests|
        invariant Reached(inner, ttl, now, digests[..i], active, out)
      {
        if active == {} {
          break;
        }
        var holders := Live(inner, ttl, now, digests[i]);
        assert digests[..i + 1][..i] == digests[..i];
        ReachedNext(inner, ttl, now, digests[..i + 1], active, out);
        active := set n | n in active && n in holders;
        out := map n | n in out :: if n in active then i + 1 else out[n];
        i := i + 1;
      }
      ReachedAll(inner, ttl, now, digests, i, active, out);
    }
  }

  /** `out` maps each node to its depth in `digests`, if any, and `active`
      are the nodes still in the walk. */
  ghost predicate Reached(inner: Inner, ttl: nat, now: nat, digests: seq<Digest>, active: set<Node>,
                          out: map<Node, nat>) {
    && active == (set n | n in out && out[n] == |digests|)
    && (forall n :: n in out <==> Depth(inner, ttl, now, digests, n) > 0)
    && (forall n :: n in out ==> out[n] == Depth(inner, ttl, now, digests, n))
  }

  lemma {:induction false} ReachedFirst(inner: Inner, ttl: nat, now: nat, digests: seq<Digest>)
    requires digests != []
    ensures var active := Live(inner, ttl, now, digests[0]);
            Reached(inner, ttl, now, digests[..1], active, map n | n in active :: 1)
    ensures digests[0] !in inner ==> forall n :: Depth(inner, ttl, now, digests, n) == 0
  {
    assert digests[..1] == [digests[0]] && [digests[0]][..0] == [];
  }

  lemma {:induction false} ReachedNext(inner: Inner, ttl: nat, now: nat, digests: seq<Digest>, active: set<Node>,
                                       out: map<Node, nat>)
    requires |digests| > 1 && Reached(inner, ttl, now, digests[..|digests| - 1], active, out)
    ensures var active' := set n | n in active && n in Live(inner, ttl, now, digests[|digests| - 1]);
            var out' := map n | n in out :: if n in active' then |digests| else out[n];
            Reached(inner, ttl, now, digests, active', out')
  {
    hide Live;
    var m := |digests| - 1;
    forall n
      ensures Depth(inner, ttl, now, digests, n) ==
              if n in active && n in Live(inner, ttl, now, digests[m]) then m + 1
              else Depth(inner, ttl, now, digests[..m], n)
    {
    }
  }

  /** Once no node is active, the rest of the walk adds nothing. */
  lemma {:induction false} ReachedAll(inner: Inner, ttl: nat, now: nat, digests: seq<Digest>, i: nat, active: set<Node>,
                                      out: map<Node, nat>)
    requires 0 < i <= |digests| && Reached(inner, ttl, now, digests[..i], active, out)
    requires i < |digests| ==> active == {}
    ensures forall n :: n in out <==> Depth(inner, ttl, now, digests, n) > 0
    ensures forall n :: n in out ==> out[n] == Depth(inner, ttl, now, digests, n)
  {
    forall n
      ensures Depth(inner, ttl, now, digests, n) == Depth(inner, ttl, now, digests[..i], n)
    {
      if i < |digests| {
        assert n in out && out[n] == i ==> n in active;
      }
      Stuck(inner, ttl, now, digests, n, i);
    }
  }

  /** A node that dropped out before chunk `i` never rejoins. */
  lemma {:induction false} Stuck(inner: Inner, ttl: nat, now: nat, digests: seq<Digest>, n: Node, i: nat)
    requires i <= |digests| && (i < |digests| ==> Depth(inner, ttl, now, digests[..i], n) < i)
    ensures Depth(inner, ttl, now, digests, n) == Depth(inner, ttl, now, digests[..i], n)
  {
    hide Live;
    assert digests[..|digests|] == digests;
    assert forall j :: 0 <= j < i ==> digests[..i][j] == digests[j];
  }

  /** `out` counts the holdings of `digests` plus one for each of `extra`. */
  ghost predicate Tallied(inner: Inner, ttl: nat, now: nat, digests: seq<Digest>, extra: set<Node>,
                          out: map<Node, nat>) {
    forall n ::
      var k := Count(inner, ttl, now, digests, n) + (if n in extra then 1 else 0);
      (n in out <==> k > 0) && (n in out ==> out[n] == k)
  }

  lemma {:induction false} TallyNext(inner: Inner, ttl: nat, now: nat, digests: seq<Digest>, out: map<Node, nat>)
    requires digests != []
    requires Tallied(inner, ttl, now, digests[..|digests| - 1], Live(inner, ttl, now, digests[|digests| - 1]), out)
    ensures Tallied(inner, ttl, now, digests, {}, out)
  {
  }

  // ---------------------------------------------------------------------
  // Runs
  // ---------------------------------------------------------------------

  datatype Op = Add(digest: Digest, node: Node, at: nat) | Remove(sweep: Sweep)

  function Apply(inner: Inner, op: Op): Inner {
    match op
    case Add(d, n, at) => Added(inner, d, n, at)
    case Remove(s) => Swept(inner, s)
  }

  function Applied(inner: Inner, ops: seq<Op>): Inner {
    if ops == [] then inner else Apply(Applied(inner, ops[..|ops| - 1]), ops[|ops| - 1])
  }

  function Adds(digests: seq<Digest>, n: Node, times: seq<nat>): (ops: seq<Op>)
    requires |times| == |digests|
  {
    seq(|digests|, i requires 0 <= i < |digests| => Add(digests[i], n, times[i]))
  }

  lemma {:induction false} AddsSnoc(digests: seq<Digest>, n: Node, times: seq<nat>, d: Digest, t: nat)
    requires |times| == |digests|
    ensures var ops := Adds(digests, n, times);
            var more := Adds(digests + [d], n, times + [t]);
            more != [] && more[..|more| - 1] == ops && more[|more| - 1] == Add(d, n, t)
  {
  }
}
