/**
The prefix index over whole runs: garbage collection never shows, and prefix
lengths computed from digests are prefix lengths of the token sequences that
were inserted.
*/
module PrefixRuns {
  import opened Wrappers
  import opened Bytes
  import opened PrefixHash
  import opened PrefixIndex

  // ---------------------------------------------------------------------
  // Garbage collection is invisible
  // ---------------------------------------------------------------------

  /** The clock reading of an operation, if it takes one. */
  function Clock(op: Op, before: nat): nat {
    match op
    case Add(_, _, at) => at
    case Remove(ForgetStale(_, _, now)) => now
    case Remove(Gc(_, now)) => now
    case Remove(_) => before
  }

  /** The clock never runs backwards and reads `end` at the latest. */
  ghost predicate Timed(ttl: nat, ops: seq<Op>, end: nat)
    decreases |ops|
  {
    ops != [] ==>
      var op := ops[|ops| - 1];
      && Clock(op, end) <= end
      && (op.Remove? && op.sweep.Gc? ==> op.sweep.ttl == ttl)
      && Timed(ttl, ops[..|ops| - 1], Clock(op, end))
  }

  function WithoutGc(ops: seq<Op>): seq<Op> {
    if ops == [] then []
    else
      var n := |ops| - 1;
      var op := ops[n];
      if op.Remove? && op.sweep.Gc? then WithoutGc(ops[..n]) else WithoutGc(ops[..n]) + [op]
  }

  /** `a` is `b` without some claims that had expired by `t`. */
  ghost predicate Trimmed(ttl: nat, t: nat, a: Inner, b: Inner) {
    && Tidy(a) && Tidy(b)
    && (forall d, e :: Claims(a, d, e) ==> Claims(b, d, e))
    && (forall d, e :: Claims(b, d, e) && !Claims(a, d, e) ==> Age(t, e.lastSeen) >= ttl)
  }

  lemma {:induction false} TrimmedStep(ttl: nat, t: nat, t': nat, a: Inner, b: Inner, op: Op)
    requires Trimmed(ttl, t, a, b) && t <= t'
    ensures Trimmed(ttl, t', Apply(a, op), Apply(b, op))
    ensures op == Remove(Gc(ttl, t')) ==> Trimmed(ttl, t', Apply(a, op), b)
  {
    match op
    case Add(d, n, at) =>
      AddedRenews(a, d, n, at);
      AddedRenews(b, d, n, at);
    case Remove(s) =>
      SweptClaims(a, s);
      SweptClaims(b, s);
  }

  lemma {:induction false} TrimmedLater(ttl: nat, t: nat, t': nat, a: Inner, b: Inner)
    requires Trimmed(ttl, t, a, b) && t <= t'
    ensures Trimmed(ttl, t', a, b)
  {
  }

  lemma {:induction false} GcOnlyTrims(ttl: nat, ops: seq<Op>, t: nat)
    requires Timed(ttl, ops, t)
    ensures Trimmed(ttl, t, Applied(map[], ops), Applied(map[], WithoutGc(ops)))
    decreases |ops|
  {
    hide Trimmed, Apply, Age;
    if ops == [] {
      NothingTrimmed(ttl, t);
    } else {
      var n := |ops| - 1;
      var op := ops[n];
      var c := Clock(op, t);
      GcOnlyTrims(ttl, ops[..n], c);
      TrimmedStep(ttl, c, c, Applied(map[], ops[..n]), Applied(map[], WithoutGc(ops[..n])), op);
      if !(op.Remove? && op.sweep.Gc?) {
        assert WithoutGc(ops)[..|WithoutGc(ops)| - 1] == WithoutGc(ops[..n]);
      }
      TrimmedLater(ttl, c, t, Applied(map[], ops), Applied(map[], WithoutGc(ops)));
    }
  }

  lemma {:induction false} NothingTrimmed(ttl: nat, t: nat)
    ensures Trimmed(ttl, t, map[], map[])
  {
  }

  lemma {:induction false} TrimmedSameLive(ttl: nat, t: nat, now: nat, a: Inner, b: Inner, d: Digest)
    requires Trimmed(ttl, t, a, b) && t <= now
    ensures Live(a, ttl, now, d) == Live(b, ttl, now, d)
  {
    forall n
      ensures n in Live(a, ttl, now, d) <==> n in Live(b, ttl, now, d)
    {
      if n in Live(a, ttl, now, d) {
        var e :| e in a[d] && Age(now, e.lastSeen) < ttl && e.node == n;
        assert Claims(a, d, e);
      }
      if n in Live(b, ttl, now, d) {
        var e :| e in b[d] && Age(now, e.lastSeen) < ttl && e.node == n;
        assert Claims(b, d, e);
        assert Claims(a, d, e);
      }
    }
  }

  lemma {:induction false} SameLiveSameAnswers(a: Inner, b: Inner, ttl: nat, now: nat, digests: seq<Digest>, n: Node)
    requires forall d :: Live(a, ttl, now, d) == Live(b, ttl, now, d)
    ensures Depth(a, ttl, now, digests, n) == Depth(b, ttl, now, digests, n)
    ensures Count(a, ttl, now, digests, n) == Count(b, ttl, now, digests, n)
  {
    hide Live;
    if digests != [] {
      SameLiveSameAnswers(a, b, ttl, now, digests[..|digests| - 1], n);
    }
  }

  /** Two runs that differ only in where garbage collection happened answer
      every later lookup, overlap and longest-prefix question alike. */
  lemma {:induction false} GcIsInvisible(ttl: nat, ops: seq<Op>, ops': seq<Op>, end: nat, now: nat)
    requires Timed(ttl, ops, end) && Timed(ttl, ops', end) && end <= now && WithoutGc(ops) == WithoutGc(ops')
    ensures var a, b := Applied(map[], ops), Applied(map[], ops');
            && (forall d :: Live(a, ttl, now, d) == Live(b, ttl, now, d))
            && (forall digests, n :: Count(a, ttl, now, digests, n) == Count(b, ttl, now, digests, n))
            && (forall digests, n :: Depth(a, ttl, now, digests, n) == Depth(b, ttl, now, digests, n))
  {
    hide Live, Trimmed;
    var a, b, c := Applied(map[], ops), Applied(map[], ops'), Applied(map[], WithoutGc(ops));
    GcOnlyTrims(ttl, ops, end);
    GcOnlyTrims(ttl, ops', end);
    forall d
      ensures Live(a, ttl, now, d) == Live(b, ttl, now, d)
    {
      TrimmedSameLive(ttl, end, now, a, c, d);
      TrimmedSameLive(ttl, end, now, b, c, d);
    }
    forall digests, n
      ensures Count(a, ttl, now, digests, n) == Count(b, ttl, now, digests, n)
      ensures Depth(a, ttl, now, digests, n) == Depth(b, ttl, now, digests, n)
    {
      SameLiveSameAnswers(a, b, ttl, now, digests, n);
    }
  }

  // ---------------------------------------------------------------------
  // Claims and additions
  // ---------------------------------------------------------------------

  lemma {:induction false} AppliedTidy(ops: seq<Op>)
    ensures Tidy(Applied(map[], ops))
    decreases |ops|
  {
    hide Added, Swept;
    if ops != [] {
      var n := |ops| - 1;
      AppliedTidy(ops[..n]);
      var inner := Applied(map[], ops[..n]);
      if ops[n].Add? {
        AddedRenews(inner, ops[n].digest, ops[n].node, ops[n].at);
      } else {
        SweptClaims(inner, ops[n].sweep);
      }
    }
  }

  /** Every claim was added. */
  lemma {:induction false} ClaimsWereAdded(ops: seq<Op>, d: Digest, e: NodeEntry)
    requires Claims(Applied(map[], ops), d, e)
    ensures Add(d, e.node, e.lastSeen) in ops
    decreases |ops|
  {
    hide Added, Swept, Claims;
    NoClaims(d, e);
    if ops != [] {
      var n := |ops| - 1;
      var inner := Applied(map[], ops[..n]);
      AppliedTidy(ops[..n]);
      if ops[n].Add? {
        AddedRenews(inner, ops[n].digest, ops[n].node, ops[n].at);
      } else {
        SweptClaims(inner, ops[n].sweep);
      }
      if Claims(inner, d, e) {
        ClaimsWereAdded(ops[..n], d, e);
        assert ops[..n] <= ops;
      }
    }
  }

  lemma {:induction false} NoClaims(d: Digest, e: NodeEntry)
    ensures !Claims(map[], d, e)
  {
  }

  /** Only additions and garbage collection, every addition recent at `now`. */
  ghost predicate Unforgotten(ttl: nat, ops: seq<Op>, now: nat) {
    forall op :: op in ops ==> Harmless(ttl, op, now)
  }

  predicate Harmless(ttl: nat, op: Op, now: nat) {
    match op
    case Add(_, _, at) => Age(now, at) < ttl
    case Remove(Gc(g, t)) => g == ttl && t <= now
    case Remove(_) => false
  }

  /** Nothing added is lost: the node still holds the digest at `now`. */
  lemma {:induction false} AddedIsLive(ttl: nat, ops: seq<Op>, now: nat, d: Digest, n: Node, at: nat)
    requires Unforgotten(ttl, ops, now) && Add(d, n, at) in ops
    ensures n in Live(Applied(map[], ops), ttl, now, d)
  {
    var t := AddedIsClaimed(ttl, ops, now, d, n, at);
    assert NodeEntry(n, t) in Applied(map[], ops)[d];
  }

  lemma {:induction false} AddedIsClaimed(ttl: nat, ops: seq<Op>, now: nat, d: Digest, n: Node, at: nat)
    returns (t: nat)
    requires Unforgotten(ttl, ops, now) && Add(d, n, at) in ops
    ensures Claims(Applied(map[], ops), d, NodeEntry(n, t)) && Age(now, t) < ttl
    decreases |ops|
  {
    hide Added, Swept, Claims;
    var k := |ops| - 1;
    var inner, op := Applied(map[], ops[..k]), ops[k];
    assert op in ops && ops == ops[..k] + [op];
    assert forall o :: o in ops[..k] ==> o in ops;
    AppliedTidy(ops[..k]);
    if op.Add? {
      AddedRenews(inner, op.digest, op.node, op.at);
    } else {
      SweptClaims(inner, op.sweep);
    }
    if op.Add? && op.digest == d && op.node == n {
      t := op.at;
      assert Claims(Added(inner, d, n, t), d, NodeEntry(n, t));
    } else {
      t := AddedIsClaimed(ttl, ops[..k], now, d, n, at);
      assert op.Remove? ==> Keeps(op.sweep, d, NodeEntry(n, t));
    }
  }

  // ---------------------------------------------------------------------
  // Expiry in clock readings
  // ---------------------------------------------------------------------

  /** A claim made at `at` still stands at `now`. */
  predicate Stands(at: nat, ttl: nat, now: nat) { 0 < ttl && now < at + ttl }

  /** When `n` last inserted `d`, unless that claim was removed since: by name,
      with its node, or by a sweep it was too old for. */
  function LastClaim(ops: seq<Op>, d: Digest, n: Node): Option<nat> {
    if ops == [] then None
    else
      var was := LastClaim(ops[..|ops| - 1], d, n);
      match ops[|ops| - 1]
      case Add(digest, node, at) => if digest == d && node == n then Some(at) else was
      case Remove(ForgetClaim(digest, node)) => if digest == d && node == n then None else was
      case Remove(ForgetNode(node)) => if node == n then None else was
      case Remove(ForgetStale(node, older, now)) =>
        if node == n && was.Some? && !Stands(was.value, older, now) then None else was
      case Remove(Gc(ttl, now)) => if was.Some? && !Stands(was.value, ttl, now) then None else was
  }

  /** The index holds exactly the last claims. */
  lemma {:induction false} ClaimsAreLast(ops: seq<Op>, d: Digest, e: NodeEntry)
    ensures Claims(Applied(map[], ops), d, e) <==> LastClaim(ops, d, e.node) == Some(e.lastSeen)
    decreases |ops|
  {
    hide Added, Swept, Claims, Tidy;
    NoClaims(d, e);
    if ops != [] {
      var k := |ops| - 1;
      var inner, op := Applied(map[], ops[..k]), ops[k];
      ClaimsAreLast(ops[..k], d, e);
      AppliedTidy(ops[..k]);
      if op.Add? {
        AddedRenews(inner, op.digest, op.node, op.at);
      } else {
        SweptClaims(inner, op.sweep);
      }
    }
  }

  /** Held at `now`: inserted, not removed since, and within the lifetime. */
  predicate HeldAt(ops: seq<Op>, ttl: nat, now: nat, d: Digest, n: Node) {
    var last := LastClaim(ops, d, n);
    last.Some? && Stands(last.value, ttl, now)
  }

  /** After any run, a node is looked up for a digest if and only if its last
      insert there, not removed since, is less than the lifetime ago. */
  lemma {:induction false} LookupIff(ops: seq<Op>, ttl: nat, now: nat, d: Digest, n: Node)
    ensures n in Live(Applied(map[], ops), ttl, now, d) <==> HeldAt(ops, ttl, now, d, n)
  {
    hide Claims, LastClaim, Applied;
    var inner := Applied(map[], ops);
    LiveMeans(inner, ttl, now, d, n);
    if n in Live(inner, ttl, now, d) {
      var e :| Claims(inner, d, e) && e.node == n && Age(now, e.lastSeen) < ttl;
      ClaimsAreLast(ops, d, e);
    }
    if HeldAt(ops, ttl, now, d, n) {
      var e := NodeEntry(n, LastClaim(ops, d, n).value);
      ClaimsAreLast(ops, d, e);
      assert Claims(inner, d, e) && e.node == n && Age(now, e.lastSeen) < ttl;
    }
  }

  /** And so for prefix lengths: the reported length is the longest run of
      digests from the first that the node holds. */
  lemma {:induction false} DepthIff(ops: seq<Op>, ttl: nat, now: nat, digests: seq<Digest>, n: Node, k: nat)
    ensures Depth(Applied(map[], ops), ttl, now, digests, n) == k <==>
            && k <= |digests|
            && (forall i :: 0 <= i < k ==> HeldAt(ops, ttl, now, digests[i], n))
            && (k < |digests| ==> !HeldAt(ops, ttl, now, digests[k], n))
  {
    hide Live, HeldAt, Applied;
    var inner := Applied(map[], ops);
    forall i | 0 <= i < |digests|
      ensures n in Live(inner, ttl, now, digests[i]) <==> HeldAt(ops, ttl, now, digests[i], n)
    {
      LookupIff(ops, ttl, now, digests[i], n);
    }
    var depth := Depth(inner, ttl, now, digests, n);
    assert depth < k <= |digests| ==> n !in Live(inner, ttl, now, digests[depth]);
    assert k < depth ==> n in Live(inner, ttl, now, digests[k]);
  }

  /** Overlap counts the positions whose digest the node holds. */
  lemma {:induction false} CountIs(ops: seq<Op>, ttl: nat, now: nat, digests: seq<Digest>, n: Node)
    ensures Count(Applied(map[], ops), ttl, now, digests, n)
         == |set i | 0 <= i < |digests| && HeldAt(ops, ttl, now, digests[i], n)|
  {
    hide Live, HeldAt, Applied;
    if digests != [] {
      var m := |digests| - 1;
      var front := digests[..m];
      CountIs(ops, ttl, now, front, n);
      LookupIff(ops, ttl, now, digests[m], n);
      var all := set i | 0 <= i < |digests| && HeldAt(ops, ttl, now, digests[i], n);
      var some := set i | 0 <= i < |front| && HeldAt(ops, ttl, now, front[i], n);
      assert forall i :: 0 <= i < m ==> front[i] == digests[i];
      assert all == some + if HeldAt(ops, ttl, now, digests[m], n) then {m} else {};
    }
  }

  // ---------------------------------------------------------------------
  // Digests stand for token prefixes
  // ---------------------------------------------------------------------

  /** One `insert_many` of a request's chain for the node it was sent to. */
  datatype Post = Post(model: seq<Byte>, tokens: seq<TokenId>, node: Node)

  /** Every addition is part of a post. */
  ghost predicate Posted(hash: Hash, ops: seq<Op>, posts: set<Post>) {
    forall op :: op in ops && op.Add? ==>
      exists p :: p in posts && p.node == op.node && op.digest in Chain(hash, p.model, p.tokens)
  }

  /** Every post added its whole chain. */
  ghost predicate FullyPosted(hash: Hash, ops: seq<Op>, posts: set<Post>) {
    forall p, i :: p in posts && 0 <= i < ChunkCount(|p.tokens|) ==> Covered(hash, ops, p, i)
  }

  ghost predicate Covered(hash: Hash, ops: seq<Op>, p: Post, i: nat)
    requires i < ChunkCount(|p.tokens|)
  {
    exists op :: op in ops && op.Add? && op.node == p.node && op.digest == DigestAt(hash, p.model, p.tokens, i)
  }

  /** One `insert_many` of a chain is exactly one post, and runs add up. */
  lemma {:induction false} InsertManyPosts(hash: Hash, p: Post, times: seq<nat>)
    requires |times| == ChunkCount(|p.tokens|)
    ensures var ops := Adds(Chain(hash, p.model, p.tokens), p.node, times);
            Posted(hash, ops, {p}) && FullyPosted(hash, ops, {p})
  {
    hide DigestAt;
    var chain := Chain(hash, p.model, p.tokens);
    var ops := Adds(chain, p.node, times);
    forall op | op in ops
      ensures exists q :: q in {p} && q.node == op.node && op.digest in Chain(hash, q.model, q.tokens)
    {
      var i :| 0 <= i < |ops| && ops[i] == op;
      assert chain[i] in chain;
      assert p in {p} && p.node == op.node && op.digest in Chain(hash, p.model, p.tokens);
    }
    forall i | 0 <= i < ChunkCount(|p.tokens|)
      ensures Covered(hash, ops, p, i)
    {
      assert ops[i] in ops && ops[i].digest == chain[i];
    }
  }

  lemma {:induction false} PostsAppend(hash: Hash, a: seq<Op>, p: set<Post>, b: seq<Op>, q: set<Post>)
    ensures Posted(hash, a, p) && Posted(hash, b, q) ==> Posted(hash, a + b, p + q)
    ensures FullyPosted(hash, a, p) && FullyPosted(hash, b, q) ==> FullyPosted(hash, a + b, p + q)
  {
    hide Chain, DigestAt;
    assert forall x :: x in p || x in q ==> x in p + q;
    assert forall op :: op in a + b <==> op in a || op in b;
    if FullyPosted(hash, a, p) && FullyPosted(hash, b, q) {
      forall x, i | x in p + q && 0 <= i < ChunkCount(|x.tokens|)
        ensures Covered(hash, a + b, x, i)
      {
        assert Covered(hash, if x in p then a else b, x, i);
      }
    }
  }

  ghost predicate Timely(posts: seq<(Post, seq<nat>)>) {
    forall i :: 0 <= i < |posts| ==> |posts[i].1| == ChunkCount(|posts[i].0.tokens|)
  }

  /** What a run of `insert_many` calls does to the index. */
  ghost function OpsOf(hash: Hash, posts: seq<(Post, seq<nat>)>): seq<Op>
    requires Timely(posts)
  {
    if posts == [] then []
    else
      var n := |posts| - 1;
      var (p, times) := posts[n];
      OpsOf(hash, posts[..n]) + Adds(Chain(hash, p.model, p.tokens), p.node, times)
  }

  ghost function PostSet(posts: seq<(Post, seq<nat>)>): set<Post> {
    set i | 0 <= i < |posts| :: posts[i].0
  }

  /** A run of `insert_many` calls adds exactly the chains of its posts. */
  lemma {:induction false} RunPosts(hash: Hash, posts: seq<(Post, seq<nat>)>)
    requires Timely(posts)
    ensures Posted(hash, OpsOf(hash, posts), PostSet(posts)) && FullyPosted(hash, OpsOf(hash, posts), PostSet(posts))
  {
    hide Posted, FullyPosted;
    if posts == [] {
      NothingPosted(hash);
      assert PostSet(posts) == {};
    } else {
      var n := |posts| - 1;
      var (p, times) := posts[n];
      RunPosts(hash, posts[..n]);
      InsertManyPosts(hash, p, times);
      PostsAppend(hash, OpsOf(hash, posts[..n]), PostSet(posts[..n]),
                  Adds(Chain(hash, p.model, p.tokens), p.node, times), {p});
      LastPost(posts);
    }
  }

  lemma {:induction false} NothingPosted(hash: Hash)
    ensures Posted(hash, [], {}) && FullyPosted(hash, [], {})
  {
  }

  lemma {:induction false} LastPost(posts: seq<(Post, seq<nat>)>)
    requires posts != []
    ensures PostSet(posts) == PostSet(posts[..|posts| - 1]) + {posts[|posts| - 1].0}
  {
    var n := |posts| - 1;
    assert forall i :: 0 <= i < n ==> posts[..n][i] == posts[i];
  }

  /** No collision among everything hashed for the posts and the request. */
  ghost predicate Collisionless(hash: Hash, posts: set<Post>, model: seq<Byte>, tokens: seq<TokenId>,
                                inputs: set<seq<Byte>>) {
    && CollisionFree(hash, inputs) && NeverZero(hash, inputs)
    && Inputs(hash, model, tokens) <= inputs
    && (forall p :: p in posts ==> Inputs(hash, p.model, p.tokens) <= inputs && Separate(model, p.model))
  }

  /** `a` and `b` agree on the whole of their first `k` chunks. */
  ghost predicate AgreeOn(a: seq<TokenId>, b: seq<TokenId>, k: nat) {
    k > 0 ==> k <= ChunkCount(|a|) && k <= ChunkCount(|b|) && Prefix(a, k - 1) == Prefix(b, k - 1)
  }

  /** A reported length is the length of one inserted sequence's agreement
      with the request, however claims came and went. */
  lemma {:induction false} LongestPrefixIsSound(hash: Hash, inputs: set<seq<Byte>>, ops: seq<Op>, posts: set<Post>,
                                                ttl: nat, now: nat,
                                                model: seq<Byte>, tokens: seq<TokenId>, n: Node)
    requires Posted(hash, ops, posts) && Collisionless(hash, posts, model, tokens, inputs)
    requires Depth(Applied(map[], ops), ttl, now, Chain(hash, model, tokens), n) > 0
    ensures exists p :: p in posts && p.node == n && p.model == model
                     && AgreeOn(p.tokens, tokens, Depth(Applied(map[], ops), ttl, now, Chain(hash, model, tokens), n))
  {
    var inner, chain := Applied(map[], ops), Chain(hash, model, tokens);
    var k := Depth(inner, ttl, now, chain, n);
    var d := chain[k - 1];
    assert n in Live(inner, ttl, now, d);
    var e: NodeEntry :| e in inner[d] && e.node == n;
    assert Claims(inner, d, e);
    ClaimsWereAdded(ops, d, e);
    var op := Add(d, n, e.lastSeen);
    var p :| p in posts && p.node == n && d in Chain(hash, p.model, p.tokens);
    var j :| 0 <= j < |Chain(hash, p.model, p.tokens)| && Chain(hash, p.model, p.tokens)[j] == d;
    DigestDeterminesPrefix(hash, inputs, model, tokens, k - 1, p.model, p.tokens, j);
    assert AgreeOn(p.tokens, tokens, k);
  }

  /** While no claim was forgotten or expired, the reported length is the
      largest agreement over everything inserted for that node. */
  lemma {:induction false} LongestPrefixIsMaximal(hash: Hash, ops: seq<Op>, posts: set<Post>, ttl: nat, now: nat,
                                                  model: seq<Byte>, tokens: seq<TokenId>, p: Post, k: nat)
    requires FullyPosted(hash, ops, posts) && Unforgotten(ttl, ops, now)
    requires p in posts && p.model == model && AgreeOn(p.tokens, tokens, k)
    ensures k <= Depth(Applied(map[], ops), ttl, now, Chain(hash, model, tokens), p.node)
  {
    hide Live, DigestAt;
    var inner, chain := Applied(map[], ops), Chain(hash, model, tokens);
    var depth := Depth(inner, ttl, now, chain, p.node);
    if depth < k {
      PrefixDeterminesDigest(hash, model, p.tokens, tokens, k - 1, depth);
      assert Covered(hash, ops, p, depth);
      var op :| op in ops && op.Add? && op.node == p.node && op.digest == DigestAt(hash, p.model, p.tokens, depth);
      AddedIsLive(ttl, ops, now, op.digest, p.node, op.at);
    }
  }
}
