/**
Sequence-chained prefix digests. With a hash that has no collision on what was
hashed and never yields the all-zero digest, one digest stands for the model
and the whole token prefix up to its chunk.
*/
module PrefixHash {
  import opened Bytes

  const ChunkTokens := 32

  const DomainTag: seq<Byte> := [99, 111, 103, 110, 105, 116, 111, 114, 97, 46, 115, 101, 113, 46, 118, 49, 0]

  function ChunkCount(n: nat): nat { (n + ChunkTokens - 1) / ChunkTokens }

  /** Where chunk `i` ends: the last one may be short. */
  function ChunkEnd(n: nat, i: nat): (e: nat)
    ensures e <= n
  {
    if ChunkTokens * (i + 1) <= n then ChunkTokens * (i + 1) else n
  }

  lemma {:induction false} ChunkBounds(n: nat, i: nat)
    requires i < ChunkCount(n)
    ensures ChunkTokens * i < ChunkEnd(n, i)
    ensures i + 1 < ChunkCount(n) ==> ChunkEnd(n, i) == ChunkTokens * (i + 1)
  {
  }

  function Chunk(tokens: seq<TokenId>, i: nat): seq<TokenId>
    requires i < ChunkCount(|tokens|)
  {
    tokens[ChunkTokens * i..ChunkEnd(|tokens|, i)]
  }

  /** The tokens that chunks `0..i` cover. */
  function Prefix(tokens: seq<TokenId>, i: nat): seq<TokenId> { tokens[..ChunkEnd(|tokens|, i)] }

  /** What `hash_seq_chunk` feeds the hasher. */
  function Preimage(model: seq<Byte>, parent: Digest, chunk: seq<TokenId>): seq<Byte> {
    DomainTag + model + [0] + parent + TokenBytes(chunk)
  }

  const PlainTag: seq<Byte> := [99, 111, 103, 110, 105, 116, 111, 114, 97, 46, 118, 49, 0]

  /** What `hash_chunk`, the digest without a chain, feeds the hasher. */
  function PlainPreimage(model: seq<Byte>, chunk: seq<TokenId>): seq<Byte> {
    PlainTag + model + [0] + TokenBytes(chunk)
  }

  /** The two flavours of digest never hash the same bytes, whatever the names,
      parents and tokens. */
  lemma {:induction false} FlavoursApart(m: seq<Byte>, p: Digest, a: seq<TokenId>, m': seq<Byte>, b: seq<TokenId>)
    ensures Preimage(m, p, a) != PlainPreimage(m', b)
  {
    assert Preimage(m, p, a)[10] == DomainTag[10] && PlainPreimage(m', b)[10] == PlainTag[10];
  }

  function Parent(hash: Hash, model: seq<Byte>, tokens: seq<TokenId>, i: nat): Digest
    requires i <= ChunkCount(|tokens|)
    decreases i, 0
  {
    if i == 0 then ZeroDigest() else DigestAt(hash, model, tokens, i - 1)
  }

  function InputAt(hash: Hash, model: seq<Byte>, tokens: seq<TokenId>, i: nat): seq<Byte>
    requires i < ChunkCount(|tokens|)
    decreases i, 1
  {
    Preimage(model, Parent(hash, model, tokens, i), Chunk(tokens, i))
  }

  function DigestAt(hash: Hash, model: seq<Byte>, tokens: seq<TokenId>, i: nat): Digest
    requires i < ChunkCount(|tokens|)
    decreases i, 2
  {
    hash(InputAt(hash, model, tokens, i))
  }

  function Chain(hash: Hash, model: seq<Byte>, tokens: seq<TokenId>): (r: seq<Digest>)
    ensures |r| == ChunkCount(|tokens|)
  {
    seq(ChunkCount(|tokens|), i requires 0 <= i < ChunkCount(|tokens|) => DigestAt(hash, model, tokens, i))
  }

  /** One digest per chunk, the last partial chunk included. */
  method HashSeqChunks(hash: Hash, model: seq<Byte>, tokens: seq<TokenId>) returns (out: seq<Digest>)
    ensures out == Chain(hash, model, tokens)
    ensures |tokens| <= ChunkTokens * |out| < |tokens| + ChunkTokens
  {
    out := [];
    if tokens == [] {
      return;
    }
    var parent, start := ZeroDigest(), 0;
    while start < |tokens|
      invariant start == ChunkTokens * |out| || start == |tokens|
      invariant start <= |tokens| && |out| == ChunkCount(start)
      invariant |out| <= ChunkCount(|tokens|)
      invariant parent == Parent(hash, model, tokens, |out|)
      invariant forall i :: 0 <= i < |out| ==> out[i] == DigestAt(hash, model, tokens, i)
      decreases |tokens| - start
    {
      var end := if start + ChunkTokens <= |tokens| then start + ChunkTokens else |tokens|;
      var d := hash(Preimage(model, parent, tokens[start..end]));
      assert end == ChunkEnd(|tokens|, |out|) && start == ChunkTokens * |out|;
      assert tokens[start..end] == Chunk(tokens, |out|);
      assert d == DigestAt(hash, model, tokens, |out|);
      out := out + [d];
      parent := d;
      start := end;
    }
  }

  // ---------------------------------------------------------------------
  // A digest stands for its prefix
  // ---------------------------------------------------------------------

  /** `long` continues `short` with a NUL and a whole number of words. */
  predicate Imitates(long: seq<Byte>, short: seq<Byte>) {
    |short| < |long| && long[..|short|] == short && long[|short|] == 0 && (|long| - |short|) % 4 == 0
  }

  /** Neither name can be taken for the other. */
  predicate Separate(m: seq<Byte>, m': seq<Byte>) { !Imitates(m, m') && !Imitates(m', m) }

  lemma {:induction false} CollisionShape(m: seq<Byte>, p: Digest, a: seq<TokenId>, m': seq<Byte>, p': Digest,
                                          b: seq<TokenId>)
    requires |m| <= |m'| && m != m' && Preimage(m, p, a) == Preimage(m', p', b)
    ensures Imitates(m', m)
  {
    var k := |DomainTag|;
    var x, y := Preimage(m, p, a), Preimage(m', p', b);
    assert x[k..k + |m|] == m && y[k..k + |m|] == m'[..|m|];
    assert x[k + |m|] == 0;
    assert |m| < |m'| ==> y[k + |m|] == m'[|m|];
  }

  lemma {:induction false} PreimageInjective(m: seq<Byte>, p: Digest, a: seq<TokenId>, m': seq<Byte>, p': Digest,
                                             b: seq<TokenId>)
    requires Separate(m, m') && Preimage(m, p, a) == Preimage(m', p', b)
    ensures m == m' && p == p' && a == b
  {
    if m != m' {
      if |m| <= |m'| {
        CollisionShape(m, p, a, m', p', b);
      } else {
        CollisionShape(m', p', b, m, p, a);
      }
    }
    var k := |DomainTag| + |m| + 1;
    var x, y := Preimage(m, p, a), Preimage(m', p', b);
    assert p == x[k..k + 32] && p' == y[k..k + 32];
    assert TokenBytes(a) == x[k + 32..] && TokenBytes(b) == y[k + 32..];
    TokenBytesInjective(a, b);
  }

  /** What hashing one sequence feeds the hasher. */
  ghost function Inputs(hash: Hash, model: seq<Byte>, tokens: seq<TokenId>): set<seq<Byte>> {
    set i | 0 <= i < ChunkCount(|tokens|) :: InputAt(hash, model, tokens, i)
  }

  ghost predicate NeverZero(hash: Hash, inputs: set<seq<Byte>>) {
    forall a :: a in inputs ==> hash(a) != ZeroDigest()
  }

  /** Equal digests mean the same model, the same depth and the same tokens up
      to the end of the chunk. */
  lemma {:induction false} DigestDeterminesPrefix(hash: Hash, inputs: set<seq<Byte>>,
                                                  m: seq<Byte>, a: seq<TokenId>, i: nat,
                                                  m': seq<Byte>, b: seq<TokenId>, j: nat)
    requires Separate(m, m') && i < ChunkCount(|a|) && j < ChunkCount(|b|)
    requires Inputs(hash, m, a) <= inputs && Inputs(hash, m', b) <= inputs
    requires CollisionFree(hash, inputs) && NeverZero(hash, inputs)
    requires DigestAt(hash, m, a, i) == DigestAt(hash, m', b, j)
    ensures m == m' && i == j && Prefix(a, i) == Prefix(b, j)
    decreases i
  {
    hide Preimage, DigestAt, InputAt, Prefix, Chunk;
    var p, q := Parent(hash, m, a, i), Parent(hash, m', b, j);
    Fed(hash, inputs, m, a, i);
    Fed(hash, inputs, m', b, j);
    PreimageInjective(m, p, Chunk(a, i), m', q, Chunk(b, j));
    if i > 0 {
      Fed(hash, inputs, m, a, i - 1);
      PrefixGrows(a, i);
    } else {
      FirstPrefix(a);
    }
    if j > 0 {
      Fed(hash, inputs, m', b, j - 1);
      PrefixGrows(b, j);
    } else {
      FirstPrefix(b);
    }
    if i > 0 && j > 0 {
      DigestDeterminesPrefix(hash, inputs, m, a, i - 1, m', b, j - 1);
    }
  }

  /** A digest comes from an input that was hashed, so it is not zero. */
  lemma {:induction false} Fed(hash: Hash, inputs: set<seq<Byte>>, m: seq<Byte>, a: seq<TokenId>, i: nat)
    requires i < ChunkCount(|a|) && Inputs(hash, m, a) <= inputs && NeverZero(hash, inputs)
    ensures InputAt(hash, m, a, i) in inputs
    ensures InputAt(hash, m, a, i) == Preimage(m, Parent(hash, m, a, i), Chunk(a, i))
    ensures DigestAt(hash, m, a, i) == hash(InputAt(hash, m, a, i)) != ZeroDigest()
  {
    assert InputAt(hash, m, a, i) in Inputs(hash, m, a);
  }

  lemma {:induction false} FirstPrefix(a: seq<TokenId>)
    requires ChunkCount(|a|) > 0
    ensures Prefix(a, 0) == Chunk(a, 0)
  {
  }

  lemma {:induction false} PrefixGrows(a: seq<TokenId>, i: nat)
    requires 0 < i < ChunkCount(|a|)
    ensures Prefix(a, i) == Prefix(a, i - 1) + Chunk(a, i)
  {
    ChunkBounds(|a|, i);
    ChunkBounds(|a|, i - 1);
  }

  /** And the other way: sequences that agree up to chunk `i` have the same
      digests up to there, whatever the hash. */
  lemma {:induction false} PrefixDeterminesDigest(hash: Hash, m: seq<Byte>, a: seq<TokenId>, b: seq<TokenId>, i: nat,
                                                  j: nat)
    requires j <= i < ChunkCount(|a|) && i < ChunkCount(|b|) && Prefix(a, i) == Prefix(b, i)
    ensures DigestAt(hash, m, a, j) == DigestAt(hash, m, b, j) && Prefix(a, j) == Prefix(b, j)
    decreases j
  {
    ChunkBounds(|a|, i);
    ChunkBounds(|b|, i);
    ChunkBounds(|a|, j);
    ChunkBounds(|b|, j);
    var e := ChunkEnd(|a|, j);
    assert e == ChunkEnd(|b|, j) && e <= |Prefix(a, i)|;
    assert Prefix(a, j) == Prefix(a, i)[..e] && Prefix(b, j) == Prefix(b, i)[..e];
    assert Chunk(a, j) == Prefix(a, j)[ChunkTokens * j..] && Chunk(b, j) == Prefix(b, j)[ChunkTokens * j..];
    assert Chunk(a, j) == Chunk(b, j);
    if j > 0 {
      PrefixDeterminesDigest(hash, m, a, b, i, j - 1);
    }
    assert Parent(hash, m, a, j) == Parent(hash, m, b, j);
    assert InputAt(hash, m, a, j) == InputAt(hash, m, b, j);
  }

  // ---------------------------------------------------------------------
  // Names that are not separate
  // ---------------------------------------------------------------------

  /** `long` continues `short` with at most 31 whole words, and with zeros as
      far as the zero parent of a first chunk reaches. */
  predicate ZeroTail(long: seq<Byte>, short: seq<Byte>) {
    && |short| < |long| <= |short| + 124 && long[..|short|] == short && (|long| - |short|) % 4 == 0
    && forall i :: |short| <= i < |long| && i < |short| + 33 ==> long[i] == 0
  }

  /** One chunk of one request. */
  predicate IsChunk(x: seq<TokenId>) { 0 < |x| <= ChunkTokens }

  lemma {:induction false} OneChunk(hash: Hash, m: seq<Byte>, x: seq<TokenId>)
    requires IsChunk(x)
    ensures ChunkCount(|x|) == 1 && InputAt(hash, m, x, 0) == Preimage(m, ZeroDigest(), x)
  {
    assert Chunk(x, 0) == x;
  }

  lemma {:induction false} FirstCollisionShape(m: seq<Byte>, x: seq<TokenId>, m': seq<Byte>, y: seq<TokenId>)
    requires |m| <= |m'| && m != m' && IsChunk(x) && IsChunk(y)
    requires Preimage(m, ZeroDigest(), x) == Preimage(m', ZeroDigest(), y)
    ensures ZeroTail(m', m)
  {
    CollisionShape(m, ZeroDigest(), x, m', ZeroDigest(), y);
    var k := |DomainTag|;
    var p, q := Preimage(m, ZeroDigest(), x), Preimage(m', ZeroDigest(), y);
    assert |p| == |q|;
    forall i | |m| <= i < |m'| && i < |m| + 33
      ensures m'[i] == 0
    {
      assert q[k + i] == m'[i] && p[k + i] == 0;
    }
  }

  /** The hashed bytes when the name ends in `tail`. */
  lemma {:induction false} PreimageTail(m: seq<Byte>, tail: seq<Byte>, d: Digest, x: seq<TokenId>)
    ensures Preimage(m + tail, d, x) == DomainTag + m + (tail + ([0] + d + TokenBytes(x)))
  {
    hide TokenBytes;
  }

  lemma {:induction false} PreimagePlain(m: seq<Byte>, d: Digest, x: seq<TokenId>)
    ensures Preimage(m, d, x) == DomainTag + m + ([0] + d + TokenBytes(x))
  {
    hide TokenBytes;
  }

  lemma {:induction false} ZeroLead(tail: seq<Byte>, more: seq<Byte>)
    requires forall i :: 0 <= i < |tail| && i < 33 ==> tail[i] == 0
    ensures (tail + ([0] + ZeroDigest() + more))[..33] == [0] + ZeroDigest()
  {
    var rest := tail + ([0] + ZeroDigest() + more);
    assert forall i :: 0 <= i < 33 ==> rest[i] == 0;
  }

  lemma {:induction false} ZeroTailCollides(m: seq<Byte>, m': seq<Byte>) returns (x: seq<TokenId>, y: seq<TokenId>)
    requires ZeroTail(m', m)
    ensures IsChunk(x) && IsChunk(y) && Preimage(m, ZeroDigest(), x) == Preimage(m', ZeroDigest(), y)
  {
    hide Preimage, TokenBytes, ZeroDigest;
    y := [7];
    var tail, lead := m'[|m|..], [0] + ZeroDigest();
    assert forall i :: 0 <= i < |tail| && i < 33 ==> tail[i] == m'[|m| + i] == 0;
    var rest := tail + (lead + TokenBytes(y));
    ZeroLead(tail, TokenBytes(y));
    x := Tokens(rest[33..]);
    assert rest == lead + TokenBytes(x);
    PreimagePlain(m, ZeroDigest(), x);
    PreimageTail(m, tail, ZeroDigest(), y);
    assert m' == m + tail;
  }

  /**
  Whatever the hash, two different models have sequences with the same first
  digest if and only if one name continues the other with whole words that are
  zero as far as the zero parent digest reaches.
  */
  lemma {:induction false} FirstDigestsCollideIff(hash: Hash, m: seq<Byte>, m': seq<Byte>)
    requires m != m'
    ensures (exists x, y :: IsChunk(x) && IsChunk(y) && InputAt(hash, m, x, 0) == InputAt(hash, m', y, 0)) <==>
              ZeroTail(m, m') || ZeroTail(m', m)
  {
    hide Preimage, InputAt, ZeroTail;
    if x, y :| IsChunk(x) && IsChunk(y) && InputAt(hash, m, x, 0) == InputAt(hash, m', y, 0) {
      OneChunk(hash, m, x);
      OneChunk(hash, m', y);
      if |m| <= |m'| {
        FirstCollisionShape(m, x, m', y);
      } else {
        FirstCollisionShape(m', y, m, x);
      }
    }
    if ZeroTail(m', m) {
      var x, y := ZeroTailCollides(m, m');
      OneChunk(hash, m, x);
      OneChunk(hash, m', y);
      assert InputAt(hash, m, x, 0) == InputAt(hash, m', y, 0);
    } else if ZeroTail(m, m') {
      var y, x := ZeroTailCollides(m', m);
      OneChunk(hash, m, x);
      OneChunk(hash, m', y);
      assert InputAt(hash, m, x, 0) == InputAt(hash, m', y, 0);
    }
  }

  /** Four NUL bytes at the end of a name read as one token 0 at the start of
      the request: the digests agree under every hash. */
  lemma {:induction false} NulNameExample(hash: Hash, m: seq<Byte>, b: seq<TokenId>)
    requires 0 < |b| < ChunkTokens
    ensures ChunkCount(|[0] + b|) == ChunkCount(|b|) == 1
    ensures DigestAt(hash, m, [0] + b, 0) == DigestAt(hash, m + [0, 0, 0, 0], b, 0)
  {
    var zero: seq<TokenId> := [0];
    OneChunk(hash, m, zero + b);
    OneChunk(hash, m + [0, 0, 0, 0], b);
    LeadingZero(b);
    var z := ZeroDigest();
    assert Preimage(m, z, zero + b) == DomainTag + m + ([0] + z + [0, 0, 0, 0]) + TokenBytes(b);
    assert Preimage(m + [0, 0, 0, 0], z, b) == DomainTag + m + ([0, 0, 0, 0] + [0] + z) + TokenBytes(b);
    assert [0] + z + [0, 0, 0, 0] == [0, 0, 0, 0] + [0] + z;
  }

  lemma {:induction false} LeadingZero(b: seq<TokenId>)
    ensures TokenBytes([0] + b) == [0, 0, 0, 0] + TokenBytes(b)
  {
    var zero: seq<TokenId> := [0];
    if b == [] {
      assert zero + b == zero && zero[..0] == [];
    } else {
      var n := |b| - 1;
      LeadingZero(b[..n]);
      assert (zero + b)[..n + 1] == zero + b[..n];
    }
  }

  /**
  At any depth: some hash gives two sequences of different models the same
  hashed bytes if and only if one name continues the other with a NUL byte and
  at most 31 whole words in all.
  */
  lemma {:induction false} SomeDigestsCollideIff(m: seq<Byte>, m': seq<Byte>)
    requires m != m'
    ensures (exists hash: Hash, a, b, i, j :: SameInput(hash, m, a, i, m', b, j)) <==>
              (Imitates(m, m') && |m| <= |m'| + 124) || (Imitates(m', m) && |m'| <= |m| + 124)
  {
    hide Preimage, InputAt, Imitates;
    if hash: Hash, a, b, i, j :| SameInput(hash, m, a, i, m', b, j) {
      Close(hash, m, a, i, m', b, j);
    }
    if Imitates(m', m) && |m'| <= |m| + 124 {
      var hash, a, b := Imitation(m, m');
      assert SameInput(hash, m, a, 1, m', b, 0);
    } else if Imitates(m, m') && |m| <= |m'| + 124 {
      var hash, b, a := Imitation(m', m);
      assert SameInput(hash, m, a, 0, m', b, 1);
    }
  }

  ghost predicate SameInput(hash: Hash, m: seq<Byte>, a: seq<TokenId>, i: nat, m': seq<Byte>, b: seq<TokenId>, j: nat) {
    i < ChunkCount(|a|) && j < ChunkCount(|b|) && InputAt(hash, m, a, i) == InputAt(hash, m', b, j)
  }

  lemma {:induction false} Close(hash: Hash, m: seq<Byte>, a: seq<TokenId>, i: nat, m': seq<Byte>, b: seq<TokenId>,
                                 j: nat)
    requires m != m' && SameInput(hash, m, a, i, m', b, j)
    ensures (Imitates(m, m') && |m| <= |m'| + 124) || (Imitates(m', m) && |m'| <= |m| + 124)
  {
    ChunkBounds(|a|, i);
    ChunkBounds(|b|, j);
    var p, q := Parent(hash, m, a, i), Parent(hash, m', b, j);
    var x, y := Chunk(a, i), Chunk(b, j);
    assert Preimage(m, p, x) == Preimage(m', q, y);
    assert |Preimage(m, p, x)| == |DomainTag| + |m| + 33 + 4 * |x|;
    assert |Preimage(m', q, y)| == |DomainTag| + |m'| + 33 + 4 * |y|;
    if |m| <= |m'| {
      CollisionShape(m, p, x, m', q, y);
    } else {
      CollisionShape(m', q, y, m, p, x);
    }
  }

  /** The second chunk of one model's sequence against the first of the
      other's, under a hash whose digest spells the rest of the longer name. */
  lemma {:induction false} Imitation(m: seq<Byte>, m': seq<Byte>) returns (hash: Hash, a: seq<TokenId>, b: seq<TokenId>)
    requires Imitates(m', m) && |m'| <= |m| + 124
    ensures SameInput(hash, m, a, 1, m', b, 0)
  {
    hide Preimage, TokenBytes, ZeroDigest, InputAt;
    b := [7];
    var tail := m'[|m|..];
    var rest := tail[1..] + ([0] + ZeroDigest() + TokenBytes(b));
    var d: Digest, x := rest[..32], Tokens(rest[32..]);
    hash := _ => d;
    assert rest == d + TokenBytes(x);
    assert 4 * |x| == |rest| - 32;
    a := seq(ChunkTokens, _ => 0) + x;
    SecondChunk(hash, m, d, x);
    OneChunk(hash, m', b);
    assert m' == m + tail && tail == [0] + tail[1..];
    SameBytes(m, tail, d, x, b);
  }

  lemma {:induction false} SecondChunk(hash: Hash, m: seq<Byte>, d: Digest, x: seq<TokenId>)
    requires IsChunk(x) && forall bytes :: hash(bytes) == d
    ensures var a: seq<TokenId> := seq(ChunkTokens, _ => 0) + x;
            ChunkCount(|a|) == 2 && InputAt(hash, m, a, 1) == Preimage(m, d, x)
  {
    var a: seq<TokenId> := seq(ChunkTokens, _ => 0) + x;
    assert Chunk(a, 1) == x;
  }

  lemma {:induction false} SameBytes(m: seq<Byte>, tail: seq<Byte>, d: Digest, x: seq<TokenId>, b: seq<TokenId>)
    requires tail != [] && tail[0] == 0 && tail[1..] + ([0] + ZeroDigest() + TokenBytes(b)) == d + TokenBytes(x)
    ensures Preimage(m, d, x) == Preimage(m + tail, ZeroDigest(), b)
  {
    hide Preimage, TokenBytes, ZeroDigest;
    PreimagePlain(m, d, x);
    PreimageTail(m, tail, ZeroDigest(), b);
    assert tail == [0] + tail[1..];
    assert [0] + d + TokenBytes(x) == [0] + (d + TokenBytes(x));
  }
}
