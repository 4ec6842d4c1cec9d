/**
The engine's prefix cache and block pool. The cache answers "how many whole
blocks of this prompt are already computed" from chained hashes; the pool
counts the blocks held by each sequence.
*/
module BlockCache {
  import opened Wrappers
  import opened Bytes
  import opened Sums

  const BlockTokens := 16

  function Block(tokens: seq<TokenId>, i: nat): seq<TokenId>
    requires BlockTokens * (i + 1) <= |tokens|
  {
    tokens[BlockTokens * i..BlockTokens * (i + 1)]
  }

  /** What `hash_block` feeds the hasher: 64 bytes for the first block, 96 for
      every later one. */
  function Preimage(parent: Option<Digest>, block: seq<TokenId>): seq<Byte> {
    (if parent.Some? then parent.value else []) + TokenBytes(block)
  }

  function Parent(hash: Hash, tokens: seq<TokenId>, i: nat): Option<Digest>
    requires BlockTokens * i <= |tokens|
    decreases i, 0
  {
    if i == 0 then None else Some(HashAt(hash, tokens, i - 1))
  }

  function InputAt(hash: Hash, tokens: seq<TokenId>, i: nat): seq<Byte>
    requires BlockTokens * (i + 1) <= |tokens|
    decreases i, 1
  {
    Preimage(Parent(hash, tokens, i), Block(tokens, i))
  }

  function HashAt(hash: Hash, tokens: seq<TokenId>, i: nat): Digest
    requires BlockTokens * (i + 1) <= |tokens|
    decreases i, 2
  {
    hash(InputAt(hash, tokens, i))
  }

  function BlockCount(tokens: seq<TokenId>): (n: nat)
    ensures BlockTokens * n <= |tokens| < BlockTokens * (n + 1)
  {
    |tokens| / BlockTokens
  }

  function Hashes(hash: Hash, tokens: seq<TokenId>): (r: seq<Digest>)
    ensures |r| == BlockCount(tokens)
  {
    seq(BlockCount(tokens), i requires 0 <= i < BlockCount(tokens) => HashAt(hash, tokens, i))
  }

  /** Hash every complete block; a shorter tail is not hashed. */
  method BlockHashes(hash: Hash, tokens: seq<TokenId>) returns (out: seq<Digest>)
    ensures out == Hashes(hash, tokens)
  {
    out := [];
    var parent: Option<Digest>, start := None, 0;
    while start + BlockTokens <= |tokens|
      invariant start == BlockTokens * |out| <= |tokens|
      invariant parent == Parent(hash, tokens, |out|)
      invariant forall i :: 0 <= i < |out| ==> out[i] == HashAt(hash, tokens, i)
    {
      var h := hash(Preimage(parent, tokens[start..start + BlockTokens]));
      assert h == HashAt(hash, tokens, |out|);
      out := out + [h];
      parent := Some(h);
      start := start + BlockTokens;
    }
  }

  // ---------------------------------------------------------------------
  // A hash stands for its prefix
  // ---------------------------------------------------------------------

  ghost function Inputs(hash: Hash, tokens: seq<TokenId>): set<seq<Byte>> {
    set i | 0 <= i < BlockCount(tokens) :: InputAt(hash, tokens, i)
  }

  /** Equal hashes mean equal depth and equal tokens up to there. Depths are
      told apart by the number of bytes hashed, without any further assumption. */
  lemma {:induction false} HashDeterminesPrefix(hash: Hash, a: seq<TokenId>, i: nat, b: seq<TokenId>, j: nat)
    requires i < BlockCount(a) && j < BlockCount(b)
    requires CollisionFree(hash, Inputs(hash, a) + Inputs(hash, b))
    requires HashAt(hash, a, i) == HashAt(hash, b, j)
    ensures i == j && a[..BlockTokens * (i + 1)] == b[..BlockTokens * (j + 1)]
    decreases i
  {
    hide HashAt;
    var p, q := Parent(hash, a, i), Parent(hash, b, j);
    SamePreimage(hash, a, i, b, j);
    var x, y := InputAt(hash, a, i), InputAt(hash, b, j);
    assert x == y && |TokenBytes(Block(a, i))| == |TokenBytes(Block(b, j))| == 64;
    assert p.Some? <==> |x| == 96;
    assert q.Some? <==> |y| == 96;
    assert TokenBytes(Block(a, i)) == x[|x| - 64..] && TokenBytes(Block(b, j)) == y[|y| - 64..];
    TokenBytesInjective(Block(a, i), Block(b, j));
    BlockEndsPrefix(a, i);
    BlockEndsPrefix(b, j);
    if i > 0 && j > 0 {
      assert p.value == x[..32] && q.value == y[..32];
      HashDeterminesPrefix(hash, a, i - 1, b, j - 1);
    }
  }

  lemma {:induction false} SamePreimage(hash: Hash, a: seq<TokenId>, i: nat, b: seq<TokenId>, j: nat)
    requires i < BlockCount(a) && j < BlockCount(b)
    requires CollisionFree(hash, Inputs(hash, a) + Inputs(hash, b))
    requires HashAt(hash, a, i) == HashAt(hash, b, j)
    ensures InputAt(hash, a, i) == InputAt(hash, b, j)
  {
    assert InputAt(hash, a, i) in Inputs(hash, a) && InputAt(hash, b, j) in Inputs(hash, b);
  }

  lemma {:induction false} BlockEndsPrefix(a: seq<TokenId>, i: nat)
    requires i < BlockCount(a)
    ensures a[..BlockTokens * (i + 1)] == a[..BlockTokens * i] + Block(a, i)
    ensures i == 0 ==> a[..BlockTokens * i] == []
  {
  }

  lemma {:induction false} PrefixDeterminesHash(hash: Hash, a: seq<TokenId>, b: seq<TokenId>, i: nat)
    requires i < BlockCount(a) && i < BlockCount(b) && a[..BlockTokens * (i + 1)] == b[..BlockTokens * (i + 1)]
    ensures HashAt(hash, a, i) == HashAt(hash, b, i)
    decreases i
  {
    var p, q := a[..BlockTokens * (i + 1)], b[..BlockTokens * (i + 1)];
    assert Block(a, i) == p[BlockTokens * i..] && Block(b, i) == q[BlockTokens * i..];
    if i > 0 {
      assert a[..BlockTokens * i] == p[..BlockTokens * i] && b[..BlockTokens * i] == q[..BlockTokens * i];
      PrefixDeterminesHash(hash, a, b, i - 1);
    }
    assert InputAt(hash, a, i) == InputAt(hash, b, i);
  }

  // ---------------------------------------------------------------------
  // Prefix cache
  // ---------------------------------------------------------------------

  /** Reference: the common prefix of two sequences in whole blocks. */
  ghost predicate CommonBlocks(a: seq<TokenId>, b: seq<TokenId>, k: nat) {
    BlockTokens * k <= |a| && BlockTokens * k <= |b| && a[..BlockTokens * k] == b[..BlockTokens * k]
  }

  ghost predicate LongestCommon(a: seq<TokenId>, b: seq<TokenId>, k: nat) {
    CommonBlocks(a, b, k) && forall j: nat :: CommonBlocks(a, b, j) ==> j <= k
  }

  /** The first `n` block hashes of `tokens`, each at its 1-based depth. */
  ghost predicate FirstRecorded(hash: Hash, tokens: seq<TokenId>, n: nat, resident: map<Digest, nat>)
    requires n <= BlockCount(tokens)
  {
    && (forall i :: 0 <= i < n ==> HashAt(hash, tokens, i) in resident && resident[HashAt(hash, tokens, i)] == i + 1)
    && (forall h :: h in resident ==> exists i :: 0 <= i < n && HashAt(hash, tokens, i) == h)
  }

  ghost predicate Recorded(hash: Hash, tokens: seq<TokenId>, resident: map<Digest, nat>) {
    FirstRecorded(hash, tokens, BlockCount(tokens), resident)
  }

  lemma {:induction false} Grows(resident: map<Digest, nat>, h: Digest, n: nat)
    requires h !in resident
    ensures |resident[h := n]| == |resident| + 1
  {
    assert resident[h := n].Keys == resident.Keys + {h};
    assert |resident[h := n]| == |resident[h := n].Keys| && |resident| == |resident.Keys|;
  }

  lemma {:induction false} RecordNext(hash: Hash, tokens: seq<TokenId>, n: nat, resident: map<Digest, nat>)
    requires n < BlockCount(tokens) && FirstRecorded(hash, tokens, n, resident)
    requires CollisionFree(hash, Inputs(hash, tokens))
    ensures HashAt(hash, tokens, n) !in resident
    ensures FirstRecorded(hash, tokens, n + 1, resident[HashAt(hash, tokens, n) := n + 1])
    ensures |resident[HashAt(hash, tokens, n) := n + 1]| == |resident| + 1
  {
    hide HashAt;
    var h := HashAt(hash, tokens, n);
    forall k | 0 <= k < n
      ensures HashAt(hash, tokens, k) != h
    {
      OwnDepthsDiffer(hash, tokens, k, n);
    }
    var after := resident[h := n + 1];
    Grows(resident, h, n + 1);
    forall g | g in after
      ensures exists i :: 0 <= i < n + 1 && HashAt(hash, tokens, i) == g
    {
      if g != h {
        var i :| 0 <= i < n && HashAt(hash, tokens, i) == g;
      } else {
        assert HashAt(hash, tokens, n) == g;
      }
    }
  }

  datatype PrefixMatch = PrefixMatch(tokens: nat, blocks: nat)

  class PrefixCache {
    var resident: map<Digest, nat>
    var cachedTokens: nat

    constructor ()
      ensures resident == map[] && cachedTokens == 0
    {
      resident, cachedTokens := map[], 0;
    }

    /** The engine now holds exactly `tokens`. No entry is ever overwritten. */
    method Record(hash: Hash, tokens: seq<TokenId>)
      requires CollisionFree(hash, Inputs(hash, tokens))
      modifies this
      ensures Recorded(hash, tokens, resident) && |resident| == BlockCount(tokens)
      ensures cachedTokens == |tokens|
    {
      resident := map[];
      var hs := BlockHashes(hash, tokens);
      assert FirstRecorded(hash, tokens, 0, resident);
      for i := 0 to |hs|
        invariant |resident| == i && FirstRecorded(hash, tokens, i, resident)
      {
        RecordNext(hash, tokens, i, resident);
        resident := resident[hs[i] := i + 1];
      }
      cachedTokens := |tokens|;
    }

    /** The engine's cache was cleared: what is recorded is the empty sequence. */
    method Clear(hash: Hash)
      modifies this
      ensures Recorded(hash, [], resident) && cachedTokens == 0
    {
      resident, cachedTokens := map[], 0;
    }

    method MatchPrefix(hash: Hash, prompt: seq<TokenId>, ghost tokens: seq<TokenId>) returns (r: PrefixMatch)
      requires Recorded(hash, tokens, resident)
      requires CollisionFree(hash, Inputs(hash, tokens) + Inputs(hash, prompt))
      ensures LongestCommon(prompt, tokens, r.blocks) && r.tokens == BlockTokens * r.blocks
    {
      var hs := BlockHashes(hash, prompt);
      var i := 0;
      while i < |hs| && hs[i] in resident && resident[hs[i]] == i + 1
        invariant 0 <= i <= |hs|
        invariant CommonBlocks(prompt, tokens, i)
      {
        ResidentIsCommon(hash, prompt, tokens, resident, i);
        i := i + 1;
      }
      LongestHere(hash, prompt, tokens, resident, i);
      r := PrefixMatch(i * BlockTokens, i);
    }
  }

  lemma {:induction false} OwnDepthsDiffer(hash: Hash, tokens: seq<TokenId>, k: nat, i: nat)
    requires k < i < BlockCount(tokens) && CollisionFree(hash, Inputs(hash, tokens))
    ensures HashAt(hash, tokens, k) != HashAt(hash, tokens, i)
  {
    if HashAt(hash, tokens, k) == HashAt(hash, tokens, i) {
      assert Inputs(hash, tokens) + Inputs(hash, tokens) == Inputs(hash, tokens);
      HashDeterminesPrefix(hash, tokens, k, tokens, i);
    }
  }

  lemma {:induction false} ResidentIsCommon(hash: Hash, prompt: seq<TokenId>, tokens: seq<TokenId>,
                                            resident: map<Digest, nat>, i: nat)
    requires Recorded(hash, tokens, resident) && i < BlockCount(prompt)
    requires CollisionFree(hash, Inputs(hash, tokens) + Inputs(hash, prompt))
    requires HashAt(hash, prompt, i) in resident
    ensures CommonBlocks(prompt, tokens, i + 1)
  {
    hide HashAt;
    var k :| 0 <= k < BlockCount(tokens) && HashAt(hash, tokens, k) == HashAt(hash, prompt, i);
    HashDeterminesPrefix(hash, tokens, k, prompt, i);
  }

  lemma {:induction false} LongestHere(hash: Hash, prompt: seq<TokenId>, tokens: seq<TokenId>,
                                       resident: map<Digest, nat>, i: nat)
    requires Recorded(hash, tokens, resident) && i <= BlockCount(prompt) && CommonBlocks(prompt, tokens, i)
    requires i < BlockCount(prompt) ==>
      !(HashAt(hash, prompt, i) in resident && resident[HashAt(hash, prompt, i)] == i + 1)
    ensures LongestCommon(prompt, tokens, i)
  {
    hide HashAt;
    forall j: nat | CommonBlocks(prompt, tokens, j)
      ensures j <= i
    {
      if j > i {
        var n := BlockTokens * (i + 1);
        assert prompt[..n] == prompt[..BlockTokens * j][..n] && tokens[..n] == tokens[..BlockTokens * j][..n];
        PrefixDeterminesHash(hash, prompt, tokens, i);
      }
    }
  }

  // ---------------------------------------------------------------------
  // Block pool
  // ---------------------------------------------------------------------

  type SeqNo = nat

  function BlocksFor(tokens: nat): (n: nat)
    ensures tokens <= BlockTokens * n < tokens + BlockTokens
  {
    (tokens + BlockTokens - 1) / BlockTokens
  }

  /** The blocks held by all sequences together. */
  ghost function Total(held: map<SeqNo, nat>): int { Sum(held) }

  class KvPool {
    const totalBlocks: nat
    var usedBlocks: nat
    var held: map<SeqNo, nat>

    ghost predicate Valid()
      reads this
    {
      usedBlocks == Total(held) <= totalBlocks
    }

    constructor (totalBlocks: nat)
      ensures Valid() && this.totalBlocks == totalBlocks && held == map[]
    {
      this.totalBlocks, usedBlocks, held := totalBlocks, 0, map[];
    }

    function HeldBy(s: SeqNo): nat
      reads this
    {
      if s in held then held[s] else 0
    }

    function FreeBlocks(): (n: nat)
      requires Valid()
      reads this
      ensures n + Total(held) == totalBlocks
    {
      totalBlocks - usedBlocks
    }

    /** Grow a reservation to cover `tokens` positions, all or nothing. It is
        refused exactly when the growth does not fit. */
    method Reserve(s: SeqNo, tokens: nat) returns (ok: bool)
      requires Valid()
      modifies this
      ensures Valid()
      ensures ok <==>
        BlocksFor(tokens) <= old(HeldBy(s)) || old(Total(held)) - old(HeldBy(s)) + BlocksFor(tokens) <= totalBlocks
      ensures !ok ==> held == old(held)
      ensures ok ==> HeldBy(s) == (if old(HeldBy(s)) < BlocksFor(tokens) then BlocksFor(tokens) else old(HeldBy(s)))
      ensures ok ==> BlockTokens * HeldBy(s) >= tokens
      ensures forall t :: t != s ==> HeldBy(t) == old(HeldBy(t))
    {
      var want := BlocksFor(tokens);
      var have := HeldBy(s);
      if want <= have {
        return true;
      }
      var extra := want - have;
      if extra > FreeBlocks() {
        return false;
      }
      SumUpdate(held, s, want);
      usedBlocks := usedBlocks + extra;
      held := held[s := want];
      return true;
    }

    /** Give back everything a sequence holds. */
    method Release(s: SeqNo)
      requires Valid()
      modifies this
      ensures Valid() && held == old(held) - {s}
      ensures FreeBlocks() == old(FreeBlocks()) + old(HeldBy(s))
    {
      if s in held {
        SumNonNegative(held);
        SumRemove(held, s);
        usedBlocks := usedBlocks - held[s];
        held := held - {s};
      } else {
        assert held - {s} == held;
      }
    }
  }
}
