/** Byte strings, little-endian token ids and 32-byte digests. */
module Bytes {
  type Byte = n: nat | n < 256
  type TokenId = n: nat | n < 0x1_0000_0000
  type Digest = d: seq<Byte> | |d| == 32 witness seq(32, _ => 0)

  function ZeroDigest(): Digest { seq(32, _ => 0) }

  /** The hash, and its freedom from collisions on the inputs at hand. */
  type Hash = seq<Byte> -> Digest

  ghost predicate CollisionFree(hash: Hash, inputs: set<seq<Byte>>) {
    forall a, b :: a in inputs && b in inputs && hash(a) == hash(b) ==> a == b
  }

  function LittleEndian(t: TokenId): (r: seq<Byte>)
    ensures |r| == 4
  {
    [t % 256, t / 256 % 256, t / 256 / 256 % 256, t / 256 / 256 / 256]
  }

  /** Least significant byte first. */
  lemma {:induction false} LittleEndianValue(t: TokenId)
    ensures var r := LittleEndian(t);
            t == r[0] as int + 0x100 * r[1] as int + 0x1_0000 * r[2] as int + 0x100_0000 * r[3] as int
  {
    var a := t / 256;
    assert t == 256 * a + t % 256 && a == 256 * (a / 256) + a % 256;
    assert a / 256 == 256 * (a / 256 / 256) + a / 256 % 256;
  }

  /** Token after token, in order. */
  lemma {:induction false} TokenBytesAt(tokens: seq<TokenId>, i: nat)
    requires i < |tokens|
    ensures TokenBytes(tokens)[4 * i..4 * i + 4] == LittleEndian(tokens[i])
  {
    var n := |tokens| - 1;
    if i < n {
      TokenBytesAt(tokens[..n], i);
      assert TokenBytes(tokens)[4 * i..4 * i + 4] == TokenBytes(tokens[..n])[4 * i..4 * i + 4];
    }
  }

  function TokenBytes(tokens: seq<TokenId>): (r: seq<Byte>)
    ensures |r| == 4 * |tokens|
  {
    if tokens == [] then [] else TokenBytes(tokens[..|tokens| - 1]) + LittleEndian(tokens[|tokens| - 1])
  }

  lemma {:induction false} LittleEndianInjective(a: TokenId, b: TokenId)
    requires LittleEndian(a) == LittleEndian(b)
    ensures a == b
  {
    var x, y := LittleEndian(a), LittleEndian(b);
    assert x[3] == y[3];
    assert a / 256 / 256 == 256 * x[3] as int + x[2] as int && b / 256 / 256 == 256 * y[3] as int + y[2] as int;
    assert a / 256 == b / 256;
  }

  lemma {:induction false} TokenBytesInjective(a: seq<TokenId>, b: seq<TokenId>)
    requires TokenBytes(a) == TokenBytes(b)
    ensures a == b
  {
    if a != [] {
      var n := |a| - 1;
      assert TokenBytes(a) == TokenBytes(a[..n]) + LittleEndian(a[n]);
      assert TokenBytes(b) == TokenBytes(b[..n]) + LittleEndian(b[n]);
      assert TokenBytes(a[..n]) == TokenBytes(a)[..4 * n] == TokenBytes(b[..n]);
      assert LittleEndian(a[n]) == TokenBytes(a)[4 * n..] == LittleEndian(b[n]);
      TokenBytesInjective(a[..n], b[..n]);
      LittleEndianInjective(a[n], b[n]);
      assert a == a[..n] + [a[n]] && b == b[..n] + [b[n]];
    }
  }

  function Word(b: seq<Byte>): TokenId
    requires |b| == 4
  {
    b[0] as int + 256 * (b[1] as int + 256 * (b[2] as int + 256 * b[3] as int))
  }

  /** Any bytes in fours are some tokens' bytes. */
  function Tokens(b: seq<Byte>): (r: seq<TokenId>)
    requires |b| % 4 == 0
    ensures TokenBytes(r) == b
    decreases |b|
  {
    if b == [] then []
    else
      var n := |b| - 4;
      var r := Tokens(b[..n]) + [Word(b[n..])];
      assert r[..|r| - 1] == Tokens(b[..n]);
      assert b == b[..n] + b[n..];
      WordBytes(b[n..]);
      r
  }

  lemma {:induction false} WordBytes(b: seq<Byte>)
    requires |b| == 4
    ensures LittleEndian(Word(b)) == b
  {
    var w := Word(b);
    assert w / 256 == b[1] as int + 256 * (b[2] as int + 256 * b[3] as int);
    assert w / 256 / 256 == b[2] as int + 256 * b[3] as int;
  }
}
