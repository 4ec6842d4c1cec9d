/**
The activation codecs of the pipeline wire, over exact real arithmetic. The
half-precision conversion is a parameter; the per-tensor int8 quantiser is
modelled in full.
*/
module Codec {
  import Bytes
  import opened Wrappers
  import opened Transformer
  import opened PipelineReference
  import opened PipelineWire
  import opened StaleWitness

  type Byte = Bytes.Byte
  type Bits16 = n: nat | n < 65536

  datatype Encoding = F16 | Int8
  datatype WireEncoding = Unspecified | WireF16 | WireInt8

  /** The half-precision conversion, as bits. */
  datatype Half = Half(bits: real -> Bits16, value: Bits16 -> real)

  function Tag(enc: Encoding): WireEncoding {
    match enc case F16 => WireF16 case Int8 => WireInt8
  }

  function Abs(x: real): real { if x < 0.0 then -x else x }

  function MaxAbs(values: seq<real>): (m: real)
    ensures m >= 0.0
    ensures forall i :: 0 <= i < |values| ==> Abs(values[i]) <= m
    ensures m > 0.0 ==> exists i :: 0 <= i < |values| && Abs(values[i]) == m
  {
    if values == [] then 0.0
    else
      var n := |values| - 1;
      var m := MaxAbs(values[..n]);
      if Abs(values[n]) > m then Abs(values[n]) else m
  }

  /** Nearest integer, halves away from zero. */
  function Round(x: real): (r: int)
    ensures Abs(r as real - x) <= 0.5
    ensures Abs(x) <= 127.0 ==> -127 <= r <= 127
  {
    if x >= 0.0 then (x + 0.5).Floor else -((-x + 0.5).Floor)
  }

  function Clamp(r: int): int { if r < -127 then -127 else if r > 127 then 127 else r }

  /** Two's-complement byte of a small integer, and back. */
  function AsByte(i: int): Byte { i % 256 }

  function AsSigned(b: Byte): int { if b < 128 then b else b - 256 }

  function Scale(values: seq<real>): (s: real)
    ensures s > 0.0
  {
    var max := MaxAbs(values);
    if max > 0.0 then max / 127.0 else 1.0
  }

  function Quantise(v: real, scale: real): Byte
    requires scale != 0.0
  {
    AsByte(Clamp(Round(v / scale)))
  }

  /** The value a quantised value decodes to. */
  function Rebuilt(v: real, scale: real): real
    requires scale != 0.0
  {
    Stepped(AsSigned(Quantise(v, scale)), scale)
  }

  function Stepped(k: int, scale: real): real { k as real * scale }

  function Word(low: Byte, high: Byte): Bits16 { low as int + 256 * high as int }

  function LowHigh(b: Bits16): seq<Byte> { [b % 256, b / 256] }

  function HalfBytes(half: Half, values: seq<real>): (r: seq<Byte>)
    ensures |r| == 2 * |values|
  {
    if values == [] then []
    else HalfBytes(half, values[..|values| - 1]) + LowHigh(half.bits(values[|values| - 1]))
  }

  function Flatten(rows: seq<Row>): seq<real> {
    if rows == [] then [] else Flatten(rows[..|rows| - 1]) + rows[|rows| - 1]
  }

  function Encode(half: Half, rows: seq<Row>, enc: Encoding): (seq<Byte>, real) {
    var values := Flatten(rows);
    match enc
    case F16 => (HalfBytes(half, values), 0.0)
    case Int8 =>
      var scale := Scale(values);
      (seq(|values|, i requires 0 <= i < |values| => Quantise(values[i], scale)), scale)
  }

  function Reshape(values: seq<real>, seqLen: nat, hidden: nat): (rows: seq<Row>)
    requires |values| == seqLen * hidden
    ensures |rows| == seqLen
    decreases seqLen
  {
    if seqLen == 0 then []
    else
      var cut := (seqLen - 1) * hidden;
      Reshape(values[..cut], seqLen - 1, hidden) + [values[cut..]]
  }

  function Dequantise(enc: WireEncoding, half: Half, data: seq<Byte>, scale: real): seq<real> {
    match enc
    case Unspecified => []
    case WireF16 => seq(|data| / 2, i requires 0 <= i < |data| / 2 => half.value(Word(data[2 * i], data[2 * i + 1])))
    case WireInt8 => seq(|data|, i requires 0 <= i < |data| => Stepped(AsSigned(data[i]), scale))
  }

  function Width(enc: WireEncoding): nat { if enc == WireF16 then 2 else 1 }

  /** Refuses exactly an unspecified encoding and a payload of another size. */
  function Decode(half: Half, data: seq<Byte>, enc: WireEncoding, scale: real, seqLen: nat,
                  hidden: nat): (r: Result<seq<Row>>)
    ensures r.Done? <==> enc != Unspecified && |data| == Width(enc) * (seqLen * hidden)
    ensures r.Done? ==> |r.value| == seqLen
  {
    var size := seqLen * hidden;
    match enc
    case WireF16 =>
      if |data| != size * 2 then Failed
      else Done(Reshape(Dequantise(enc, half, data, scale), seqLen, hidden))
    case WireInt8 =>
      if |data| != size then Failed
      else Done(Reshape(Dequantise(enc, half, data, scale), seqLen, hidden))
    case Unspecified => Failed
  }

  ghost predicate Wide(rows: seq<Row>, hidden: nat) {
    forall i :: 0 <= i < |rows| ==> |rows[i]| == hidden
  }

  /** One trip over the wire. */
  function Trip(half: Half, rows: seq<Row>, enc: Encoding, hidden: nat): Result<seq<Row>> {
    var (data, scale) := Encode(half, rows, enc);
    Decode(half, data, Tag(enc), scale, |rows|, hidden)
  }

  /** How a payload reads: two bytes a value, the low one first, or one byte a
      value in two's complement, times the scale. */
  lemma {:induction false} PayloadReads(half: Half, data: seq<Byte>, enc: WireEncoding, scale: real, seqLen: nat,
                                        hidden: nat, i: nat)
    requires Decode(half, data, enc, scale, seqLen, hidden).Done? && i < seqLen * hidden
    ensures var values := Flatten(Decode(half, data, enc, scale, seqLen, hidden).value);
            && |values| == seqLen * hidden
            && (enc == WireF16 ==> values[i] == half.value(data[2 * i] as int + 256 * data[2 * i + 1] as int))
            && (enc == WireInt8 ==>
                  values[i] == (if data[i] < 128 then data[i] as int else data[i] as int - 256) as real * scale)
  {
    FlattenUndoesReshape(Dequantise(enc, half, data, scale), seqLen, hidden);
  }

  // ---------------------------------------------------------------------
  // Shape
  // ---------------------------------------------------------------------

  lemma {:induction false} FlattenLength(rows: seq<Row>, hidden: nat)
    requires Wide(rows, hidden)
    ensures |Flatten(rows)| == |rows| * hidden
  {
    if rows != [] {
      var n := |rows| - 1;
      FlattenLength(rows[..n], hidden);
      assert |rows| * hidden == n * hidden + hidden;
    }
  }

  lemma {:induction false} ReshapeUndoesFlatten(rows: seq<Row>, hidden: nat)
    requires Wide(rows, hidden)
    ensures |Flatten(rows)| == |rows| * hidden
    ensures Reshape(Flatten(rows), |rows|, hidden) == rows
  {
    FlattenLength(rows, hidden);
    if rows != [] {
      var n := |rows| - 1;
      FlattenLength(rows[..n], hidden);
      ReshapeUndoesFlatten(rows[..n], hidden);
      assert Flatten(rows)[..n * hidden] == Flatten(rows[..n]);
      assert Flatten(rows)[n * hidden..] == rows[n];
      assert rows == rows[..n] + [rows[n]];
    }
  }

  lemma {:induction false} FlattenUndoesReshape(values: seq<real>, seqLen: nat, hidden: nat)
    requires |values| == seqLen * hidden
    ensures var rows := Reshape(values, seqLen, hidden);
            Wide(rows, hidden) && Flatten(rows) == values
    decreases seqLen
  {
    if seqLen > 0 {
      var cut := (seqLen - 1) * hidden;
      assert seqLen * hidden == cut + hidden;
      FlattenUndoesReshape(values[..cut], seqLen - 1, hidden);
      var rows := Reshape(values, seqLen, hidden);
      assert rows[..seqLen - 1] == Reshape(values[..cut], seqLen - 1, hidden);
      assert values == values[..cut] + values[cut..];
    }
  }

  /** Every well-shaped chunk makes the trip and keeps its shape; its values
      are the dequantised ones in place. */
  lemma {:induction false} TripShape(half: Half, rows: seq<Row>, enc: Encoding, hidden: nat)
    requires Wide(rows, hidden)
    ensures var r := Trip(half, rows, enc, hidden);
            var (data, scale) := Encode(half, rows, enc);
            && r.Done? && |r.value| == |rows| && Wide(r.value, hidden)
            && Flatten(r.value) == Dequantise(Tag(enc), half, data, scale)
  {
    FlattenLength(rows, hidden);
    var (data, scale) := Encode(half, rows, enc);
    FlattenUndoesReshape(Dequantise(Tag(enc), half, data, scale), |rows|, hidden);
  }

  // ---------------------------------------------------------------------
  // Int8
  // ---------------------------------------------------------------------

  lemma {:induction false} ByteRoundTrip(i: int)
    requires -128 <= i <= 127
    ensures AsSigned(AsByte(i)) == i
  {
    if i < 0 {
      assert i % 256 == i + 256;
    }
  }

  lemma {:induction false} Times(e: real, bound: real, s: real)
    requires s > 0.0 && Abs(e) <= bound
    ensures Abs(e * s) <= bound * s
  {
    assert (bound - e) * s >= 0.0 && (bound + e) * s >= 0.0;
  }

  lemma {:induction false} Cancel(a: real, b: real, s: real)
    requires s > 0.0 && a * s == b * s
    ensures a == b
  {
    assert a == (a * s) / s && b == (b * s) / s;
  }

  lemma {:induction false} Quotient(v: real, bound: real, s: real)
    requires s > 0.0 && Abs(v) <= bound * s
    ensures Abs(v / s) <= bound && (v / s) * s == v
  {
    var q := v / s;
    assert (bound - q) * s >= 0.0 && (bound + q) * s >= 0.0;
  }

  /** A value in range is sent as its rounded number of steps. */
  lemma {:induction false} StepsSent(v: real, scale: real)
    requires scale > 0.0 && Abs(v) <= 127.0 * scale
    ensures -127 <= Round(v / scale) <= 127
    ensures AsSigned(Quantise(v, scale)) == Round(v / scale)
    ensures Quantise(v, scale) == AsByte(Round(v / scale))
  {
    hide Round;
    Quotient(v, 127.0, scale);
    ByteRoundTrip(Round(v / scale));
  }

  /** A value in range comes back within half a step of the original. */
  lemma {:induction false} QuantisedValue(v: real, scale: real)
    requires scale > 0.0 && Abs(v) <= 127.0 * scale
    ensures Abs(Rebuilt(v, scale) - v) <= 0.5 * scale
    ensures Abs(Rebuilt(v, scale)) <= 127.0 * scale
  {
    hide Round, Quantise, AsSigned, Stepped;
    StepsSent(v, scale);
    Quotient(v, 127.0, scale);
    var q, k := v / scale, Round(v / scale);
    assert Rebuilt(v, scale) == Stepped(k, scale);
    StepError(k, q, scale);
  }

  lemma {:induction false} StepError(k: int, q: real, scale: real)
    requires scale > 0.0 && -127 <= k <= 127 && Abs(k as real - q) <= 0.5
    ensures Abs(Stepped(k, scale) - q * scale) <= 0.5 * scale
    ensures Abs(Stepped(k, scale)) <= 127.0 * scale
  {
    var e := k as real - q;
    Times(e, 0.5, scale);
    Times(k as real, 127.0, scale);
    var off := e * scale;
    assert off == Stepped(k, scale) - q * scale;
    assert Abs(off) <= 0.5 * scale;
  }

  lemma {:induction false} Extreme(v: real, scale: real)
    requires scale > 0.0 && Abs(v) == 127.0 * scale
    ensures Rebuilt(v, scale) == v
  {
    Cancel(v / scale, if v > 0.0 then 127.0 else -127.0, scale);
    ByteRoundTrip(127);
    ByteRoundTrip(-127);
  }

  /** A value that is already a whole number of steps is kept. */
  lemma {:induction false} Steps(k: int, scale: real)
    requires scale > 0.0 && -127 <= k <= 127
    ensures Quantise(Stepped(k, scale), scale) == AsByte(k)
  {
    Cancel((k as real * scale) / scale, k as real, scale);
    assert Round(k as real) == k;
  }

  /** What an int8 trip turns the flat values into. */
  function Int8Values(values: seq<real>): (r: seq<real>)
    ensures |r| == |values|
  {
    seq(|values|, i requires 0 <= i < |values| => Rebuilt(values[i], Scale(values)))
  }

  lemma {:induction false} InRange(values: seq<real>, i: nat)
    requires i < |values|
    ensures Abs(values[i]) <= 127.0 * Scale(values)
    ensures Abs(Int8Values(values)[i] - values[i]) <= MaxAbs(values) / 254.0
    ensures Abs(Int8Values(values)[i]) <= MaxAbs(values)
    ensures Quantise(values[i], Scale(values)) != 128
  {
    hide Quantise, Rebuilt;
    var max, scale := MaxAbs(values), Scale(values);
    assert Abs(values[i]) <= max;
    if max > 0.0 {
      assert 127.0 * scale == max;
      QuantisedValue(values[i], scale);
    } else {
      Steps(0, 1.0);
      QuantisedValue(0.0, 1.0);
      assert Rebuilt(0.0, 1.0) == 0.0 by {
        assert Quantise(0.0, 1.0) == 0;
        Unquantised(0.0, 1.0);
      }
    }
    StepsSent(values[i], scale);
  }

  lemma {:induction false} Unquantised(v: real, scale: real)
    requires scale != 0.0 && Quantise(v, scale) == 0
    ensures Rebuilt(v, scale) == 0.0
  {
  }

  /** A tensor sent as int8 comes back with every value within max/254 of
      the original, and no byte is ever -128. */
  lemma {:induction false} Int8Error(half: Half, rows: seq<Row>, hidden: nat, i: nat)
    requires Wide(rows, hidden) && i < |Flatten(rows)|
    ensures var r := Trip(half, rows, Int8, hidden);
            && r.Done? && |Flatten(r.value)| == |Flatten(rows)|
            && Abs(Flatten(r.value)[i] - Flatten(rows)[i]) <= MaxAbs(Flatten(rows)) / 254.0
            && Encode(half, rows, Int8).0[i] != 128
  {
    Int8Trip(half, rows, hidden);
    InRange(Flatten(rows), i);
  }

  lemma {:induction false} Int8Trip(half: Half, rows: seq<Row>, hidden: nat)
    requires Wide(rows, hidden)
    ensures var r := Trip(half, rows, Int8, hidden);
            r.Done? && |r.value| == |rows| && Wide(r.value, hidden) && Flatten(r.value) == Int8Values(Flatten(rows))
  {
    hide Quantise, Scale, AsSigned, Stepped, Decode, Flatten;
    TripShape(half, rows, Int8, hidden);
    var values, data := Flatten(rows), Encode(half, rows, Int8).0;
    forall i | 0 <= i < |values|
      ensures Flatten(Trip(half, rows, Int8, hidden).value)[i] == Int8Values(values)[i]
    {
      assert data[i] == Quantise(values[i], Scale(values));
    }
  }

  /** The largest value survives exactly, so a second trip has the same scale. */
  lemma {:induction false} Int8KeepsMax(values: seq<real>)
    ensures MaxAbs(Int8Values(values)) == MaxAbs(values)
  {
    hide Rebuilt;
    var max, back := MaxAbs(values), Int8Values(values);
    forall i | 0 <= i < |values|
      ensures Abs(back[i]) <= max
    {
      InRange(values, i);
    }
    if max > 0.0 {
      var m :| 0 <= m < |values| && Abs(values[m]) == max;
      Extreme(values[m], Scale(values));
      assert Abs(back[m]) == max;
    }
  }

  /** A second int8 trip loses nothing: relaying a tensor through another
      machine sends the same scale and the same bytes. */
  lemma {:induction false} RelayIsLossless(half: Half, rows: seq<Row>, hidden: nat)
    requires Wide(rows, hidden)
    ensures var once := Trip(half, rows, Int8, hidden);
            && once.Done?
            && Encode(half, once.value, Int8) == Encode(half, rows, Int8)
            && Trip(half, once.value, Int8, hidden) == once
  {
    hide Decode, Flatten, MaxAbs, Int8Values;
    Int8Trip(half, rows, hidden);
    var once, values := Trip(half, rows, Int8, hidden).value, Flatten(rows);
    Int8KeepsMax(values);
    SameBytes(values);
    assert Encode(half, once, Int8).0 == Encode(half, rows, Int8).0;
  }

  lemma {:induction false} SameBytes(values: seq<real>)
    ensures var scale := Scale(values);
            forall i :: 0 <= i < |values| ==> Quantise(Int8Values(values)[i], scale) == Quantise(values[i], scale)
  {
    hide Quantise, Rebuilt, Scale;
    forall i | 0 <= i < |values|
      ensures Quantise(Int8Values(values)[i], Scale(values)) == Quantise(values[i], Scale(values))
    {
      InRange(values, i);
      SameByte(values[i], Scale(values));
    }
  }

  lemma {:induction false} SameByte(v: real, scale: real)
    requires scale > 0.0 && Abs(v) <= 127.0 * scale
    ensures Quantise(Rebuilt(v, scale), scale) == Quantise(v, scale)
  {
    hide Round, Quantise, AsSigned, Stepped;
    StepsSent(v, scale);
    Steps(Round(v / scale), scale);
  }

  // ---------------------------------------------------------------------
  // F16
  // ---------------------------------------------------------------------

  function HalfRow(half: Half, x: Row): Row {
    seq(|x|, i requires 0 <= i < |x| => half.value(half.bits(x[i])))
  }

  function HalfRows(half: Half, rows: seq<Row>): (r: seq<Row>)
    ensures |r| == |rows|
  {
    MapRows(x => HalfRow(half, x), rows)
  }

  lemma {:induction false} HalfBytesAt(half: Half, values: seq<real>, i: nat)
    requires i < |values|
    ensures var data := HalfBytes(half, values);
            Word(data[2 * i], data[2 * i + 1]) == half.bits(values[i])
  {
    var n := |values| - 1;
    if i < n {
      HalfBytesAt(half, values[..n], i);
    }
  }

  lemma {:induction false} FlattenOfMapped(half: Half, rows: seq<Row>)
    ensures Flatten(HalfRows(half, rows)) == HalfRow(half, Flatten(rows))
  {
    if rows != [] {
      var n := |rows| - 1;
      FlattenOfMapped(half, rows[..n]);
      assert HalfRows(half, rows)[..n] == HalfRows(half, rows[..n]);
    }
  }

  /** An f16 trip rounds every value on its own, so it never matters how the
      rows were cut into chunks. */
  lemma {:induction false} F16IsRowwise(half: Half, rows: seq<Row>, hidden: nat)
    requires Wide(rows, hidden)
    ensures Trip(half, rows, F16, hidden) == Done(HalfRows(half, rows))
  {
    hide Trip, Flatten, Reshape;
    F16Values(half, rows, hidden);
    FlattenOfMapped(half, rows);
    ReshapeUndoesFlatten(Trip(half, rows, F16, hidden).value, hidden);
    ReshapeUndoesFlatten(HalfRows(half, rows), hidden);
  }

  lemma {:induction false} F16Values(half: Half, rows: seq<Row>, hidden: nat)
    requires Wide(rows, hidden)
    ensures var r := Trip(half, rows, F16, hidden);
            r.Done? && |r.value| == |rows| && Wide(r.value, hidden) && Flatten(r.value) == HalfRow(half, Flatten(rows))
  {
    hide Trip, Flatten, Dequantise, HalfBytes, HalfRow;
    TripShape(half, rows, F16, hidden);
    HalfBytesRead(half, Flatten(rows));
  }

  lemma {:induction false} HalfBytesRead(half: Half, values: seq<real>)
    ensures Dequantise(WireF16, half, HalfBytes(half, values), 0.0) == HalfRow(half, values)
  {
    hide HalfBytes, Word;
    var data := HalfBytes(half, values);
    forall i | 0 <= i < |values|
      ensures half.value(Word(data[2 * i], data[2 * i + 1])) == half.value(half.bits(values[i]))
    {
      HalfBytesAt(half, values, i);
    }
  }

  /** An f16 relay is lossless when narrowing a half's value gives a half of
      the same value, the two zeros being one value. */
  lemma {:induction false} F16RelayIsLossless(half: Half, rows: seq<Row>, hidden: nat)
    requires Wide(rows, hidden) && forall b :: half.value(half.bits(half.value(b))) == half.value(b)
    ensures var once := Trip(half, rows, F16, hidden);
            once.Done? && Trip(half, once.value, F16, hidden) == once
  {
    F16IsRowwise(half, rows, hidden);
    var once := Trip(half, rows, F16, hidden).value;
    F16IsRowwise(half, once, hidden);
    hide Trip;
    forall i | 0 <= i < |rows|
      ensures HalfRow(half, once[i]) == once[i]
    {
      assert once[i] == HalfRow(half, rows[i]);
    }
    assert HalfRows(half, once) == once;
  }

  /** The f16 wire is of the kind the pipeline's exact guarantee is stated for:
      row by row, and exact on the values zero and one. */
  lemma {:induction false} F16CarriesBits(half: Half)
    requires half.value(half.bits(0.0)) == 0.0 && half.value(half.bits(1.0)) == 1.0
    ensures var hop: Hop := xs => HalfRows(half, xs);
            PerRowHop(hop) && BitHop(hop) && forall xs: seq<Row> :: |hop(xs)| == |xs|
  {
    var hop: Hop := xs => HalfRows(half, xs);
    forall xs: seq<Row>, ys: seq<Row>
      ensures hop(xs + ys) == hop(xs) + hop(ys)
    {
    }
    forall xs: seq<Row> | Bits(xs)
      ensures hop(xs) == xs
    {
      forall i | 0 <= i < |xs|
        ensures HalfRow(half, xs[i]) == xs[i]
      {
      }
    }
  }

  function ScaledRow(x: Row, scale: real): Row
    requires scale != 0.0
  {
    seq(|x|, i requires 0 <= i < |x| => Rebuilt(x[i], scale))
  }

  function ScaledRows(rows: seq<Row>, scale: real): (r: seq<Row>)
    requires scale != 0.0
    ensures |r| == |rows|
  {
    seq(|rows|, i requires 0 <= i < |rows| => ScaledRow(rows[i], scale))
  }

  /** What an int8 hop makes of a chunk: every value rebuilt from the one scale
      of the chunk. */
  function Int8Rows(rows: seq<Row>): (r: seq<Row>)
    ensures |r| == |rows|
  {
    ScaledRows(rows, Scale(Flatten(rows)))
  }

  lemma {:induction false} FlattenOfScaled(rows: seq<Row>, scale: real)
    requires scale != 0.0
    ensures Flatten(ScaledRows(rows, scale)) == ScaledRow(Flatten(rows), scale)
  {
    hide Rebuilt;
    if rows != [] {
      var n := |rows| - 1;
      FlattenOfScaled(rows[..n], scale);
      assert ScaledRows(rows, scale)[..n] == ScaledRows(rows[..n], scale);
    }
  }

  /** An int8 trip is such a hop. */
  lemma {:induction false} Int8IsScaled(half: Half, rows: seq<Row>, hidden: nat)
    requires Wide(rows, hidden)
    ensures Trip(half, rows, Int8, hidden) == Done(Int8Rows(rows))
  {
    hide Trip, Flatten, Reshape, Rebuilt, Scale;
    Int8Trip(half, rows, hidden);
    FlattenOfScaled(rows, Scale(Flatten(rows)));
    assert Int8Values(Flatten(rows)) == ScaledRow(Flatten(rows), Scale(Flatten(rows)));
    ReshapeUndoesFlatten(Trip(half, rows, Int8, hidden).value, hidden);
    ReshapeUndoesFlatten(Int8Rows(rows), hidden);
  }

  /** Int8 carries bits exactly too: the largest magnitude survives, and zero. */
  lemma {:induction false} Int8CarriesBits()
    ensures BitHop(xs => Int8Rows(xs))
  {
    hide Rebuilt, Scale, Flatten;
    forall xs: seq<Row> | Bits(xs)
      ensures Int8Rows(xs) == xs
    {
      FlatColumn(xs);
      BitScale(xs);
      forall i | 0 <= i < |xs|
        ensures ScaledRow(xs[i], Scale(Flatten(xs))) == xs[i]
      {
      }
    }
  }

  /** At the scale of a chunk of bits, zeros come back as zeros and ones as
      ones. */
  lemma {:induction false} BitScale(xs: seq<Row>)
    requires Bits(xs)
    ensures var scale := Scale(Flatten(xs));
            Rebuilt(0.0, scale) == 0.0 && (Bit(true) in xs ==> Rebuilt(1.0, scale) == 1.0)
  {
    FlatColumn(xs);
    var values := Flatten(xs);
    hide Flatten;
    var scale := Scale(values);
    assert forall i :: 0 <= i < |xs| ==> xs[i][0] == values[i];
    ZeroIsKept(scale);
    if Bit(true) in xs {
      var i :| 0 <= i < |xs| && xs[i] == Bit(true);
      assert Abs(values[i]) <= MaxAbs(values);
      assert MaxAbs(values) == 1.0;
      Extreme(1.0, scale);
    }
  }

  lemma {:induction false} ZeroIsKept(scale: real)
    requires scale > 0.0
    ensures Rebuilt(0.0, scale) == 0.0
  {
    assert 0.0 / scale == 0.0;
    assert Round(0.0) == 0;
  }

  ghost predicate HalfWire(F: Fleet, half: Half) {
    && (forall xs :: F.send(xs) == HalfRows(half, xs))
    && (forall k, xs :: 0 <= k < |F.back| ==> F.back[k](xs) == HalfRows(half, xs))
  }

  /** Over an f16 wire the pipeline's answer depends on the tokens alone, not
      on how the caller cut them into chunks. */
  lemma {:induction false} F16PipelineIgnoresChunking(F: Fleet, half: Half, a: Log, b: Log)
    requires Assembled(F) && HalfWire(F, half)
    requires a != [] && a[|a| - 1] != [] && b != [] && b[|b| - 1] != []
    requires Concat(a) == Concat(b)
    ensures PipeLogits(F, a) == PipeLogits(F, b)
  {
    hide PipeLogits, Assembled;
    var f := x => HalfRow(half, x);
    var back := seq(|F.back|, k => f);
    assert forall xs :: HalfRows(half, xs) == MapRows(f, xs);
    assert forall k :: 0 <= k < |F.back| ==> back[k] == f;
    PipelineIsWireNet(F, f, back, a);
    PipelineIsWireNet(F, f, back, b);
  }

  /** Int8 is not row by row: the same row comes back differently when a
      larger one shares its chunk. */
  lemma {:induction false} Int8DependsOnChunk(half: Half)
    ensures var alone := Trip(half, [[1.0]], Int8, 1);
            var shared := Trip(half, [[1.0], [508.0]], Int8, 1);
            && alone.Done? && alone.value == [[1.0]]
            && shared.Done? && shared.value[0] == [0.0]
  {
    hide Trip, Rebuilt, MaxAbs, Flatten;
    var a: seq<Row>, b: seq<Row> := [[1.0]], [[1.0], [508.0]];
    TwoColumns();
    TwoScales();
    Int8Column(half, a, 0);
    Int8Column(half, b, 0);
    Extreme(1.0, Scale([1.0]));
    Vanishes();
  }

  lemma {:induction false} TwoColumns()
    ensures Flatten([[1.0]]) == [1.0] && Flatten([[1.0], [508.0]]) == [1.0, 508.0]
  {
    var a: seq<Row>, b: seq<Row> := [[1.0]], [[1.0], [508.0]];
    assert a[..0] == [] && b[..1] == a;
  }

  lemma {:induction false} TwoScales()
    ensures MaxAbs([1.0]) == 1.0 && MaxAbs([1.0, 508.0]) == 508.0 && Scale([1.0, 508.0]) == 4.0
  {
    assert [1.0, 508.0][..1] == [1.0] && [1.0][..0] == [];
  }

  lemma {:induction false} Vanishes()
    ensures Rebuilt(1.0, 4.0) == 0.0
  {
    assert Round(1.0 / 4.0) == 0;
  }

  /** One column sent as int8. */
  lemma {:induction false} Int8Column(half: Half, rows: seq<Row>, i: nat)
    requires Wide(rows, 1) && i < |rows|
    ensures |Flatten(rows)| == |rows|
    ensures var r := Trip(half, rows, Int8, 1);
            r.Done? && |r.value| == |rows| && r.value[i] == [Rebuilt(Flatten(rows)[i], Scale(Flatten(rows)))]
  {
    hide Trip, Rebuilt, Scale;
    Int8Trip(half, rows, 1);
    FlatColumn(rows);
    FlatColumn(Trip(half, rows, Int8, 1).value);
  }

  lemma {:induction false} FlatColumn(rows: seq<Row>)
    requires Wide(rows, 1)
    ensures |Flatten(rows)| == |rows|
    ensures forall i :: 0 <= i < |rows| ==> rows[i] == [Flatten(rows)[i]]
  {
    if rows != [] {
      FlatColumn(rows[..|rows| - 1]);
    }
  }
}
