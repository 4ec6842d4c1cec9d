/**
Cutting the model into contiguous layer ranges
(rust/services/cgn-infer/src/model/llama.rs, `split_layers`, `validate_coverage`).
*/
module LayerSplit {
  import opened Wrappers

  /** Half-open interval of layers. */
  datatype LayerRange = LayerRange(start: nat, end: nat)

  /** Each range begins where the previous one ended, from `from` to `to`. */
  predicate Tiles(ranges: seq<LayerRange>, from: nat, to: nat) {
    if ranges == [] then from == to
    else ranges[0].start == from && Tiles(ranges[1..], ranges[0].end, to)
  }

  lemma {:induction false} TilesAppend(ranges: seq<LayerRange>, from: nat, mid: nat, r: LayerRange)
    requires Tiles(ranges, from, mid) && r.start == mid
    ensures Tiles(ranges + [r], from, r.end)
  {
    if ranges == [] {
      assert ranges + [r] == [r];
    } else {
      assert (ranges + [r])[1..] == ranges[1..] + [r];
      TilesAppend(ranges[1..], ranges[0].end, mid, r);
    }
  }

  lemma {:induction false} TilesSplit(ranges: seq<LayerRange>, from: nat, to: nat, k: nat)
    requires Tiles(ranges, from, to) && k < |ranges|
    ensures Tiles(ranges[..k], from, ranges[k].start) && Tiles(ranges[k + 1..], ranges[k].end, to)
  {
    if k > 0 {
      TilesSplit(ranges[1..], ranges[0].end, to, k - 1);
      assert ranges[1..][..k - 1] == ranges[..k][1..];
      assert ranges[1..][k..] == ranges[k + 1..];
    }
  }

  /** With non-empty ranges, a tiling gives every layer to exactly one range. */
  lemma {:induction false} TilesOwnEachLayerOnce(ranges: seq<LayerRange>, from: nat, to: nat, l: nat)
    requires Tiles(ranges, from, to)
    requires forall i :: 0 <= i < |ranges| ==> ranges[i].start < ranges[i].end
    ensures from <= to
    ensures from <= l < to <==> exists k :: 0 <= k < |ranges| && ranges[k].start <= l < ranges[k].end
    ensures forall j, k :: 0 <= j < k < |ranges| ==> ranges[j].end <= ranges[k].start
  {
    if ranges != [] {
      var rest := ranges[1..];
      assert forall i :: 0 <= i < |rest| ==> rest[i] == ranges[i + 1];
      TilesOwnEachLayerOnce(rest, ranges[0].end, to, l);
      forall k | 0 < k < |ranges|
        ensures ranges[0].end <= ranges[k].start
      {
        TilesOwnEachLayerOnce(rest, ranges[0].end, to, ranges[k].start);
        assert rest[k - 1] == ranges[k];
      }
      if from <= l < to && l >= ranges[0].end {
        var k :| 0 <= k < |rest| && rest[k].start <= l < rest[k].end;
        assert ranges[k + 1] == rest[k];
      }
      if k :| 0 <= k < |ranges| && ranges[k].start <= l < ranges[k].end {
        if k > 0 {
          assert rest[k - 1] == ranges[k];
        }
      }
    }
  }

  /** `validate_coverage` accepts exactly the tilings of `[0, total)`. */
  method ValidateCoverage(total: nat, ranges: seq<LayerRange>) returns (ok: bool)
    ensures ok <==> Tiles(ranges, 0, total)
  {
    var next := 0;
    for i := 0 to |ranges|
      invariant Tiles(ranges, 0, total) <==> Tiles(ranges[i..], next, total)
    {
      if ranges[i].start != next {
        return false;
      }
      assert ranges[i..][1..] == ranges[i + 1..];
      next := ranges[i].end;
    }
    ok := next == total;
  }

  /** `split_layers`: contiguous, complete, sizes within one of each other and
      the larger ones first; refuses exactly the splits with an empty part. */
  method SplitLayers(total: nat, parts: nat) returns (res: Result<seq<LayerRange>>)
    ensures res.Failed? <==> parts == 0 || parts > total
    ensures res.Done? ==> |res.value| == parts && Tiles(res.value, 0, total)
    ensures res.Done? ==> forall i :: 0 <= i < parts ==>
      res.value[i].end == res.value[i].start + total / parts + if i < total % parts then 1 else 0
    ensures res.Done? ==> forall i :: 0 <= i < parts ==> res.value[i].start < res.value[i].end
  {
    if parts == 0 || parts > total {
      return Failed;
    }
    hide Tiles, Times;
    var base, rem := total / parts, total % parts;
    Divided(total, parts);
    var out: seq<LayerRange> := [];
    var start: nat := 0;
    TimesNext(0, base);
    NoRanges();
    for i := 0 to parts
      invariant |out| == i && Tiles(out, 0, start) && start == Times(i, base) + if i < rem then i else rem
      invariant forall j :: 0 <= j < i ==> out[j].end == out[j].start + base + if j < rem then 1 else 0
    {
      var len := base + if i < rem then 1 else 0;
      TilesAppend(out, 0, start, LayerRange(start, start + len));
      TimesNext(i, base);
      out, start := out + [LayerRange(start, start + len)], start + len;
    }
    res := Done(out);
  }

  ghost function Times(i: nat, base: nat): nat { i * base }

  lemma {:induction false} TimesNext(i: nat, base: nat)
    ensures Times(0, base) == 0 && Times(i + 1, base) == Times(i, base) + base
  {
  }

  lemma {:induction false} Divided(total: nat, parts: nat)
    requires 0 < parts <= total
    ensures total == Times(parts, total / parts) + total % parts && total / parts > 0 && total % parts < parts
  {
    assert total == parts * (total / parts) + total % parts;
  }

  lemma {:induction false} NoRanges()
    ensures Tiles([], 0, 0)
  {
  }
}
