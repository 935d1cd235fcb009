/** Sample-sequence helpers shared by the audio scripts: magnitudes,
    peak magnitude (`np.max(np.abs(x))`), concatenation of blocks
    (`np.concatenate`, `list.extend`) and order-preserving filtering. */
module Signal {

  function Abs(x: real): (r: real)
    ensures r >= 0.0 && (r == x || r == -x)
  {
    if x < 0.0 then -x else x
  }

  /** `np.max(np.abs(x))` for a non-empty sequence. */
  function MaxAbs(x: seq<real>): (m: real)
    requires |x| > 0
    ensures forall i :: 0 <= i < |x| ==> Abs(x[i]) <= m
    ensures exists i :: 0 <= i < |x| && Abs(x[i]) == m
    decreases |x|
  {
    if |x| == 1 then Abs(x[0])
    else
      var rest := MaxAbs(x[1..]);
      assert forall i :: 1 <= i < |x| ==> x[i] == x[1..][i - 1];
      var m := if Abs(x[0]) >= rest then Abs(x[0]) else rest;
      assert exists i :: 0 <= i < |x| && Abs(x[i]) == m by {
        if Abs(x[0]) < rest {
          var j :| 0 <= j < |x[1..]| && Abs(x[1..][j]) == rest;
          assert Abs(x[j + 1]) == rest;
        }
      }
      m
  }

  /** The concatenation of a sequence of blocks, in order. */
  function Flatten<T>(blocks: seq<seq<T>>): seq<T>
    decreases |blocks|
  {
    if blocks == [] then [] else blocks[0] + Flatten(blocks[1..])
  }

  lemma {:induction false} FlattenAppend<T>(a: seq<seq<T>>, b: seq<seq<T>>)
    ensures Flatten(a + b) == Flatten(a) + Flatten(b)
    decreases |a|
  {
    if a != [] {
      assert (a + b)[1..] == a[1..] + b;
      FlattenAppend(a[1..], b);
    } else {
      assert a + b == b;
    }
  }

  /** Concatenating blocks of one common length `n` gives `n` samples per block. */
  lemma {:induction false} FlattenLength<T>(blocks: seq<seq<T>>, n: nat)
    requires forall k :: 0 <= k < |blocks| ==> |blocks[k]| == n
    ensures |Flatten(blocks)| == n * |blocks|
    decreases |blocks|
  {
    if blocks != [] {
      FlattenLength(blocks[1..], n);
    }
  }

  /** The blocks that `keep` accepts, in their original order. */
  function Filter<T>(blocks: seq<seq<T>>, keep: seq<T> -> bool): (r: seq<seq<T>>)
    ensures |r| <= |blocks|
    ensures forall k :: 0 <= k < |r| ==> r[k] in blocks && keep(r[k])
    decreases |blocks|
  {
    if blocks == [] then []
    else
      var rest := Filter(blocks[1..], keep);
      assert forall b :: b in blocks[1..] ==> b in blocks;
      if keep(blocks[0]) then [blocks[0]] + rest else rest
  }

  /** Every accepted block is kept. */
  lemma {:induction false} FilterComplete<T>(blocks: seq<seq<T>>, keep: seq<T> -> bool, i: nat)
    requires i < |blocks| && keep(blocks[i])
    ensures blocks[i] in Filter(blocks, keep)
    decreases |blocks|
  {
    if i > 0 {
      FilterComplete(blocks[1..], keep, i - 1);
      assert blocks[1..][i - 1] == blocks[i];
    }
  }

  /** Kept blocks keep their order: of two accepted blocks, the earlier
      one comes first in the result. */
  lemma {:induction false} FilterOrder<T>(blocks: seq<seq<T>>, keep: seq<T> -> bool, i: nat, j: nat)
    requires i < j < |blocks| && keep(blocks[i]) && keep(blocks[j])
    ensures exists p, q :: (0 <= p < q < |Filter(blocks, keep)| &&
      Filter(blocks, keep)[p] == blocks[i] && Filter(blocks, keep)[q] == blocks[j])
    decreases |blocks|
  {
    var tail := blocks[1..];
    var rest := Filter(tail, keep);
    var r := Filter(blocks, keep);
    assert tail[j - 1] == blocks[j];
    if i == 0 {
      FilterComplete(tail, keep, j - 1);
      var q :| 0 <= q < |rest| && rest[q] == blocks[j];
      assert r == [blocks[0]] + rest;
      assert r[0] == blocks[0] && r[q + 1] == rest[q];
    } else {
      assert tail[i - 1] == blocks[i];
      FilterOrder(tail, keep, i - 1, j - 1);
      var p, q :| 0 <= p < q < |rest| && rest[p] == blocks[i] && rest[q] == blocks[j];
      if keep(blocks[0]) {
        assert r == [blocks[0]] + rest;
        assert r[p + 1] == rest[p] && r[q + 1] == rest[q];
      } else {
        assert r == rest;
      }
    }
  }

  lemma {:induction false} FilterAppend<T>(a: seq<seq<T>>, b: seq<seq<T>>, keep: seq<T> -> bool)
    ensures Filter(a + b, keep) == Filter(a, keep) + Filter(b, keep)
    decreases |a|
  {
    if a != [] {
      assert (a + b)[1..] == a[1..] + b;
      FilterAppend(a[1..], b, keep);
    } else {
      assert a + b == b;
    }
  }

  /** One more block adds its contents to the kept output exactly when it
      is kept. */
  lemma KeptSnoc<T>(blocks: seq<seq<T>>, keep: seq<T> -> bool, i: nat)
    requires i < |blocks|
    ensures Flatten(Filter(blocks[..i + 1], keep)) ==
      Flatten(Filter(blocks[..i], keep)) + (if keep(blocks[i]) then blocks[i] else [])
  {
    var prefix, last := blocks[..i], blocks[i];
    assert blocks[..i + 1] == prefix + [last];
    FilterAppend(prefix, [last], keep);
    var tail := Filter([last], keep);
    assert tail == if keep(last) then [last] else [];
    FlattenAppend(Filter(prefix, keep), tail);
    assert Flatten(tail) == if keep(last) then last else [] by {
      if keep(last) {
        assert Flatten(tail) == last + Flatten([]);
      }
    }
  }
}
