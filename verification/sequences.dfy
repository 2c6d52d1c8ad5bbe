/**
 * Facts about slices of concatenations that the buffer proofs use at every
 * step, stated once over any element type.
 */
module Sequences {

  lemma SliceOfAppendLeft<T>(a: seq<T>, b: seq<T>, i: nat, j: nat)
    requires i <= j <= |a|
    ensures (a + b)[i..j] == a[i..j]
  {
    assert |(a + b)[i..j]| == |a[i..j]|;
    forall m | 0 <= m < j - i
      ensures (a + b)[i..j][m] == a[i..j][m]
    {
    }
  }

  lemma SliceOfAppendRight<T>(a: seq<T>, b: seq<T>, i: nat, j: nat)
    requires i <= j <= |b|
    ensures (a + b)[|a| + i..|a| + j] == b[i..j]
  {
    assert |(a + b)[|a| + i..|a| + j]| == |b[i..j]|;
    forall m | 0 <= m < j - i
      ensures (a + b)[|a| + i..|a| + j][m] == b[i..j][m]
    {
    }
  }

  lemma AppendAssoc<T>(a: seq<T>, b: seq<T>, c: seq<T>)
    ensures a + b + c == a + (b + c)
  {
  }

  lemma DropDrop<T>(s: seq<T>, a: nat, b: nat)
    requires a + b <= |s|
    ensures s[a..][b..] == s[a + b..]
  {
  }

  lemma AppendHalves<T>(a: seq<T>, b: seq<T>)
    ensures (a + b)[..|a|] == a && (a + b)[|a|..] == b
  {
  }

  lemma SliceOfSlice<T>(s: seq<T>, a: nat, b: nat, c: nat, d: nat)
    requires a <= b <= |s| && c <= d <= b - a
    ensures s[a..b][c..d] == s[a + c..a + d]
  {
    var left, right := s[a..b][c..d], s[a + c..a + d];
    assert |left| == |right|;
    forall i | 0 <= i < |left|
      ensures left[i] == right[i]
    {
    }
  }

  /** Overwriting the |b| elements that follow `head` with `b`. */
  lemma Spliced<T>(head: seq<T>, tail: seq<T>, b: seq<T>)
    requires |b| <= |tail|
    ensures (head + tail)[..|head|] + b + (head + tail)[|head| + |b|..] == head + b + tail[|b|..]
  {
    AppendHalves(head, tail);
    var s := head + tail;
    assert s[|head| + |b|..] == tail[|b|..] by {
      assert |s[|head| + |b|..]| == |tail[|b|..]|;
      forall m | 0 <= m < |tail| - |b|
        ensures s[|head| + |b|..][m] == tail[|b|..][m]
      {
      }
    }
  }

  lemma PrefixAppend<T>(a: seq<T>, b: seq<T>, c: seq<T>)
    requires a <= b
    ensures a <= b + c
  {
    assert (b + c)[..|a|] == b[..|a|];
  }
}
