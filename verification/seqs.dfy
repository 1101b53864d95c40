/** Order-preserving selection over sequences: the model of pandas boolean masks,
    `dropna` and the list comprehensions with an `if` clause. */
module Seqs {

  /** The elements of `s` that satisfy `p`, in their original order. */
  function Filter<T>(s: seq<T>, p: T -> bool): (r: seq<T>)
    ensures |r| <= |s|
    ensures forall x :: x in r ==> x in s && p(x)
    ensures forall x :: x in s && p(x) ==> x in r
  {
    if s == [] then []
    else
      var rest := Filter(s[1..], p);
      assert s == [s[0]] + s[1..];
      if p(s[0]) then [s[0]] + rest else rest
  }

  /** Each element that satisfies `p` is kept as often as it occurs, any other not at all. */
  lemma {:induction false} FilterCount<T>(s: seq<T>, p: T -> bool, x: T)
    ensures multiset(Filter(s, p))[x] == if p(x) then multiset(s)[x] else 0
  {
    if s != [] {
      assert s == [s[0]] + s[1..];
      FilterCount(s[1..], p, x);
    }
  }

  /** A filter whose predicate holds everywhere keeps the whole sequence. */
  lemma {:induction false} FilterKeepsAll<T>(s: seq<T>, p: T -> bool)
    requires forall i :: 0 <= i < |s| ==> p(s[i])
    ensures Filter(s, p) == s
  {
    if s != [] {
      FilterKeepsAll(s[1..], p);
    }
  }

  /** A filter whose predicate fails everywhere keeps nothing. */
  lemma {:induction false} FilterDropsAll<T>(s: seq<T>, p: T -> bool)
    requires forall i :: 0 <= i < |s| ==> !p(s[i])
    ensures Filter(s, p) == []
  {
    if s != [] {
      FilterDropsAll(s[1..], p);
    }
  }

  /** A filter whose predicate fails at exactly one position cuts out that element. */
  lemma {:induction false} FilterAllBut<T>(s: seq<T>, p: T -> bool, k: nat)
    requires k < |s| && !p(s[k])
    requires forall i :: 0 <= i < |s| && i != k ==> p(s[i])
    ensures Filter(s, p) == s[..k] + s[k + 1..]
  {
    var tail := s[1..];
    if k == 0 {
      forall i | 0 <= i < |tail| ensures p(tail[i]) {
        assert tail[i] == s[i + 1];
      }
      FilterKeepsAll(tail, p);
    } else {
      forall i | 0 <= i < |tail| && i != k - 1 ensures p(tail[i]) {
        assert tail[i] == s[i + 1];
      }
      FilterAllBut(tail, p, k - 1);
      assert Filter(s, p) == [s[0]] + (tail[..k - 1] + tail[k..]);
      assert [s[0]] + tail[..k - 1] == s[..k];
      assert tail[k..] == s[k + 1..];
    }
  }
  /** Every position moved one place right. */
  function Shift(idx: seq<nat>): (r: seq<nat>)
    ensures |r| == |idx| && forall m :: 0 <= m < |r| ==> r[m] == idx[m] + 1
  {
    seq(|idx|, m requires 0 <= m < |idx| => idx[m] + 1)
  }

  /** The positions of `s` whose element satisfies `p`, in increasing order. */
  function Kept<T>(s: seq<T>, p: T -> bool): seq<nat> {
    if s == [] then []
    else if p(s[0]) then [0] + Shift(Kept(s[1..], p))
    else Shift(Kept(s[1..], p))
  }

  /** The kept positions lie inside `s` and increase strictly. */
  lemma {:induction false} KeptOrdered<T>(s: seq<T>, p: T -> bool)
    ensures forall m :: 0 <= m < |Kept(s, p)| ==> Kept(s, p)[m] < |s|
    ensures forall m, n :: 0 <= m < n < |Kept(s, p)| ==> Kept(s, p)[m] < Kept(s, p)[n]
  {
    if s != [] {
      var tail := s[1..];
      KeptOrdered(tail, p);
      var rest := Kept(tail, p);
      var sh := Shift(rest);
      forall m | 0 <= m < |sh| ensures sh[m] < |s| {
        assert sh[m] == rest[m] + 1 && rest[m] < |tail|;
      }
      forall m, n | 0 <= m < n < |sh| ensures sh[m] < sh[n] {
        assert rest[m] < rest[n];
      }
      if p(s[0]) {
        var idx := [0] + sh;
        assert Kept(s, p) == idx;
        forall m | 0 <= m < |idx| ensures idx[m] < |s| {
          if m > 0 { assert idx[m] == sh[m - 1]; }
        }
        forall m, n | 0 <= m < n < |idx| ensures idx[m] < idx[n] {
          assert idx[n] == sh[n - 1];
          if m > 0 { assert idx[m] == sh[m - 1]; }
        }
      } else {
        assert Kept(s, p) == sh;
      }
    }
  }

  /** The positions `p` holds at are exactly the kept ones. */
  lemma {:induction false} KeptExactly<T>(s: seq<T>, p: T -> bool)
    ensures forall i :: 0 <= i < |s| ==> (p(s[i]) <==> i in Kept(s, p))
  {
    if s != [] {
      var tail := s[1..];
      KeptExactly(tail, p);
      var rest := Kept(tail, p);
      var sh := Shift(rest);
      forall i | 1 <= i < |s| ensures (p(s[i]) <==> i in sh) {
        assert s[i] == tail[i - 1];
        if i - 1 in rest {
          var m :| 0 <= m < |rest| && rest[m] == i - 1;
          assert sh[m] == i;
        }
        if i in sh {
          var m :| 0 <= m < |sh| && sh[m] == i;
          assert rest[m] == i - 1;
        }
      }
      assert 0 !in sh;
      if p(s[0]) {
        assert Kept(s, p) == [0] + sh;
      } else {
        assert Kept(s, p) == sh;
      }
    }
  }

  /** Putting `s[0]` in front of a selection of `s` and position 0 in front of its
      positions keeps each selected element at its position. */
  lemma SelectCons<T>(s: seq<T>, idx: seq<nat>, r: seq<T>)
    requires s != [] && |idx| == |r|
    requires forall m :: 0 <= m < |idx| ==> idx[m] < |s| && r[m] == s[idx[m]]
    ensures forall m :: 0 <= m < |[0] + idx| ==> ([0] + idx)[m] < |s| && ([s[0]] + r)[m] == s[([0] + idx)[m]]
  {
    forall m | 0 < m < |[0] + idx| ensures ([0] + idx)[m] < |s| && ([s[0]] + r)[m] == s[([0] + idx)[m]] {
      assert ([0] + idx)[m] == idx[m - 1] && ([s[0]] + r)[m] == r[m - 1];
    }
  }

  /** `Filter` keeps the elements at the kept positions, in that order: the survivors
      keep their relative order. */
  lemma {:induction false} FilterAtKept<T>(s: seq<T>, p: T -> bool)
    ensures |Kept(s, p)| == |Filter(s, p)|
    ensures forall m :: 0 <= m < |Kept(s, p)| ==> Kept(s, p)[m] < |s| && Filter(s, p)[m] == s[Kept(s, p)[m]]
  {
    if s != [] {
      var tail := s[1..];
      FilterAtKept(tail, p);
      var rest, rr := Kept(tail, p), Filter(tail, p);
      var sh := Shift(rest);
      forall m | 0 <= m < |sh| ensures sh[m] < |s| && rr[m] == s[sh[m]] {
        assert tail[rest[m]] == s[rest[m] + 1];
      }
      if p(s[0]) {
        assert Kept(s, p) == [0] + sh && Filter(s, p) == [s[0]] + rr;
        SelectCons(s, sh, rr);
      } else {
        assert Kept(s, p) == sh && Filter(s, p) == rr;
      }
    }
  }
}
