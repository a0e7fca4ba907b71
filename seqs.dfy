/** The array methods the core builds on (`filter`, `findIndex`), as
    functions over sequences, with the facts the rest of the model uses. */
module Seqs {

  /** `s.filter(p)`: the elements of `s` that satisfy `p`, in their order. */
  function Filter<T>(s: seq<T>, p: T -> bool): (r: seq<T>)
    ensures |r| <= |s|
    ensures forall x :: x in r ==> x in s && p(x)
    decreases |s|
  {
    if s == [] then []
    else Filter(s[..|s| - 1], p) + (if p(s[|s| - 1]) then [s[|s| - 1]] else [])
  }

  /** Nothing that satisfies `p` is lost by the filter. */
  lemma {:induction false} FilterKeeps<T>(s: seq<T>, p: T -> bool, x: T)
    requires x in s && p(x)
    ensures x in Filter(s, p)
    decreases |s|
  {
    if x != s[|s| - 1] {
      assert s == s[..|s| - 1] + [s[|s| - 1]];
      FilterKeeps(s[..|s| - 1], p, x);
    }
  }

  /** `r` is `s` restricted to the strictly increasing positions `idx`. */
  ghost predicate SelectedBy<T>(r: seq<T>, s: seq<T>, idx: seq<int>)
  {
    && |idx| == |r|
    && (forall k :: 0 <= k < |idx| ==> 0 <= idx[k] < |s| && r[k] == s[idx[k]])
    && (forall a, b :: 0 <= a < b < |idx| ==> idx[a] < idx[b])
  }

  /** Positions selected from a prefix of `s` select the same elements from
      `s`, and the last position can be added after them. */
  lemma SelectedExtend<T>(r: seq<T>, s: seq<T>, idx: seq<int>)
    requires s != [] && SelectedBy(r, s[..|s| - 1], idx)
    ensures SelectedBy(r, s, idx)
    ensures SelectedBy(r + [s[|s| - 1]], s, idx + [|s| - 1])
  {
    var n := |s| - 1;
    forall k | 0 <= k < |idx| ensures 0 <= idx[k] < n && r[k] == s[idx[k]] {
      assert s[..n][idx[k]] == s[idx[k]];
    }
  }

  /** An element is in the filtered sequence iff it is in `s` and satisfies
      `p`. */
  lemma FilterMembers<T>(s: seq<T>, p: T -> bool)
    ensures forall x :: x in Filter(s, p) <==> x in s && p(x)
  {
    forall x | x in s && p(x) ensures x in Filter(s, p) {
      FilterKeeps(s, p, x);
    }
  }

  /** The positions picked from the prefix, plus the last position when it
      satisfies `p`, are exactly the positions of `s` that satisfy `p`. */
  lemma PositionsExtend<T>(s: seq<T>, p: T -> bool, front: seq<int>, idx: seq<int>)
    requires s != []
    requires forall k :: 0 <= k < |front| ==> 0 <= front[k] < |s| - 1
    requires forall j :: 0 <= j < |s| - 1 ==> (j in front <==> p(s[..|s| - 1][j]))
    requires idx == if p(s[|s| - 1]) then front + [|s| - 1] else front
    ensures forall j :: 0 <= j < |s| ==> (j in idx <==> p(s[j]))
  {
    var n := |s| - 1;
    forall j | 0 <= j < |s|
      ensures j in idx <==> p(s[j])
    {
      if j < n {
        assert s[j] == s[..n][j];
        assert j in idx <==> j in front;
      } else {
        assert n !in front;
      }
    }
  }

  /** The filter keeps the relative order of what it keeps, and position `j`
      is kept iff `s[j]` satisfies `p`. */
  lemma {:induction false} FilterSelects<T>(s: seq<T>, p: T -> bool)
    returns (idx: seq<int>)
    ensures SelectedBy(Filter(s, p), s, idx)
    ensures forall j :: 0 <= j < |s| ==> (j in idx <==> p(s[j]))
    decreases |s|
  {
    if s == [] {
      idx := [];
    } else {
      var n := |s| - 1;
      var front := FilterSelects(s[..n], p);
      var r0 := Filter(s[..n], p);
      assert Filter(s, p) == r0 + (if p(s[n]) then [s[n]] else []);
      SelectedExtend(r0, s, front);
      if p(s[n]) {
        idx := front + [n];
      } else {
        idx := front;
        assert r0 + [] == r0;
      }
      PositionsExtend(s, p, front, idx);
    }
  }

  /** `s.findIndex(p)`: the first position whose element satisfies `p`, or -1. */
  function FindIndex<T>(s: seq<T>, p: T -> bool): (r: int)
    ensures -1 <= r < |s|
    ensures 0 <= r ==> p(s[r]) && forall j :: 0 <= j < r ==> !p(s[j])
    ensures r == -1 ==> forall j :: 0 <= j < |s| ==> !p(s[j])
  {
    FindIndexFrom(s, p, 0)
  }

  function FindIndexFrom<T>(s: seq<T>, p: T -> bool, i: nat): (r: int)
    requires i <= |s|
    ensures r == -1 || i <= r < |s|
    ensures 0 <= r ==> p(s[r]) && forall j :: i <= j < r ==> !p(s[j])
    ensures r == -1 ==> forall j :: i <= j < |s| ==> !p(s[j])
    decreases |s| - i
  {
    if i == |s| then -1
    else if p(s[i]) then i
    else FindIndexFrom(s, p, i + 1)
  }

  /** A filter that every element passes returns its input. */
  lemma {:induction false} FilterAll<T>(s: seq<T>, p: T -> bool)
    requires forall x :: x in s ==> p(x)
    ensures Filter(s, p) == s
    decreases |s|
  {
    if s != [] {
      assert s == s[..|s| - 1] + [s[|s| - 1]];
      FilterAll(s[..|s| - 1], p);
    }
  }

  /** Filtering a concatenation filters each part. */
  lemma {:induction false} FilterConcat<T>(a: seq<T>, b: seq<T>, p: T -> bool)
    ensures Filter(a + b, p) == Filter(a, p) + Filter(b, p)
    decreases |b|
  {
    if b != [] {
      var n := |b| - 1;
      assert (a + b)[..|a + b| - 1] == a + b[..n];
      FilterConcat(a, b[..n], p);
    } else {
      assert a + b == a;
    }
  }

  /** A filter that no element passes returns nothing. */
  lemma {:induction false} FilterNone<T>(s: seq<T>, p: T -> bool)
    requires forall x :: x in s ==> !p(x)
    ensures Filter(s, p) == []
    decreases |s|
  {
    if s != [] {
      assert s[..|s| - 1] <= s;
      FilterNone(s[..|s| - 1], p);
    }
  }

  lemma FilterSingleton<T>(x: T, p: T -> bool)
    ensures Filter([x], p) == if p(x) then [x] else []
  {
    assert [x][..0] == [];
  }

  /** Filtering twice keeps what passes both tests. */
  lemma {:induction false} FilterFilter<T>(s: seq<T>, p: T -> bool, q: T -> bool, both: T -> bool)
    requires forall x :: both(x) == (p(x) && q(x))
    ensures Filter(Filter(s, p), q) == Filter(s, both)
    decreases |s|
  {
    if s != [] {
      var n := |s| - 1;
      var init := Filter(s[..n], p);
      FilterFilter(s[..n], p, q, both);
      assert Filter(s, both) == Filter(s[..n], both) + (if both(s[n]) then [s[n]] else []);
      if p(s[n]) {
        assert Filter(s, p) == init + [s[n]];
        FilterConcat(init, [s[n]], q);
        FilterSingleton(s[n], q);
      } else {
        assert Filter(s, p) == init;
      }
    }
  }
}
