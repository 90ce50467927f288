/** A stable sort, as pandas' `sort_values` on several columns (a lexicographic,
    order-preserving sort), written as insertion sort over any total preorder. */
module Sorting {

  ghost predicate TotalPreorder<T(!new)>(le: (T, T) -> bool)
  {
    && (forall a, b :: le(a, b) || le(b, a))
    && (forall a, b, c :: le(a, b) && le(b, c) ==> le(a, c))
  }

  predicate Sorted<T>(s: seq<T>, le: (T, T) -> bool)
  {
    forall i, j :: 0 <= i < j < |s| ==> le(s[i], s[j])
  }

  /** The elements of `s` that satisfy `p`, in their order in `s`. */
  function Filter<T>(s: seq<T>, p: T -> bool): (r: seq<T>)
    ensures |r| <= |s|
  {
    if s == [] then []
    else if p(s[0]) then [s[0]] + Filter(s[1..], p)
    else Filter(s[1..], p)
  }

  /** The filter keeps exactly the elements that satisfy `p`. */
  lemma {:induction false} FilterMembers<T>(s: seq<T>, p: T -> bool)
    ensures forall x :: x in Filter(s, p) ==> x in s && p(x)
    ensures forall i :: 0 <= i < |s| && p(s[i]) ==> s[i] in Filter(s, p)
  {
    if s != [] {
      FilterMembers(s[1..], p);
      forall i | 0 < i < |s| ensures s[i] == s[1..][i - 1] {
      }
    }
  }

  /** The positions of the elements of `s` that satisfy `p` (see `WhereIsPositions`). */
  function Where<T>(s: seq<T>, p: T -> bool): (ix: seq<int>)
    ensures forall k :: 0 <= k < |ix| ==> 0 <= ix[k] < |s|
    decreases |s|
  {
    if s == [] then []
    else Where(s[..|s| - 1], p) + (if p(s[|s| - 1]) then [|s| - 1] else [])
  }

  /** The positions in a prefix of `s`, and then the next one when it qualifies. */
  lemma WhereStep<T>(s: seq<T>, n: int, p: T -> bool)
    requires 0 < n <= |s|
    ensures Where(s[..n], p) == Where(s[..n - 1], p) + (if p(s[n - 1]) then [n - 1] else [])
  {
    assert s[..n][..n - 1] == s[..n - 1];
  }

    /** Every listed position holds an element that satisfies `p`. */
  lemma {:induction false} WhereSatisfies<T>(s: seq<T>, p: T -> bool)
    ensures forall k :: 0 <= k < |Where(s, p)| ==> p(s[Where(s, p)[k]])
    decreases |s|
  {
    if s != [] {
      var init := s[..|s| - 1];
      WhereSatisfies(init, p);
      var prev, ix := Where(init, p), Where(s, p);
      assert ix == prev + (if p(s[|s| - 1]) then [|s| - 1] else []);
      forall k | 0 <= k < |ix|
        ensures p(s[ix[k]])
      {
        if k < |prev| {
          assert ix[k] == prev[k] && s[prev[k]] == init[prev[k]];
          assert p(init[prev[k]]);
        } else {
          assert p(s[|s| - 1]) && ix[k] == |s| - 1;
        }
      }
    }
  }

  /** The positions are listed in increasing order. */
  lemma {:induction false} WhereIncreasing<T>(s: seq<T>, p: T -> bool)
    ensures forall k, l :: 0 <= k < l < |Where(s, p)| ==> Where(s, p)[k] < Where(s, p)[l]
    decreases |s|
  {
    if s != [] {
      var init := s[..|s| - 1];
      WhereIncreasing(init, p);
      var prev, ix := Where(init, p), Where(s, p);
      assert ix == prev + (if p(s[|s| - 1]) then [|s| - 1] else []);
      forall k, l | 0 <= k < l < |ix|
        ensures ix[k] < ix[l]
      {
        assert ix[k] == prev[k] && prev[k] < |init|;
        if l < |prev| {
          assert ix[l] == prev[l];
        } else {
          assert ix[l] == |s| - 1;
        }
      }
    }
  }

  /** Every position whose element satisfies `p` is listed. */
  lemma {:induction false} WhereComplete<T>(s: seq<T>, p: T -> bool)
    ensures forall j :: 0 <= j < |s| && p(s[j]) ==> j in Where(s, p)
    decreases |s|
  {
    if s != [] {
      var init := s[..|s| - 1];
      WhereComplete(init, p);
      forall j | 0 <= j < |s| - 1 && p(s[j])
        ensures j in Where(s, p)
      {
        assert init[j] == s[j];
        assert j in Where(init, p);
      }
    }
  }

  /** `Where` lists exactly the positions of the elements that satisfy `p`, in
      increasing order. */
  lemma WhereIsPositions<T>(s: seq<T>, p: T -> bool)
    ensures var ix := Where(s, p);
      && (forall k :: 0 <= k < |ix| ==> p(s[ix[k]]))
      && (forall k, l :: 0 <= k < l < |ix| ==> ix[k] < ix[l])
      && (forall j :: 0 <= j < |s| && p(s[j]) ==> j in ix)
  {
    WhereSatisfies(s, p);
    WhereIncreasing(s, p);
    WhereComplete(s, p);
  }

  lemma {:induction false} FilterIsWhere<T>(s: seq<T>, p: T -> bool)
    ensures |Filter(s, p)| == |Where(s, p)|
    ensures forall k :: 0 <= k < |Where(s, p)| ==> Filter(s, p)[k] == s[Where(s, p)[k]]
    decreases |s|
  {
    if s != [] {
      var init, last := s[..|s| - 1], s[|s| - 1];
      FilterIsWhere(init, p);
      assert s == init + [last];
      FilterAppend(init, [last], p);
      FilterCons(last, [], p);
      assert [last] + [] == [last];
      var w := Where(init, p);
      forall k | 0 <= k < |w| ensures Filter(s, p)[k] == s[Where(s, p)[k]] {
        assert Where(s, p)[k] == w[k];
        assert s[w[k]] == init[w[k]];
      }
    }
  }

  /** Places `x` before the first element it does not come after. */
  function Insert<T>(x: T, s: seq<T>, le: (T, T) -> bool): (r: seq<T>)
    ensures multiset(r) == multiset(s) + multiset{x} && |r| == |s| + 1
  {
    if s == [] then [x]
    else if le(x, s[0]) then [x] + s
    else
      assert s == [s[0]] + s[1..];
      [s[0]] + Insert(x, s[1..], le)
  }

  function Sort<T>(s: seq<T>, le: (T, T) -> bool): (r: seq<T>)
    ensures multiset(r) == multiset(s) && |r| == |s|
  {
    if s == [] then []
    else
      assert s == [s[0]] + s[1..];
      Insert(s[0], Sort(s[1..], le), le)
  }

  lemma {:induction false} InsertKeepsSorted<T(!new)>(x: T, s: seq<T>, le: (T, T) -> bool)
    requires TotalPreorder(le) && Sorted(s, le)
    ensures Sorted(Insert(x, s, le), le)
  {
    if s != [] && !le(x, s[0]) {
      InsertKeepsSorted(x, s[1..], le);
      var r := Insert(x, s, le);
      var tail := Insert(x, s[1..], le);
      assert r == [s[0]] + tail;
      forall j | 0 < j < |r| ensures le(s[0], r[j]) {
        assert r[j] in multiset(tail);
        assert r[j] in multiset(s[1..]) + multiset{x};
        if r[j] != x {
          assert r[j] in s[1..];
        }
      }
    }
  }

  lemma {:induction false} SortIsSorted<T(!new)>(s: seq<T>, le: (T, T) -> bool)
    requires TotalPreorder(le)
    ensures Sorted(Sort(s, le), le)
  {
    if s != [] {
      SortIsSorted(s[1..], le);
      InsertKeepsSorted(s[0], Sort(s[1..], le), le);
    }
  }

  /** Inserting `x` in front of everything it must precede keeps the relative
      order of the elements selected by `p`. */
  lemma {:induction false} InsertFilter<T>(x: T, s: seq<T>, le: (T, T) -> bool, p: T -> bool)
    requires p(x) ==> forall y :: y in s && p(y) ==> le(x, y)
    ensures Filter(Insert(x, s, le), p) == Filter([x] + s, p)
  {
    if s != [] && !le(x, s[0]) {
      InsertFilter(x, s[1..], le, p);
      assert Insert(x, s, le) == [s[0]] + Insert(x, s[1..], le);
      assert !(p(x) && p(s[0]));
      assert ([x] + s)[1..] == s;
      assert ([x] + s[1..])[1..] == s[1..];
      assert s == [s[0]] + s[1..];
    } else if s != [] {
      assert Insert(x, s, le) == [x] + s;
    }
  }

  /** The sort keeps, in their original order, any family of elements that was
      already in order: the sort is stable. */
  lemma {:induction false} SortKeepsOrderedFamily<T>(s: seq<T>, le: (T, T) -> bool, p: T -> bool)
    requires forall i, j :: 0 <= i < j < |s| && p(s[i]) && p(s[j]) ==> le(s[i], s[j])
    ensures Filter(Sort(s, le), p) == Filter(s, p)
  {
    if s != [] {
      var rest := Sort(s[1..], le);
      SortKeepsOrderedFamily(s[1..], le, p);
      forall y | y in rest && p(y) && p(s[0]) ensures le(s[0], y) {
        assert y in multiset(rest);
        var j :| 0 <= j < |s[1..]| && s[1..][j] == y;
        assert s[j + 1] == y;
      }
      InsertFilter(s[0], rest, le, p);
      assert Filter([s[0]] + rest, p) == (if p(s[0]) then [s[0]] + Filter(rest, p) else Filter(rest, p));
      assert ([s[0]] + rest)[1..] == rest;
    }
  }

  /** Stability: elements that compare equal keep their original relative order. */
  lemma SortIsStable<T(!new)>(s: seq<T>, le: (T, T) -> bool, k: T)
    requires TotalPreorder(le)
    ensures Filter(Sort(s, le), e => le(e, k) && le(k, e)) == Filter(s, e => le(e, k) && le(k, e))
  {
    var p := e => le(e, k) && le(k, e);
    forall i, j | 0 <= i < j < |s| && p(s[i]) && p(s[j]) ensures le(s[i], s[j]) {
    }
    SortKeepsOrderedFamily(s, le, p);
  }

  lemma {:induction false} FilterAppend<T>(a: seq<T>, b: seq<T>, p: T -> bool)
    ensures Filter(a + b, p) == Filter(a, p) + Filter(b, p)
  {
    if a == [] {
      assert a + b == b;
    } else {
      var x, rest := a[0], a[1..];
      FilterAppend(rest, b, p);
      assert a == [x] + rest;
      assert a + b == [x] + (rest + b);
      FilterCons(x, rest, p);
      FilterCons(x, rest + b, p);
    }
  }

  lemma FilterCons<T>(x: T, s: seq<T>, p: T -> bool)
    ensures Filter([x] + s, p) == (if p(x) then [x] else []) + Filter(s, p)
  {
    assert ([x] + s)[1..] == s;
  }

  lemma {:induction false} FilterKeepsAll<T>(s: seq<T>, p: T -> bool)
    requires forall i :: 0 <= i < |s| ==> p(s[i])
    ensures Filter(s, p) == s
  {
    if s != [] {
      FilterKeepsAll(s[1..], p);
      assert s == [s[0]] + s[1..];
    }
  }

  lemma {:induction false} FilterDropsAll<T>(s: seq<T>, p: T -> bool)
    requires forall i :: 0 <= i < |s| ==> !p(s[i])
    ensures Filter(s, p) == []
  {
    if s != [] {
      FilterDropsAll(s[1..], p);
    }
  }
}
