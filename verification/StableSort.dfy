/** The stable sort of the host language's standard library, as a function: `before(a, b)` says
    that `a` goes strictly ahead of `b`, and elements that are not ordered keep their input order.
    Everything the readings of the logs need from it is proved here once. */
module StableSort {

  /** `before` orders like a comparison by key: ties are allowed, cycles are not. */
  ghost predicate OrdersByKey<T(!new)>(before: (T, T) -> bool) {
    && (forall a, b :: before(a, b) ==> !before(b, a))
    && (forall a, b, c :: !before(b, a) && !before(c, b) ==> !before(c, a))
  }

  ghost predicate Sorted<T>(s: seq<T>, before: (T, T) -> bool) {
    forall i, j :: 0 <= i < j < |s| ==> !before(s[j], s[i])
  }

  /** No two positions tie. */
  ghost predicate NoTies<T>(s: seq<T>, before: (T, T) -> bool) {
    forall i, j :: 0 <= i < j < |s| ==> before(s[i], s[j]) || before(s[j], s[i])
  }

  function Insert<T>(x: T, s: seq<T>, before: (T, T) -> bool): (r: seq<T>)
    ensures |r| == |s| + 1
    ensures multiset(r) == multiset(s) + multiset{x}
  {
    if s == [] then [x]
    else if before(x, s[0]) then [x] + s
    else
      assert s == [s[0]] + s[1..];
      [s[0]] + Insert(x, s[1..], before)
  }

  function Sort<T>(s: seq<T>, before: (T, T) -> bool): (r: seq<T>)
    ensures |r| == |s|
    ensures multiset(r) == multiset(s)
  {
    if s == [] then []
    else
      assert s == s[..|s| - 1] + [s[|s| - 1]];
      Insert(s[|s| - 1], Sort(s[..|s| - 1], before), before)
  }

  lemma {:induction false} InsertKeepsSorted<T(!new)>(x: T, s: seq<T>, before: (T, T) -> bool)
    requires OrdersByKey(before) && Sorted(s, before)
    ensures Sorted(Insert(x, s, before), before)
  {
    if s == [] {
    } else if before(x, s[0]) {
      forall j | 0 <= j < |s| ensures !before(s[j], x) {
        assert j > 0 ==> !before(s[j], s[0]);
      }
    } else {
      InsertKeepsSorted(x, s[1..], before);
      var t := Insert(x, s[1..], before);
      forall k | 0 <= k < |t| ensures !before(t[k], s[0]) {
        assert t[k] in multiset(t);
        assert t[k] == x || t[k] in s[1..];
      }
    }
  }

  lemma BeforeTheRest<T(!new)>(x: T, s: seq<T>, before: (T, T) -> bool)
    requires OrdersByKey(before) && Sorted(s, before) && (s == [] || before(x, s[0]))
    ensures forall k :: 0 <= k < |s| ==> before(x, s[k])
  {
    forall k | 0 <= k < |s| ensures before(x, s[k]) {
      assert k > 0 ==> !before(s[k], s[0]);
    }
  }

  /** `s` with `x` put in at `p`, where it belongs. */
  ghost predicate SplitsAt<T(!new)>(x: T, s: seq<T>, before: (T, T) -> bool, r: seq<T>, p: nat) {
    && p <= |s| && r == s[..p] + [x] + s[p..]
    && (forall k :: 0 <= k < p ==> !before(x, s[k]))
    && (forall k :: p <= k < |s| ==> before(x, s[k]))
  }

  lemma BehindOneMore<T(!new)>(x: T, y: T, s: seq<T>, before: (T, T) -> bool, r: seq<T>, q: nat)
    requires SplitsAt(x, s, before, r, q) && !before(x, y)
    ensures SplitsAt(x, [y] + s, before, [y] + r, q + 1)
  {
    assert ([y] + s)[..q + 1] == [y] + s[..q] && ([y] + s)[q + 1..] == s[q..];
  }

  lemma InsertInFront<T(!new)>(x: T, s: seq<T>, before: (T, T) -> bool)
    requires OrdersByKey(before) && Sorted(s, before) && (s == [] || before(x, s[0]))
    ensures SplitsAt(x, s, before, Insert(x, s, before), 0)
  {
    hide OrdersByKey, Sorted;
    BeforeTheRest(x, s, before);
    assert s[..0] == [] && s[0..] == s;
  }

  lemma InsertFurther<T>(x: T, s: seq<T>, before: (T, T) -> bool)
    requires s != [] && !before(x, s[0])
    ensures Insert(x, s, before) == [s[0]] + Insert(x, s[1..], before)
  {
  }

  /** An element is inserted behind everything it is not before, and ahead of the rest. */
  lemma {:induction false} InsertSplits<T(!new)>(x: T, s: seq<T>, before: (T, T) -> bool) returns (p: nat)
    requires OrdersByKey(before) && Sorted(s, before)
    ensures SplitsAt(x, s, before, Insert(x, s, before), p)
  {
    hide *;
    if s == [] || before(x, s[0]) {
      p := 0;
      InsertInFront(x, s, before);
    } else {
      TailKeepsOrder(s, before);
      var q := InsertSplits(x, s[1..], before);
      p := q + 1;
      InsertFurther(x, s, before);
      BehindOneMore(x, s[0], s[1..], before, Insert(x, s[1..], before), q);
      assert s == [s[0]] + s[1..];
    }
  }

  lemma SortOneMore<T>(s: seq<T>, x: T, before: (T, T) -> bool)
    ensures Sort(s + [x], before) == Insert(x, Sort(s, before), before)
  {
    assert (s + [x])[..|s|] == s;
  }

  lemma SplitParts<T(!new)>(x: T, s: seq<T>, before: (T, T) -> bool, r: seq<T>, p: nat)
    requires SplitsAt(x, s, before, r, p)
    ensures p <= |s| && s[..p] + s[p..] == s && r == s[..p] + [x] + s[p..]
    ensures (forall y :: y in s[..p] ==> !before(x, y)) && (forall y :: y in s[p..] ==> before(x, y))
  {
  }

  /** A last element is sorted in between those it is not before and those it is. */
  lemma SortSplits<T(!new)>(s: seq<T>, x: T, before: (T, T) -> bool) returns (pre: seq<T>, post: seq<T>)
    requires OrdersByKey(before)
    ensures Sort(s, before) == pre + post && Sort(s + [x], before) == pre + [x] + post
    ensures (forall y :: y in pre ==> !before(x, y)) && (forall y :: y in post ==> before(x, y))
  {
    hide *;
    SortSorts(s, before);
    SortOneMore(s, x, before);
    var p := InsertSplits(x, Sort(s, before), before);
    SplitParts(x, Sort(s, before), before, Insert(x, Sort(s, before), before), p);
    pre, post := Sort(s, before)[..p], Sort(s, before)[p..];
  }

  lemma {:induction false} SortSorts<T(!new)>(s: seq<T>, before: (T, T) -> bool)
    requires OrdersByKey(before)
    ensures Sorted(Sort(s, before), before)
  {
    if s != [] {
      SortSorts(s[..|s| - 1], before);
      InsertKeepsSorted(s[|s| - 1], Sort(s[..|s| - 1], before), before);
    }
  }

  lemma {:induction false} InsertAtEnd<T>(x: T, s: seq<T>, before: (T, T) -> bool)
    requires forall y :: y in s ==> !before(x, y)
    ensures Insert(x, s, before) == s + [x]
  {
    if s != [] {
      InsertAtEnd(x, s[1..], before);
    }
  }

  lemma NothingAfterLast<T>(p: seq<T>, x: T, before: (T, T) -> bool)
    requires Sorted(p + [x], before)
    ensures forall y :: y in p ==> !before(x, y)
  {
    forall y | y in p ensures !before(x, y) {
      var i :| 0 <= i < |p| && p[i] == y;
      assert !before((p + [x])[|p|], (p + [x])[i]);
    }
  }

  /** Sorting a log that is already in order returns it unchanged. */
  lemma {:induction false} SortOfSorted<T>(s: seq<T>, before: (T, T) -> bool)
    requires Sorted(s, before)
    ensures Sort(s, before) == s
  {
    if s != [] {
      var p, x := s[..|s| - 1], s[|s| - 1];
      assert s == p + [x];
      assert Sorted(p, before) by {
        forall i, j | 0 <= i < j < |p| ensures !before(p[j], p[i]) {
          assert p[i] == s[i] && p[j] == s[j];
        }
      }
      SortOfSorted(p, before);
      NothingAfterLast(p, x, before);
      InsertAtEnd(x, p, before);
    }
  }

  lemma HeadComesFirst<T(!new)>(s: seq<T>, y: T, before: (T, T) -> bool)
    requires Sorted(s, before) && NoTies(s, before) && y in s
    ensures s[0] == y || before(s[0], y)
  {
    var i :| 0 <= i < |s| && s[i] == y;
  }

  lemma NothingBeforeHead<T>(s: seq<T>, y: T, before: (T, T) -> bool)
    requires Sorted(s, before) && y in s
    ensures y == s[0] || !before(y, s[0])
  {
    var i :| 0 <= i < |s| && s[i] == y;
  }

  lemma HeadsAgree<T(!new)>(s: seq<T>, t: seq<T>, before: (T, T) -> bool)
    requires Sorted(s, before) && Sorted(t, before) && NoTies(s, before)
    requires multiset(s) == multiset(t) && s != [] && t != []
    ensures s[0] == t[0]
  {
    assert t[0] in multiset(s) && s[0] in multiset(t);
    HeadComesFirst(s, t[0], before);
    NothingBeforeHead(t, s[0], before);
  }

  lemma TailKeepsOrder<T>(s: seq<T>, before: (T, T) -> bool)
    requires s != []
    ensures Sorted(s, before) ==> Sorted(s[1..], before)
    ensures NoTies(s, before) ==> NoTies(s[1..], before)
  {
  }

  lemma {:induction false} SortedPermutationsAgree<T(!new)>(s: seq<T>, t: seq<T>, before: (T, T) -> bool)
    requires Sorted(s, before) && Sorted(t, before) && NoTies(s, before)
    requires multiset(s) == multiset(t)
    ensures s == t
  {
    assert |s| == |multiset(s)| == |multiset(t)| == |t|;
    if s != [] {
      HeadsAgree(s, t, before);
      TailsOfPermutation(s, t);
      TailKeepsOrder(s, before);
      TailKeepsOrder(t, before);
      SortedPermutationsAgree(s[1..], t[1..], before);
      assert s == [s[0]] + s[1..] && t == [t[0]] + t[1..];
    }
  }

  lemma TailsOfPermutation<T>(s: seq<T>, t: seq<T>)
    requires s != [] && t != [] && s[0] == t[0] && multiset(s) == multiset(t)
    ensures multiset(s[1..]) == multiset(t[1..])
  {
    assert s == [s[0]] + s[1..] && t == [t[0]] + t[1..];
    assert multiset(s) == multiset{s[0]} + multiset(s[1..]);
    assert multiset(t) == multiset{t[0]} + multiset(t[1..]);
    assert multiset(s[1..]) == multiset(s) - multiset{s[0]};
  }

  lemma NoTiesOfPermutation<T(!new)>(s: seq<T>, t: seq<T>, before: (T, T) -> bool)
    requires OrdersByKey(before) && NoTies(s, before) && multiset(s) == multiset(t)
    ensures NoTies(t, before)
  {
    forall i, j | 0 <= i < j < |t| ensures before(t[i], t[j]) || before(t[j], t[i]) {
      if t[i] == t[j] {
        assert t == t[..i] + [t[i]] + t[i + 1..j] + [t[j]] + t[j + 1..];
        assert multiset(t)[t[i]] >= 2;
        AtMostOnce(s, t[i], before);
      } else {
        assert t[i] in multiset(s) && t[j] in multiset(s);
        var a :| 0 <= a < |s| && s[a] == t[i];
        var b :| 0 <= b < |s| && s[b] == t[j];
        assert a < b || b < a;
      }
    }
  }

  lemma {:induction false} AtMostOnce<T(!new)>(s: seq<T>, x: T, before: (T, T) -> bool)
    requires OrdersByKey(before) && NoTies(s, before)
    ensures multiset(s)[x] <= 1
  {
    if s != [] {
      assert s == [s[0]] + s[1..];
      AtMostOnce(s[1..], x, before);
      assert s[0] !in s[1..] by {
        forall k | 0 < k < |s| ensures s[k] != s[0] {
          assert before(s[0], s[k]) || before(s[k], s[0]);
        }
      }
    }
  }

  /** Without ties the sorted form does not depend on the input order. */
  lemma SortIgnoresInputOrder<T(!new)>(s: seq<T>, t: seq<T>, before: (T, T) -> bool)
    requires OrdersByKey(before) && NoTies(s, before) && multiset(s) == multiset(t)
    ensures Sort(s, before) == Sort(t, before)
  {
    SortSorts(s, before);
    SortSorts(t, before);
    NoTiesOfPermutation(s, Sort(s, before), before);
    SortedPermutationsAgree(Sort(s, before), Sort(t, before), before);
  }

  // ---- Positions ----------------------------------------------------------------------------

  ghost predicate Distinct<T>(s: seq<T>) {
    forall i, j :: 0 <= i < j < |s| ==> s[i] != s[j]
  }

  lemma {:induction false} DistinctOnce<T>(s: seq<T>, x: T)
    requires Distinct(s)
    ensures multiset(s)[x] <= 1
  {
    if s != [] {
      assert s == s[..|s| - 1] + [s[|s| - 1]];
      DistinctOnce(s[..|s| - 1], x);
    }
  }

  lemma DistinctPermutation<T>(s: seq<T>, t: seq<T>)
    requires Distinct(s) && multiset(s) == multiset(t)
    ensures Distinct(t)
  {
    forall i, j | 0 <= i < j < |t| ensures t[i] != t[j] {
      if t[i] == t[j] {
        assert t == t[..i] + [t[i]] + t[i + 1..j] + [t[j]] + t[j + 1..];
        assert multiset(t)[t[i]] >= 2;
        DistinctOnce(s, t[i]);
      }
    }
  }

  lemma PairStays<T>(pre: seq<T>, x: T, post: seq<T>, a: nat, b: nat) returns (p: nat, q: nat)
    requires a < b < |pre + post|
    ensures p < q < |pre + [x] + post| && (pre + [x] + post)[p] == (pre + post)[a] && (pre + [x] + post)[q] == (pre + post)[b]
  {
    p := if a < |pre| then a else a + 1;
    q := if b < |pre| then b else b + 1;
  }

  lemma PlaceOf<T>(pre: seq<T>, x: T, post: seq<T>, y: T) returns (p: nat)
    requires y in pre
    ensures p < |pre| && (pre + [x] + post)[p] == y && (pre + [x] + post)[|pre|] == x
  {
    p :| 0 <= p < |pre| && pre[p] == y;
  }

  /** The sort is stable: of two elements the second of which is not before the first, the first stays
      ahead. */
  lemma {:induction false} SortIsStable<T(!new)>(s: seq<T>, i: nat, j: nat, before: (T, T) -> bool) returns (p: nat, q: nat)
    requires OrdersByKey(before) && i < j < |s| && !before(s[j], s[i])
    ensures p < q < |Sort(s, before)| && Sort(s, before)[p] == s[i] && Sort(s, before)[q] == s[j]
    decreases |s|
  {
    var rest, x := s[..|s| - 1], s[|s| - 1];
    assert s == rest + [x];
    var pre, post := SortSplits(rest, x, before);
    hide OrdersByKey, Sort;
    if j < |rest| {
      var a, b := SortIsStable(rest, i, j, before);
      p, q := PairStays(pre, x, post, a, b);
    } else {
      assert rest[i] in multiset(Sort(rest, before));
      assert rest[i] in pre + post;
      p := PlaceOf(pre, x, post, s[i]);
      q := |pre|;
    }
  }

  /** And an element that is before another ends up ahead of it, wherever the two stood. */
  lemma SortPutsAhead<T(!new)>(s: seq<T>, i: nat, j: nat, before: (T, T) -> bool) returns (p: nat, q: nat)
    requires OrdersByKey(before) && i < |s| && j < |s| && before(s[i], s[j])
    ensures p < q < |Sort(s, before)| && Sort(s, before)[p] == s[i] && Sort(s, before)[q] == s[j]
  {
    SortSorts(s, before);
    var t := Sort(s, before);
    assert s[i] in multiset(t) && s[j] in multiset(t);
    p :| 0 <= p < |t| && t[p] == s[i];
    q :| 0 <= q < |t| && t[q] == s[j];
  }
}
