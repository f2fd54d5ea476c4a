/**
 * A stable insertion sort over an arbitrary "may come before" relation, used
 * where the game calls Python's `sorted`/`list.sort`: the rank ordinals of a
 * hand, the ranking list by score, and a suit's cards by service name.
 */
module Sorting {

  /** `le` is total and transitive, as a sort key comparison is. */
  ghost predicate IsTotalPreorder<T(!new)>(le: (T, T) -> bool)
  {
    && (forall a, b :: le(a, b) || le(b, a))
    && (forall a, b, c :: le(a, b) && le(b, c) ==> le(a, c))
  }

  ghost predicate SortedBy<T>(s: seq<T>, le: (T, T) -> bool)
  {
    forall i, j :: 0 <= i < j < |s| ==> le(s[i], s[j])
  }

  /** Puts `x` in front of the first element it may precede. */
  function InsertBy<T>(x: T, s: seq<T>, le: (T, T) -> bool): (r: seq<T>)
    ensures multiset(r) == multiset(s) + multiset{x}
    ensures |r| == |s| + 1
  {
    if s == [] || le(x, s[0]) then [x] + s
    else
      assert s == [s[0]] + s[1..];
      [s[0]] + InsertBy(x, s[1..], le)
  }

  /** Insertion sort: each element is inserted into the sorted rest. */
  function SortBy<T>(s: seq<T>, le: (T, T) -> bool): (r: seq<T>)
    ensures multiset(r) == multiset(s)
    ensures |r| == |s|
  {
    if s == [] then []
    else
      assert s == [s[0]] + s[1..];
      InsertBy(s[0], SortBy(s[1..], le), le)
  }

  lemma {:induction false} InsertSorted<T(!new)>(x: T, s: seq<T>, le: (T, T) -> bool)
    requires IsTotalPreorder(le)
    requires SortedBy(s, le)
    ensures SortedBy(InsertBy(x, s, le), le)
    decreases |s|
  {
    if s == [] || le(x, s[0]) {
    } else {
      InsertSorted(x, s[1..], le);
      var t := InsertBy(x, s[1..], le);
      forall j | 0 <= j < |t|
        ensures le(s[0], t[j])
      {
        assert t[j] in multiset(t);
        if t[j] != x {
          assert t[j] in multiset(s[1..]);
          var k :| 0 <= k < |s[1..]| && s[1..][k] == t[j];
          assert s[k + 1] == t[j];
        }
      }
    }
  }

  /** The result of the sort is ordered by `le`. */
  lemma {:induction false} SortBySorted<T(!new)>(s: seq<T>, le: (T, T) -> bool)
    requires IsTotalPreorder(le)
    ensures SortedBy(SortBy(s, le), le)
    decreases |s|
  {
    if s != [] {
      SortBySorted(s[1..], le);
      InsertSorted(s[0], SortBy(s[1..], le), le);
    }
  }

  /** The elements of `s` that satisfy `p`, in their order in `s`. */
  function Filter<T>(s: seq<T>, p: T -> bool): (r: seq<T>)
    ensures |r| <= |s|
    ensures forall i :: 0 <= i < |r| ==> p(r[i])
  {
    if s == [] then []
    else (if p(s[0]) then [s[0]] else []) + Filter(s[1..], p)
  }

  /** The elements that compare equal to `z` under `le` (neither may go after the other). */
  function EquivTo<T>(le: (T, T) -> bool, z: T): T -> bool
  {
    y => le(y, z) && le(z, y)
  }

  /** Inserting an element that `p` rejects does not change what `p` selects. */
  lemma {:induction false} FilterInsertOther<T>(x: T, t: seq<T>, le: (T, T) -> bool, p: T -> bool)
    requires !p(x)
    ensures Filter(InsertBy(x, t, le), p) == Filter(t, p)
    decreases |t|
  {
    if t == [] || le(x, t[0]) {
      assert ([x] + t)[1..] == t;
    } else {
      FilterInsertOther(x, t[1..], le, p);
      assert ([t[0]] + InsertBy(x, t[1..], le))[1..] == InsertBy(x, t[1..], le);
    }
  }

  /**
   * Inserting an element that `p` selects and that may precede every selected
   * element puts it first among the selected ones.
   */
  lemma {:induction false} FilterInsertFirst<T>(x: T, t: seq<T>, le: (T, T) -> bool, p: T -> bool)
    requires p(x)
    requires forall i :: 0 <= i < |t| && p(t[i]) ==> le(x, t[i])
    ensures Filter(InsertBy(x, t, le), p) == [x] + Filter(t, p)
    decreases |t|
  {
    if t == [] || le(x, t[0]) {
      assert ([x] + t)[1..] == t;
    } else {
      var rest, u := t[1..], InsertBy(x, t[1..], le);
      assert !p(t[0]);
      assert Filter(t, p) == Filter(rest, p);
      forall i | 0 <= i < |rest| && p(rest[i]) ensures le(x, rest[i]) {
        assert rest[i] == t[i + 1];
      }
      FilterInsertFirst(x, rest, le, p);
      assert ([t[0]] + u)[1..] == u;
      assert Filter(InsertBy(x, t, le), p) == Filter(u, p);
    }
  }

  /**
   * The sort is stable, as Python's is: elements that compare equal keep the
   * order they had in the input.
   */
  lemma {:induction false} SortByStable<T(!new)>(s: seq<T>, le: (T, T) -> bool, z: T)
    requires IsTotalPreorder(le)
    ensures Filter(SortBy(s, le), EquivTo(le, z)) == Filter(s, EquivTo(le, z))
    decreases |s|
  {
    if s != [] {
      var p := EquivTo(le, z);
      var t := SortBy(s[1..], le);
      SortByStable(s[1..], le, z);
      if p(s[0]) {
        forall i | 0 <= i < |t| && p(t[i]) ensures le(s[0], t[i]) {
          assert le(s[0], z) && le(z, t[i]);
        }
        FilterInsertFirst(s[0], t, le, p);
      } else {
        FilterInsertOther(s[0], t, le, p);
      }
    }
  }

  // ---------------------------------------------------------------------------
  // Repeats and counting, which do not depend on the order of a sequence
  // ---------------------------------------------------------------------------

  /** No element occurs twice. */
  ghost predicate Distinct<T>(xs: seq<T>)
  {
    forall a, b :: 0 <= a < b < |xs| ==> xs[a] != xs[b]
  }

  lemma {:induction false} DistinctAtMostOnce<T>(xs: seq<T>, v: T)
    requires Distinct(xs)
    ensures multiset(xs)[v] <= 1
    decreases |xs|
  {
    if xs != [] {
      var front := xs[..|xs| - 1];
      assert xs == front + [xs[|xs| - 1]];
      DistinctAtMostOnce(front, v);
      if v in front {
        var k :| 0 <= k < |front| && front[k] == v;
        assert xs[k] == v;
        assert xs[|xs| - 1] != v;
      }
    }
  }

  /** A sequence with the same elements as a sequence without repeats has no repeats either. */
  lemma DistinctPermutation<T>(xs: seq<T>, ys: seq<T>)
    requires Distinct(ys) && multiset(xs) == multiset(ys)
    ensures Distinct(xs)
  {
    forall a, b | 0 <= a < b < |xs| ensures xs[a] != xs[b] {
      if xs[a] == xs[b] {
        var v := xs[a];
        assert xs == xs[..a] + [v] + xs[a + 1..b] + [v] + xs[b + 1..];
        assert multiset(xs)[v] >= 2;
        DistinctAtMostOnce(ys, v);
      }
    }
  }

  /** How many elements of `xs` satisfy `p`. */
  function CountWhere<T>(xs: seq<T>, p: T -> bool): (n: nat)
    ensures n <= |xs|
    decreases |xs|
  {
    if xs == [] then 0
    else CountWhere(xs[..|xs| - 1], p) + (if p(xs[|xs| - 1]) then 1 else 0)
  }

  /** Appending one element adds its share of the count. */
  lemma CountWhereSnoc<T>(xs: seq<T>, x: T, p: T -> bool)
    ensures CountWhere(xs + [x], p) == CountWhere(xs, p) + (if p(x) then 1 else 0)
  {
    assert (xs + [x])[..|xs + [x]| - 1] == xs;
  }

  lemma {:induction false} CountWhereConcat<T>(xs: seq<T>, ys: seq<T>, p: T -> bool)
    ensures CountWhere(xs + ys, p) == CountWhere(xs, p) + CountWhere(ys, p)
    decreases |ys|
  {
    if ys != [] {
      assert (xs + ys)[..|xs + ys| - 1] == xs + ys[..|ys| - 1];
      CountWhereConcat(xs, ys[..|ys| - 1], p);
    } else {
      assert xs + ys == xs;
    }
  }

  /** A position where `x` occurs in `ys`. */
  ghost function IndexOf<T>(ys: seq<T>, x: T): (k: nat)
    requires x in multiset(ys)
    ensures k < |ys| && ys[k] == x
  {
    var k :| 0 <= k < |ys| && ys[k] == x; k
  }

  /** Taking out the element at position k takes one copy of it out of the multiset. */
  lemma MultisetRemoveAt<T>(ys: seq<T>, k: nat)
    requires k < |ys|
    ensures multiset(ys[..k] + ys[k + 1..]) == multiset(ys) - multiset{ys[k]}
  {
    assert ys == ys[..k] + [ys[k]] + ys[k + 1..];
  }

  /** Taking the first element out of one of two permutations, and a copy of it out of the other, leaves permutations. */
  lemma PermutationRemoveFirst<T>(xs: seq<T>, ys: seq<T>, k: nat)
    requires multiset(xs) == multiset(ys) && xs != []
    requires k < |ys| && ys[k] == xs[0]
    ensures multiset(xs[1..]) == multiset(ys[..k] + ys[k + 1..])
  {
    MultisetRemoveAt(ys, k);
    assert xs == [xs[0]] + xs[1..];
    assert multiset(xs[1..]) == multiset(xs) - multiset{xs[0]};
  }

  /** Taking out the element at position k takes out its share of the count. */
  lemma CountWhereRemove<T>(ys: seq<T>, k: nat, p: T -> bool)
    requires k < |ys|
    ensures CountWhere(ys, p) == CountWhere(ys[..k] + ys[k + 1..], p) + (if p(ys[k]) then 1 else 0)
  {
    var front, b := ys[..k + 1], ys[k + 1..];
    assert front[..k] == ys[..k];
    assert ys == front + b;
    CountWhereConcat(front, b, p);
    CountWhereConcat(ys[..k], b, p);
  }

  /** The count depends only on which elements occur, not on their order. */
  lemma {:induction false} CountWherePermutation<T>(xs: seq<T>, ys: seq<T>, p: T -> bool)
    requires multiset(xs) == multiset(ys)
    ensures CountWhere(xs, p) == CountWhere(ys, p)
    decreases |xs|
  {
    if xs != [] {
      var x := xs[|xs| - 1];
      var front := xs[..|xs| - 1];
      assert xs == front + [x];
      assert multiset(front) == multiset(xs) - multiset{x};
      assert x in multiset(ys);
      var k :| 0 <= k < |ys| && ys[k] == x;
      var a, b := ys[..k], ys[k + 1..];
      assert ys == a + [x] + b;
      assert multiset(a + b) == multiset(ys) - multiset{x};
      CountWherePermutation(front, a + b, p);
      CountWhereRemove(ys, k, p);
      CountWhereSnoc(front, x, p);
    }
  }

  /** When every element satisfies `p`, all of them are counted. */
  lemma {:induction false} CountWhereAll<T>(xs: seq<T>, p: T -> bool)
    requires forall k :: 0 <= k < |xs| ==> p(xs[k])
    ensures CountWhere(xs, p) == |xs|
    decreases |xs|
  {
    if xs != [] {
      CountWhereAll(xs[..|xs| - 1], p);
    }
  }

  /** When no element satisfies `p`, none is counted. */
  lemma {:induction false} CountWhereNone<T>(xs: seq<T>, p: T -> bool)
    requires forall k :: 0 <= k < |xs| ==> !p(xs[k])
    ensures CountWhere(xs, p) == 0
    decreases |xs|
  {
    if xs != [] {
      CountWhereNone(xs[..|xs| - 1], p);
    }
  }
}
