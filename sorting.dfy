/**
 * Array.prototype.sort with a comparator. Since ECMAScript 2019 the sort is
 * stable, so for a comparator that orders by a key its result is unique: the
 * elements ordered by key, ties kept in their original order. A stable
 * insertion sort computes exactly that value. `before(a, b)` holds when the
 * comparator returns a negative number for (a, b).
 */
module Sorting {
  import opened Seqs

  /** Inserts x in front of the first element that x does not come after. */
  function Insert<T>(x: T, t: seq<T>, before: (T, T) -> bool): (r: seq<T>)
    ensures |r| == |t| + 1
    ensures |t| == 0 ==> r == [x]
    ensures |t| > 0 ==> r[0] == x || r[0] == t[0]
  {
    if |t| == 0 then [x]
    else if before(t[0], x) then [t[0]] + Insert(x, t[1..], before)
    else [x] + t
  }

  function SortBy<T>(s: seq<T>, before: (T, T) -> bool): (r: seq<T>)
    ensures |r| == |s|
  {
    if |s| == 0 then [] else Insert(s[0], SortBy(s[1..], before), before)
  }

  /** A comparator never puts a before b and b before a. */
  ghost predicate Asymmetric<T(!new)>(before: (T, T) -> bool)
  {
    forall a: T, b: T :: before(a, b) ==> !before(b, a)
  }

  /** No element comes before its predecessor. */
  ghost predicate Sorted<T>(s: seq<T>, before: (T, T) -> bool)
  {
    forall k :: 0 < k < |s| ==> !before(s[k], s[k - 1])
  }

  lemma {:induction false} InsertPermutation<T>(x: T, t: seq<T>, before: (T, T) -> bool)
    ensures multiset(Insert(x, t, before)) == multiset(t) + multiset{x}
  {
    if |t| > 0 && before(t[0], x) {
      InsertPermutation(x, t[1..], before);
      assert t == [t[0]] + t[1..];
    }
  }

  /** The sort rearranges its input: same elements, same multiplicities. */
  lemma {:induction false} SortByPermutation<T>(s: seq<T>, before: (T, T) -> bool)
    ensures multiset(SortBy(s, before)) == multiset(s)
  {
    if |s| > 0 {
      SortByPermutation(s[1..], before);
      InsertPermutation(s[0], SortBy(s[1..], before), before);
      assert s == [s[0]] + s[1..];
    }
  }

  /** Membership both ways, the form in which the permutation is used. */
  lemma {:induction false} SortByMembers<T>(s: seq<T>, before: (T, T) -> bool)
    ensures forall x :: x in SortBy(s, before) <==> x in s
  {
    SortByPermutation(s, before);
    forall x ensures x in SortBy(s, before) <==> x in s {
      assert x in SortBy(s, before) <==> x in multiset(SortBy(s, before));
      assert x in s <==> x in multiset(s);
    }
  }

  lemma {:induction false} InsertSorted<T(!new)>(x: T, t: seq<T>, before: (T, T) -> bool)
    requires Asymmetric(before)
    requires Sorted(t, before)
    ensures Sorted(Insert(x, t, before), before)
  {
    if |t| > 0 && before(t[0], x) {
      var rest := Insert(x, t[1..], before);
      assert Sorted(t[1..], before) by {
        forall k | 0 < k < |t[1..]| ensures !before(t[1..][k], t[1..][k - 1]) {
          assert t[1..][k] == t[k + 1] && t[1..][k - 1] == t[k];
        }
      }
      InsertSorted(x, t[1..], before);
      assert !before(rest[0], t[0]) by {
        if rest[0] == x {
          assert !before(x, t[0]);
        } else {
          assert rest[0] == t[1];
        }
      }
      var r := [t[0]] + rest;
      forall k | 0 < k < |r| ensures !before(r[k], r[k - 1]) {
        if k > 1 {
          assert r[k] == rest[k - 1] && r[k - 1] == rest[k - 2];
        }
      }
    } else if |t| > 0 {
      var r := [x] + t;
      forall k | 0 < k < |r| ensures !before(r[k], r[k - 1]) {
        if k > 1 {
          assert r[k] == t[k - 1] && r[k - 1] == t[k - 2];
        }
      }
    }
  }

  /** For an asymmetric comparator, the result is in comparator order. */
  lemma {:induction false} SortBySorted<T(!new)>(s: seq<T>, before: (T, T) -> bool)
    requires Asymmetric(before)
    ensures Sorted(SortBy(s, before), before)
  {
    if |s| > 0 {
      SortBySorted(s[1..], before);
      InsertSorted(s[0], SortBy(s[1..], before), before);
    }
  }

  /** The elements of p are mutually tied: none comes before another. */
  ghost predicate TiedClass<T(!new)>(p: T -> bool, before: (T, T) -> bool)
  {
    forall a: T, b: T :: p(a) && p(b) ==> !before(a, b)
  }

  lemma {:induction false} InsertTied<T(!new)>(x: T, t: seq<T>, before: (T, T) -> bool, p: T -> bool)
    requires TiedClass(p, before)
    ensures Filter(Insert(x, t, before), p) == (if p(x) then [x] else []) + Filter(t, p)
  {
    if |t| > 0 && before(t[0], x) {
      var rest := Insert(x, t[1..], before);
      InsertTied(x, t[1..], before, p);
      assert ([t[0]] + rest)[0] == t[0] && ([t[0]] + rest)[1..] == rest;
      assert !(p(t[0]) && p(x));
    } else if |t| > 0 {
      assert ([x] + t)[0] == x && ([x] + t)[1..] == t;
    } else {
      assert [x][1..] == [];
    }
  }

  /** Stability: elements tied with one another leave the sort in the order
      they entered it. For a comparator ordering by a key, p can be "has key
      k": equal keys keep their input order. */
  lemma {:induction false} SortByStable<T(!new)>(s: seq<T>, before: (T, T) -> bool, p: T -> bool)
    requires TiedClass(p, before)
    ensures Filter(SortBy(s, before), p) == Filter(s, p)
  {
    if |s| > 0 {
      SortByStable(s[1..], before, p);
      InsertTied(s[0], SortBy(s[1..], before), before, p);
    }
  }

  lemma {:induction false} InsertDistinct<T>(x: T, t: seq<T>, before: (T, T) -> bool)
    requires Distinct(t) && x !in t
    ensures Distinct(Insert(x, t, before))
  {
    if |t| > 0 && before(t[0], x) {
      var rest := Insert(x, t[1..], before);
      assert Distinct(t[1..]) by {
        forall i, j | 0 <= i < j < |t[1..]| ensures t[1..][i] != t[1..][j] {
          assert t[1..][i] == t[i + 1] && t[1..][j] == t[j + 1];
        }
      }
      assert x !in t[1..];
      InsertDistinct(x, t[1..], before);
      InsertPermutation(x, t[1..], before);
      assert t[0] !in rest by {
        assert t[0] !in t[1..];
        assert t[0] !in multiset(t[1..]) + multiset{x};
      }
      var r := [t[0]] + rest;
      forall i, j | 0 <= i < j < |r| ensures r[i] != r[j] {
        if i == 0 {
          assert r[j] == rest[j - 1];
        } else {
          assert r[i] == rest[i - 1] && r[j] == rest[j - 1];
        }
      }
    } else if |t| > 0 {
      var r := [x] + t;
      forall i, j | 0 <= i < j < |r| ensures r[i] != r[j] {
        if i == 0 {
          assert r[j] == t[j - 1];
        } else {
          assert r[i] == t[i - 1] && r[j] == t[j - 1];
        }
      }
    }
  }

  /** Sorting a sequence without repetitions gives one without repetitions. */
  lemma {:induction false} SortByDistinct<T>(s: seq<T>, before: (T, T) -> bool)
    requires Distinct(s)
    ensures Distinct(SortBy(s, before))
  {
    if |s| > 0 {
      assert Distinct(s[1..]) by {
        forall i, j | 0 <= i < j < |s[1..]| ensures s[1..][i] != s[1..][j] {
          assert s[1..][i] == s[i + 1] && s[1..][j] == s[j + 1];
        }
      }
      SortByDistinct(s[1..], before);
      SortByMembers(s[1..], before);
      assert s[0] !in s[1..];
      InsertDistinct(s[0], SortBy(s[1..], before), before);
    }
  }
}
