/** Distinct entries, Array.prototype.filter, Math.max, object filling and a first-match search, as functions on sequences. */
module Seqs {
  import opened Wrappers

  /** No two entries of s are equal. */
  predicate Distinct<T(==)>(s: seq<T>) {
    forall i, j | 0 <= i < j < |s| :: s[i] != s[j]
  }

  /** Array.prototype.filter: the elements satisfying p, in their order. */
  function Filter<T>(s: seq<T>, p: T -> bool): (r: seq<T>)
    ensures |r| <= |s|
  {
    if s == [] then [] else (if p(s[0]) then [s[0]] else []) + Filter(s[1..], p)
  }

  /** Filter keeps exactly the elements that satisfy p. */
  lemma {:induction false} FilterSpec<T>(s: seq<T>, p: T -> bool)
    ensures forall k :: 0 <= k < |Filter(s, p)| ==> Filter(s, p)[k] in s && p(Filter(s, p)[k])
    ensures forall k :: 0 <= k < |s| && p(s[k]) ==> s[k] in Filter(s, p)
  {
    if s != [] {
      FilterSpec(s[1..], p);
      assert forall k :: 1 <= k < |s| ==> s[k] == s[1..][k - 1];
    }
  }

  lemma {:induction false} FilterConcat<T>(a: seq<T>, b: seq<T>, p: T -> bool)
    ensures Filter(a + b, p) == Filter(a, p) + Filter(b, p)
  {
    if a == [] {
      assert a + b == b;
    } else {
      assert (a + b)[0] == a[0];
      assert (a + b)[1..] == a[1..] + b;
      FilterConcat(a[1..], b, p);
      var h := if p(a[0]) then [a[0]] else [];
      assert Filter(a + b, p) == h + Filter(a[1..] + b, p);
      assert Filter(a, p) == h + Filter(a[1..], p);
    }
  }

  /** Filtering a prefix one element longer adds that element or nothing. */
  lemma {:induction false} FilterSnoc<T>(a: seq<T>, x: T, p: T -> bool)
    ensures Filter(a + [x], p) == Filter(a, p) + (if p(x) then [x] else [])
  {
    FilterConcat(a, [x], p);
    assert Filter([x], p) == (if p(x) then [x] else []) + Filter([x][1..], p);
  }

  /** Math.max(...s) for a non-empty s. */
  function Max(s: seq<real>): (m: real)
    requires |s| > 0
    ensures m in s
    ensures forall k :: 0 <= k < |s| ==> s[k] <= m
  {
    if |s| == 1 then s[0]
    else
      var rest := Max(s[1..]);
      assert forall k :: 1 <= k < |s| ==> s[k] == s[1..][k - 1];
      if s[0] >= rest then s[0] else rest
  }

  /** An object filled by `m[key(x)] = val(x)` for each x in order: a later key overwrites. */
  function MapOf<T, K(==), V>(s: seq<T>, key: T -> K, val: T -> V): map<K, V>
  {
    if |s| == 0 then map[]
    else MapOf(s[..|s| - 1], key, val)[key(s[|s| - 1]) := val(s[|s| - 1])]
  }

  /** The keys are the keys of the elements; each key holds the value of its last element. */
  lemma {:induction false} MapOfSpec<T, K, V>(s: seq<T>, key: T -> K, val: T -> V)
    ensures forall x :: x in MapOf(s, key, val) <==> exists k :: 0 <= k < |s| && key(s[k]) == x
    ensures forall k :: 0 <= k < |s| && (forall m :: k < m < |s| ==> key(s[m]) != key(s[k])) ==>
      key(s[k]) in MapOf(s, key, val) && MapOf(s, key, val)[key(s[k])] == val(s[k])
  {
    MapOfKeys(s, key, val);
    forall k | 0 <= k < |s| && (forall m :: k < m < |s| ==> key(s[m]) != key(s[k]))
      ensures key(s[k]) in MapOf(s, key, val) && MapOf(s, key, val)[key(s[k])] == val(s[k])
    {
      MapOfLast(s, key, val, k);
    }
  }

  lemma {:induction false} MapOfKeys<T, K, V>(s: seq<T>, key: T -> K, val: T -> V)
    ensures forall x :: x in MapOf(s, key, val) <==> exists k :: 0 <= k < |s| && key(s[k]) == x
  {
    if |s| > 0 {
      var p := s[..|s| - 1];
      var n := |s| - 1;
      MapOfKeys(p, key, val);
      forall x ensures x in MapOf(s, key, val) <==> exists k :: 0 <= k < |s| && key(s[k]) == x {
        if x in MapOf(p, key, val) {
          var k :| 0 <= k < |p| && key(p[k]) == x;
          assert p[k] == s[k];
        }
        if exists k :: 0 <= k < |s| && key(s[k]) == x {
          var k :| 0 <= k < |s| && key(s[k]) == x;
          if k < n {
            assert p[k] == s[k];
          }
        }
      }
    }
  }

  lemma {:induction false} MapOfLast<T, K, V>(s: seq<T>, key: T -> K, val: T -> V, k: nat)
    requires k < |s| && forall m :: k < m < |s| ==> key(s[m]) != key(s[k])
    ensures key(s[k]) in MapOf(s, key, val) && MapOf(s, key, val)[key(s[k])] == val(s[k])
  {
    var n := |s| - 1;
    if k < n {
      var p := s[..n];
      assert p[k] == s[k];
      assert forall m :: k < m < |p| ==> p[m] == s[m];
      MapOfLast(p, key, val, k);
    }
  }

  /** The first index from i on whose element satisfies p. */
  function FirstFrom<T>(s: seq<T>, p: T -> bool, i: nat): (r: Option<nat>)
    ensures r.Some? ==> i <= r.value < |s| && p(s[r.value])
    decreases |s| - i
  {
    if i >= |s| then None
    else if p(s[i]) then Some(i)
    else FirstFrom(s, p, i + 1)
  }

  /** FirstFrom finds j when j satisfies p and nothing between i and j does. */
  lemma {:induction false} FirstFromIs<T>(s: seq<T>, p: T -> bool, i: nat, j: nat)
    requires i <= j < |s| && p(s[j])
    requires forall k {:trigger s[k]} | i <= k < j :: !p(s[k])
    ensures FirstFrom(s, p, i) == Some(j)
    decreases j - i
  {
    if i < j {
      FirstFromIs(s, p, i + 1, j);
    }
  }

  /** FirstFrom finds nothing when nothing from i on satisfies p. */
  lemma {:induction false} FirstFromNone<T>(s: seq<T>, p: T -> bool, i: nat)
    requires forall k {:trigger s[k]} | i <= k < |s| :: !p(s[k])
    ensures FirstFrom(s, p, i) == None
    decreases |s| - i
  {
    if i < |s| {
      FirstFromNone(s, p, i + 1);
    }
  }

  /** FirstFrom finds the first index from i on that satisfies p, and none
      before it. */
  lemma {:induction false} FirstFromFirst<T>(s: seq<T>, p: T -> bool, i: nat)
    ensures var r := FirstFrom(s, p, i);
            (r.Some? ==> forall k {:trigger s[k]} | i <= k < r.value :: !p(s[k]))
            && (r.None? ==> forall k {:trigger s[k]} | i <= k < |s| :: !p(s[k]))
    decreases |s| - i
  {
    if i < |s| && !p(s[i]) {
      FirstFromFirst(s, p, i + 1);
    }
  }
}
