/** The de-duplication of the backfill's main (backfill_league.py lines
    315-361), on any sequence and key function: the set of keys seen so
    far, the first-occurrence filter that grows it, and the grouping of
    the elements by key that finds the keys held more than once. */
module Dedup {

  /** The keys of the elements of s. */
  function Keys<T, K(==)>(s: seq<T>, key: T -> K): set<K>
    decreases |s|
  {
    if |s| == 0 then {} else Keys(s[..|s| - 1], key) + {key(s[|s| - 1])}
  }

  /** No two elements of s have the same key. */
  predicate DistinctKeys<T, K(==)>(s: seq<T>, key: T -> K) {
    forall i, j | 0 <= i < j < |s| :: key(s[i]) != key(s[j])
  }

  /** The elements of s whose key no earlier element has, in their order. */
  function FirstOccurrences<T, K(==)>(s: seq<T>, key: T -> K): (r: seq<T>)
    ensures |r| <= |s|
    decreases |s|
  {
    if |s| == 0 then []
    else
      var n := |s| - 1;
      var r := FirstOccurrences(s[..n], key);
      if key(s[n]) in Keys(s[..n], key) then r else r + [s[n]]
  }

  /** The positions of s that FirstOccurrences keeps. */
  function FirstIndices<T, K(==)>(s: seq<T>, key: T -> K): (idx: seq<nat>)
    decreases |s|
  {
    if |s| == 0 then []
    else
      var n := |s| - 1;
      var idx := FirstIndices(s[..n], key);
      if key(s[n]) in Keys(s[..n], key) then idx else idx + [n]
  }

  /** Position i holds the first element of s with its key. */
  predicate IsFirst<T, K(==)>(s: seq<T>, key: T -> K, i: nat)
    requires i < |s|
  {
    forall j | 0 <= j < i :: key(s[j]) != key(s[i])
  }

  /** by_key[k]: the elements with key k, in their order. */
  function Group<T, K(==)>(s: seq<T>, key: T -> K, k: K): (g: seq<T>)
    ensures |g| <= |s|
    decreases |s|
  {
    if |s| == 0 then []
    else
      var n := |s| - 1;
      Group(s[..n], key, k) + (if key(s[n]) == k then [s[n]] else [])
  }

  /** by_key: each key of s mapped to its group, as a defaultdict(list) fills it. */
  function GroupMap<T, K(==)>(s: seq<T>, key: T -> K): map<K, seq<T>>
    decreases |s|
  {
    if |s| == 0 then map[]
    else
      var n := |s| - 1;
      var m := GroupMap(s[..n], key);
      var k := key(s[n]);
      m[k := (if k in m then m[k] else []) + [s[n]]]
  }

  /** The keys that more than one element has. */
  function Duplicated<T, K(==)>(s: seq<T>, key: T -> K): set<K> {
    set k | k in Keys(s, key) && |Group(s, key, k)| > 1
  }

  // ---------------------------------------------------------------------
  // One more element

  lemma {:induction false} KeysSnoc<T, K>(s: seq<T>, x: T, key: T -> K)
    ensures Keys(s + [x], key) == Keys(s, key) + {key(x)}
  {
    assert (s + [x])[..|s|] == s;
  }

  lemma {:induction false} FirstOccurrencesSnoc<T, K>(s: seq<T>, x: T, key: T -> K)
    ensures FirstOccurrences(s + [x], key)
            == if key(x) in Keys(s, key) then FirstOccurrences(s, key) else FirstOccurrences(s, key) + [x]
  {
    assert (s + [x])[..|s|] == s;
  }

  lemma {:induction false} GroupSnoc<T, K>(s: seq<T>, x: T, key: T -> K, k: K)
    ensures Group(s + [x], key, k) == Group(s, key, k) + (if key(x) == k then [x] else [])
  {
    assert (s + [x])[..|s|] == s;
  }

  // ---------------------------------------------------------------------
  // What the functions mean

  /** The keys are exactly those some element has. */
  lemma {:induction false} KeysSpec<T, K>(s: seq<T>, key: T -> K, k: K)
    ensures k in Keys(s, key) <==> exists i | 0 <= i < |s| :: key(s[i]) == k
    decreases |s|
  {
    if |s| > 0 {
      var n := |s| - 1;
      KeysSpec(s[..n], key, k);
      if exists i | 0 <= i < n :: key(s[..n][i]) == k {
        var i :| 0 <= i < n && key(s[..n][i]) == k;
        assert key(s[i]) == k;
      }
      if exists i | 0 <= i < |s| :: key(s[i]) == k {
        var i :| 0 <= i < |s| && key(s[i]) == k;
        if i < n {
          assert key(s[..n][i]) == k;
        }
      }
    }
  }

  /** FirstOccurrences takes the elements at FirstIndices, in that order. */
  lemma {:induction false} FirstOccurrencesAt<T, K>(s: seq<T>, key: T -> K)
    ensures var r := FirstOccurrences(s, key);
            var idx := FirstIndices(s, key);
            |r| == |idx| && forall i | 0 <= i < |idx| :: idx[i] < |s| && r[i] == s[idx[i]]
    decreases |s|
  {
    if |s| > 0 {
      var n := |s| - 1;
      FirstOccurrencesAt(s[..n], key);
    }
  }

  /** FirstIndices lists positions of s in increasing order. */
  lemma {:induction false} FirstIndicesIncreasing<T, K>(s: seq<T>, key: T -> K)
    ensures forall i | 0 <= i < |FirstIndices(s, key)| :: FirstIndices(s, key)[i] < |s|
    ensures forall i, j | 0 <= i < j < |FirstIndices(s, key)| :: FirstIndices(s, key)[i] < FirstIndices(s, key)[j]
    decreases |s|
  {
    if |s| > 0 {
      FirstIndicesIncreasing(s[..|s| - 1], key);
    }
  }

  /** The positions FirstIndices lists are exactly those that hold the
      first element with their key. */
  lemma {:induction false} FirstIndicesSpec<T, K>(s: seq<T>, key: T -> K, p: nat)
    requires p < |s|
    ensures p in FirstIndices(s, key) <==> IsFirst(s, key, p)
    decreases |s|
  {
    var n := |s| - 1;
    var t := s[..n];
    FirstIndicesIncreasing(t, key);
    KeysSpec(t, key, key(s[n]));
    if p < n {
      FirstIndicesSpec(t, key, p);
      assert p != n;
      assert IsFirst(t, key, p) <==> IsFirst(s, key, p) by {
        assert forall j | 0 <= j < p :: t[j] == s[j];
      }
    } else {
      assert p !in FirstIndices(t, key);
      assert IsFirst(s, key, n) <==> key(s[n]) !in Keys(t, key) by {
        assert forall j | 0 <= j < n :: t[j] == s[j];
      }
    }
  }

  /** FirstOccurrences keeps one element per key, and every key. */
  lemma {:induction false} FirstOccurrencesKeys<T, K>(s: seq<T>, key: T -> K)
    ensures DistinctKeys(FirstOccurrences(s, key), key)
    ensures Keys(FirstOccurrences(s, key), key) == Keys(s, key)
    decreases |s|
  {
    if |s| > 0 {
      var n := |s| - 1;
      var t := s[..n];
      var r0 := FirstOccurrences(t, key);
      FirstOccurrencesKeys(t, key);
      if key(s[n]) !in Keys(t, key) {
        KeysSnoc(r0, s[n], key);
        var r := r0 + [s[n]];
        forall i, j | 0 <= i < j < |r| ensures key(r[i]) != key(r[j]) {
          if j == |r0| {
            KeysSpec(r0, key, key(s[n]));
            assert r[i] == r0[i];
          } else {
            assert r[i] == r0[i] && r[j] == r0[j];
          }
        }
      }
    }
  }

  /** Elements with distinct keys are kept as they are. */
  lemma {:induction false} FirstOccurrencesOfDistinct<T, K>(s: seq<T>, key: T -> K)
    requires DistinctKeys(s, key)
    ensures FirstOccurrences(s, key) == s
    decreases |s|
  {
    if |s| > 0 {
      var n := |s| - 1;
      var t := s[..n];
      assert DistinctKeys(t, key) by {
        forall i, j | 0 <= i < j < |t| ensures key(t[i]) != key(t[j]) {
          assert key(s[i]) != key(s[j]);
        }
      }
      FirstOccurrencesOfDistinct(t, key);
      KeysSpec(t, key, key(s[n]));
      assert key(s[n]) !in Keys(t, key) by {
        forall i | 0 <= i < |t| ensures key(t[i]) != key(s[n]) {
          assert key(s[i]) != key(s[n]);
        }
      }
      assert t + [s[n]] == s;
    }
  }

  /** De-duplicating twice removes nothing more. */
  lemma {:induction false} FirstOccurrencesIdempotent<T, K>(s: seq<T>, key: T -> K)
    ensures FirstOccurrences(FirstOccurrences(s, key), key) == FirstOccurrences(s, key)
  {
    FirstOccurrencesKeys(s, key);
    FirstOccurrencesOfDistinct(FirstOccurrences(s, key), key);
  }

  /** The group of k holds the elements with key k, and is empty exactly
      when no element has key k. */
  lemma {:induction false} GroupSpec<T, K>(s: seq<T>, key: T -> K, k: K)
    ensures forall x | x in Group(s, key, k) :: key(x) == k
    ensures |Group(s, key, k)| > 0 <==> k in Keys(s, key)
    decreases |s|
  {
    if |s| > 0 {
      GroupSpec(s[..|s| - 1], key, k);
    }
  }

  /** The group of k holds two elements exactly when two elements have key k. */
  lemma {:induction false} GroupTwo<T, K>(s: seq<T>, key: T -> K, k: K)
    ensures |Group(s, key, k)| > 1 <==> exists i, j | 0 <= i < j < |s| :: key(s[i]) == k && key(s[j]) == k
    decreases |s|
  {
    if |s| > 0 {
      var n := |s| - 1;
      var t := s[..n];
      GroupTwo(t, key, k);
      GroupSpec(t, key, k);
      KeysSpec(t, key, k);
      if |Group(s, key, k)| > 1 {
        if |Group(t, key, k)| > 1 {
          var i, j :| 0 <= i < j < |t| && key(t[i]) == k && key(t[j]) == k;
          assert key(s[i]) == k && key(s[j]) == k;
        } else {
          var i :| 0 <= i < |t| && key(t[i]) == k;
          assert key(s[i]) == k && key(s[n]) == k;
        }
      }
      if exists i, j | 0 <= i < j < |s| :: key(s[i]) == k && key(s[j]) == k {
        var i, j :| 0 <= i < j < |s| && key(s[i]) == k && key(s[j]) == k;
        assert key(t[i]) == k;
        if j < n {
          assert key(t[j]) == k;
        }
      }
    }
  }

  /** by_key holds the keys of s, each with its group. */
  lemma {:induction false} GroupMapSpec<T, K>(s: seq<T>, key: T -> K)
    ensures GroupMap(s, key).Keys == Keys(s, key)
    ensures forall k | k in GroupMap(s, key) :: GroupMap(s, key)[k] == Group(s, key, k)
    decreases |s|
  {
    if |s| > 0 {
      var n := |s| - 1;
      var t := s[..n];
      GroupMapSpec(t, key);
      var m := GroupMap(t, key);
      forall k | k in GroupMap(s, key)
        ensures GroupMap(s, key)[k] == Group(s, key, k)
      {
        if k == key(s[n]) && k !in m {
          GroupSpec(t, key, k);
        }
      }
    }
  }

  /** k is duplicated exactly when two elements have key k. */
  lemma {:induction false} DuplicatedSpec<T, K>(s: seq<T>, key: T -> K, k: K)
    ensures k in Duplicated(s, key) <==> exists i, j | 0 <= i < j < |s| :: key(s[i]) == k && key(s[j]) == k
  {
    GroupTwo(s, key, k);
    GroupSpec(s, key, k);
  }

  /** No key is duplicated exactly when the keys are distinct. */
  lemma {:induction false} DuplicatedNone<T, K>(s: seq<T>, key: T -> K)
    ensures Duplicated(s, key) == {} <==> DistinctKeys(s, key)
  {
    if !DistinctKeys(s, key) {
      var i, j :| 0 <= i < j < |s| && key(s[i]) == key(s[j]);
      DuplicatedSpec(s, key, key(s[i]));
    }
    if Duplicated(s, key) != {} {
      var k :| k in Duplicated(s, key);
      DuplicatedSpec(s, key, k);
    }
  }

  // ---------------------------------------------------------------------
  // The loops of main

  /** The seen_key loop: keep the first element per key, drop the rest. */
  method Deduplicate<T, K(==)>(s: seq<T>, key: T -> K) returns (out: seq<T>)
    ensures out == FirstOccurrences(s, key)
  {
    var seen: set<K> := {};
    out := [];
    for i := 0 to |s|
      invariant seen == Keys(s[..i], key)
      invariant out == FirstOccurrences(s[..i], key)
    {
      assert s[..i + 1] == s[..i] + [s[i]];
      KeysSnoc(s[..i], s[i], key);
      FirstOccurrencesSnoc(s[..i], s[i], key);
      var k := key(s[i]);
      if k in seen {
        continue;
      }
      seen := seen + {k};
      out := out + [s[i]];
    }
    assert s[..|s|] == s;
  }

  /** by_key, filled one element at a time. */
  method GroupByKey<T, K(==)>(s: seq<T>, key: T -> K) returns (byKey: map<K, seq<T>>)
    ensures byKey == GroupMap(s, key)
  {
    byKey := map[];
    for i := 0 to |s|
      invariant byKey == GroupMap(s[..i], key)
    {
      assert s[..i + 1][..i] == s[..i];
      var k := key(s[i]);
      var g := if k in byKey then byKey[k] else [];
      byKey := byKey[k := g + [s[i]]];
    }
    assert s[..|s|] == s;
  }

  /** duplicates: the keys whose group holds more than one element. */
  method DuplicateKeys<T, K(==)>(s: seq<T>, key: T -> K) returns (dups: set<K>)
    ensures dups == Duplicated(s, key)
  {
    var byKey := GroupByKey(s, key);
    GroupMapSpec(s, key);
    dups := set k | k in byKey && |byKey[k]| > 1;
  }
}
