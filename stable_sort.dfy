/**
 * `Array.prototype.sort` with a numeric-key comparator `(a, b) => key(a) - key(b)`.
 * Since ECMAScript 2019 the sort is required to be stable, so its result is
 * the unique stable ordering by key; `SortSeq` defines it as an insertion
 * sort, and `SortInPlace` is the same algorithm run on an array.
 */
module StableSort {

  /** Ascending by key. */
  ghost predicate Sorted<T>(s: seq<T>, key: T -> int)
  {
    forall i, j :: 0 <= i < j < |s| ==> key(s[i]) <= key(s[j])
  }

  /** The elements of `s` whose key is `k`, in their order in `s`. */
  function WithKey<T>(s: seq<T>, key: T -> int, k: int): seq<T>
  {
    if s == [] then []
    else (if key(s[0]) == k then [s[0]] else []) + WithKey(s[1..], key, k)
  }

  /** Place `x` after every trailing element whose key is larger than its own,
      scanning from the back: for a sorted `t` that is after the last element
      whose key is at most `key(x)`. */
  function InsertLast<T>(t: seq<T>, x: T, key: T -> int): seq<T>
  {
    if t == [] then [x]
    else if key(t[|t| - 1]) <= key(x) then t + [x]
    else InsertLast(t[..|t| - 1], x, key) + [t[|t| - 1]]
  }

  /** The stable sort of `s` by key: insert each element, front to back. */
  function SortSeq<T>(s: seq<T>, key: T -> int): seq<T>
  {
    if s == [] then []
    else InsertLast(SortSeq(s[..|s| - 1], key), s[|s| - 1], key)
  }

  lemma {:induction false} WithKeyConcat<T>(a: seq<T>, b: seq<T>, key: T -> int, k: int)
    ensures WithKey(a + b, key, k) == WithKey(a, key, k) + WithKey(b, key, k)
  {
    if a != [] {
      assert (a + b)[1..] == a[1..] + b;
      WithKeyConcat(a[1..], b, key, k);
    } else {
      assert a + b == b;
    }
  }

  lemma {:induction false} InsertLastMultiset<T>(t: seq<T>, x: T, key: T -> int)
    ensures multiset(InsertLast(t, x, key)) == multiset(t) + multiset{x}
  {
    if t != [] && key(t[|t| - 1]) > key(x) {
      InsertLastMultiset(t[..|t| - 1], x, key);
      assert t == t[..|t| - 1] + [t[|t| - 1]];
    }
  }

  lemma {:induction false} InsertLastSorted<T>(t: seq<T>, x: T, key: T -> int)
    requires Sorted(t, key)
    ensures Sorted(InsertLast(t, x, key), key)
  {
    if t != [] && key(t[|t| - 1]) > key(x) {
      var init, last := t[..|t| - 1], t[|t| - 1];
      InsertLastSorted(init, x, key);
      InsertLastMultiset(init, x, key);
      var u := InsertLast(init, x, key);
      forall i | 0 <= i < |u| ensures key(u[i]) <= key(last) {
        assert u[i] in multiset(u);
        assert u[i] in multiset(init) || u[i] == x;
        if u[i] != x {
          var j :| 0 <= j < |init| && init[j] == u[i];
        }
      }
    }
  }

  /** Inserting `x` keeps the relative order of every key class, with `x`
      joining its own class last. */
  lemma {:induction false} InsertLastWithKey<T>(t: seq<T>, x: T, key: T -> int, k: int)
    ensures WithKey(InsertLast(t, x, key), key, k) == WithKey(t + [x], key, k)
  {
    if t == [] {
    } else if key(t[|t| - 1]) <= key(x) {
    } else {
      var init, last := t[..|t| - 1], t[|t| - 1];
      InsertLastWithKey(init, x, key, k);
      WithKeyConcat(InsertLast(init, x, key), [last], key, k);
      WithKeyConcat(init + [x], [last], key, k);
      WithKeyConcat(init, [x], key, k);
      WithKeyConcat(init, [last], key, k);
      WithKeyConcat(init + [last], [x], key, k);
      assert init + [last] == t;
      assert WithKey([x], key, k) == [] || WithKey([last], key, k) == [];
    }
  }

  /** The sorted sequence is in ascending key order. */
  lemma {:induction false} SortSeqSorted<T>(s: seq<T>, key: T -> int)
    ensures Sorted(SortSeq(s, key), key)
  {
    if s != [] {
      SortSeqSorted(s[..|s| - 1], key);
      InsertLastSorted(SortSeq(s[..|s| - 1], key), s[|s| - 1], key);
    }
  }

  /** The sorted sequence is a permutation of the input. */
  lemma {:induction false} SortSeqPermutation<T>(s: seq<T>, key: T -> int)
    ensures multiset(SortSeq(s, key)) == multiset(s)
    ensures |SortSeq(s, key)| == |s|
  {
    if s != [] {
      var init, last := s[..|s| - 1], s[|s| - 1];
      SortSeqPermutation(init, key);
      InsertLastMultiset(SortSeq(init, key), last, key);
      assert s == init + [last];
      assert multiset(s) == multiset(init) + multiset{last};
    }
    assert |multiset(SortSeq(s, key))| == |multiset(s)|;
  }

  /** Stability: elements with equal keys keep their input order. */
  lemma {:induction false} SortSeqStable<T>(s: seq<T>, key: T -> int, k: int)
    ensures WithKey(SortSeq(s, key), key, k) == WithKey(s, key, k)
  {
    if s != [] {
      var init, last := s[..|s| - 1], s[|s| - 1];
      SortSeqStable(init, key, k);
      InsertLastWithKey(SortSeq(init, key), last, key, k);
      WithKeyConcat(SortSeq(init, key), [last], key, k);
      WithKeyConcat(init, [last], key, k);
      assert init + [last] == s;
    }
  }

  /** When the element before position `j` has a key at most `key(x)` and
      every element from `j` on has a larger key, `InsertLast` puts `x` at `j`. */
  lemma {:induction false} InsertLastAt<T>(t: seq<T>, x: T, key: T -> int, j: nat)
    requires j <= |t|
    requires j > 0 ==> key(t[j - 1]) <= key(x)
    requires forall i :: j <= i < |t| ==> key(t[i]) > key(x)
    ensures InsertLast(t, x, key) == t[..j] + [x] + t[j..]
  {
    if t == [] {
    } else if key(t[|t| - 1]) <= key(x) {
      assert j == |t|;
    } else {
      var init := t[..|t| - 1];
      InsertLastAt(init, x, key, j);
      assert init[..j] == t[..j];
      assert init[j..] + [t[|t| - 1]] == t[j..];
    }
  }

  /** One step of the insertion sort: shift the larger-keyed tail of the
      sorted prefix `a[..i]` one place right and drop `a[i]` into the gap. */
  method InsertIntoPrefix<T>(a: array<T>, i: nat, key: T -> int)
    requires i < a.Length
    modifies a
    ensures a[..i + 1] == InsertLast(old(a[..i]), old(a[i]), key)
    ensures a[i + 1..] == old(a[i + 1..])
  {
    ghost var prefix := a[..i];
    var x := a[i];
    var j := i;
    while j > 0 && key(a[j - 1]) > key(x)
      invariant 0 <= j <= i
      invariant forall t :: 0 <= t < j ==> a[t] == prefix[t]
      invariant forall t :: j < t <= i ==> a[t] == prefix[t - 1]
      invariant forall t :: i < t < a.Length ==> a[t] == old(a[t])
      invariant forall t :: j <= t < i ==> key(prefix[t]) > key(x)
    {
      a[j] := a[j - 1];
      j := j - 1;
    }
    a[j] := x;
    InsertLastAt(prefix, x, key, j);
    assert a[..i + 1] == prefix[..j] + [x] + prefix[j..] by {
      forall t | 0 <= t <= i ensures a[..i + 1][t] == (prefix[..j] + [x] + prefix[j..])[t] {
        if t < j { } else if t == j { } else { }
      }
    }
  }

  /** Insertion sort in place, the model of `array.sort(...)` on an array the
      caller keeps: afterwards the array holds the stable sort of its old
      contents. */
  method SortInPlace<T>(a: array<T>, key: T -> int)
    modifies a
    ensures a[..] == SortSeq(old(a[..]), key)
  {
    ghost var orig := a[..];
    var i := 0;
    while i < a.Length
      invariant 0 <= i <= a.Length
      invariant a[..i] == SortSeq(orig[..i], key)
      invariant a[i..] == orig[i..]
    {
      assert a[i] == orig[i];
      InsertIntoPrefix(a, i, key);
      assert orig[..i + 1][..i] == orig[..i];
      i := i + 1;
    }
    assert orig[..a.Length] == orig;
  }
}
