/** Python's `list.sort(key=..., reverse=True)` and `sorted(..., reverse=True)`:
    a stable sort into non-increasing key order. Python keeps elements with
    equal keys in their original order even when `reverse=True`.

    `Sort` is the executable model (insertion from the front, so an earlier
    element is placed before later elements with the same key).
    `IsStableSortOf` is the declarative characterisation (non-increasing, and
    for every key value the elements carrying it appear in input order), and
    `StableSortUnique` shows that it pins down a single sequence. */
module StableSort {

  /** Non-increasing by `key`. */
  ghost predicate SortedDesc<T>(s: seq<T>, key: T -> real) {
    forall i, j :: 0 <= i < j < |s| ==> key(s[i]) >= key(s[j])
  }

  /** The elements of `s` whose key is `x`, in their order in `s`. */
  function WithKey<T>(s: seq<T>, key: T -> real, x: real): seq<T> {
    if |s| == 0 then []
    else (if key(s[0]) == x then [s[0]] else []) + WithKey(s[1..], key, x)
  }

  /** `out` is a stable descending sort of `input`. */
  ghost predicate IsStableSortOf<T>(out: seq<T>, input: seq<T>, key: T -> real) {
    && SortedDesc(out, key)
    && forall x :: WithKey(out, key, x) == WithKey(input, key, x)
  }

  /** Place `h` before the first element whose key is not greater than its own. */
  function Insert<T>(h: T, s: seq<T>, key: T -> real): seq<T> {
    if |s| == 0 || key(s[0]) <= key(h) then [h] + s
    else [s[0]] + Insert(h, s[1..], key)
  }

  function Sort<T>(s: seq<T>, key: T -> real): (r: seq<T>)
    ensures |r| == |s|
    ensures multiset(r) == multiset(s)
    ensures IsStableSortOf(r, s, key)
  {
    if |s| == 0 then []
    else
      var rest := Sort(s[1..], key);
      var r := Insert(s[0], rest, key);
      InsertMultiset(s[0], rest, key);
      InsertSorted(s[0], rest, key);
      assert s == [s[0]] + s[1..];
      assert forall x :: WithKey(r, key, x) == WithKey(s, key, x) by {
        forall x ensures WithKey(r, key, x) == WithKey(s, key, x) {
          InsertWithKey(s[0], rest, key, x);
        }
      }
      r
  }

  lemma {:induction false} InsertMultiset<T>(h: T, s: seq<T>, key: T -> real)
    ensures |Insert(h, s, key)| == |s| + 1
    ensures multiset(Insert(h, s, key)) == multiset(s) + multiset{h}
    decreases |s|
  {
    if |s| > 0 && key(s[0]) > key(h) {
      InsertMultiset(h, s[1..], key);
      assert s == [s[0]] + s[1..];
    }
  }

  lemma {:induction false} InsertSorted<T>(h: T, s: seq<T>, key: T -> real)
    requires SortedDesc(s, key)
    ensures SortedDesc(Insert(h, s, key), key)
    decreases |s|
  {
    if |s| > 0 && key(s[0]) > key(h) {
      var t := s[1..];
      InsertSorted(h, t, key);
      var r := Insert(h, s, key);
      assert r[1..] == Insert(h, t, key);
      forall j | 0 < j < |r| ensures key(r[0]) >= key(r[j]) {
        assert r[j] == Insert(h, t, key)[j - 1];
        InsertMembers(h, t, key, r[j]);
        if r[j] != h {
          assert r[j] in t;
          var k :| 0 <= k < |t| && t[k] == r[j];
          assert s[k + 1] == r[j];
        }
      }
    }
  }

  lemma {:induction false} InsertWithKey<T>(h: T, s: seq<T>, key: T -> real, x: real)
    requires SortedDesc(s, key)
    ensures WithKey(Insert(h, s, key), key, x)
            == (if key(h) == x then [h] else []) + WithKey(s, key, x)
    decreases |s|
  {
    if |s| == 0 || key(s[0]) <= key(h) {
      assert ([h] + s)[1..] == s;
    } else {
      InsertWithKey(h, s[1..], key, x);
      assert Insert(h, s, key)[1..] == Insert(h, s[1..], key);
    }
  }

  lemma {:induction false} InsertMembers<T>(h: T, s: seq<T>, key: T -> real, e: T)
    ensures e in Insert(h, s, key) <==> e == h || e in s
    decreases |s|
  {
    if |s| > 0 && key(s[0]) > key(h) {
      InsertMembers(h, s[1..], key, e);
      assert s == [s[0]] + s[1..];
    }
  }

  /** Every element kept by `WithKey` is an element of the sequence. */
  lemma {:induction false} WithKeyMembers<T>(s: seq<T>, key: T -> real, x: real, e: T)
    ensures e in WithKey(s, key, x) <==> e in s && key(e) == x
    decreases |s|
  {
    if |s| > 0 {
      WithKeyMembers(s[1..], key, x, e);
      assert s == [s[0]] + s[1..];
    }
  }

  /** Two descending sequences with the same elements per key, in the same
      order per key, are equal: a stable sort is unique. */
  lemma {:induction false} StableSortUnique<T>(a: seq<T>, b: seq<T>, key: T -> real)
    requires SortedDesc(a, key) && SortedDesc(b, key)
    requires forall x :: WithKey(a, key, x) == WithKey(b, key, x)
    ensures a == b
    decreases |a| + |b|
  {
    if |a| > 0 || |b| > 0 {
      assert |a| > 0 && |b| > 0 by {
        if |a| > 0 {
          WithKeyMembers(a, key, key(a[0]), a[0]);
          assert WithKey(b, key, key(a[0])) != [];
        }
        if |b| > 0 {
          WithKeyMembers(b, key, key(b[0]), b[0]);
          assert WithKey(a, key, key(b[0])) != [];
        }
      }
      SameHead(a, b, key);
      SameTails(a, b, key);
      StableSortUnique(a[1..], b[1..], key);
      assert a == [a[0]] + a[1..];
      assert b == [b[0]] + b[1..];
    }
  }

  /** Both heads carry the largest key, so they lead the same key group. */
  lemma SameHead<T>(a: seq<T>, b: seq<T>, key: T -> real)
    requires |a| > 0 && |b| > 0
    requires SortedDesc(a, key) && SortedDesc(b, key)
    requires forall x :: WithKey(a, key, x) == WithKey(b, key, x)
    ensures a[0] == b[0]
  {
    WithKeyMembers(a, key, key(b[0]), b[0]);
    WithKeyMembers(b, key, key(b[0]), b[0]);
    WithKeyMembers(b, key, key(a[0]), a[0]);
    WithKeyMembers(a, key, key(a[0]), a[0]);
    var ia :| 0 <= ia < |a| && a[ia] == b[0];
    var ib :| 0 <= ib < |b| && b[ib] == a[0];
    assert key(a[0]) >= key(a[ia]);
    assert key(b[0]) >= key(b[ib]);
    var m := key(a[0]);
    assert key(b[0]) == m;
    assert WithKey(a, key, m) == WithKey(b, key, m);
    assert WithKey(a, key, m)[0] == a[0];
  }

  /** Dropping a common head keeps every key group equal. */
  lemma SameTails<T>(a: seq<T>, b: seq<T>, key: T -> real)
    requires |a| > 0 && |b| > 0 && a[0] == b[0]
    requires forall x :: WithKey(a, key, x) == WithKey(b, key, x)
    ensures forall x :: WithKey(a[1..], key, x) == WithKey(b[1..], key, x)
  {
    forall x ensures WithKey(a[1..], key, x) == WithKey(b[1..], key, x) {
      var h := if key(a[0]) == x then [a[0]] else [];
      assert WithKey(a, key, x) == h + WithKey(a[1..], key, x);
      assert WithKey(b, key, x) == h + WithKey(b[1..], key, x);
      assert WithKey(a[1..], key, x) == WithKey(a, key, x)[|h|..];
      assert WithKey(b[1..], key, x) == WithKey(b, key, x)[|h|..];
    }
  }

  /** `Sort` is the one stable descending sort of its input. */
  lemma SortIsTheStableSort<T>(s: seq<T>, out: seq<T>, key: T -> real)
    requires IsStableSortOf(out, s, key)
    ensures out == Sort(s, key)
  {
    StableSortUnique(out, Sort(s, key), key);
  }

  /** Distinctness of a projection survives insertion of a new value. */
  lemma {:induction false} InsertKeepsDistinct<T, K>(h: T, s: seq<T>, key: T -> real, f: T -> K)
    requires forall i, j :: 0 <= i < j < |s| ==> f(s[i]) != f(s[j])
    requires forall i :: 0 <= i < |s| ==> f(s[i]) != f(h)
    ensures forall i, j :: 0 <= i < j < |Insert(h, s, key)| ==>
              f(Insert(h, s, key)[i]) != f(Insert(h, s, key)[j])
    decreases |s|
  {
    if |s| > 0 && key(s[0]) > key(h) {
      var t := s[1..];
      assert forall i :: 0 <= i < |t| ==> t[i] == s[i + 1];
      InsertKeepsDistinct(h, t, key, f);
      var r := Insert(h, s, key);
      var rt := Insert(h, t, key);
      assert r == [s[0]] + rt;
      forall j | 0 <= j < |rt| ensures f(s[0]) != f(rt[j]) {
        InsertMembers(h, t, key, rt[j]);
        if rt[j] != h {
          assert rt[j] in t;
          var k :| 0 <= k < |t| && t[k] == rt[j];
        }
      }
    }
  }

  /** Sorting keeps a projection `f` injective: no two results share `f`. */
  lemma {:induction false} SortKeepsDistinct<T, K>(s: seq<T>, key: T -> real, f: T -> K)
    requires forall i, j :: 0 <= i < j < |s| ==> f(s[i]) != f(s[j])
    ensures forall i, j :: 0 <= i < j < |Sort(s, key)| ==> f(Sort(s, key)[i]) != f(Sort(s, key)[j])
    decreases |s|
  {
    if |s| > 0 {
      var t := s[1..];
      SortKeepsDistinct(t, key, f);
      var rest := Sort(t, key);
      forall i | 0 <= i < |rest| ensures f(rest[i]) != f(s[0]) {
        assert rest[i] in multiset(t);
        var k :| 0 <= k < |t| && t[k] == rest[i];
        assert s[k + 1] == rest[i];
      }
      InsertKeepsDistinct(s[0], rest, key, f);
    }
  }
}
