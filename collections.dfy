/** Sequence and set operations shared by several parts of the model:
    first-index lookup (SQLAlchemy's `filter_by(name=...).first()` on a table
    whose rows are kept in insertion order), first-occurrence de-duplication
    under a key (the `seen` sets of the normalizer and of the detail view),
    and the ascending order of a set of ids (`ORDER BY id`). */
module Collections {
  import opened Wrappers

  // ---------------------------------------------------------------------
  // First element with a given key

  /** The first position of `s` whose key is `k`, or None when no element
      has that key (a query's `.first()`, a search loop with `break`). */
  function FirstWith<T, K(==)>(s: seq<T>, key: T -> K, k: K): (r: Option<nat>)
    ensures r.Some? ==> r.value < |s| && key(s[r.value]) == k
    ensures r.Some? ==> forall j :: 0 <= j < r.value ==> key(s[j]) != k
    ensures r.None? <==> forall j :: 0 <= j < |s| ==> key(s[j]) != k
    decreases |s|
  {
    if s == [] then None
    else if key(s[0]) == k then Some(0)
    else match FirstWith(s[1..], key, k)
      case None => None
      case Some(i) => Some(i + 1)
  }

  /** A key held at some position is found. */
  lemma FirstWithFound<T, K>(s: seq<T>, key: T -> K, k: K, i: int)
    requires 0 <= i < |s| && key(s[i]) == k
    ensures FirstWith(s, key, k).Some?
  {
  }

  /** After appending `b`, every key of `b` is found. */
  lemma FirstWithAppendKeys<T, K>(a: seq<T>, b: seq<T>, key: T -> K, keys: seq<K>)
    requires |keys| == |b| && forall k :: 0 <= k < |b| ==> key(b[k]) == keys[k]
    ensures forall k :: 0 <= k < |keys| ==> FirstWith(a + b, key, keys[k]).Some?
  {
    forall k | 0 <= k < |keys| ensures FirstWith(a + b, key, keys[k]).Some? {
      assert (a + b)[|a| + k] == b[k];
      FirstWithFound(a + b, key, keys[k], |a| + k);
    }
  }

  /** A key that is not found is held at no position. */
  lemma FirstWithMissing<T, K>(s: seq<T>, key: T -> K, k: K, i: int)
    requires FirstWith(s, key, k).None? && 0 <= i < |s|
    ensures key(s[i]) != k
  {
  }

  /** Appending elements never moves the first position of a key already present. */
  lemma {:induction false} FirstWithAppend<T, K>(a: seq<T>, b: seq<T>, key: T -> K, k: K)
    ensures FirstWith(a, key, k).Some? ==> FirstWith(a + b, key, k) == FirstWith(a, key, k)
    ensures FirstWith(a, key, k).None? && FirstWith(b, key, k).Some? ==>
      FirstWith(a + b, key, k) == Some(|a| + FirstWith(b, key, k).value)
    ensures FirstWith(a, key, k).None? && FirstWith(b, key, k).None? ==>
      FirstWith(a + b, key, k).None?
    decreases |a|
  {
    if a == [] {
      assert a + b == b;
    } else {
      assert (a + b)[0] == a[0];
      assert (a + b)[1..] == a[1..] + b;
      if key(a[0]) != k {
        FirstWithAppend(a[1..], b, key, k);
      }
    }
  }

  /** Concatenation regroups freely. */
  lemma AppendAssoc<T>(a: seq<T>, b: seq<T>, c: seq<T>)
    ensures (a + b) + c == a + (b + c)
  {
  }

  // ---------------------------------------------------------------------
  // Subsequences

  /** `a` is `b` with some elements left out, the rest in their order. */
  predicate IsSubseq<T(==)>(a: seq<T>, b: seq<T>)
    decreases |b|
  {
    if b == [] then a == []
    else (a != [] && a[0] == b[0] && IsSubseq(a[1..], b[1..])) || IsSubseq(a, b[1..])
  }

  lemma {:induction false} SubseqMembers<T>(a: seq<T>, b: seq<T>)
    requires IsSubseq(a, b)
    ensures forall x :: x in a ==> x in b
    decreases |b|
  {
    if b != [] {
      if IsSubseq(a, b[1..]) {
        SubseqMembers(a, b[1..]);
      } else {
        SubseqMembers(a[1..], b[1..]);
        forall x | x in a ensures x in b {
          if x != a[0] {
            assert x in a[1..];
          }
        }
      }
    }
  }

  // ---------------------------------------------------------------------
  // First-occurrence de-duplication under a key

  /** The keys of the elements of `s`. */
  function KeySet<T, K>(s: seq<T>, key: T -> K): set<K> {
    set i | 0 <= i < |s| :: key(s[i])
  }

  /** Position `i` holds the first element of `s` with its key. */
  predicate IsFirstOfKey<T, K(==)>(s: seq<T>, key: T -> K, i: int)
    requires 0 <= i < |s|
  {
    forall j :: 0 <= j < i ==> key(s[j]) != key(s[i])
  }

  /** `x` is an element of `s` at a position where its key first occurs. */
  ghost predicate KeptFirst<T, K>(s: seq<T>, key: T -> K, x: T) {
    exists i :: 0 <= i < |s| && s[i] == x && IsFirstOfKey(s, key, i)
  }

  /** Walk `s` from the left with a set `seen` of keys already produced:
      an element is kept when its key is not yet seen, and its key is then
      added to `seen`. */
  function DedupFrom<T, K(==)>(s: seq<T>, key: T -> K, seen: set<K>): seq<T>
    decreases |s|
  {
    if s == [] then []
    else if key(s[0]) in seen then DedupFrom(s[1..], key, seen)
    else [s[0]] + DedupFrom(s[1..], key, seen + {key(s[0])})
  }

  /** `DedupFrom` starting with nothing seen. */
  function Dedup<T, K(==)>(s: seq<T>, key: T -> K): seq<T> {
    DedupFrom(s, key, {})
  }

  /** The kept elements have pairwise different keys, none of them seen before. */
  lemma {:induction false} DedupDistinct<T, K>(s: seq<T>, key: T -> K, seen: set<K>)
    ensures forall i :: 0 <= i < |DedupFrom(s, key, seen)| ==>
      key(DedupFrom(s, key, seen)[i]) !in seen
    ensures forall i, j :: 0 <= i < j < |DedupFrom(s, key, seen)| ==>
      key(DedupFrom(s, key, seen)[i]) != key(DedupFrom(s, key, seen)[j])
    decreases |s|
  {
    if s != [] {
      var k0 := key(s[0]);
      if k0 in seen {
        DedupDistinct(s[1..], key, seen);
        assert DedupFrom(s, key, seen) == DedupFrom(s[1..], key, seen);
      } else {
        var u := seen + {k0};
        var t := DedupFrom(s[1..], key, u);
        DedupDistinct(s[1..], key, u);
        assert forall i :: 0 <= i < |t| ==> key(t[i]) !in u;
        var r := [s[0]] + t;
        assert DedupFrom(s, key, seen) == r;
        forall i | 0 < i < |r| ensures r[i] == t[i - 1] && key(r[i]) != k0 && key(r[i]) !in seen {
          assert key(t[i - 1]) !in u;
        }
      }
    }
  }

  /** Every key of `s` not seen before is kept, and no other key. */
  lemma {:induction false} DedupKeys<T, K>(s: seq<T>, key: T -> K, seen: set<K>)
    ensures KeySet(DedupFrom(s, key, seen), key) == KeySet(s, key) - seen
    decreases |s|
  {
    if s != [] {
      var k0 := key(s[0]);
      var t := DedupFrom(s[1..], key, if k0 in seen then seen else seen + {k0});
      DedupKeys(s[1..], key, if k0 in seen then seen else seen + {k0});
      assert KeySet(s, key) == {k0} + KeySet(s[1..], key) by {
        forall k | k in KeySet(s, key) ensures k in {k0} + KeySet(s[1..], key) {
          var i :| 0 <= i < |s| && key(s[i]) == k;
          if i > 0 { assert key(s[1..][i - 1]) == k; }
        }
        forall k | k in KeySet(s[1..], key) ensures k in KeySet(s, key) {
          var i :| 0 <= i < |s[1..]| && key(s[1..][i]) == k;
          assert key(s[i + 1]) == k;
        }
      }
      if k0 !in seen {
        var r := [s[0]] + t;
        assert KeySet(r, key) == {k0} + KeySet(t, key) by {
          forall k | k in KeySet(r, key) ensures k in {k0} + KeySet(t, key) {
            var i :| 0 <= i < |r| && key(r[i]) == k;
            if i > 0 { assert key(t[i - 1]) == k; }
          }
          forall k | k in KeySet(t, key) ensures k in KeySet(r, key) {
            var i :| 0 <= i < |t| && key(t[i]) == k;
            assert key(r[i + 1]) == k;
          }
          assert key(r[0]) == k0;
        }
      }
    }
  }

  /** The kept elements are a subsequence of `s`: the order is preserved. */
  lemma {:induction false} DedupSubseq<T, K>(s: seq<T>, key: T -> K, seen: set<K>)
    ensures IsSubseq(DedupFrom(s, key, seen), s)
    decreases |s|
  {
    if s != [] {
      var k0 := key(s[0]);
      if k0 in seen {
        DedupSubseq(s[1..], key, seen);
      } else {
        DedupSubseq(s[1..], key, seen + {k0});
        var r := [s[0]] + DedupFrom(s[1..], key, seen + {k0});
        assert r[0] == s[0] && r[1..] == DedupFrom(s[1..], key, seen + {k0});
      }
    }
  }

  /** An element kept first in the tail, with a key other than the head's,
      is kept first in the whole sequence, one position further on. */
  lemma KeptFirstCons<T, K>(s: seq<T>, key: T -> K, x: T) returns (w: int)
    requires s != [] && KeptFirst(s[1..], key, x) && key(x) != key(s[0])
    ensures 0 <= w < |s| && s[w] == x && IsFirstOfKey(s, key, w)
  {
    var i :| 0 <= i < |s[1..]| && s[1..][i] == x && IsFirstOfKey(s[1..], key, i);
    forall j | 0 <= j < i + 1 ensures key(s[j]) != key(s[i + 1]) {
      if j > 0 { assert s[j] == s[1..][j - 1]; }
    }
    w := i + 1;
  }

  /** Each kept element is the first element of `s` with its key. */
  lemma {:induction false} DedupKeepsFirst<T, K>(s: seq<T>, key: T -> K, seen: set<K>)
    ensures forall k :: 0 <= k < |DedupFrom(s, key, seen)| ==> KeptFirst(s, key, DedupFrom(s, key, seen)[k])
    decreases |s|
  {
    if s == [] {
      assert DedupFrom(s, key, seen) == [];
    } else {
      var k0 := key(s[0]);
      var u := if k0 in seen then seen else seen + {k0};
      var t := DedupFrom(s[1..], key, u);
      DedupKeepsFirst(s[1..], key, u);
      DedupDistinct(s[1..], key, u);
      assert forall k :: 0 <= k < |t| ==> key(t[k]) !in u;
      var r := DedupFrom(s, key, seen);
      assert r == (if k0 in seen then t else [s[0]] + t);
      forall k | 0 <= k < |r|
        ensures KeptFirst(s, key, r[k])
      {
        var w: int;
        if k0 !in seen && k == 0 {
          assert s[0] == r[0] && IsFirstOfKey(s, key, 0);
          w := 0;
        } else {
          var kt := if k0 in seen then k else k - 1;
          assert 0 <= kt < |t| && r[k] == t[kt];
          assert key(t[kt]) !in u;
          w := KeptFirstCons(s, key, t[kt]);
        }
        assert 0 <= w < |s| && s[w] == r[k] && IsFirstOfKey(s, key, w);
      }
    }
  }

  // ---------------------------------------------------------------------
  // Ascending order of a set of ids

  /** A set that is not empty has a member. */
  lemma NonEmptyMember<T>(s: set<T>) returns (y: T)
    requires s != {}
    ensures y in s
  {
    if forall z :: z !in s {
      assert false;
    }
    y :| y in s;
  }

  lemma {:induction false} MinExists(s: set<int>)
    requires s != {}
    ensures exists m :: m in s && forall x :: x in s ==> m <= x
    decreases |s|
  {
    var y := NonEmptyMember(s);
    if s != {y} {
      MinExists(s - {y});
      var m :| m in s - {y} && forall x :: x in s - {y} ==> m <= x;
      var b := if y < m then y else m;
      forall x | x in s ensures b <= x {
        if x != y { assert x in s - {y}; }
      }
      assert b in s;
    } else {
      assert forall x :: x in s ==> y <= x;
    }
  }

  /** The smallest element of a non-empty finite set. */
  function MinOf(s: set<int>): (m: int)
    requires s != {}
    ensures m in s && forall x :: x in s ==> m <= x
  {
    MinExists(s);
    var m :| m in s && forall x :: x in s ==> m <= x;
    m
  }

  /** Strictly ascending, as `ORDER BY id` lists distinct ids. */
  predicate Ascending(s: seq<int>) {
    forall i, j :: 0 <= i < j < |s| ==> s[i] < s[j]
  }

  /** The elements of `s`, smallest first (SQL's `ORDER BY id`). */
  function SortedIds(s: set<int>): (r: seq<int>)
    ensures |r| == |s|
    ensures forall x :: x in s <==> x in r
    decreases |s|
  {
    if s == {} then []
    else
      var m := MinOf(s);
      [m] + SortedIds(s - {m})
  }

  /** The ids come out in strictly ascending order. */
  lemma {:induction false} SortedIdsAscending(s: set<int>)
    ensures Ascending(SortedIds(s))
    decreases |s|
  {
    if s != {} {
      var m := MinOf(s);
      var rest := SortedIds(s - {m});
      SortedIdsAscending(s - {m});
      forall i | 0 <= i < |rest| ensures m < rest[i] {
        assert rest[i] in s - {m};
      }
      AscendingCons(m, rest);
    }
  }

  /** A number below every element of an ascending list can go in front. */
  lemma AscendingCons(m: int, rest: seq<int>)
    requires Ascending(rest) && forall i :: 0 <= i < |rest| ==> m < rest[i]
    ensures Ascending([m] + rest)
  {
    var r := [m] + rest;
    forall i, j | 0 <= i < j < |r| ensures r[i] < r[j] {
      assert r[j] == rest[j - 1];
      if i > 0 {
        assert r[i] == rest[i - 1];
      }
    }
  }
}
