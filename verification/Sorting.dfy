/** Sorting by a text key, and why the sorted list of distinct keys is one list. */
module Sorting {
  import opened Keys

  ghost predicate SortedBy<T>(s: seq<T>, key: T -> string) {
    forall i, j | 0 <= i < j < |s| :: !Less(key(s[j]), key(s[i]))
  }

  ghost predicate StrictlySortedBy<T>(s: seq<T>, key: T -> string) {
    forall i, j | 0 <= i < j < |s| :: Less(key(s[i]), key(s[j]))
  }

  ghost predicate DistinctKeys<T>(s: seq<T>, key: T -> string) {
    forall i, j | 0 <= i < j < |s| :: key(s[i]) != key(s[j])
  }

  function Insert<T>(x: T, s: seq<T>, key: T -> string): (r: seq<T>)
    ensures multiset(r) == multiset(s) + multiset{x}
    ensures |r| == |s| + 1
  {
    if s == [] || Less(key(x), key(s[0])) then [x] + s
    else
      assert s == [s[0]] + s[1..];
      [s[0]] + Insert(x, s[1..], key)
  }

  function SortBy<T>(s: seq<T>, key: T -> string): (r: seq<T>)
    ensures multiset(r) == multiset(s) && |r| == |s|
  {
    if s == [] then []
    else
      assert s == [s[0]] + s[1..];
      Insert(s[0], SortBy(s[1..], key), key)
  }

  lemma {:induction false} InsertSorted<T>(x: T, s: seq<T>, key: T -> string)
    requires SortedBy(s, key)
    ensures SortedBy(Insert(x, s, key), key)
  {
    var r := Insert(x, s, key);
    if s == [] {
    } else if Less(key(x), key(s[0])) {
      forall j | 0 < j < |r| ensures !Less(key(r[j]), key(x)) {
        if Less(key(r[j]), key(x)) {
          LessTransitive(key(r[j]), key(x), key(s[0]));
        }
        LessTotal(key(x), key(s[0]));
      }
    } else {
      InsertSorted(x, s[1..], key);
      var tail := Insert(x, s[1..], key);
      forall j | 0 <= j < |tail| ensures !Less(key(tail[j]), key(s[0])) {
        assert tail[j] in multiset(tail);
        assert tail[j] == x || tail[j] in s[1..];
      }
    }
  }

  lemma {:induction false} SortBySorted<T>(s: seq<T>, key: T -> string)
    ensures SortedBy(SortBy(s, key), key)
  {
    if s != [] {
      SortBySorted(s[1..], key);
      InsertSorted(s[0], SortBy(s[1..], key), key);
    }
  }

  lemma SortByMembers<T>(s: seq<T>, key: T -> string)
    ensures forall x :: x in SortBy(s, key) <==> x in s
  {
    forall x ensures x in SortBy(s, key) <==> x in s {
      assert x in SortBy(s, key) <==> x in multiset(SortBy(s, key));
    }
  }

  /** Sorting keeps distinct keys distinct, and so makes their order strict. */
  lemma {:induction false} SortByStrict<T>(s: seq<T>, key: T -> string)
    requires DistinctKeys(s, key)
    ensures StrictlySortedBy(SortBy(s, key), key)
  {
    if s != [] {
      var rest := SortBy(s[1..], key);
      SortByStrict(s[1..], key);
      SortByMembers(s[1..], key);
      forall i | 0 <= i < |rest| ensures key(rest[i]) != key(s[0]) {
        assert rest[i] in multiset(rest);
        assert rest[i] in s[1..];
        var j :| 0 <= j < |s[1..]| && s[1..][j] == rest[i];
        assert key(s[0]) != key(s[j + 1]);
      }
      InsertStrict(s[0], rest, key);
    }
  }

  lemma {:induction false} InsertStrict<T>(x: T, s: seq<T>, key: T -> string)
    requires StrictlySortedBy(s, key) && forall i | 0 <= i < |s| :: key(s[i]) != key(x)
    ensures StrictlySortedBy(Insert(x, s, key), key)
  {
    if s == [] {
    } else if Less(key(x), key(s[0])) {
      forall j | 0 < j < |s| ensures Less(key(x), key(s[j])) {
        LessTransitive(key(x), key(s[0]), key(s[j]));
      }
    } else {
      LessTotal(key(x), key(s[0]));
      InsertStrict(x, s[1..], key);
      var tail := Insert(x, s[1..], key);
      forall j | 0 <= j < |tail| ensures Less(key(s[0]), key(tail[j])) {
        assert tail[j] in multiset(tail);
        assert tail[j] == x || tail[j] in s[1..];
      }
    }
  }

  /** Two strictly sorted lists of the same members are one list. */
  lemma {:induction false} SortedUnique<T>(s: seq<T>, t: seq<T>, key: T -> string)
    requires StrictlySortedBy(s, key) && StrictlySortedBy(t, key)
    requires forall x :: x in s <==> x in t
    ensures s == t
  {
    assert (s != [] ==> s[0] in s) && (t != [] ==> t[0] in t);
    if s != [] {
      FirstIsLeast(s, key, t[0]);
      FirstIsLeast(t, key, s[0]);
      LessTotal(key(s[0]), key(t[0]));
      assert s[0] == t[0];
      TailMembers(s, key);
      TailMembers(t, key);
      SortedUnique(s[1..], t[1..], key);
      assert s == [s[0]] + s[1..] && t == [t[0]] + t[1..];
    }
  }

  lemma FirstIsLeast<T>(s: seq<T>, key: T -> string, x: T)
    requires StrictlySortedBy(s, key) && x in s
    ensures x == s[0] || Less(key(s[0]), key(x))
  {
  }

  lemma TailMembers<T>(s: seq<T>, key: T -> string)
    requires StrictlySortedBy(s, key) && s != []
    ensures forall x :: x in s[1..] <==> x in s && x != s[0]
  {
    forall j | 0 < j < |s| ensures s[j] != s[0] {
      LessTotal(key(s[0]), key(s[j]));
    }
  }

  /** A set's members in the order of their keys, which tell them apart. */
  method Sorted<T(==)>(members: set<T>, key: T -> string) returns (r: seq<T>)
    requires forall x, y | x in members && y in members && key(x) == key(y) :: x == y
    ensures StrictlySortedBy(r, key)
    ensures forall x :: x in r <==> x in members
  {
    var left := members;
    var s: seq<T> := [];
    while left != {}
      invariant left <= members
      invariant forall x :: x in s <==> x in members && x !in left
      invariant DistinctKeys(s, key)
    {
      var x :| x in left;
      forall i | 0 <= i < |s| ensures key(s[i]) != key(x) {
        assert s[i] in s;
      }
      s := s + [x];
      left := left - {x};
    }
    SortByStrict(s, key);
    SortByMembers(s, key);
    r := SortBy(s, key);
  }

  // ----- The last of each key -----

  /** The items by key, the last listed of each. */
  ghost predicate LastByKey<K(!new), V(!new)>(xs: seq<V>, key: V -> K, last: map<K, V>) {
    && (forall i | 0 <= i < |xs| :: key(xs[i]) in last)
    && (forall k | k in last :: exists i :: IsLastOf(xs, key, k, i) && last[k] == xs[i])
  }

  ghost predicate IsLastOf<K(!new), V(!new)>(xs: seq<V>, key: V -> K, k: K, i: int) {
    && 0 <= i < |xs| && key(xs[i]) == k
    && forall j | i < j < |xs| :: key(xs[j]) != k
  }

  method LastOfEach<K(==, !new), V(!new)>(xs: seq<V>, key: V -> K) returns (last: map<K, V>)
    ensures LastByKey(xs, key, last)
  {
    last := map[];
    for n := 0 to |xs|
      invariant LastByKey(xs[..n], key, last)
    {
      LastByKeyNext(xs[..n], key, last, xs[n]);
      assert xs[..n + 1] == xs[..n] + [xs[n]];
      last := last[key(xs[n]) := xs[n]];
    }
    assert xs[..|xs|] == xs;
  }

  lemma LastByKeyNext<K(!new), V(!new)>(xs: seq<V>, key: V -> K, last: map<K, V>, x: V)
    requires LastByKey(xs, key, last)
    ensures LastByKey(xs + [x], key, last[key(x) := x])
  {
    var more, last' := xs + [x], last[key(x) := x];
    forall k | k in last' ensures exists i :: IsLastOf(more, key, k, i) && last'[k] == more[i] {
      if k == key(x) {
        assert IsLastOf(more, key, k, |xs|);
      } else {
        var i :| IsLastOf(xs, key, k, i) && last[k] == xs[i];
        assert IsLastOf(more, key, k, i) && more[i] == xs[i];
      }
    }
  }
}
