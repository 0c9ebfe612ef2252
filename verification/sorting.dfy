/** A stable sort by key, standing in for JavaScript's `Array.prototype.sort`
    (stable since ECMAScript 2019) when its comparator is consistent with a
    lexicographic (major, minor) integer key: the comparator returns a negative
    number exactly when the first argument's key is the smaller one. */
module Sorting {
  import opened Seqs

  datatype SortKey = SortKey(major: int, minor: int)

  /** Lexicographic order on keys: a total preorder. */
  predicate KeyLe(a: SortKey, b: SortKey) {
    a.major < b.major || (a.major == b.major && a.minor <= b.minor)
  }

  ghost predicate SortedBy<T>(s: seq<T>, key: T -> SortKey) {
    forall i, j :: 0 <= i < j < |s| ==> KeyLe(key(s[i]), key(s[j]))
  }

  /** Puts `x` in front of the first element whose key is not smaller than its own. */
  function Insert<T>(x: T, s: seq<T>, key: T -> SortKey): (r: seq<T>)
    ensures multiset(r) == multiset(s) + multiset{x}
  {
    if s == [] then [x]
    else if KeyLe(key(x), key(s[0])) then [x] + s
    else assert s == [s[0]] + s[1..]; [s[0]] + Insert(x, s[1..], key)
  }

  /** Insertion sort; an element is inserted ahead of the equal keys that
      followed it in the input, which keeps the sort stable. */
  function SortBy<T>(s: seq<T>, key: T -> SortKey): (r: seq<T>)
    ensures multiset(r) == multiset(s)
  {
    if s == [] then [] else assert s == [s[0]] + s[1..]; Insert(s[0], SortBy(s[1..], key), key)
  }

  /** The predicate "has key `k`". */
  function HasKey<T>(key: T -> SortKey, k: SortKey): T -> bool {
    x => key(x) == k
  }

  lemma {:induction false} InsertSorted<T>(x: T, s: seq<T>, key: T -> SortKey)
    requires SortedBy(s, key)
    ensures SortedBy(Insert(x, s, key), key)
  {
    if s != [] && !KeyLe(key(x), key(s[0])) {
      InsertSorted(x, s[1..], key);
      var r := Insert(x, s[1..], key);
      forall y | y in multiset(r) ensures KeyLe(key(s[0]), key(y)) {
        assert y in multiset(s[1..]) + multiset{x};
        if y != x {
          assert y in s[1..];
          var m :| 0 <= m < |s[1..]| && s[1..][m] == y;
          assert s[m + 1] == y;
        }
      }
      forall i, j | 0 <= i < j < |[s[0]] + r| ensures KeyLe(key(([s[0]] + r)[i]), key(([s[0]] + r)[j])) {
        if i == 0 {
          assert ([s[0]] + r)[j] == r[j - 1];
          assert r[j - 1] in multiset(r);
        }
      }
    }
  }

  /** The sort's output is ordered by key. */
  lemma {:induction false} SortBySorted<T>(s: seq<T>, key: T -> SortKey)
    ensures SortedBy(SortBy(s, key), key)
  {
    if s != [] {
      SortBySorted(s[1..], key);
      InsertSorted(s[0], SortBy(s[1..], key), key);
    }
  }

  /** Inserting `x` adds it ahead of every element with its key. */
  lemma {:induction false} InsertStable<T>(x: T, s: seq<T>, key: T -> SortKey, k: SortKey)
    ensures Filter(Insert(x, s, key), HasKey(key, k))
            == (if key(x) == k then [x] else []) + Filter(s, HasKey(key, k))
  {
    var p := HasKey(key, k);
    if s == [] {
      FilterCons(x, [], p);
    } else if KeyLe(key(x), key(s[0])) {
      FilterCons(x, s, p);
    } else {
      var r := Insert(x, s[1..], key);
      assert Insert(x, s, key) == [s[0]] + r;
      InsertStable(x, s[1..], key, k);
      FilterCons(s[0], r, p);
      // x goes after s[0] only when its key is larger, so not both have key k
      if p(x) {
        assert !p(s[0]);
        assert Filter(s, p) == Filter(s[1..], p);
      } else {
        assert Filter(r, p) == Filter(s[1..], p);
      }
    }
  }

  /** Stability: for every key, the elements with that key keep their input order. */
  lemma {:induction false} SortByStable<T>(s: seq<T>, key: T -> SortKey, k: SortKey)
    ensures Filter(SortBy(s, key), HasKey(key, k)) == Filter(s, HasKey(key, k))
  {
    if s != [] {
      SortByStable(s[1..], key, k);
      InsertStable(s[0], SortBy(s[1..], key), key, k);
    }
  }

  lemma SortedFirstMin<T>(t: seq<T>, key: T -> SortKey, x: T)
    requires SortedBy(t, key) && x in t
    ensures KeyLe(key(t[0]), key(x))
  {
    var m :| 0 <= m < |t| && t[m] == x;
  }

  lemma SortedLastMax<T>(t: seq<T>, key: T -> SortKey, x: T)
    requires SortedBy(t, key) && x in t
    ensures KeyLe(key(x), key(t[|t| - 1]))
  {
    var m :| 0 <= m < |t| && t[m] == x;
  }

  lemma SortByLength<T>(s: seq<T>, key: T -> SortKey)
    ensures |SortBy(s, key)| == |s|
    ensures forall x :: x in SortBy(s, key) <==> x in s
  {
    var t := SortBy(s, key);
    assert |t| == |multiset(t)| == |multiset(s)| == |s|;
    forall x ensures x in t <==> x in s {
      assert x in t <==> x in multiset(t);
      assert x in s <==> x in multiset(s);
    }
  }

  /** Taking `[0]` of the sorted copy picks an element of minimal key, the first
      such in input order. */
  lemma SortByFirst<T>(s: seq<T>, key: T -> SortKey)
    requires s != []
    ensures |SortBy(s, key)| == |s|
    ensures exists i :: 0 <= i < |s| && SortBy(s, key)[0] == s[i]
                        && (forall j :: 0 <= j < |s| ==> KeyLe(key(s[i]), key(s[j])))
                        && (forall j :: 0 <= j < i ==> key(s[j]) != key(s[i]))
  {
    var t := SortBy(s, key);
    SortByLength(s, key);
    var r := t[0];
    var p := HasKey(key, key(r));
    SortBySorted(s, key);
    SortByStable(s, key, key(r));
    FilterHeadAt(t, p, 0);
    var i := FilterHeadIndex(s, p);
    forall j | 0 <= j < |s| ensures KeyLe(key(s[i]), key(s[j])) {
      SortedFirstMin(t, key, s[j]);
    }
  }

  /** Taking the last element of the sorted copy picks an element of maximal key,
      the last such in input order. */
  lemma SortByLast<T>(s: seq<T>, key: T -> SortKey)
    requires s != []
    ensures |SortBy(s, key)| == |s|
    ensures exists i :: 0 <= i < |s| && SortBy(s, key)[|s| - 1] == s[i]
                        && (forall j :: 0 <= j < |s| ==> KeyLe(key(s[j]), key(s[i])))
                        && (forall j :: i < j < |s| ==> key(s[j]) != key(s[i]))
  {
    var t := SortBy(s, key);
    SortByLength(s, key);
    var i := LastWithKey(s, key);
    SortBySorted(s, key);
    forall j | 0 <= j < |s| ensures KeyLe(key(s[j]), key(s[i])) {
      SortedLastMax(t, key, s[j]);
    }
  }

  lemma LastWithKey<T>(s: seq<T>, key: T -> SortKey) returns (i: nat)
    requires s != []
    ensures |SortBy(s, key)| == |s|
    ensures i < |s| && SortBy(s, key)[|s| - 1] == s[i]
    ensures forall j :: i < j < |s| ==> key(s[j]) != key(s[i])
  {
    var t := SortBy(s, key);
    assert |t| == |multiset(t)| == |multiset(s)| == |s|;
    var n := |s|;
    var r := t[n - 1];
    var p := HasKey(key, key(r));
    var kept := Filter(s, p);
    SortByStable(s, key, key(r));
    FilterLastAt(t, p);
    assert kept[|kept| - 1] == r;
    i := FilterLastIndex(s, p);
  }

  /** An element of the sorted copy with no equal key before it is the first
      element of that key in input order. */
  lemma FirstWithKey<T>(s: seq<T>, key: T -> SortKey, f: nat) returns (i: nat)
    requires f < |SortBy(s, key)|
    requires forall j :: 0 <= j < f ==> key(SortBy(s, key)[j]) != key(SortBy(s, key)[f])
    ensures i < |s| && SortBy(s, key)[f] == s[i]
    ensures forall j :: 0 <= j < i ==> key(s[j]) != key(s[i])
  {
    var t := SortBy(s, key);
    var p := HasKey(key, key(t[f]));
    FilterHeadAt(t, p, f);
    SortByStable(s, key, key(t[f]));
    i := FilterHeadIndex(s, p);
  }

  /** Keys never decrease along the sorted copy. */
  lemma SortByOrdered<T>(s: seq<T>, key: T -> SortKey, i: nat, j: nat)
    requires i <= j < |SortBy(s, key)|
    ensures KeyLe(key(SortBy(s, key)[i]), key(SortBy(s, key)[j]))
  {
    SortBySorted(s, key);
  }
}
