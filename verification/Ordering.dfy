/** Sorting records by a key: what every deterministic listing of the core's hash maps relies on. */
module Ordering {
  import opened Text

  /** A strict total order. */
  ghost predicate StrictOrder<K(!new)>(less: (K, K) -> bool) {
    && (forall a :: !less(a, a))
    && (forall a, b :: a != b ==> less(a, b) || less(b, a))
    && (forall a, b, c :: less(a, b) && less(b, c) ==> less(a, c))
  }

  /** Sorted by key, each key at most once. */
  ghost predicate Ascending<T, K>(xs: seq<T>, key: T -> K, less: (K, K) -> bool) {
    forall i, j :: 0 <= i < j < |xs| ==> less(key(xs[i]), key(xs[j]))
  }

  function Insert<T, K>(x: T, xs: seq<T>, key: T -> K, less: (K, K) -> bool): (r: seq<T>)
    ensures |r| == |xs| + 1
    ensures multiset(r) == multiset(xs) + multiset{x}
  {
    if xs == [] || less(key(x), key(xs[0])) then [x] + xs
    else
      assert xs == [xs[0]] + xs[1..];
      [xs[0]] + Insert(x, xs[1..], key, less)
  }

  lemma InsertElements<T(!new), K>(x: T, xs: seq<T>, key: T -> K, less: (K, K) -> bool)
    ensures forall y :: y in Insert(x, xs, key, less) <==> y == x || y in xs
  {
    forall y ensures y in Insert(x, xs, key, less) <==> y == x || y in xs {
      assert y in Insert(x, xs, key, less) <==> y in multiset(Insert(x, xs, key, less));
    }
  }

  lemma {:induction false} InsertKeepsAscending<T, K(!new)>(x: T, xs: seq<T>, key: T -> K, less: (K, K) -> bool)
    requires StrictOrder(less) && Ascending(xs, key, less)
    requires forall i :: 0 <= i < |xs| ==> key(xs[i]) != key(x)
    ensures Ascending(Insert(x, xs, key, less), key, less)
  {
    var r := Insert(x, xs, key, less);
    if xs != [] && !less(key(x), key(xs[0])) {
      var rest := Insert(x, xs[1..], key, less);
      InsertKeepsAscending(x, xs[1..], key, less);
      forall j | 0 <= j < |rest| ensures less(key(xs[0]), key(rest[j])) {
        assert rest[j] in multiset(rest);
        assert rest[j] == x || rest[j] in xs[1..];
      }
    }
  }

  /** Sorted listings are unique: the same records in key order can only be listed one way. */
  lemma {:induction false} AscendingIsUnique<T(!new), K(!new)>(xs: seq<T>, ys: seq<T>, key: T -> K,
                                                               less: (K, K) -> bool)
    requires StrictOrder(less) && Ascending(xs, key, less) && Ascending(ys, key, less)
    requires forall x :: x in xs <==> x in ys
    ensures xs == ys
  {
    assert xs == [] <==> ys == [] by {
      if xs != [] { assert xs[0] in ys; }
      if ys != [] { assert ys[0] in xs; }
    }
    if xs != [] {
      assert xs[0] in ys && ys[0] in xs;
      var i :| 0 <= i < |xs| && xs[i] == ys[0];
      var j :| 0 <= j < |ys| && ys[j] == xs[0];
      assert xs[0] == ys[0];
      HeadIsNotRepeated(xs, key, less);
      HeadIsNotRepeated(ys, key, less);
      assert xs == [xs[0]] + xs[1..] && ys == [ys[0]] + ys[1..];
      forall x ensures x in xs[1..] <==> x in ys[1..] {
        assert x in xs <==> x == xs[0] || x in xs[1..];
        assert x in ys <==> x == ys[0] || x in ys[1..];
      }
      AscendingIsUnique(xs[1..], ys[1..], key, less);
    }
  }

  lemma HeadIsNotRepeated<T, K(!new)>(xs: seq<T>, key: T -> K, less: (K, K) -> bool)
    requires StrictOrder(less) && Ascending(xs, key, less) && xs != []
    ensures xs[0] !in xs[1..]
  {
    forall i | 1 <= i < |xs| ensures xs[i] != xs[0] {
      assert less(key(xs[0]), key(xs[i]));
    }
  }

  ghost predicate DistinctKeys<T(!new), K>(records: set<T>, key: T -> K) {
    forall x, y :: x in records && y in records && key(x) == key(y) ==> x == y
  }

  /** The one listing of some records in key order. */
  ghost function Arrange<T(!new), K(!new)>(records: set<T>, key: T -> K, less: (K, K) -> bool): (listing: seq<T>)
    requires StrictOrder(less) && DistinctKeys(records, key)
    ensures Ascending(listing, key, less)
    ensures forall x :: x in listing <==> x in records
    ensures |listing| == |records|
  {
    if records == {} then []
    else
      var x :| x in records;
      var rest := Arrange(records - {x}, key, less);
      InsertElements(x, rest, key, less);
      assert forall i :: 0 <= i < |rest| ==> rest[i] in rest && rest[i] in records;
      InsertKeepsAscending(x, rest, key, less);
      Insert(x, rest, key, less)
  }

  // ----- the two orders in use ------------------------------------------------------------

  predicate NatLess(a: nat, b: nat) {
    a < b
  }

  /** Contacts are listed by account, then by address. */
  predicate ContactLess(a: (nat, string), b: (nat, string)) {
    a.0 < b.0 || (a.0 == b.0 && LexLess(a.1, b.1))
  }

  lemma NatLessIsStrict()
    ensures StrictOrder(NatLess)
  {
  }

  lemma ContactLessIsStrict()
    ensures StrictOrder(ContactLess)
  {
    forall a: (nat, string), b: (nat, string)
      ensures !ContactLess(a, a) && (a != b ==> ContactLess(a, b) || ContactLess(b, a))
    {
      LexTrichotomy(a.1, b.1);
      LexIrreflexive(a.1);
    }
    forall a: (nat, string), b: (nat, string), c: (nat, string) | ContactLess(a, b) && ContactLess(b, c)
      ensures ContactLess(a, c)
    {
      if LexLess(a.1, b.1) && LexLess(b.1, c.1) {
        LexTransitive(a.1, b.1, c.1);
      }
    }
  }
}
