/** Sort keys and stable sorting.
    Python compares tuples component by component and strings by code point.  A sort key is
    therefore a list of numbers followed by a list of texts, compared lexicographically. */
module Ordering {

  datatype Key = Key(numbers: seq<int>, texts: seq<string>)

  predicate NumbersLess(a: seq<int>, b: seq<int>) {
    if b == [] then false
    else if a == [] then true
    else if a[0] != b[0] then a[0] < b[0]
    else NumbersLess(a[1..], b[1..])
  }

  predicate StringLess(a: string, b: string) {
    if b == [] then false
    else if a == [] then true
    else if a[0] != b[0] then a[0] < b[0]
    else StringLess(a[1..], b[1..])
  }

  predicate TextsLess(a: seq<string>, b: seq<string>) {
    if b == [] then false
    else if a == [] then true
    else if a[0] != b[0] then StringLess(a[0], b[0])
    else TextsLess(a[1..], b[1..])
  }

  predicate Less(a: Key, b: Key) {
    NumbersLess(a.numbers, b.numbers) || (a.numbers == b.numbers && TextsLess(a.texts, b.texts))
  }

  predicate LessEq(a: Key, b: Key) {
    !Less(b, a)
  }

  // ----- The three component orders, and so keys, are strict total orders

  lemma {:induction false} NumbersTotal(a: seq<int>, b: seq<int>)
    ensures (if NumbersLess(a, b) then 1 else 0) + (if NumbersLess(b, a) then 1 else 0)
         == if a == b then 0 else 1
  {
    if a != [] && b != [] && a[0] == b[0] {
      NumbersTotal(a[1..], b[1..]);
      assert a == [a[0]] + a[1..] && b == [b[0]] + b[1..];
    }
  }

  lemma {:induction false} StringTotal(a: string, b: string)
    ensures (if StringLess(a, b) then 1 else 0) + (if StringLess(b, a) then 1 else 0)
         == if a == b then 0 else 1
  {
    if a != [] && b != [] && a[0] == b[0] {
      StringTotal(a[1..], b[1..]);
      assert a == [a[0]] + a[1..] && b == [b[0]] + b[1..];
    }
  }

  lemma {:induction false} TextsTotal(a: seq<string>, b: seq<string>)
    ensures (if TextsLess(a, b) then 1 else 0) + (if TextsLess(b, a) then 1 else 0)
         == if a == b then 0 else 1
  {
    if a != [] && b != [] {
      StringTotal(a[0], b[0]);
      TextsTotal(a[1..], b[1..]);
      assert a == [a[0]] + a[1..] && b == [b[0]] + b[1..];
    }
  }

  lemma {:induction false} NumbersTransitive(a: seq<int>, b: seq<int>, c: seq<int>)
    requires NumbersLess(a, b) && NumbersLess(b, c)
    ensures NumbersLess(a, c)
  {
    if a != [] && a[0] == b[0] == c[0] {
      NumbersTransitive(a[1..], b[1..], c[1..]);
    }
  }

  lemma {:induction false} StringTransitive(a: string, b: string, c: string)
    requires StringLess(a, b) && StringLess(b, c)
    ensures StringLess(a, c)
  {
    if a != [] && a[0] == b[0] == c[0] {
      StringTransitive(a[1..], b[1..], c[1..]);
    }
  }

  lemma {:induction false} TextsTransitive(a: seq<string>, b: seq<string>, c: seq<string>)
    requires TextsLess(a, b) && TextsLess(b, c)
    ensures TextsLess(a, c)
  {
    if a != [] {
      StringTotal(a[0], b[0]);
      StringTotal(a[0], c[0]);
      StringTotal(b[0], c[0]);
      if a[0] == b[0] == c[0] {
        TextsTransitive(a[1..], b[1..], c[1..]);
      } else if a[0] != b[0] && b[0] != c[0] {
        StringTransitive(a[0], b[0], c[0]);
      }
    }
  }

  lemma KeyTotal(a: Key, b: Key)
    ensures (if Less(a, b) then 1 else 0) + (if Less(b, a) then 1 else 0) == if a == b then 0 else 1
  {
    NumbersTotal(a.numbers, b.numbers);
    TextsTotal(a.texts, b.texts);
  }

  lemma KeyTransitive(a: Key, b: Key, c: Key)
    requires LessEq(a, b) && LessEq(b, c)
    ensures LessEq(a, c)
  {
    KeyTotal(a, b);
    KeyTotal(b, c);
    KeyTotal(a, c);
    if a != b && b != c {
      if NumbersLess(a.numbers, b.numbers) && NumbersLess(b.numbers, c.numbers) {
        NumbersTransitive(a.numbers, b.numbers, c.numbers);
      } else if a.numbers == b.numbers == c.numbers {
        TextsTransitive(a.texts, b.texts, c.texts);
      }
    }
  }

  /** Texts compare at the first place where they differ, and a proper prefix comes first. */
  lemma {:induction false} StringOrder(a: string, b: string)
    ensures StringLess(a, b) <==>
        (|a| < |b| && a == b[..|a|]) || exists k :: 0 <= k < |a| && k < |b| && a[..k] == b[..k] && a[k] < b[k]
  {
    if a != [] && b != [] && a[0] == b[0] {
      StringOrder(a[1..], b[1..]);
      assert a == [a[0]] + a[1..] && b == [b[0]] + b[1..];
      if |a| < |b| {
        assert b[..|a|] == [a[0]] + b[1..][..|a| - 1];
        SameTail(a[0], a[1..], b[1..][..|a| - 1]);
      }
      forall k | 0 < k < |a| && k < |b|
        ensures a[..k] == b[..k] <==> a[1..][..k - 1] == b[1..][..k - 1]
      {
        assert a[..k] == [a[0]] + a[1..][..k - 1] && b[..k] == [b[0]] + b[1..][..k - 1];
        SameTail(a[0], a[1..][..k - 1], b[1..][..k - 1]);
      }
      if k :| 0 <= k < |a[1..]| && k < |b[1..]| && a[1..][..k] == b[1..][..k] && a[1..][k] < b[1..][k] {
        assert a[..k + 1] == b[..k + 1] && a[k + 1] < b[k + 1];
      }
      if k :| 0 <= k < |a| && k < |b| && a[..k] == b[..k] && a[k] < b[k] {
        assert k > 0 && a[1..][k - 1] < b[1..][k - 1];
      }
    } else if a != [] && b != [] {
      assert a[..0] == b[..0];
      forall k | 0 < k < |a| && k < |b| ensures a[..k] != b[..k] {
        assert a[..k][0] != b[..k][0];
      }
    }
  }

  lemma SameTail(c: char, x: string, y: string)
    ensures [c] + x == [c] + y <==> x == y
  {
    assert ([c] + x)[1..] == x && ([c] + y)[1..] == y;
  }

  lemma FirstNumber(a: seq<int>, b: seq<int>)
    requires a != [] && b != []
    ensures NumbersLess(a, b) <==> a[0] < b[0] || (a[0] == b[0] && NumbersLess(a[1..], b[1..]))
  {
  }

  lemma OneText(s: string, t: string)
    ensures TextsLess([s], [t]) <==> StringLess(s, t)
  {
    StringTotal(s, t);
    assert [s][1..] == [] && [t][1..] == [];
  }

  // ----- Stable sorting

  ghost predicate SortedBy<T>(xs: seq<T>, key: T -> Key) {
    forall i, j :: 0 <= i < j < |xs| ==> LessEq(key(xs[i]), key(xs[j]))
  }

  /** Distinct members never share a key, so the key decides every comparison. */
  ghost predicate Distinguishes<T>(key: T -> Key, xs: seq<T>) {
    forall x, y :: x in xs && y in xs && key(x) == key(y) ==> x == y
  }

  function Insert<T>(x: T, xs: seq<T>, key: T -> Key): (r: seq<T>)
    ensures |r| == |xs| + 1
  {
    if xs != [] && Less(key(xs[0]), key(x)) then [xs[0]] + Insert(x, xs[1..], key) else [x] + xs
  }

  /** Python's `sorted(xs, key=key)`: equal keys keep their input order. */
  function SortBy<T>(xs: seq<T>, key: T -> Key): (r: seq<T>)
    ensures |r| == |xs|
  {
    if xs == [] then [] else Insert(xs[0], SortBy(xs[1..], key), key)
  }

  lemma {:induction false} InsertSorts<T>(x: T, xs: seq<T>, key: T -> Key)
    requires SortedBy(xs, key)
    ensures SortedBy(Insert(x, xs, key), key)
    ensures multiset(Insert(x, xs, key)) == multiset{x} + multiset(xs)
  {
    var r := Insert(x, xs, key);
    hide NumbersLess, TextsLess;
    if xs != [] && Less(key(xs[0]), key(x)) {
      InsertSorts(x, xs[1..], key);
      assert xs == [xs[0]] + xs[1..];
      forall j | 0 < j < |r| ensures LessEq(key(r[0]), key(r[j])) {
        assert r[j] in multiset(r[1..]);
        KeyTotal(key(xs[0]), key(x));
        if r[j] != x {
          assert r[j] in multiset(xs[1..]);
          assert r[j] in xs[1..];
        }
      }
    } else {
      forall j | 0 < j < |r| ensures LessEq(key(r[0]), key(r[j])) {
        if j > 1 {
          KeyTransitive(key(x), key(xs[0]), key(r[j]));
        }
      }
    }
  }

  lemma {:induction false} SortBySorts<T>(xs: seq<T>, key: T -> Key)
    ensures SortedBy(SortBy(xs, key), key)
    ensures multiset(SortBy(xs, key)) == multiset(xs)
  {
    if xs != [] {
      SortBySorts(xs[1..], key);
      InsertSorts(xs[0], SortBy(xs[1..], key), key);
      assert xs == [xs[0]] + xs[1..];
    }
  }

  function OfKey<T>(xs: seq<T>, key: T -> Key, k: Key): seq<T> {
    if xs == [] then []
    else if key(xs[0]) == k then [xs[0]] + OfKey(xs[1..], key, k)
    else OfKey(xs[1..], key, k)
  }

  lemma {:induction false} InsertIsStable<T>(x: T, xs: seq<T>, key: T -> Key, k: Key)
    ensures OfKey(Insert(x, xs, key), key, k) == if key(x) == k then [x] + OfKey(xs, key, k) else OfKey(xs, key, k)
  {
    var r := Insert(x, xs, key);
    if xs != [] && Less(key(xs[0]), key(x)) {
      KeyTotal(key(xs[0]), key(x));
      InsertIsStable(x, xs[1..], key, k);
      assert r[1..] == Insert(x, xs[1..], key);
    } else {
      assert r[1..] == xs;
    }
  }

  /** Members with equal keys keep their order. */
  lemma {:induction false} SortByIsStable<T>(xs: seq<T>, key: T -> Key, k: Key)
    ensures OfKey(SortBy(xs, key), key, k) == OfKey(xs, key, k)
  {
    if xs != [] {
      SortByIsStable(xs[1..], key, k);
      InsertIsStable(xs[0], SortBy(xs[1..], key), key, k);
    }
  }

  lemma MultisetMembers<T>(xs: seq<T>, ys: seq<T>)
    requires multiset(xs) == multiset(ys)
    ensures |xs| == |ys|
    ensures forall x :: x in xs <==> x in ys
  {
    assert |multiset(xs)| == |xs| && |multiset(ys)| == |ys|;
    forall x ensures x in xs <==> x in ys {
      assert x in xs <==> x in multiset(xs);
      assert x in ys <==> x in multiset(ys);
    }
  }

  lemma SameHead<T>(xs: seq<T>, ys: seq<T>, key: T -> Key)
    requires SortedBy(xs, key) && SortedBy(ys, key)
    requires xs != [] && ys != [] && xs[0] in ys && ys[0] in xs
    ensures key(xs[0]) == key(ys[0])
  {
    var i :| 0 <= i < |ys| && ys[i] == xs[0];
    var j :| 0 <= j < |xs| && xs[j] == ys[0];
    KeyTotal(key(xs[0]), key(ys[0]));
  }

  lemma DropHead<T>(xs: seq<T>)
    requires xs != []
    ensures multiset(xs[1..]) == multiset(xs) - multiset{xs[0]}
    ensures forall x :: x in xs[1..] ==> x in xs
  {
    assert xs == [xs[0]] + xs[1..];
  }

  /** A sorted arrangement is unique when the key distinguishes the members. */
  lemma {:induction false} SortedUnique<T>(xs: seq<T>, ys: seq<T>, key: T -> Key)
    requires SortedBy(xs, key) && SortedBy(ys, key)
    requires multiset(xs) == multiset(ys)
    requires Distinguishes(key, xs)
    ensures xs == ys
  {
    MultisetMembers(xs, ys);
    if xs != [] {
      assert xs[0] in xs && ys[0] in ys;
      SameHead(xs, ys, key);
      DropHead(xs);
      DropHead(ys);
      SortedUnique(xs[1..], ys[1..], key);
      assert xs == [xs[0]] + xs[1..] && ys == [ys[0]] + ys[1..];
    }
  }

  lemma ArrangementsAgree<T>(xs: seq<T>, sx: seq<T>, sy: seq<T>, key: T -> Key)
    requires SortedBy(sx, key) && SortedBy(sy, key)
    requires multiset(xs) == multiset(sx) == multiset(sy)
    requires Distinguishes(key, xs)
    ensures sx == sy
  {
    MultisetMembers(xs, sx);
    SortedUnique(sx, sy, key);
  }

  /** Sorting forgets the input order when the key distinguishes the members. */
  lemma SortByForgetsOrder<T>(xs: seq<T>, ys: seq<T>, key: T -> Key)
    requires multiset(xs) == multiset(ys)
    requires Distinguishes(key, xs)
    ensures SortBy(xs, key) == SortBy(ys, key)
  {
    SortBySorts(xs, key);
    SortBySorts(ys, key);
    ArrangementsAgree(xs, SortBy(xs, key), SortBy(ys, key), key);
  }

  // ----- Listing and sorting finite sets of texts

  function TextKey(): string -> Key {
    (s: string) => Key([], [s])
  }

  /** The sorted list of a set of texts: strictly ascending, with exactly the set's members. */
  ghost predicate IsSortedList(xs: seq<string>, s: set<string>) {
    && (forall i, j :: 0 <= i < j < |xs| ==> StringLess(xs[i], xs[j]))
    && (forall x :: x in xs <==> x in s)
  }

  ghost predicate Distinct<T>(xs: seq<T>) {
    forall i, j :: 0 <= i < j < |xs| ==> xs[i] != xs[j]
  }

  /** Lists a set in some order. */
  method ListSet(s: set<string>) returns (xs: seq<string>)
    ensures Distinct(xs)
    ensures forall x :: x in xs <==> x in s
  {
    xs := [];
    var rest := s;
    while rest != {}
      invariant rest <= s
      invariant Distinct(xs)
      invariant forall x :: x in xs <==> x in s && x !in rest
      decreases rest
    {
      var x :| x in rest;
      rest := rest - {x};
      xs := xs + [x];
    }
  }

  lemma {:induction false} DistinctSameMembers<T>(xs: seq<T>, ys: seq<T>)
    requires Distinct(xs) && Distinct(ys)
    requires forall x :: x in xs <==> x in ys
    ensures multiset(xs) == multiset(ys)
  {
    DistinctCounts(xs);
    DistinctCounts(ys);
    forall x ensures multiset(xs)[x] == multiset(ys)[x] {
      assert x in xs <==> x in multiset(xs);
      assert x in ys <==> x in multiset(ys);
    }
  }

  lemma {:induction false} DistinctCounts<T>(xs: seq<T>)
    requires Distinct(xs)
    ensures forall x :: x in xs ==> multiset(xs)[x] == 1
  {
    if xs != [] {
      DistinctCounts(xs[1..]);
      assert xs == [xs[0]] + xs[1..];
      assert xs[0] !in xs[1..];
      assert xs[0] !in multiset(xs[1..]);
    }
  }

  lemma {:induction false} CountsDistinct<T>(xs: seq<T>)
    requires forall x :: x in xs ==> multiset(xs)[x] == 1
    ensures Distinct(xs)
  {
    if xs != [] {
      assert xs == [xs[0]] + xs[1..];
      assert multiset(xs) == multiset{xs[0]} + multiset(xs[1..]);
      assert xs[0] in xs;
      assert xs[0] !in multiset(xs[1..]);
      assert xs[0] !in xs[1..];
      forall x | x in xs[1..] ensures multiset(xs[1..])[x] == 1 {
        assert x in xs;
        assert x in multiset(xs[1..]);
      }
      CountsDistinct(xs[1..]);
    }
  }

  lemma {:induction false} DistinctCardinality<T>(xs: seq<T>, s: set<T>)
    requires Distinct(xs) && forall x :: x in xs <==> x in s
    ensures |xs| == |s|
  {
    if xs == [] {
      assert s == {};
    } else {
      assert xs == [xs[0]] + xs[1..];
      assert xs[0] !in xs[1..];
      DistinctCardinality(xs[1..], s - {xs[0]});
    }
  }

  ghost function Listing(s: set<string>): (r: seq<string>)
    ensures Distinct(r) && forall x :: x in r <==> x in s
  {
    if s == {} then [] else
      var x :| x in s;
      [x] + Listing(s - {x})
  }

  ghost function SortedList(s: set<string>): seq<string> {
    SortBy(Listing(s), TextKey())
  }

  lemma SortedListAscends(s: set<string>)
    ensures IsSortedList(SortedList(s), s)
  {
    var xs := SortedList(s);
    SortBySorts(Listing(s), TextKey());
    MultisetMembers(Listing(s), xs);
    DistinctCounts(Listing(s));
    CountsDistinct(xs);
    forall i, j | 0 <= i < j < |xs| ensures StringLess(xs[i], xs[j]) {
      StringTotal(xs[i], xs[j]);
      assert TextsLess([xs[i]], [xs[j]]) == StringLess(xs[i], xs[j]);
      assert TextsLess([xs[j]], [xs[i]]) == StringLess(xs[j], xs[i]);
    }
  }

  /** `sorted(s)` for a set of texts. */
  method SortSet(s: set<string>) returns (xs: seq<string>)
    ensures xs == SortedList(s)
    ensures IsSortedList(xs, s)
  {
    var listed := ListSet(s);
    xs := SortBy(listed, TextKey());
    DistinctSameMembers(Listing(s), listed);
    assert Distinguishes(TextKey(), Listing(s)) by {
      forall x, y | x in s && y in s && TextKey()(x) == TextKey()(y) ensures x == y {
        assert [x][0] == [y][0];
      }
    }
    SortByForgetsOrder(Listing(s), listed, TextKey());
    SortedListAscends(s);
  }
}
