/** The order in which pandas' groupby visits groups: the distinct keys,
    sorted ascending (sort=True is the default). Keys are compared the way
    Python compares them; for text that is code point by code point, a
    proper prefix coming first. */
module GroupBy {
  import opened Text

  /** `less` can order groupby keys: a strict total order. */
  ghost predicate SortKeyOrder<T(!new)>(less: (T, T) -> bool) {
    && (forall a :: !less(a, a))
    && (forall a, b, c :: less(a, b) && less(b, c) ==> less(a, c))
    && (forall a, b :: a != b ==> less(a, b) || less(b, a))
  }

  /** Strictly ascending, hence duplicate-free. */
  predicate Ascending<T>(ks: seq<T>, less: (T, T) -> bool) {
    forall i, j :: 0 <= i < j < |ks| ==> less(ks[i], ks[j])
  }

  /** Python's `a < b` on str. */
  predicate StrLess(a: string, b: string)
    decreases |a|
  {
    |b| > 0 && (|a| == 0 || a[0] < b[0] || (a[0] == b[0] && StrLess(a[1..], b[1..])))
  }

  lemma {:induction false} StrLessIrreflexive(a: string)
    ensures !StrLess(a, a)
    decreases |a|
  {
    if |a| > 0 {
      StrLessIrreflexive(a[1..]);
    }
  }

  lemma {:induction false} StrLessTransitive(a: string, b: string, c: string)
    requires StrLess(a, b) && StrLess(b, c)
    ensures StrLess(a, c)
    decreases |a|
  {
    if |a| > 0 && a[0] == b[0] && b[0] == c[0] {
      StrLessTransitive(a[1..], b[1..], c[1..]);
    }
  }

  lemma {:induction false} StrLessTotal(a: string, b: string)
    requires a != b
    ensures StrLess(a, b) || StrLess(b, a)
    decreases |a|
  {
    if |a| > 0 && |b| > 0 && a[0] == b[0] {
      assert a == [a[0]] + a[1..] && b == [b[0]] + b[1..];
      StrLessTotal(a[1..], b[1..]);
    }
  }

  /** Python's ordering of str is a strict total order. */
  lemma StrLessSortKeyOrder()
    ensures SortKeyOrder(StrLess)
  {
    forall a: string ensures !StrLess(a, a) {
      StrLessIrreflexive(a);
    }
    forall a: string, b: string, c: string | StrLess(a, b) && StrLess(b, c)
      ensures StrLess(a, c)
    {
      StrLessTransitive(a, b, c);
    }
    forall a: string, b: string | a != b ensures StrLess(a, b) || StrLess(b, a) {
      StrLessTotal(a, b);
    }
  }

  /** Python's `a < b` on a pair of str (tuple comparison). */
  predicate PairLess(a: (string, string), b: (string, string)) {
    StrLess(a.0, b.0) || (a.0 == b.0 && StrLess(a.1, b.1))
  }

  lemma PairLessSortKeyOrder()
    ensures SortKeyOrder(PairLess)
  {
    StrLessSortKeyOrder();
  }

  /** Insert k into an ascending key list unless it is already there. */
  function Insert<T(==,!new)>(ks: seq<T>, k: T, less: (T, T) -> bool): (r: seq<T>)
    requires SortKeyOrder(less) && Ascending(ks, less)
    ensures Ascending(r, less)
    ensures forall x :: x in r <==> x in ks || x == k
    decreases |ks|
  {
    if |ks| == 0 then [k]
    else if ks[0] == k then ks
    else if less(k, ks[0]) then [k] + ks
    else
      var rest := Insert(ks[1..], k, less);
      assert forall x :: x in rest ==> less(ks[0], x);
      [ks[0]] + rest
  }

  /** Inserting a key already present changes nothing. */
  lemma {:induction false} InsertPresent<T(!new)>(ks: seq<T>, m: nat, less: (T, T) -> bool)
    requires SortKeyOrder(less) && Ascending(ks, less) && m < |ks|
    ensures Insert(ks, ks[m], less) == ks
    decreases |ks|
  {
    if m > 0 {
      var k := ks[m];
      assert less(ks[0], k);
      assert ks[0] != k && !less(k, ks[0]);
      InsertPresent(ks[1..], m - 1, less);
      assert [ks[0]] + ks[1..] == ks;
    }
  }

  /** The keys a groupby over column values `xs` visits, in visiting order. */
  function Keys<T(==,!new)>(xs: seq<T>, less: (T, T) -> bool): (r: seq<T>)
    requires SortKeyOrder(less)
    ensures Ascending(r, less)
    ensures forall x :: x in r <==> x in xs
    decreases |xs|
  {
    if |xs| == 0 then []
    else Insert(Keys(xs[..|xs| - 1], less), Last(xs), less)
  }

  /** Group visiting order over a str column. */
  function StrKeys(xs: seq<string>): (r: seq<string>)
    ensures Ascending(r, StrLess)
    ensures forall x :: x in r <==> x in xs
  {
    StrLessSortKeyOrder();
    Keys(xs, StrLess)
  }

  /** An ascending list is duplicate-free. */
  lemma AscendingDistinct<T(!new)>(ks: seq<T>, less: (T, T) -> bool, i: nat, j: nat)
    requires SortKeyOrder(less) && Ascending(ks, less)
    requires i < |ks| && j < |ks| && ks[i] == ks[j]
    ensures i == j
  {
  }

  /** The position of x in xs (its first occurrence). */
  function Position<T(==)>(xs: seq<T>, x: T): (r: nat)
    requires x in xs
    ensures r < |xs| && xs[r] == x
    ensures forall j :: 0 <= j < r ==> xs[j] != x
    decreases |xs|
  {
    if xs[0] == x then 0 else 1 + Position(xs[1..], x)
  }
}
