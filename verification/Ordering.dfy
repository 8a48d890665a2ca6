/**
  Sorting, as the built-in `Array.prototype.sort` does it: stable, and driven by a comparison
  the caller supplies. The comparison is a parameter because one caller compares UTF-16 code
  units with `<` and another uses `localeCompare`.
 */
module Ordering {

  /** `less` behaves like a strict total order on the elements of `domain`. */
  ghost predicate StrictTotalOn<T(!new)>(less: (T, T) -> bool, domain: set<T>) {
    && (forall a | a in domain :: !less(a, a))
    && (forall a, b | a in domain && b in domain && a != b :: less(a, b) != less(b, a))
    && (forall a, b, c | a in domain && b in domain && c in domain && less(a, b) && less(b, c) :: less(a, c))
  }

  ghost predicate DrawnFrom<T>(xs: seq<T>, domain: set<T>) {
    forall x | x in xs :: x in domain
  }

  ghost predicate SortedBy<T(!new)>(less: (T, T) -> bool, xs: seq<T>) {
    forall i, j | 0 <= i < j < |xs| :: !less(xs[j], xs[i])
  }

  ghost predicate StrictlySortedBy<T(!new)>(less: (T, T) -> bool, xs: seq<T>) {
    forall i, j | 0 <= i < j < |xs| :: less(xs[i], xs[j])
  }

  predicate Distinct<T(==)>(xs: seq<T>) {
    forall i, j | 0 <= i < j < |xs| :: xs[i] != xs[j]
  }

  /** Places `x` before the first element that is not smaller, so equal keys keep their order. */
  function Insert<T>(less: (T, T) -> bool, x: T, xs: seq<T>): (r: seq<T>)
    ensures multiset(r) == multiset{x} + multiset(xs)
    ensures |r| == |xs| + 1
  {
    if xs == [] then [x]
    else if !less(xs[0], x) then [x] + xs
    else
      assert xs == [xs[0]] + xs[1..];
      [xs[0]] + Insert(less, x, xs[1..])
  }

  function SortBy<T>(less: (T, T) -> bool, xs: seq<T>): (r: seq<T>)
    ensures multiset(r) == multiset(xs)
    ensures |r| == |xs|
  {
    if xs == [] then []
    else
      assert xs == [xs[0]] + xs[1..];
      Insert(less, xs[0], SortBy(less, xs[1..]))
  }

  lemma SamePermutedElement<T>(xs: seq<T>, ys: seq<T>, x: T)
    requires multiset(xs) == multiset(ys)
    ensures x in xs <==> x in ys
  {
    assert x in xs <==> x in multiset(xs);
    assert x in ys <==> x in multiset(ys);
  }

  lemma InsertedElement<T>(less: (T, T) -> bool, x: T, xs: seq<T>, y: T)
    ensures y in Insert(less, x, xs) <==> y == x || y in xs
  {
    assert y in Insert(less, x, xs) <==> y in multiset(Insert(less, x, xs));
    assert y in xs <==> y in multiset(xs);
  }

  lemma {:induction false} InsertKeepsOrder<T(!new)>(less: (T, T) -> bool, x: T, xs: seq<T>, domain: set<T>)
    requires StrictTotalOn(less, domain) && x in domain && DrawnFrom(xs, domain)
    requires SortedBy(less, xs)
    ensures SortedBy(less, Insert(less, x, xs))
  {
    var r := Insert(less, x, xs);
    if xs == [] {
    } else if !less(xs[0], x) {
      forall i, j | 0 <= i < j < |r| ensures !less(r[j], r[i]) {
        if i == 0 && j > 1 {
          assert r[j] == xs[j - 1] && r[i] == x;
          assert !less(xs[j - 1], xs[0]);
        }
      }
    } else {
      var rest := Insert(less, x, xs[1..]);
      InsertKeepsOrder(less, x, xs[1..], domain);
      forall i, j | 0 <= i < j < |r| ensures !less(r[j], r[i]) {
        assert r == [xs[0]] + rest;
        if i == 0 {
          var y := rest[j - 1];
          InsertedElement(less, x, xs[1..], y);
        }
      }
    }
  }

  lemma {:induction false} SortBySorts<T(!new)>(less: (T, T) -> bool, xs: seq<T>, domain: set<T>)
    requires StrictTotalOn(less, domain) && DrawnFrom(xs, domain)
    ensures SortedBy(less, SortBy(less, xs))
  {
    if xs != [] {
      SortBySorts(less, xs[1..], domain);
      forall x | x in SortBy(less, xs[1..]) ensures x in domain {
        SamePermutedElement(SortBy(less, xs[1..]), xs[1..], x);
      }
      InsertKeepsOrder(less, xs[0], SortBy(less, xs[1..]), domain);
    }
  }

  lemma RemoveHead<T>(xs: seq<T>, ys: seq<T>)
    requires multiset(xs) == multiset(ys)
    requires xs != [] && ys != [] && xs[0] == ys[0]
    ensures multiset(xs[1..]) == multiset(ys[1..])
  {
    assert xs == [xs[0]] + xs[1..] && ys == [ys[0]] + ys[1..];
    assert multiset(xs[1..]) == multiset(xs) - multiset{xs[0]};
    assert multiset(ys[1..]) == multiset(ys) - multiset{ys[0]};
  }

  lemma HeadIsSmallest<T(!new)>(less: (T, T) -> bool, xs: seq<T>, x: T, domain: set<T>)
    requires StrictTotalOn(less, domain) && x in domain
    requires SortedBy(less, xs) && x in xs
    ensures !less(x, xs[0])
  {
  }

  /** Two sorted arrangements of the same elements are the same sequence. */
  lemma {:induction false} SortedArrangementUnique<T(!new)>(
    less: (T, T) -> bool, xs: seq<T>, ys: seq<T>, domain: set<T>)
    requires multiset(xs) == multiset(ys)
    requires StrictTotalOn(less, domain) && DrawnFrom(xs, domain)
    requires SortedBy(less, xs) && SortedBy(less, ys)
    ensures xs == ys
  {
    assert |xs| == |multiset(xs)| == |multiset(ys)| == |ys|;
    if xs != [] {
      SamePermutedElement(xs, ys, xs[0]);
      SamePermutedElement(xs, ys, ys[0]);
      HeadIsSmallest(less, xs, ys[0], domain);
      HeadIsSmallest(less, ys, xs[0], domain);
      RemoveHead(xs, ys);
      SortedArrangementUnique(less, xs[1..], ys[1..], domain);
      assert xs == [xs[0]] + xs[1..] && ys == [ys[0]] + ys[1..];
    }
  }

  /** Sorting forgets the order its input arrived in. */
  lemma SortByIgnoresOrder<T(!new)>(less: (T, T) -> bool, xs: seq<T>, ys: seq<T>, domain: set<T>)
    requires multiset(xs) == multiset(ys)
    requires StrictTotalOn(less, domain) && DrawnFrom(xs, domain)
    ensures SortBy(less, xs) == SortBy(less, ys)
  {
    forall x | x in ys ensures x in domain { SamePermutedElement(xs, ys, x); }
    SortBySorts(less, xs, domain);
    SortBySorts(less, ys, domain);
    forall x | x in SortBy(less, xs) ensures x in domain { SamePermutedElement(SortBy(less, xs), xs, x); }
    SortedArrangementUnique(less, SortBy(less, xs), SortBy(less, ys), domain);
  }

  lemma SortedDistinctIsStrict<T(!new)>(less: (T, T) -> bool, xs: seq<T>, domain: set<T>)
    requires StrictTotalOn(less, domain) && DrawnFrom(xs, domain)
    requires SortedBy(less, xs) && Distinct(xs)
    ensures StrictlySortedBy(less, xs)
  {
  }

  /** A strictly sorted sequence is determined by its elements. */
  lemma {:induction false} StrictlySortedUnique<T(!new)>(
    less: (T, T) -> bool, xs: seq<T>, ys: seq<T>, domain: set<T>)
    requires StrictTotalOn(less, domain) && DrawnFrom(xs, domain) && DrawnFrom(ys, domain)
    requires StrictlySortedBy(less, xs) && StrictlySortedBy(less, ys)
    requires forall x :: x in xs <==> x in ys
    ensures xs == ys
  {
    assert xs != [] ==> xs[0] in ys;
    assert ys != [] ==> ys[0] in xs;
    if xs != [] {
      HeadIsSmallest(less, xs, ys[0], domain);
      HeadIsSmallest(less, ys, xs[0], domain);
      TailElements(less, xs, domain);
      TailElements(less, ys, domain);
      StrictlySortedUnique(less, xs[1..], ys[1..], domain);
      assert xs == [xs[0]] + xs[1..] && ys == [ys[0]] + ys[1..];
    }
  }

  lemma TailElements<T(!new)>(less: (T, T) -> bool, xs: seq<T>, domain: set<T>)
    requires StrictTotalOn(less, domain) && DrawnFrom(xs, domain)
    requires StrictlySortedBy(less, xs) && xs != []
    ensures forall x :: x in xs[1..] <==> x in xs && x != xs[0]
  {
    assert xs == [xs[0]] + xs[1..];
    forall x | x in xs[1..] ensures x != xs[0] {
      var i :| 0 <= i < |xs[1..]| && xs[1..][i] == x;
      assert less(xs[0], xs[i + 1]);
    }
  }

  lemma {:induction false} DistinctCountsOnce<T>(xs: seq<T>)
    requires Distinct(xs)
    ensures forall x :: multiset(xs)[x] <= 1
  {
    if xs != [] {
      var n := |xs| - 1;
      DistinctCountsOnce(xs[..n]);
      assert xs == xs[..n] + [xs[n]];
      assert xs[n] !in multiset(xs[..n]);
    }
  }

  lemma RepeatCountsTwice<T>(xs: seq<T>, i: nat, j: nat)
    requires i < j < |xs|
    ensures xs[i] == xs[j] ==> multiset(xs)[xs[i]] >= 2
  {
    assert xs == xs[..i] + [xs[i]] + xs[i + 1..j] + [xs[j]] + xs[j + 1..];
  }

  lemma PermutationKeepsDistinct<T>(xs: seq<T>, ys: seq<T>)
    requires multiset(xs) == multiset(ys) && Distinct(xs)
    ensures Distinct(ys)
  {
    DistinctCountsOnce(xs);
    forall i, j | 0 <= i < j < |ys| ensures ys[i] != ys[j] { RepeatCountsTwice(ys, i, j); }
  }

  /** `new Set(xs).size === xs.length` is a test for repeated elements. */
  lemma {:induction false} SetSizeTestsDistinct<T>(xs: seq<T>)
    ensures |set x | x in xs| <= |xs|
    ensures |set x | x in xs| == |xs| <==> Distinct(xs)
  {
    if xs != [] {
      var n := |xs| - 1;
      SetSizeTestsDistinct(xs[..n]);
      var all, rest := set x | x in xs, set x | x in xs[..n];
      assert forall x | x in xs :: x in xs[..n] || x == xs[n];
      assert all == rest + {xs[n]};
      LastMakesDistinct(xs);
      if xs[n] in rest {
        assert all == rest;
      }
    }
  }

  lemma LastMakesDistinct<T>(xs: seq<T>)
    requires xs != []
    ensures var n := |xs| - 1; Distinct(xs) <==> Distinct(xs[..n]) && xs[n] !in xs[..n]
  {
    var n := |xs| - 1;
    assert forall i | 0 <= i < n :: xs[..n][i] == xs[i];
    if xs[n] in xs[..n] {
      var i :| 0 <= i < n && xs[..n][i] == xs[n];
      assert xs[i] == xs[n];
    }
  }

  // Comparison of strings by UTF-16 code unit

  predicate TextLess(a: string, b: string) {
    if b == "" then false
    else if a == "" then true
    else if a[0] != b[0] then a[0] < b[0]
    else TextLess(a[1..], b[1..])
  }

  lemma {:induction false} TextLessTrichotomy(a: string, b: string)
    ensures !TextLess(a, a)
    ensures a != b ==> TextLess(a, b) != TextLess(b, a)
    decreases |a| + |b|
  {
    if a != "" {
      TextLessTrichotomy(a[1..], if b != "" then b[1..] else "");
    }
    if a != "" && b != "" && a[0] == b[0] && a != b {
      assert a == [a[0]] + a[1..] && b == [b[0]] + b[1..];
    }
  }

  lemma {:induction false} TextLessTransitive(a: string, b: string, c: string)
    requires TextLess(a, b) && TextLess(b, c)
    ensures TextLess(a, c)
  {
    if a != "" && a[0] == b[0] && b[0] == c[0] {
      TextLessTransitive(a[1..], b[1..], c[1..]);
    }
  }

  lemma TextLessStrictTotal(domain: set<string>)
    ensures StrictTotalOn(TextLess, domain)
  {
    forall a, b | a in domain && b in domain
      ensures !TextLess(a, a) && (a != b ==> TextLess(a, b) != TextLess(b, a))
    {
      TextLessTrichotomy(a, b);
    }
    forall a, b, c | a in domain && b in domain && c in domain && TextLess(a, b) && TextLess(b, c)
      ensures TextLess(a, c)
    {
      TextLessTransitive(a, b, c);
    }
  }
}
