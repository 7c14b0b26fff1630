/** Sorting by a caller's order, and the order of Go strings. */
module Sorting {
  import opened Basics

  /** less is a strict total order on the elements of s. */
  ghost predicate TotalOn<T(!new)>(less: (T, T) -> bool, s: set<T>) {
    && (forall x :: x in s ==> !less(x, x))
    && (forall x, y :: x in s && y in s && x != y ==> less(x, y) || less(y, x))
    && (forall x, y, z :: x in s && y in s && z in s && less(x, y) && less(y, z) ==> less(x, z))
  }

  ghost predicate SortedBy<T(!new)>(less: (T, T) -> bool, xs: seq<T>) {
    forall i, j :: 0 <= i < j < |xs| ==> less(xs[i], xs[j])
  }

  function Elements<T>(xs: seq<T>): set<T> {
    set x | x in xs
  }

  function Insert<T>(less: (T, T) -> bool, xs: seq<T>, x: T): seq<T> {
    if xs == [] then [x] else if less(x, xs[0]) then [x] + xs else [xs[0]] + Insert(less, xs[1..], x)
  }

  function Sort<T>(less: (T, T) -> bool, xs: seq<T>): seq<T> {
    if xs == [] then [] else Insert(less, Sort(less, xs[1..]), xs[0])
  }

  lemma {:induction false} InsertKeepsElements<T>(less: (T, T) -> bool, xs: seq<T>, x: T)
    ensures multiset(Insert(less, xs, x)) == multiset(xs) + multiset{x}
    ensures forall y :: y in Insert(less, xs, x) <==> y in xs || y == x
  {
    if xs != [] && !less(x, xs[0]) {
      InsertKeepsElements(less, xs[1..], x);
      assert xs == [xs[0]] + xs[1..];
    }
  }

  lemma {:induction false} InsertSorts<T(!new)>(less: (T, T) -> bool, xs: seq<T>, x: T, s: set<T>)
    requires TotalOn(less, s) && x in s && x !in xs && (forall y :: y in xs ==> y in s) && SortedBy(less, xs)
    ensures SortedBy(less, Insert(less, xs, x))
  {
    if xs != [] {
      if less(x, xs[0]) {
        forall j | 0 <= j < |xs| ensures less(x, xs[j]) {
          assert j > 0 ==> less(xs[0], xs[j]);
        }
      } else {
        assert less(xs[0], x);
        InsertSorts(less, xs[1..], x, s);
        InsertKeepsElements(less, xs[1..], x);
        var rest := Insert(less, xs[1..], x);
        forall j | 0 <= j < |rest| ensures less(xs[0], rest[j]) {
          if rest[j] != x {
            assert rest[j] in xs[1..];
            var k :| 0 <= k < |xs[1..]| && xs[1..][k] == rest[j];
            assert less(xs[0], xs[k + 1]);
          }
        }
      }
    }
  }

  lemma HeadAndRest<T>(xs: seq<T>)
    requires xs != []
    ensures forall y :: y in xs <==> y == xs[0] || y in xs[1..]
    ensures multiset(xs) == multiset(xs[1..]) + multiset{xs[0]} && Elements(xs[1..]) <= Elements(xs)
    ensures NoRepeats(xs) ==> NoRepeats(xs[1..]) && xs[0] !in xs[1..]
  {
    var rest := xs[1..];
    assert xs == [xs[0]] + rest;
    assert forall i :: 0 <= i < |rest| ==> rest[i] == xs[i + 1];
  }

  /** Sorting pairwise different elements gives the same elements in strict order. */
  lemma {:induction false} SortSorts<T(!new)>(less: (T, T) -> bool, xs: seq<T>)
    requires TotalOn(less, Elements(xs)) && NoRepeats(xs)
    ensures SortedBy(less, Sort(less, xs)) && multiset(Sort(less, xs)) == multiset(xs)
    ensures forall y :: y in Sort(less, xs) <==> y in xs
  {
    if xs != [] {
      var rest := xs[1..];
      HeadAndRest(xs);
      SortSorts(less, rest);
      InsertKeepsElements(less, Sort(less, rest), xs[0]);
      InsertSorts(less, Sort(less, rest), xs[0], Elements(xs));
    }
  }

  /** Two strictly ordered lists of the same elements are the same list. */
  lemma {:induction false} SortedIsUnique<T(!new)>(less: (T, T) -> bool, a: seq<T>, b: seq<T>)
    requires TotalOn(less, Elements(a)) && SortedBy(less, a) && SortedBy(less, b)
    requires forall x :: x in a <==> x in b
    ensures a == b
    decreases |a|
  {
    assert b != [] ==> b[0] in a;
    if a != [] {
      assert a[0] in b;
      assert b[0] in a;
      var i :| 0 <= i < |b| && b[i] == a[0];
      var j :| 0 <= j < |a| && a[j] == b[0];
      assert a[0] == b[0];
      forall x ensures x in a[1..] <==> x in b[1..] {
        HeadIsNotInTail(less, a, x);
        HeadIsNotInTail(less, b, x);
      }
      assert Elements(a[1..]) <= Elements(a);
      SortedIsUnique(less, a[1..], b[1..]);
    }
  }

  lemma HeadIsNotInTail<T(!new)>(less: (T, T) -> bool, a: seq<T>, x: T)
    requires a != [] && SortedBy(less, a) && !less(a[0], a[0])
    ensures x in a[1..] <==> x in a && x != a[0]
  {
    if x in a[1..] {
      var i :| 0 <= i < |a[1..]| && a[1..][i] == x;
      assert less(a[0], a[i + 1]);
    }
    if x in a && x != a[0] {
      var i :| 0 <= i < |a| && a[i] == x;
      assert a[1..][i - 1] == x;
    }
  }

  // ----- Orders with ties --------------------------------------------------------------------------------

  /** What sort.Slice asks of a less function. */
  ghost predicate WeakOrder<T(!new)>(less: (T, T) -> bool) {
    && (forall x, y :: less(x, y) ==> !less(y, x))
    && (forall x, y, z :: !less(y, x) && !less(z, y) ==> !less(z, x))
  }

  /** Nothing stands before something smaller. */
  ghost predicate Ordered<T(!new)>(less: (T, T) -> bool, xs: seq<T>) {
    forall i, j :: 0 <= i < j < |xs| ==> !less(xs[j], xs[i])
  }

  lemma {:induction false} InsertOrders<T(!new)>(less: (T, T) -> bool, xs: seq<T>, x: T)
    requires WeakOrder(less) && Ordered(less, xs)
    ensures Ordered(less, Insert(less, xs, x))
  {
    if xs != [] {
      if less(x, xs[0]) {
        forall j | 0 <= j < |xs| ensures !less(xs[j], x) {
          assert j > 0 ==> !less(xs[j], xs[0]);
        }
      } else {
        var rest := Insert(less, xs[1..], x);
        InsertOrders(less, xs[1..], x);
        InsertKeepsElements(less, xs[1..], x);
        forall j | 0 <= j < |rest| ensures !less(rest[j], xs[0]) {
          assert rest[j] in xs[1..] || rest[j] == x;
          if rest[j] != x {
            var k :| 0 <= k < |xs[1..]| && xs[1..][k] == rest[j];
            assert !less(xs[k + 1], xs[0]);
          }
        }
      }
    }
  }

  /** Sorting by an order with ties gives the same elements, none before a smaller one. */
  lemma {:induction false} SortOrders<T(!new)>(less: (T, T) -> bool, xs: seq<T>)
    requires WeakOrder(less)
    ensures Ordered(less, Sort(less, xs)) && multiset(Sort(less, xs)) == multiset(xs)
  {
    if xs != [] {
      SortOrders(less, xs[1..]);
      InsertOrders(less, Sort(less, xs[1..]), xs[0]);
      InsertKeepsElements(less, Sort(less, xs[1..]), xs[0]);
      assert xs == [xs[0]] + xs[1..];
    }
  }

  // ----- Strings -------------------------------------------------------------------------------------

  /** `a < b` on strings. */
  predicate TextBefore(a: string, b: string) {
    if b == "" then false
    else if a == "" then true
    else if a[0] != b[0] then a[0] < b[0]
    else TextBefore(a[1..], b[1..])
  }

  /** The order of strings: a proper prefix comes first, and otherwise the first difference decides. */
  lemma {:induction false} TextBeforeIff(a: string, b: string)
    ensures TextBefore(a, b) <==>
              (|a| < |b| && b[..|a|] == a)
              || exists n: nat :: n < |a| && n < |b| && a[..n] == b[..n] && a[n] < b[n]
    decreases |a|, 1
  {
    if a != "" && b != "" {
      assert a == [a[0]] + a[1..] && b == [b[0]] + b[1..];
      if a[0] == b[0] {
        SharedHead(a, b);
      } else if |a| < |b| {
        assert b[..|a|][0] != a[0];
      }
      if a[0] < b[0] {
        assert a[..0] == b[..0];
      }
      if a[0] != b[0] {
        forall n: nat | 0 < n < |a| && n < |b| ensures a[..n] != b[..n] {
          assert a[..n][0] != b[..n][0];
        }
      }
    }
  }

  lemma {:induction false} SharedHead(a: string, b: string)
    requires a != "" && b != "" && a[0] == b[0]
    ensures TextBefore(a, b) <==>
              (|a| < |b| && b[..|a|] == a)
              || exists n: nat :: n < |a| && n < |b| && a[..n] == b[..n] && a[n] < b[n]
    decreases |a|, 0
  {
    var x, y := a[1..], b[1..];
    TextBeforeIff(x, y);
    assert a == [a[0]] + x && b == [b[0]] + y;
    if |a| < |b| {
      assert b[..|a|] == [b[0]] + y[..|x|];
      assert b[..|a|] == a <==> y[..|x|] == x by {
        if b[..|a|] == a {
          assert y[..|x|] == a[1..];
        }
      }
    }
    if n: nat :| n < |x| && n < |y| && x[..n] == y[..n] && x[n] < y[n] {
      assert a[..n + 1] == [a[0]] + x[..n] && b[..n + 1] == [b[0]] + y[..n];
      assert a[..n + 1] == b[..n + 1] && a[n + 1] < b[n + 1];
    }
    if n: nat :| n < |a| && n < |b| && a[..n] == b[..n] && a[n] < b[n] {
      assert x[..n - 1] == a[..n][1..] && y[..n - 1] == b[..n][1..];
      assert x[n - 1] < y[n - 1];
    }
  }

  lemma {:induction false} TextTotal(a: string, b: string)
    ensures !TextBefore(a, a) && (a != b ==> TextBefore(a, b) || TextBefore(b, a))
  {
    if a != "" {
      TextTotal(a[1..], if b != "" then b[1..] else "");
      assert b != "" && a[0] == b[0] && a[1..] == b[1..] ==> a == [a[0]] + a[1..] == [b[0]] + b[1..] == b;
    }
  }

  lemma {:induction false} TextTransitive(a: string, b: string, c: string)
    requires TextBefore(a, b) && TextBefore(b, c)
    ensures TextBefore(a, c)
  {
    if a != "" && b != "" && c != "" && a[0] == b[0] && b[0] == c[0] {
      TextTransitive(a[1..], b[1..], c[1..]);
    }
  }

  lemma TextIsWeak(a: string, b: string, c: string)
    ensures TextBefore(a, b) ==> !TextBefore(b, a)
    ensures !TextBefore(b, a) && !TextBefore(c, b) ==> !TextBefore(c, a)
  {
    TextTotal(a, b);
    TextTotal(b, c);
    TextTotal(a, c);
    if TextBefore(a, b) && TextBefore(b, a) {
      TextTransitive(a, b, a);
    }
    if TextBefore(c, a) && TextBefore(a, b) {
      TextTransitive(c, a, b);
    }
    if TextBefore(b, c) && TextBefore(c, a) {
      TextTransitive(b, c, a);
    }
  }
}
