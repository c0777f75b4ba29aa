/** Sorting by an order that need only be total on the elements at hand, and why the outcome does not
    depend on the order they come in. */
module Sorting {

  /** On these elements, `less` is a strict total order. */
  ghost predicate Orders<T(!new)>(less: (T, T) -> bool, xs: seq<T>) {
    && (forall a, b :: a in xs && b in xs ==> a == b || less(a, b) || less(b, a))
    && (forall a, b :: a in xs && b in xs ==> !(less(a, b) && less(b, a)))
    && (forall a, b, c :: a in xs && b in xs && c in xs && less(a, b) && less(b, c) ==> less(a, c))
  }

  function Insert<T>(less: (T, T) -> bool, x: T, xs: seq<T>): seq<T> {
    if xs == [] then [x] else if less(x, xs[0]) then [x] + xs else [xs[0]] + Insert(less, x, xs[1..])
  }

  function Sort<T>(less: (T, T) -> bool, xs: seq<T>): (r: seq<T>)
    ensures |r| == |xs|
    ensures multiset(r) == multiset(xs)
  {
    if xs == [] then []
    else
      InsertKeeps(less, xs[0], Sort(less, xs[1..]));
      assert xs == [xs[0]] + xs[1..];
      Insert(less, xs[0], Sort(less, xs[1..]))
  }

  lemma {:induction false} InsertKeeps<T>(less: (T, T) -> bool, x: T, xs: seq<T>)
    ensures multiset(Insert(less, x, xs)) == multiset{x} + multiset(xs) && |Insert(less, x, xs)| == |xs| + 1
  {
    if xs != [] {
      InsertKeeps(less, x, xs[1..]);
      assert xs == [xs[0]] + xs[1..];
    }
  }

  predicate Ascending<T>(less: (T, T) -> bool, xs: seq<T>) {
    |xs| < 2 || (less(xs[0], xs[1]) && Ascending(less, xs[1..]))
  }

  predicate NoRepeats<T(==)>(xs: seq<T>) {
    xs == [] || (xs[0] !in xs[1..] && NoRepeats(xs[1..]))
  }

  lemma SameElements<T>(a: seq<T>, b: seq<T>)
    requires multiset(a) == multiset(b)
    ensures forall x :: x in a <==> x in b
  {
    assert forall x :: x in a <==> x in multiset(a);
    assert forall x :: x in b <==> x in multiset(b);
  }

  lemma {:induction false} InsertAscends<T(!new)>(less: (T, T) -> bool, x: T, xs: seq<T>)
    requires Ascending(less, xs) && x !in xs && Orders(less, [x] + xs)
    ensures Ascending(less, Insert(less, x, xs))
    ensures Insert(less, x, xs)[0] == x || (xs != [] && Insert(less, x, xs)[0] == xs[0])
  {
    if xs != [] && !less(x, xs[0]) {
      assert x in [x] + xs && xs[0] in [x] + xs;
      assert less(xs[0], x);
      FewerOrdered(less, [x] + xs, [x] + xs[1..]);
      InsertAscends(less, x, xs[1..]);
      var r := Insert(less, x, xs);
      assert r[1..] == Insert(less, x, xs[1..]) && (|xs| > 1 ==> xs[1..][0] == xs[1]);
    }
  }

  lemma FewerOrdered<T(!new)>(less: (T, T) -> bool, xs: seq<T>, ys: seq<T>)
    requires Orders(less, xs) && forall y :: y in ys ==> y in xs
    ensures Orders(less, ys)
  {
  }

  lemma {:induction false} SortAscends<T(!new)>(less: (T, T) -> bool, xs: seq<T>)
    requires NoRepeats(xs) && Orders(less, xs)
    ensures Ascending(less, Sort(less, xs))
  {
    if xs != [] {
      FewerOrdered(less, xs, xs[1..]);
      SortAscends(less, xs[1..]);
      var rest := Sort(less, xs[1..]);
      SameElements(rest, xs[1..]);
      FewerOrdered(less, xs, [xs[0]] + rest);
      InsertAscends(less, xs[0], rest);
    }
  }

  lemma {:induction false} FirstIsLeast<T(!new)>(less: (T, T) -> bool, xs: seq<T>, x: T)
    requires xs != [] && Ascending(less, xs) && Orders(less, xs) && x in xs[1..]
    ensures less(xs[0], x)
    decreases |xs|
  {
    if x != xs[1] {
      assert x in xs[1..][1..];
      FewerOrdered(less, xs, xs[1..]);
      FirstIsLeast(less, xs[1..], x);
      assert xs[0] in xs && xs[1] in xs && x in xs;
    }
  }

  lemma TailElements<T(!new)>(less: (T, T) -> bool, xs: seq<T>, x: T)
    requires xs != [] && Ascending(less, xs) && Orders(less, xs)
    ensures x in xs[1..] <==> x in xs && x != xs[0]
  {
    assert xs == [xs[0]] + xs[1..];
    if x in xs[1..] {
      FirstIsLeast(less, xs, x);
      assert x in xs && xs[0] in xs;
    }
  }

  /** An ascending list is fixed by its elements. */
  lemma {:induction false} AscendingIsUnique<T(!new)>(less: (T, T) -> bool, a: seq<T>, b: seq<T>)
    requires Ascending(less, a) && Ascending(less, b) && Orders(less, a) && forall x :: x in a <==> x in b
    ensures a == b
    decreases |a|
  {
    assert a != [] ==> a[0] in a;
    assert b != [] ==> b[0] in b;
    FewerOrdered(less, a, b);
    if a != [] && b != [] {
      if a[0] != b[0] {
        TailElements(less, a, b[0]);
        TailElements(less, b, a[0]);
        FirstIsLeast(less, a, b[0]);
        FirstIsLeast(less, b, a[0]);
      }
      forall x
        ensures x in a[1..] <==> x in b[1..]
      {
        TailElements(less, a, x);
        TailElements(less, b, x);
      }
      FewerOrdered(less, a, a[1..]);
      AscendingIsUnique(less, a[1..], b[1..]);
      assert a == [a[0]] + a[1..] && b == [b[0]] + b[1..];
    }
  }

  /** So the order a list comes in does not show in its sorted form. */
  lemma SortForgetsOrder<T(!new)>(less: (T, T) -> bool, a: seq<T>, b: seq<T>)
    requires NoRepeats(a) && NoRepeats(b) && Orders(less, a) && forall x :: x in a <==> x in b
    ensures Sort(less, a) == Sort(less, b)
  {
    FewerOrdered(less, a, b);
    SortAscends(less, a);
    SortAscends(less, b);
    SameElements(Sort(less, a), a);
    SameElements(Sort(less, b), b);
    FewerOrdered(less, a, Sort(less, a));
    AscendingIsUnique(less, Sort(less, a), Sort(less, b));
  }

  /** Sorting a sorted list changes nothing. */
  lemma SortIsIdempotent<T(!new)>(less: (T, T) -> bool, a: seq<T>)
    requires NoRepeats(a) && Orders(less, a)
    ensures Sort(less, Sort(less, a)) == Sort(less, a) && NoRepeats(Sort(less, a))
  {
    SortAscends(less, a);
    SameElements(Sort(less, a), a);
    FewerOrdered(less, a, Sort(less, a));
    AscendingHasNoRepeats(less, Sort(less, a));
    SortForgetsOrder(less, a, Sort(less, a));
  }

  lemma {:induction false} AscendingHasNoRepeats<T(!new)>(less: (T, T) -> bool, xs: seq<T>)
    requires Ascending(less, xs) && Orders(less, xs)
    ensures NoRepeats(xs)
  {
    if xs != [] {
      TailElements(less, xs, xs[0]);
      FewerOrdered(less, xs, xs[1..]);
      AscendingHasNoRepeats(less, xs[1..]);
    }
  }

  // ---------- Strings ----------

  predicate Less(a: string, b: string) {
    b != "" && (a == "" || a[0] < b[0] || (a[0] == b[0] && Less(a[1..], b[1..])))
  }

  /** One text comes before another if it is a proper beginning of it, or has the smaller character where the
      two first differ. */
  lemma {:induction false} LessMeans(a: string, b: string)
    ensures Less(a, b) <==> exists k: nat :: Differ(a, b, k)
    decreases |a|
  {
    if a == "" {
      if b != "" { assert Differ(a, b, 0); }
    } else if b != "" && a[0] == b[0] {
      LessMeans(a[1..], b[1..]);
      if k: nat :| Differ(a[1..], b[1..], k) {
        assert a[..k + 1] == [a[0]] + a[1..][..k] && b[..k + 1] == [b[0]] + b[1..][..k];
        assert Differ(a, b, k + 1);
      }
      if k: nat :| Differ(a, b, k) {
        assert k > 0 && a[..k][1..] == a[1..][..k - 1] && b[..k][1..] == b[1..][..k - 1];
        assert Differ(a[1..], b[1..], k - 1);
      }
    } else if b != "" {
      if a[0] < b[0] { assert Differ(a, b, 0); }
      if k: nat :| Differ(a, b, k) { DifferStart(a, b, k); }
    }
  }

  lemma DifferStart(a: string, b: string, k: nat)
    ensures Differ(a, b, k) && k > 0 ==> a != "" && b != "" && a[0] == b[0]
  {
    if Differ(a, b, k) && k > 0 { assert a[..k][0] == a[0] && b[..k][0] == b[0]; }
  }

  ghost predicate Differ(a: string, b: string, k: nat) {
    k <= |a| && k < |b| && a[..k] == b[..k] && (k == |a| || a[k] < b[k])
  }

  lemma {:induction false} LessIsTransitive(a: string, b: string, c: string)
    requires Less(a, b) && Less(b, c)
    ensures Less(a, c)
  {
    if a != "" && a[0] == b[0] && b[0] == c[0] {
      LessIsTransitive(a[1..], b[1..], c[1..]);
    }
  }

  lemma {:induction false} LessIsTotal(a: string, b: string)
    ensures Less(a, b) || a == b || Less(b, a)
    ensures !(Less(a, b) && Less(b, a))
    decreases |a|
  {
    if a != "" && b != "" && a[0] == b[0] {
      LessIsTotal(a[1..], b[1..]);
      assert a == [a[0]] + a[1..] && b == [b[0]] + b[1..];
    }
  }

  lemma LessOrders(xs: seq<string>)
    ensures Orders(Less, xs)
  {
    forall a, b | a in xs && b in xs
      ensures (a == b || Less(a, b) || Less(b, a)) && !(Less(a, b) && Less(b, a))
    {
      LessIsTotal(a, b);
    }
    forall a, b, c | a in xs && b in xs && c in xs && Less(a, b) && Less(b, c)
      ensures Less(a, c)
    {
      LessIsTransitive(a, b, c);
    }
  }
}
