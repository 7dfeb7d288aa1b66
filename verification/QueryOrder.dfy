/** The order of canonical query parameters: by the bytes of the encoded name, then of the encoded
    value. Encoded text is ASCII, so comparing code units compares bytes. */
module QueryOrder {
  import opened Common
  import opened Text

  type Pair = (string, string)

  /** `compareEncoded` */
  function CompareEncoded(left: Pair, right: Pair): int
  {
    if left.0 != right.0 then if Less(left.0, right.0) then -1 else 1
    else if left.1 == right.1 then 0
    else if Less(left.1, right.1) then -1 else 1
  }

  /** It is a total order on pairs. */
  lemma CompareTotal(a: Pair, b: Pair, c: Pair)
    ensures CompareEncoded(a, b) == 0 <==> a == b
    ensures CompareEncoded(a, b) == -CompareEncoded(b, a)
    ensures CompareEncoded(a, b) <= 0 && CompareEncoded(b, c) <= 0 ==> CompareEncoded(a, c) <= 0
  {
    hide Less;
    Trichotomy(a.0, b.0);
    Trichotomy(a.1, b.1);
    Trichotomy(b.0, c.0);
    Trichotomy(b.1, c.1);
    Trichotomy(a.0, c.0);
    Trichotomy(a.1, c.1);
    Transitive(a.0, b.0, c.0);
    Transitive(a.1, b.1, c.1);
  }

  /** The name decides, and between equal names the value. */
  lemma CompareFirst(a: Pair, b: Pair)
    ensures CompareEncoded(a, b) < 0 <==> Less(a.0, b.0) || (a.0 == b.0 && Less(a.1, b.1))
  {
    hide Less;
    Trichotomy(a.0, b.0);
    Trichotomy(a.1, b.1);
  }

  lemma Trichotomy(a: string, b: string)
    ensures a == b || Less(a, b) || Less(b, a)
    ensures !(Less(a, b) && Less(b, a)) && !Less(a, a)
  {
    hide Less;
    LessTotal(a, b);
    LessIrreflexive(a);
    if Less(a, b) {
      LessAsymmetric(a, b);
    }
  }

  lemma Transitive(a: string, b: string, c: string)
    ensures Less(a, b) && Less(b, c) ==> Less(a, c)
  {
    hide Less;
    if Less(a, b) && Less(b, c) {
      LessTransitive(a, b, c);
    }
  }

  // ---- Permutations ----

  function Count<T(==)>(xs: seq<T>, x: T): nat
  {
    if xs == [] then 0 else (if xs[0] == x then 1 else 0) + Count(xs[1..], x)
  }

  /** The same elements, each as often. */
  ghost predicate Permuted<T(!new)>(xs: seq<T>, ys: seq<T>)
  {
    forall x :: Count(xs, x) == Count(ys, x)
  }

  lemma {:induction false} CountConcat<T>(xs: seq<T>, ys: seq<T>, x: T)
    ensures Count(xs + ys, x) == Count(xs, x) + Count(ys, x)
  {
    if xs == [] {
      assert xs + ys == ys;
    } else {
      assert (xs + ys)[1..] == xs[1..] + ys;
      CountConcat(xs[1..], ys, x);
    }
  }

  lemma {:induction false} CountIn<T>(xs: seq<T>, x: T)
    ensures Count(xs, x) > 0 <==> x in xs
  {
    if xs != [] {
      CountIn(xs[1..], x);
      assert xs == [xs[0]] + xs[1..];
    }
  }

  /** Taking one element out lowers its count alone. */
  lemma CountMiddle<T>(left: seq<T>, y: T, right: seq<T>, x: T)
    ensures Count(left + ([y] + right), x) == Count(left + right, x) + if y == x then 1 else 0
  {
    assert Count([y] + right, x) == Count(right, x) + (if y == x then 1 else 0) by { assert ([y] + right)[1..] == right; }
    hide Count;
    CountConcat(left, [y] + right, x);
    CountConcat(left, right, x);
  }

  lemma CountWithout<T>(xs: seq<T>, i: nat, x: T)
    requires i < |xs|
    ensures Count(xs, x) == Count(xs[..i] + xs[i + 1..], x) + if xs[i] == x then 1 else 0
  {
    hide Count;
    assert xs == xs[..i] + ([xs[i]] + xs[i + 1..]);
    CountMiddle(xs[..i], xs[i], xs[i + 1..], x);
  }

  /** Where the first element of a list stands in a permutation of it. */
  lemma FirstIn<T(!new)>(xs: seq<T>, ys: seq<T>) returns (i: nat)
    requires xs != [] && Permuted(xs, ys)
    ensures i < |ys| && ys[i] == xs[0] && Permuted(xs[1..], ys[..i] + ys[i + 1..])
  {
    hide Count;
    CountIn(xs, xs[0]);
    CountIn(ys, xs[0]);
    i :| 0 <= i < |ys| && ys[i] == xs[0];
    forall x
      ensures Count(xs[1..], x) == Count(ys[..i] + ys[i + 1..], x)
    {
      CountWithout(xs, 0, x);
      CountWithout(ys, i, x);
      assert xs[..0] + xs[1..] == xs[1..];
    }
  }

  lemma PermutedEmpty<T(!new)>(ys: seq<T>)
    requires Permuted([], ys)
    ensures ys == []
  {
    if ys != [] {
      CountIn(ys, ys[0]);
    }
  }

  lemma {:induction false} MapPermuted<T(!new), U(!new)>(f: T -> U, xs: seq<T>, ys: seq<T>)
    requires Permuted(xs, ys)
    ensures Permuted(Map(f, xs), Map(f, ys))
  {
    if xs == [] {
      PermutedEmpty(ys);
    } else {
      var i := FirstIn(xs, ys);
      MapPermuted(f, xs[1..], ys[..i] + ys[i + 1..]);
      var mx, my := Map(f, xs), Map(f, ys);
      assert Map(f, xs[1..]) == mx[..0] + mx[1..];
      assert Map(f, ys[..i] + ys[i + 1..]) == my[..i] + my[i + 1..];
      forall u
        ensures Count(mx, u) == Count(my, u)
      {
        CountWithout(mx, 0, u);
        CountWithout(my, i, u);
      }
    }
  }

  lemma {:induction false} CountFilter<T(!new)>(keep: T -> bool, xs: seq<T>, x: T)
    ensures Count(Filter(xs, keep), x) == if keep(x) then Count(xs, x) else 0
  {
    if xs != [] {
      CountFilter(keep, xs[1..], x);
      if keep(xs[0]) {
        assert Filter(xs, keep)[1..] == Filter(xs[1..], keep);
      }
    }
  }

  lemma FilterPermuted<T(!new)>(keep: T -> bool, xs: seq<T>, ys: seq<T>)
    requires Permuted(xs, ys)
    ensures Permuted(Filter(xs, keep), Filter(ys, keep))
  {
    hide Count, Filter;
    forall x
      ensures Count(Filter(xs, keep), x) == Count(Filter(ys, keep), x)
    {
      CountFilter(keep, xs, x);
      CountFilter(keep, ys, x);
    }
  }

  // ---- Sorting ----

  function Insert(p: Pair, sorted: seq<Pair>): seq<Pair>
  {
    if sorted == [] then [p]
    else if CompareEncoded(p, sorted[0]) <= 0 then [p] + sorted
    else [sorted[0]] + Insert(p, sorted[1..])
  }

  function Sort(ps: seq<Pair>): seq<Pair>
  {
    if ps == [] then [] else Insert(ps[0], Sort(ps[1..]))
  }

  ghost predicate Sorted(ps: seq<Pair>)
  {
    forall i, j :: 0 <= i < j < |ps| ==> CompareEncoded(ps[i], ps[j]) <= 0
  }

  lemma {:induction false} InsertCounts(p: Pair, sorted: seq<Pair>, x: Pair)
    ensures Count(Insert(p, sorted), x) == Count([p] + sorted, x)
  {
    hide CompareEncoded;
    assert ([p] + sorted)[1..] == sorted;
    if sorted != [] && CompareEncoded(p, sorted[0]) > 0 {
      InsertCounts(p, sorted[1..], x);
      assert ([p] + sorted[1..])[1..] == sorted[1..];
      assert Insert(p, sorted)[1..] == Insert(p, sorted[1..]);
    } else if sorted == [] {
      assert [p] + sorted == [p];
    }
  }

  lemma {:induction false} SortPermutes(ps: seq<Pair>)
    ensures Permuted(Sort(ps), ps)
  {
    if ps != [] {
      hide Insert;
      SortPermutes(ps[1..]);
      forall x
        ensures Count(Sort(ps), x) == Count(ps, x)
      {
        InsertCounts(ps[0], Sort(ps[1..]), x);
        assert ([ps[0]] + Sort(ps[1..]))[1..] == Sort(ps[1..]);
      }
    }
  }

  lemma {:induction false} InsertSorts(p: Pair, sorted: seq<Pair>)
    requires Sorted(sorted)
    ensures Sorted(Insert(p, sorted))
  {
    hide CompareEncoded, Count;
    if sorted == [] {
    } else if CompareEncoded(p, sorted[0]) <= 0 {
      forall j | 0 <= j < |sorted|
        ensures CompareEncoded(p, sorted[j]) <= 0
      {
        CompareTotal(p, sorted[0], sorted[j]);
      }
    } else {
      var first, rest := sorted[0], sorted[1..];
      InsertSorts(p, rest);
      CompareTotal(p, first, p);
      var inserted := Insert(p, rest);
      forall j | 0 <= j < |inserted|
        ensures CompareEncoded(first, inserted[j]) <= 0
      {
        InsertIn(p, rest, inserted[j]);
      }
    }
  }

  lemma InsertIn(p: Pair, sorted: seq<Pair>, x: Pair)
    ensures x in Insert(p, sorted) <==> x == p || x in sorted
  {
    InsertCounts(p, sorted, x);
    CountIn(Insert(p, sorted), x);
    CountIn([p] + sorted, x);
  }

  lemma {:induction false} SortSorts(ps: seq<Pair>)
    ensures Sorted(Sort(ps))
  {
    if ps != [] {
      hide Insert, Sorted;
      SortSorts(ps[1..]);
      InsertSorts(ps[0], Sort(ps[1..]));
    } else {
      assert Sort(ps) == [];
    }
  }

  /** There is only one way to put the same pairs in order. */
  lemma {:induction false} SortedUnique(a: seq<Pair>, b: seq<Pair>)
    requires Sorted(a) && Sorted(b) && Permuted(a, b)
    ensures a == b
  {
    if a == [] {
      PermutedEmpty(b);
    } else {
      hide CompareEncoded, Count;
      var j := FirstIn(a, b);
      FirstLeast(a, b);
      CompareTotal(a[0], b[0], a[0]);
      SameTail(a, b);
      SortedUnique(a[1..], b[1..]);
      assert a == [a[0]] + a[1..] && b == [b[0]] + b[1..];
    }
  }

  lemma FirstLeast(a: seq<Pair>, b: seq<Pair>)
    requires Sorted(a) && Sorted(b) && Permuted(a, b) && a != []
    ensures b != [] && CompareEncoded(a[0], b[0]) <= 0 && CompareEncoded(b[0], a[0]) <= 0
  {
    hide CompareEncoded, Count;
    var j := FirstIn(a, b);
    CountIn(b, b[0]);
    CountIn(a, b[0]);
    var i :| 0 <= i < |a| && a[i] == b[0];
    CompareTotal(a[0], a[0], a[0]);
  }

  lemma SameTail(a: seq<Pair>, b: seq<Pair>)
    requires Permuted(a, b) && a != [] && b != [] && a[0] == b[0]
    ensures Permuted(a[1..], b[1..])
  {
    hide Count;
    forall x
      ensures Count(a[1..], x) == Count(b[1..], x)
    {
      CountWithout(a, 0, x);
      CountWithout(b, 0, x);
      assert a[..0] + a[1..] == a[1..] && b[..0] + b[1..] == b[1..];
    }
  }

  lemma SortOfSorted(ps: seq<Pair>)
    requires Sorted(ps)
    ensures Sort(ps) == ps
  {
    SortSorts(ps);
    SortPermutes(ps);
    SortedUnique(Sort(ps), ps);
  }

  /** Sorting forgets the order the pairs came in. */
  lemma SortPermuted(a: seq<Pair>, b: seq<Pair>)
    requires Permuted(a, b)
    ensures Sort(a) == Sort(b)
  {
    SortSorts(a);
    SortSorts(b);
    SortPermutes(a);
    SortPermutes(b);
    SortedUnique(Sort(a), Sort(b));
  }

  lemma SortIn(ps: seq<Pair>, x: Pair)
    ensures x in Sort(ps) <==> x in ps
  {
    hide Count, Sort;
    SortPermutes(ps);
    CountIn(ps, x);
    CountIn(Sort(ps), x);
  }
}
