/** Python lists built by guarded appends.

    The extractor fills every list by appending a value only when the list
    does not hold it yet. `AppendNew(acc, xs)` is that step applied to each element
    of `xs` in turn; the functions here recurse on the LAST element so that a
    loop that has handled `xs[..k]` is described by `AppendNew(acc, xs[..k])`. */
module Lists {

  ghost predicate NoDup<T>(s: seq<T>)
  {
    forall i, j :: 0 <= i < j < |s| ==> s[i] != s[j]
  }

  /** Two lists without repeats and with no element in common concatenate
      to a list without repeats. */
  lemma NoDupConcat<T>(a: seq<T>, b: seq<T>)
    requires NoDup(a) && NoDup(b)
    requires forall x :: x in a ==> x !in b
    ensures NoDup(a + b)
  {
    forall i, j | 0 <= i < j < |a + b|
      ensures (a + b)[i] != (a + b)[j]
    {
      if j < |a| {
      } else if i >= |a| {
        assert (a + b)[i] == b[i - |a|];
      } else {
        assert (a + b)[i] == a[i] && a[i] in a;
        assert (a + b)[j] == b[j - |a|] && b[j - |a|] in b;
      }
    }
  }

  ghost function Elems<T>(s: seq<T>): set<T>
  {
    set x | x in s
  }

  function Last<T>(s: seq<T>): T
    requires |s| > 0
  {
    s[|s| - 1]
  }

  function DropLast<T>(s: seq<T>): seq<T>
    requires |s| > 0
  {
    s[..|s| - 1]
  }

  lemma DropLastOfSnoc<T>(s: seq<T>, x: T)
    ensures DropLast(s + [x]) == s && Last(s + [x]) == x
  {
    assert (s + [x])[..|s|] == s;
  }

  /** Each element of `xs` in turn is appended to `acc` unless already there. */
  function AppendNew<T(==,!new)>(acc: seq<T>, xs: seq<T>): (r: seq<T>)
    ensures |acc| <= |r| && r[..|acc|] == acc
    ensures forall x :: x in r <==> x in acc || x in xs
    ensures NoDup(acc) ==> NoDup(r)
    decreases |xs|
  {
    if xs == [] then acc
    else
      var a := AppendNew(acc, DropLast(xs));
      assert forall x :: x in xs <==> x in DropLast(xs) || x == Last(xs);
      if Last(xs) in a then a else a + [Last(xs)]
  }

  /** The index of the first occurrence of `x` in `xs`. */
  function FirstIndex<T(==,!new)>(xs: seq<T>, x: T): (k: nat)
    requires x in xs
    ensures k < |xs| && xs[k] == x && x !in xs[..k]
    decreases |xs|
  {
    if x in DropLast(xs) then FirstIndex(DropLast(xs), x) else |xs| - 1
  }

  /** Removing the last element leaves the first occurrences before it
      where they were. */
  lemma FirstIndexDropLast<T(!new)>(xs: seq<T>)
    requires xs != []
    ensures forall y :: y in DropLast(xs) ==>
              y in xs && FirstIndex(xs, y) == FirstIndex(DropLast(xs), y) < |xs| - 1
    ensures Last(xs) !in DropLast(xs) ==> FirstIndex(xs, Last(xs)) == |xs| - 1
  {
    forall y | y in DropLast(xs)
      ensures y in xs && FirstIndex(xs, y) == FirstIndex(DropLast(xs), y) < |xs| - 1
    {
      var k :| 0 <= k < |xs| - 1 && DropLast(xs)[k] == y;
      assert xs[k] == y;
    }
  }

  /** What a guarded-append loop adds comes from its input and was not in
      `acc` already. */
  lemma {:induction false} AppendNewFresh<T(!new)>(acc: seq<T>, xs: seq<T>)
    ensures forall i :: |acc| <= i < |AppendNew(acc, xs)| ==>
              AppendNew(acc, xs)[i] in xs && AppendNew(acc, xs)[i] !in acc
    decreases |xs|
  {
    if xs != [] {
      var d := DropLast(xs);
      var a := AppendNew(acc, d);
      var r := AppendNew(acc, xs);
      AppendNewFresh(acc, d);
      if Last(xs) !in a {
        assert r == a + [Last(xs)];
        forall i | |acc| <= i < |r|
          ensures r[i] in xs && r[i] !in acc
        {
          if i < |a| { assert r[i] == a[i] && a[i] in d; }
        }
      }
    }
  }

  /** What a guarded-append loop adds comes in the order of first occurrence
      in its input. */
  lemma {:induction false} AppendNewOrder<T(!new)>(acc: seq<T>, xs: seq<T>)
    ensures forall i, j :: |acc| <= i < j < |AppendNew(acc, xs)| ==>
              AppendNew(acc, xs)[i] in xs && AppendNew(acc, xs)[j] in xs
              && FirstIndex(xs, AppendNew(acc, xs)[i]) < FirstIndex(xs, AppendNew(acc, xs)[j])
    decreases |xs|
  {
    if xs != [] {
      var d := DropLast(xs);
      var a := AppendNew(acc, d);
      var r := AppendNew(acc, xs);
      AppendNewOrder(acc, d);
      AppendNewFresh(acc, d);
      AppendNewFresh(acc, xs);
      FirstIndexDropLast(xs);
      if Last(xs) !in a {
        assert Last(xs) !in d;
        assert r == a + [Last(xs)];
        forall i, j | |acc| <= i < j < |r|
          ensures r[i] in xs && r[j] in xs && FirstIndex(xs, r[i]) < FirstIndex(xs, r[j])
        {
          assert r[i] == a[i] && r[i] in d;
          if j < |a| { assert r[j] == a[j] && r[j] in d; }
        }
      } else {
        assert r == a;
        forall i, j | |acc| <= i < j < |r|
          ensures r[i] in xs && r[j] in xs && FirstIndex(xs, r[i]) < FirstIndex(xs, r[j])
        {
          assert a[i] in d && a[j] in d;
        }
      }
    } else {
      assert AppendNew(acc, xs) == acc;
    }
  }

  /** Two guarded-append loops in a row are one loop over both inputs. */
  lemma {:induction false} AppendNewConcat<T(!new)>(acc: seq<T>, xs: seq<T>, ys: seq<T>)
    ensures AppendNew(AppendNew(acc, xs), ys) == AppendNew(acc, xs + ys)
    decreases |ys|
  {
    if ys == [] {
      assert xs + ys == xs;
    } else {
      assert DropLast(xs + ys) == xs + DropLast(ys);
      assert Last(xs + ys) == Last(ys);
      AppendNewConcat(acc, xs, DropLast(ys));
    }
  }

  /** On an input without repeats that shares nothing with `acc`, the guard
      never fires: every element is appended. */
  lemma {:induction false} AppendNewDistinct<T(!new)>(acc: seq<T>, xs: seq<T>)
    requires NoDup(xs)
    requires forall x :: x in xs ==> x !in acc
    ensures AppendNew(acc, xs) == acc + xs
    decreases |xs|
  {
    if xs != [] {
      var d := DropLast(xs);
      NoDupDropLast(xs);
      assert xs == d + [Last(xs)];
      forall x | x in d
        ensures x !in acc
      {
        assert x in xs;
      }
      AppendNewDistinct(acc, d);
      assert Last(xs) in xs;
      assert Last(xs) !in acc + d;
    }
  }

  lemma NoDupDropLast<T>(xs: seq<T>)
    requires xs != [] && NoDup(xs)
    ensures NoDup(DropLast(xs)) && Last(xs) !in DropLast(xs)
  {
    var d := DropLast(xs);
    forall i, j | 0 <= i < j < |d|
      ensures d[i] != d[j]
    {
      assert d[i] == xs[i] && d[j] == xs[j];
    }
    forall i | 0 <= i < |d|
      ensures d[i] != Last(xs)
    {
      assert d[i] == xs[i];
    }
  }

  /** The elements of `xs` that satisfy `keep`, in order. */
  function Filter<T(!new)>(keep: T -> bool, xs: seq<T>): (r: seq<T>)
    ensures |r| <= |xs|
    ensures forall x :: x in r <==> x in xs && keep(x)
    decreases |xs|
  {
    if xs == [] then []
    else
      assert forall x :: x in xs <==> x in DropLast(xs) || x == Last(xs);
      Filter(keep, DropLast(xs)) + if keep(Last(xs)) then [Last(xs)] else []
  }

  lemma FilterSnoc<T(!new)>(keep: T -> bool, xs: seq<T>, x: T)
    ensures Filter(keep, xs + [x]) == Filter(keep, xs) + if keep(x) then [x] else []
  {
    DropLastOfSnoc(xs, x);
  }

  lemma {:induction false} FilterConcat<T(!new)>(keep: T -> bool, xs: seq<T>, ys: seq<T>)
    ensures Filter(keep, xs + ys) == Filter(keep, xs) + Filter(keep, ys)
    decreases |ys|
  {
    if ys == [] {
      assert xs + ys == xs;
    } else {
      var d := DropLast(ys);
      assert xs + ys == (xs + d) + [Last(ys)];
      assert ys == d + [Last(ys)];
      FilterSnoc(keep, xs + d, Last(ys));
      FilterSnoc(keep, d, Last(ys));
      FilterConcat(keep, xs, d);
    }
  }

  lemma AppendNewSnoc<T(!new)>(acc: seq<T>, xs: seq<T>, x: T)
    ensures AppendNew(acc, xs + [x]) ==
            var a := AppendNew(acc, xs); if x in a then a else a + [x]
  {
    DropLastOfSnoc(xs, x);
  }

  /** One more turn of a loop that appends each kept, new element of `xs`. */
  lemma AppendNewFilterStep<T(!new)>(keep: T -> bool, acc: seq<T>, xs: seq<T>, m: nat)
    requires m < |xs|
    ensures AppendNew(acc, Filter(keep, xs[..m + 1])) ==
            var a := AppendNew(acc, Filter(keep, xs[..m]));
            if keep(xs[m]) && xs[m] !in a then a + [xs[m]] else a
  {
    var kept := Filter(keep, xs[..m]);
    assert xs[..m + 1] == xs[..m] + [xs[m]];
    FilterSnoc(keep, xs[..m], xs[m]);
    if keep(xs[m]) {
      AppendNewSnoc(acc, kept, xs[m]);
    } else {
      assert kept + [] == kept;
    }
  }

  /** `f` applied to each element of `xs`. */
  function Map<A, B>(f: A -> B, xs: seq<A>): seq<B>
    decreases |xs|
  {
    if xs == [] then [] else Map(f, DropLast(xs)) + [f(Last(xs))]
  }

  lemma {:induction false} MapAt<A, B>(f: A -> B, xs: seq<A>)
    ensures |Map(f, xs)| == |xs|
    ensures forall k :: 0 <= k < |xs| ==> Map(f, xs)[k] == f(xs[k])
    decreases |xs|
  {
    if xs != [] {
      MapAt(f, DropLast(xs));
    }
  }

  lemma MapSnoc<A, B>(f: A -> B, xs: seq<A>, x: A)
    ensures Map(f, xs + [x]) == Map(f, xs) + [f(x)]
  {
    DropLastOfSnoc(xs, x);
  }

  lemma {:induction false} MapConcat<A, B>(f: A -> B, xs: seq<A>, ys: seq<A>)
    ensures Map(f, xs + ys) == Map(f, xs) + Map(f, ys)
    decreases |ys|
  {
    if ys == [] {
      assert xs + ys == xs;
    } else {
      var d := DropLast(ys);
      MapConcat(f, xs, d);
      assert xs + ys == (xs + d) + [Last(ys)];
      assert ys == d + [Last(ys)];
      MapSnoc(f, xs + d, Last(ys));
      MapSnoc(f, d, Last(ys));
    }
  }

  /** A list made from the set of `l`'s elements: the same elements, each once. */
  ghost predicate SameElemsNoDup<T>(r: seq<T>, l: seq<T>)
  {
    NoDup(r) && Elems(r) == Elems(l)
  }
}
