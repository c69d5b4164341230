/** Lexicographic order and sorting, for module paths and for encoded keys. */
module Ordering {
  /** Lexicographic order, a prefix before its extensions. */
  predicate LexLe(a: seq<int>, b: seq<int>) {
    a == [] || (b != [] && (a[0] < b[0] || (a[0] == b[0] && LexLe(a[1..], b[1..]))))
  }

  lemma {:induction false} LexTotal(a: seq<int>, b: seq<int>)
    ensures LexLe(a, b) || LexLe(b, a)
  {
    if a != [] && b != [] && a[0] == b[0] {
      LexTotal(a[1..], b[1..]);
    }
  }

  lemma {:induction false} LexTransitive(a: seq<int>, b: seq<int>, c: seq<int>)
    requires LexLe(a, b) && LexLe(b, c)
    ensures LexLe(a, c)
  {
    if a != [] && a[0] == b[0] && b[0] == c[0] {
      LexTransitive(a[1..], b[1..], c[1..]);
    }
  }

  lemma {:induction false} LexAntisymmetric(a: seq<int>, b: seq<int>)
    requires LexLe(a, b) && LexLe(b, a)
    ensures a == b
  {
    if a != [] {
      LexAntisymmetric(a[1..], b[1..]);
      assert a == [a[0]] + a[1..] && b == [b[0]] + b[1..];
    }
  }

  /** Items in ascending order of their keys. */
  ghost predicate Ascending<T(!new)>(xs: seq<T>, key: T -> seq<int>) {
    forall i, j | 0 <= i < j < |xs| :: LexLe(key(xs[i]), key(xs[j]))
  }

  function Insert<T>(xs: seq<T>, x: T, key: T -> seq<int>): seq<T> {
    if xs == [] || !LexLe(key(xs[|xs| - 1]), key(x)) then
      if xs == [] then [x] else Insert(xs[..|xs| - 1], x, key) + [xs[|xs| - 1]]
    else xs + [x]
  }

  /** Stable insertion sort. */
  function Sort<T>(xs: seq<T>, key: T -> seq<int>): seq<T> {
    if xs == [] then [] else Insert(Sort(xs[..|xs| - 1], key), xs[|xs| - 1], key)
  }

  lemma {:induction false} InsertItems<T>(xs: seq<T>, x: T, key: T -> seq<int>)
    ensures multiset(Insert(xs, x, key)) == multiset(xs) + multiset{x}
  {
    hide LexLe;
    if xs != [] && !LexLe(key(xs[|xs| - 1]), key(x)) {
      var front, last := xs[..|xs| - 1], xs[|xs| - 1];
      InsertItems(front, x, key);
      assert xs == front + [last];
      assert multiset(xs) == multiset(front) + multiset{last};
    }
  }

  lemma {:induction false} InsertSorted<T(!new)>(xs: seq<T>, x: T, key: T -> seq<int>)
    requires Ascending(xs, key)
    ensures Ascending(Insert(xs, x, key), key)
  {
    hide LexLe;
    if xs != [] && !LexLe(key(xs[|xs| - 1]), key(x)) {
      var front, last := xs[..|xs| - 1], xs[|xs| - 1];
      InsertSorted(front, x, key);
      LexTotal(key(x), key(last));
      var inner := Insert(front, x, key);
      InsertItems(front, x, key);
      forall i | 0 <= i < |inner|
        ensures LexLe(key(inner[i]), key(last))
      {
        assert inner[i] in multiset(inner);
      }
    } else if xs != [] {
      forall i | 0 <= i < |xs|
        ensures LexLe(key(xs[i]), key(x))
      {
        if i < |xs| - 1 {
          LexTransitive(key(xs[i]), key(xs[|xs| - 1]), key(x));
        }
      }
    }
  }

  lemma AscendingEmpty<T(!new)>(key: T -> seq<int>)
    ensures Ascending([], key)
  {
  }

  lemma {:induction false} SortSorts<T(!new)>(xs: seq<T>, key: T -> seq<int>)
    ensures Ascending(Sort(xs, key), key) && multiset(Sort(xs, key)) == multiset(xs)
  {
    hide LexLe, Insert, Ascending;
    if xs == [] {
      AscendingEmpty(key);
    } else {
      var n := |xs| - 1;
      SortSorts(xs[..n], key);
      InsertSorted(Sort(xs[..n], key), xs[n], key);
      InsertItems(Sort(xs[..n], key), xs[n], key);
      assert xs == xs[..n] + [xs[n]];
    }
  }

  /** What is in ascending order already stays as it is. */
  lemma {:induction false} SortAscending<T(!new)>(xs: seq<T>, key: T -> seq<int>)
    requires Ascending(xs, key)
    ensures Sort(xs, key) == xs
  {
    hide LexLe;
    if xs != [] {
      var n := |xs| - 1;
      SortAscending(xs[..n], key);
      if n > 0 {
        assert LexLe(key(xs[n - 1]), key(xs[n]));
      }
      assert xs[..n] + [xs[n]] == xs;
    }
  }

  lemma SortKeepsMembers<T(!new)>(xs: seq<T>, key: T -> seq<int>)
    ensures |Sort(xs, key)| == |xs| && forall x :: x in Sort(xs, key) <==> x in xs
  {
    SortSorts(xs, key);
    var ys := Sort(xs, key);
    assert |multiset(ys)| == |ys| && |multiset(xs)| == |xs|;
    forall x
      ensures x in ys <==> x in xs
    {
      assert x in ys <==> x in multiset(ys);
      assert x in xs <==> x in multiset(xs);
    }
  }

  lemma LastMember<T>(xs: seq<T>, ys: seq<T>) returns (i: nat)
    requires multiset(xs) == multiset(ys) && ys != []
    ensures |xs| == |ys| && i < |xs| && xs[i] == ys[|ys| - 1]
  {
    assert |multiset(xs)| == |xs| && |multiset(ys)| == |ys|;
    assert ys[|ys| - 1] in multiset(ys) && ys[|ys| - 1] in multiset(xs);
    i :| 0 <= i < |xs| && xs[i] == ys[|ys| - 1];
  }

  lemma WithoutLast<T>(xs: seq<T>)
    requires xs != []
    ensures multiset(xs[..|xs| - 1]) == multiset(xs) - multiset{xs[|xs| - 1]}
  {
    assert xs == xs[..|xs| - 1] + [xs[|xs| - 1]];
  }

  lemma AscendingPrefix<T(!new)>(xs: seq<T>, key: T -> seq<int>)
    requires xs != [] && Ascending(xs, key)
    ensures Ascending(xs[..|xs| - 1], key)
  {
  }

  ghost predicate DistinctKeys<T(!new)>(xs: seq<T>, key: T -> seq<int>) {
    forall i, j | 0 <= i < j < |xs| :: key(xs[i]) != key(xs[j])
  }

  lemma SameLast<T(!new)>(xs: seq<T>, ys: seq<T>, key: T -> seq<int>)
    requires Ascending(xs, key) && Ascending(ys, key) && multiset(xs) == multiset(ys) && ys != []
    requires DistinctKeys(xs, key)
    ensures |xs| == |ys| && xs[|xs| - 1] == ys[|ys| - 1]
  {
    hide LexLe;
    var i := LastMember(xs, ys);
    var j := LastMember(ys, xs);
    var n := |xs| - 1;
    if i < n && j < n {
      LexAntisymmetric(key(xs[n]), key(ys[n]));
    }
  }

  lemma DistinctPrefix<T(!new)>(xs: seq<T>, key: T -> seq<int>)
    requires xs != [] && DistinctKeys(xs, key)
    ensures DistinctKeys(xs[..|xs| - 1], key)
  {
  }

  /** Two ascending arrangements of the same items with distinct keys are the same sequence. */
  lemma {:induction false} AscendingUnique<T(!new)>(xs: seq<T>, ys: seq<T>, key: T -> seq<int>)
    requires Ascending(xs, key) && Ascending(ys, key) && multiset(xs) == multiset(ys) && DistinctKeys(xs, key)
    ensures xs == ys
  {
    hide LexLe, Ascending, DistinctKeys;
    if ys == [] {
      assert |multiset(xs)| == |xs|;
    } else {
      SameLast(xs, ys, key);
      WithoutLast(xs);
      WithoutLast(ys);
      AscendingPrefix(xs, key);
      AscendingPrefix(ys, key);
      DistinctPrefix(xs, key);
      var n := |xs| - 1;
      AscendingUnique(xs[..n], ys[..n], key);
      assert xs == xs[..n] + [xs[n]] && ys == ys[..n] + [ys[n]];
    }
  }

  // ----- what sorting keeps -----

  function Sum<T>(xs: seq<T>, weight: T -> nat): nat {
    if xs == [] then 0 else Sum(xs[..|xs| - 1], weight) + weight(xs[|xs| - 1])
  }

  lemma SumAppend<T>(xs: seq<T>, x: T, weight: T -> nat)
    ensures Sum(xs + [x], weight) == Sum(xs, weight) + weight(x)
  {
    assert (xs + [x])[..|xs|] == xs;
  }

  lemma {:induction false} InsertSum<T>(xs: seq<T>, x: T, key: T -> seq<int>, weight: T -> nat)
    ensures Sum(Insert(xs, x, key), weight) == Sum(xs, weight) + weight(x)
  {
    hide LexLe, Sum;
    if xs == [] {
      SumAppend([], x, weight);
      assert [] + [x] == [x];
    } else if !LexLe(key(xs[|xs| - 1]), key(x)) {
      var front, last := xs[..|xs| - 1], xs[|xs| - 1];
      InsertSum(front, x, key, weight);
      SumAppend(Insert(front, x, key), last, weight);
      SumAppend(front, last, weight);
      assert front + [last] == xs;
    } else {
      SumAppend(xs, x, weight);
    }
  }

  lemma {:induction false} SortSum<T>(xs: seq<T>, key: T -> seq<int>, weight: T -> nat)
    ensures Sum(Sort(xs, key), weight) == Sum(xs, weight)
  {
    if xs != [] {
      SortSum(xs[..|xs| - 1], key, weight);
      InsertSum(Sort(xs[..|xs| - 1], key), xs[|xs| - 1], key, weight);
    }
  }

  lemma InsertMembers<T>(xs: seq<T>, x: T, key: T -> seq<int>)
    ensures forall y :: y in Insert(xs, x, key) <==> y in xs || y == x
  {
    InsertItems(xs, x, key);
    hide Insert;
    var ys := Insert(xs, x, key);
    forall y
      ensures y in ys <==> y in xs || y == x
    {
      assert y in ys <==> y in multiset(ys);
      assert y in xs <==> y in multiset(xs);
    }
  }

  lemma {:induction false} InsertDistinct<T(!new)>(xs: seq<T>, x: T, key: T -> seq<int>)
    requires DistinctKeys(xs, key) && forall i | 0 <= i < |xs| :: key(xs[i]) != key(x)
    ensures DistinctKeys(Insert(xs, x, key), key)
  {
    hide LexLe;
    if xs != [] && !LexLe(key(xs[|xs| - 1]), key(x)) {
      var front, last := xs[..|xs| - 1], xs[|xs| - 1];
      InsertDistinct(front, x, key);
      InsertMembers(front, x, key);
      var inner := Insert(front, x, key);
      forall i | 0 <= i < |inner|
        ensures key(inner[i]) != key(last)
      {
        assert inner[i] in inner;
      }
    }
  }

  /** Sorting items with distinct keys leaves the keys distinct. */
  lemma {:induction false} SortDistinct<T(!new)>(xs: seq<T>, key: T -> seq<int>)
    requires DistinctKeys(xs, key)
    ensures DistinctKeys(Sort(xs, key), key)
  {
    hide Insert;
    if xs != [] {
      var n := |xs| - 1;
      SortDistinct(xs[..n], key);
      SortKeepsMembers(xs[..n], key);
      var front := Sort(xs[..n], key);
      forall i | 0 <= i < |front|
        ensures key(front[i]) != key(xs[n])
      {
        assert front[i] in xs[..n];
      }
      InsertDistinct(front, xs[n], key);
    }
  }

  function Image<T, U>(xs: seq<T>, f: T -> U): seq<U> {
    seq(|xs|, i requires 0 <= i < |xs| => f(xs[i]))
  }

  lemma ImageAppend<T, U>(xs: seq<T>, x: T, f: T -> U)
    ensures Image(xs + [x], f) == Image(xs, f) + [f(x)]
  {
  }

  lemma {:induction false} InsertImage<T, U>(xs: seq<T>, x: T, key: T -> seq<int>, f: T -> U)
    ensures multiset(Image(Insert(xs, x, key), f)) == multiset(Image(xs, f)) + multiset{f(x)}
  {
    hide LexLe, Image;
    if xs == [] {
      ImageAppend([], x, f);
      assert [] + [x] == [x];
      ImageEmpty<T, U>(f);
    } else if !LexLe(key(xs[|xs| - 1]), key(x)) {
      var front, last := xs[..|xs| - 1], xs[|xs| - 1];
      InsertImage(front, x, key, f);
      ImageAppend(Insert(front, x, key), last, f);
      ImageAppend(front, last, f);
      assert xs == front + [last];
    } else {
      ImageAppend(xs, x, f);
    }
  }

  lemma ImageEmpty<T, U>(f: T -> U)
    ensures Image([], f) == []
  {
  }

  /** Sorting permutes the images of the items as it permutes the items. */
  lemma {:induction false} SortImage<T, U>(xs: seq<T>, key: T -> seq<int>, f: T -> U)
    ensures multiset(Image(Sort(xs, key), f)) == multiset(Image(xs, f))
  {
    hide Image, Insert;
    if xs != [] {
      var n := |xs| - 1;
      SortImage(xs[..n], key, f);
      InsertImage(Sort(xs[..n], key), xs[n], key, f);
      ImageAppend(xs[..n], xs[n], f);
      assert xs == xs[..n] + [xs[n]];
    }
  }

  /** Sorting commutes with a map that keeps keys. */
  lemma {:induction false} InsertCommutes<T, U>(xs: seq<T>, x: T, key: T -> seq<int>, f: T -> U, key': U -> seq<int>)
    requires key'(f(x)) == key(x) && forall i | 0 <= i < |xs| :: key'(f(xs[i])) == key(xs[i])
    ensures Image(Insert(xs, x, key), f) == Insert(Image(xs, f), f(x), key')
  {
    if xs != [] {
      var n := |xs| - 1;
      assert Image(xs, f)[..n] == Image(xs[..n], f);
      if !LexLe(key(xs[n]), key(x)) {
        InsertCommutes(xs[..n], x, key, f, key');
        ImageAppend(Insert(xs[..n], x, key), xs[n], f);
      } else {
        ImageAppend(xs, x, f);
      }
    }
  }

  lemma {:induction false} SortCommutes<T(!new), U>(xs: seq<T>, key: T -> seq<int>, f: T -> U, key': U -> seq<int>)
    requires forall i | 0 <= i < |xs| :: key'(f(xs[i])) == key(xs[i])
    ensures Image(Sort(xs, key), f) == Sort(Image(xs, f), key')
  {
    if xs != [] {
      var n := |xs| - 1;
      SortCommutes(xs[..n], key, f, key');
      SortKeepsMembers(xs[..n], key);
      var front := Sort(xs[..n], key);
      forall i | 0 <= i < |front|
        ensures key'(f(front[i])) == key(front[i])
      {
        assert front[i] in xs[..n];
      }
      InsertCommutes(front, xs[n], key, f, key');
      assert Image(xs, f)[..n] == Image(xs[..n], f);
    }
  }

  lemma TakenOut<T>(ys: seq<T>, k: nat)
    requires k < |ys|
    ensures multiset(ys[..k] + ys[k + 1..]) + multiset{ys[k]} == multiset(ys)
  {
    assert ys == ys[..k] + ([ys[k]] + ys[k + 1..]);
    assert multiset(ys) == multiset(ys[..k]) + multiset([ys[k]] + ys[k + 1..]);
    assert multiset([ys[k]] + ys[k + 1..]) == multiset{ys[k]} + multiset(ys[k + 1..]);
  }

  lemma CancelOne<T>(a: multiset<T>, b: multiset<T>, x: T)
    requires a + multiset{x} == b + multiset{x}
    ensures a == b
  {
    forall z
      ensures a[z] == b[z]
    {
      assert (a + multiset{x})[z] == (b + multiset{x})[z];
    }
  }

  lemma ImageTakenOut<T, U>(ys: seq<T>, k: nat, f: T -> U)
    requires k < |ys|
    ensures Image(ys[..k] + ys[k + 1..], f) == Image(ys, f)[..k] + Image(ys, f)[k + 1..]
  {
  }

  /** The images of two arrangements of the same items are arrangements of the same images. */
  lemma {:induction false} ImagePermuted<T, U>(xs: seq<T>, ys: seq<T>, f: T -> U)
    requires multiset(xs) == multiset(ys)
    ensures multiset(Image(xs, f)) == multiset(Image(ys, f))
    decreases |xs|
  {
    if xs == [] {
      assert |multiset(ys)| == |ys|;
    } else {
      var n := |xs| - 1;
      var k := LastMember(ys, xs);
      var rest := ys[..k] + ys[k + 1..];
      TakenOut(xs, n);
      assert xs[..n] + xs[n + 1..] == xs[..n];
      TakenOut(ys, k);
      CancelOne(multiset(xs[..n]), multiset(rest), xs[n]);
      ImagePermuted(xs[..n], rest, f);
      ImageTakenOut(ys, k, f);
      ImageTakenOut(xs, n, f);
      assert Image(xs, f)[..n] + Image(xs, f)[n + 1..] == Image(xs[..n], f);
      TakenOut(Image(ys, f), k);
      TakenOut(Image(xs, f), n);
    }
  }
}
