/** Stable sorting by a numeric key: equal keys keep their order. */
module Sorting {
  /** Puts `x` behind every element whose key is not larger. */
  function Insert<T>(sorted: seq<T>, x: T, key: T -> int): seq<T> {
    if sorted == [] || key(sorted[|sorted| - 1]) <= key(x) then sorted + [x]
    else Insert(sorted[..|sorted| - 1], x, key) + [sorted[|sorted| - 1]]
  }

  function Sorted<T>(s: seq<T>, key: T -> int): seq<T> {
    if s == [] then [] else Insert(Sorted(s[..|s| - 1], key), s[|s| - 1], key)
  }

  ghost predicate InOrder<T(!new)>(s: seq<T>, key: T -> int) {
    forall i, j :: 0 <= i < j < |s| ==> key(s[i]) <= key(s[j])
  }

  ghost predicate DistinctKeys<T(!new)>(s: seq<T>, key: T -> int) {
    forall i, j :: 0 <= i < j < |s| ==> key(s[i]) != key(s[j])
  }

  lemma {:induction false} InsertKeepsElements<T>(sorted: seq<T>, x: T, key: T -> int)
    ensures multiset(Insert(sorted, x, key)) == multiset(sorted) + multiset{x}
  {
    if sorted != [] && key(sorted[|sorted| - 1]) > key(x) {
      var init, last := sorted[..|sorted| - 1], sorted[|sorted| - 1];
      InsertKeepsElements(init, x, key);
      assert sorted == init + [last];
    }
  }

  lemma {:induction false} InsertKeepsOrder<T(!new)>(sorted: seq<T>, x: T, key: T -> int)
    requires InOrder(sorted, key)
    ensures InOrder(Insert(sorted, x, key), key)
    ensures forall i :: 0 <= i < |Insert(sorted, x, key)| ==>
      var k := key(Insert(sorted, x, key)[i]);
      k <= key(x) || (sorted != [] && k <= key(sorted[|sorted| - 1]))
  {
    if sorted != [] && key(sorted[|sorted| - 1]) > key(x) {
      InsertKeepsOrder(sorted[..|sorted| - 1], x, key);
    }
  }

  /** The result has the same elements, in order. */
  lemma {:induction false} SortingIsCorrect<T(!new)>(s: seq<T>, key: T -> int)
    ensures InOrder(Sorted(s, key), key)
    ensures multiset(Sorted(s, key)) == multiset(s)
  {
    if s != [] {
      var init, last := s[..|s| - 1], s[|s| - 1];
      SortingIsCorrect(init, key);
      hide InOrder;
      InsertKeepsOrder(Sorted(init, key), last, key);
      InsertKeepsElements(Sorted(init, key), last, key);
      assert s == init + [last];
    }
  }

  /** An element of one sequence is at some index of any other with the same elements. */
  lemma FoundIn<T>(a: seq<T>, b: seq<T>, x: T) returns (i: nat)
    requires multiset(a) == multiset(b) && x in a
    ensures i < |b| && b[i] == x
  {
    assert x in multiset(b);
    i :| i < |b| && b[i] == x;
  }

  lemma DropLastElement<T>(s: seq<T>)
    requires s != []
    ensures multiset(s[..|s| - 1]) == multiset(s) - multiset{s[|s| - 1]}
  {
    assert s == s[..|s| - 1] + [s[|s| - 1]];
  }

  lemma DropLastKeepsOrder<T(!new)>(s: seq<T>, key: T -> int)
    requires s != [] && InOrder(s, key)
    ensures InOrder(s[..|s| - 1], key) && (DistinctKeys(s, key) ==> DistinctKeys(s[..|s| - 1], key))
  {
  }

  lemma SameLast<T(!new)>(a: seq<T>, b: seq<T>, key: T -> int)
    requires InOrder(a, key) && InOrder(b, key) && multiset(a) == multiset(b) && a != []
    requires DistinctKeys(a, key)
    ensures b != [] && a[|a| - 1] == b[|b| - 1]
  {
    var x := a[|a| - 1];
    var i := FoundIn(a, b, x);
    var y := b[|b| - 1];
    var j := FoundIn(b, a, y);
    assert key(x) <= key(y) <= key(x);
  }

  /** Where keys are distinct, there is only one way to put the elements in order. */
  lemma {:induction false} OrderIsUnique<T(!new)>(a: seq<T>, b: seq<T>, key: T -> int)
    requires InOrder(a, key) && InOrder(b, key) && multiset(a) == multiset(b)
    requires DistinctKeys(a, key)
    ensures a == b
    decreases |a|
  {
    hide InOrder, DistinctKeys;
    assert |a| == |multiset(a)| == |multiset(b)| == |b|;
    if a != [] {
      SameLast(a, b, key);
      DropLastElement(a);
      DropLastElement(b);
      DropLastKeepsOrder(a, key);
      DropLastKeepsOrder(b, key);
      OrderIsUnique(a[..|a| - 1], b[..|b| - 1], key);
      assert a == a[..|a| - 1] + [a[|a| - 1]];
    }
  }

  lemma InsertAtEnd<T>(sorted: seq<T>, x: T, key: T -> int)
    requires sorted == [] || key(sorted[|sorted| - 1]) <= key(x)
    ensures Insert(sorted, x, key) == sorted + [x]
  {
  }

  /** Sorting is stable: it leaves a sorted sequence as it is. */
  lemma {:induction false} SortingKeepsSorted<T(!new)>(s: seq<T>, key: T -> int)
    requires InOrder(s, key)
    ensures Sorted(s, key) == s
  {
    if s != [] {
      var init, last := s[..|s| - 1], s[|s| - 1];
      assert init == [] || key(init[|init| - 1]) <= key(last);
      InsertAtEnd(init, last, key);
      SortingKeepsSorted(init, key);
    }
  }

  lemma {:induction false} InsertKeepsDistinct<T(!new)>(sorted: seq<T>, x: T, key: T -> int, id: T -> int)
    requires DistinctKeys(sorted, id)
    requires forall i :: 0 <= i < |sorted| ==> id(sorted[i]) != id(x)
    ensures DistinctKeys(Insert(sorted, x, key), id)
    ensures forall y :: y in Insert(sorted, x, key) ==> y in sorted || y == x
  {
    if sorted != [] && key(sorted[|sorted| - 1]) > key(x) {
      var init, last := sorted[..|sorted| - 1], sorted[|sorted| - 1];
      InsertKeepsDistinct(init, x, key, id);
      var r := Insert(init, x, key);
      forall i | 0 <= i < |r| ensures id(r[i]) != id(last) {
        assert r[i] in r;
      }
    }
  }

  /** Sorting by one key keeps another one distinct. */
  lemma {:induction false} SortingKeepsDistinct<T(!new)>(s: seq<T>, key: T -> int, id: T -> int)
    requires DistinctKeys(s, id)
    ensures DistinctKeys(Sorted(s, key), id)
    ensures forall y :: y in Sorted(s, key) ==> y in s
  {
    if s != [] {
      var init, last := s[..|s| - 1], s[|s| - 1];
      SortingKeepsDistinct(init, key, id);
      var r := Sorted(init, key);
      forall i | 0 <= i < |r| ensures id(r[i]) != id(last) {
        assert r[i] in init;
      }
      InsertKeepsDistinct(r, last, key, id);
    }
  }

  // ---------- Counting ----------

  function Count<T>(s: seq<T>, p: T -> bool): nat {
    if s == [] then 0 else (if p(s[0]) then 1 else 0) + Count(s[1..], p)
  }

  lemma {:induction false} CountAppend<T>(a: seq<T>, b: seq<T>, p: T -> bool)
    ensures Count(a + b, p) == Count(a, p) + Count(b, p)
  {
    if a == [] {
      assert a + b == b;
    } else {
      assert (a + b)[1..] == a[1..] + b;
      CountAppend(a[1..], b, p);
    }
  }

  lemma {:induction false} InsertKeepsCount<T>(sorted: seq<T>, x: T, key: T -> int, p: T -> bool)
    ensures Count(Insert(sorted, x, key), p) == Count(sorted, p) + Count([x], p)
  {
    if sorted == [] || key(sorted[|sorted| - 1]) <= key(x) {
      CountAppend(sorted, [x], p);
    } else {
      var init, last := sorted[..|sorted| - 1], sorted[|sorted| - 1];
      InsertKeepsCount(init, x, key, p);
      CountAppend(Insert(init, x, key), [last], p);
      CountAppend(init, [last], p);
      assert sorted == init + [last];
    }
  }

  lemma {:induction false} SortingKeepsCount<T>(s: seq<T>, key: T -> int, p: T -> bool)
    ensures Count(Sorted(s, key), p) == Count(s, p)
  {
    if s != [] {
      var init, last := s[..|s| - 1], s[|s| - 1];
      SortingKeepsCount(init, key, p);
      InsertKeepsCount(Sorted(init, key), last, key, p);
      CountAppend(init, [last], p);
      assert s == init + [last];
    }
  }
}
