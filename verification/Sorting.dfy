// The library sort used by the program (sort.Slice, sort.Sort, sort.SliceStable), by an integer key.
module Sorting {
  predicate Sorted<T>(s: seq<T>, key: T -> int) {
    forall i, j :: 0 <= i < j < |s| ==> key(s[i]) <= key(s[j])
  }

  // Elements with the same key are the same element.
  predicate Distinguishes<T(==)>(s: seq<T>, key: T -> int) {
    forall x, y :: x in s && y in s && key(x) == key(y) ==> x == y
  }

  lemma MultisetSplit<T>(s: seq<T>, i: nat)
    requires i < |s|
    ensures multiset(s) == multiset(s[..i] + s[i + 1..]) + multiset{s[i]}
  {
    assert s == s[..i] + [s[i]] + s[i + 1..];
  }

  lemma SameElements<T>(a: seq<T>, b: seq<T>)
    requires multiset(a) == multiset(b)
    ensures |a| == |b| && forall x :: x in a <==> x in b
  {
    assert |multiset(a)| == |multiset(b)|;
    forall x ensures x in a <==> x in b {
      assert x in multiset(a) <==> x in multiset(b);
    }
  }

  function Position<T>(s: seq<T>, x: T, key: T -> int): (i: nat)
    requires Sorted(s, key)
    ensures i <= |s|
    ensures forall j :: 0 <= j < i ==> key(s[j]) <= key(x)
    ensures forall j :: i <= j < |s| ==> key(x) < key(s[j])
  {
    if s == [] || key(s[|s| - 1]) <= key(x) then |s| else Position(s[..|s| - 1], x, key)
  }

  function Insert<T>(s: seq<T>, x: T, key: T -> int): (r: seq<T>)
    requires Sorted(s, key)
    ensures Sorted(r, key)
    ensures multiset(r) == multiset(s) + multiset{x}
  {
    var i := Position(s, x, key);
    assert s == s[..i] + s[i..];
    s[..i] + [x] + s[i..]
  }

  /** Sorting permutes and orders; when keys tell elements apart, SortedUnique makes it the only result. */
  function Sort<T>(s: seq<T>, key: T -> int): (r: seq<T>)
    ensures Sorted(r, key)
    ensures multiset(r) == multiset(s)
  {
    if s == [] then []
    else
      assert s == s[..|s| - 1] + [s[|s| - 1]];
      Insert(Sort(s[..|s| - 1], key), s[|s| - 1], key)
  }

  lemma SortedHead<T>(a: seq<T>, b: seq<T>, key: T -> int)
    requires Sorted(a, key) && Sorted(b, key) && multiset(a) == multiset(b) && Distinguishes(a, key) && a != []
    ensures b != [] && a[0] == b[0]
  {
    SameElements(a, b);
    assert b[0] in a && a[0] in b;
  }

  // Two permutations of each other with one occurrence of the same element taken out of each.
  lemma RemovePermutes<T>(a: seq<T>, i: nat, b: seq<T>, j: nat)
    requires i < |a| && j < |b| && a[i] == b[j] && multiset(a) == multiset(b)
    ensures multiset(a[..i] + a[i + 1..]) == multiset(b[..j] + b[j + 1..])
  {
    MultisetSplit(a, i);
    MultisetSplit(b, j);
    var x, y := multiset(a[..i] + a[i + 1..]), multiset(b[..j] + b[j + 1..]);
    assert x == (x + multiset{a[i]}) - multiset{a[i]};
    assert y == (y + multiset{a[i]}) - multiset{a[i]};
  }

  lemma TailPermutes<T>(a: seq<T>, b: seq<T>)
    requires a != [] && b != [] && a[0] == b[0] && multiset(a) == multiset(b)
    ensures multiset(a[1..]) == multiset(b[1..])
  {
    RemovePermutes(a, 0, b, 0);
    assert a[..0] + a[1..] == a[1..] && b[..0] + b[1..] == b[1..];
  }

  lemma TailSorted<T>(a: seq<T>, key: T -> int)
    requires a != [] && Sorted(a, key)
    ensures Sorted(a[1..], key) && (Distinguishes(a, key) ==> Distinguishes(a[1..], key))
  {
    assert forall x :: x in a[1..] ==> x in a;
  }

  lemma {:induction false} SortedUnique<T>(a: seq<T>, b: seq<T>, key: T -> int)
    requires Sorted(a, key) && Sorted(b, key) && multiset(a) == multiset(b) && Distinguishes(a, key)
    ensures a == b
  {
    if a != [] {
      SortedHead(a, b, key);
      TailPermutes(a, b);
      TailSorted(a, key);
      TailSorted(b, key);
      SortedUnique(a[1..], b[1..], key);
      assert a == [a[0]] + a[1..] && b == [b[0]] + b[1..];
    } else {
      SameElements(a, b);
    }
  }

  function MapSeq<T, U>(s: seq<T>, f: T -> U): (r: seq<U>)
    ensures |r| == |s| && forall i :: 0 <= i < |s| ==> r[i] == f(s[i])
  {
    seq(|s|, i requires 0 <= i < |s| => f(s[i]))
  }

  // Mapping a permutation gives a permutation.
  lemma MapSplit<T, U>(s: seq<T>, i: nat, f: T -> U)
    requires i < |s|
    ensures multiset(MapSeq(s, f)) == multiset(MapSeq(s[..i] + s[i + 1..], f)) + multiset{f(s[i])}
  {
    var m := MapSeq(s, f);
    MultisetSplit(m, i);
    assert MapSeq(s[..i] + s[i + 1..], f) == m[..i] + m[i + 1..];
  }

  lemma {:induction false} MapPermutes<T, U>(a: seq<T>, b: seq<T>, f: T -> U)
    requires multiset(a) == multiset(b)
    ensures multiset(MapSeq(a, f)) == multiset(MapSeq(b, f))
    decreases |a|
  {
    SameElements(a, b);
    if a == [] {
      assert MapSeq(a, f) == MapSeq(b, f);
    } else {
      assert a[0] in b;
      var i :| 0 <= i < |b| && b[i] == a[0];
      var a', b' := a[..0] + a[1..], b[..i] + b[i + 1..];
      RemovePermutes(a, 0, b, i);
      MapPermutes(a', b', f);
      assert multiset(MapSeq(a, f)) == multiset(MapSeq(a', f)) + multiset{f(a[0])} by { MapSplit(a, 0, f); }
      assert multiset(MapSeq(b, f)) == multiset(MapSeq(b', f)) + multiset{f(b[i])} by { MapSplit(b, i, f); }
    }
  }

  predicate Strict<T>(s: seq<T>, key: T -> int) {
    forall i, j :: 0 <= i < j < |s| ==> key(s[i]) < key(s[j])
  }

  lemma SortStrict<T>(s: seq<T>, key: T -> int)
    requires Strict(s, key)
    ensures Sort(s, key) == s
  {
    forall x, y | x in s && y in s && key(x) == key(y) ensures x == y {
      var i :| 0 <= i < |s| && s[i] == x;
      var j :| 0 <= j < |s| && s[j] == y;
    }
    SortedUnique(s, Sort(s, key), key);
  }

  lemma SortSnoc<T>(s: seq<T>, x: T, key: T -> int)
    ensures Sort(s + [x], key) == Insert(Sort(s, key), x, key)
  {
    assert (s + [x])[..|s|] == s;
  }

  lemma StrictAround<T>(s: seq<T>, x: T, key: T -> int, i: nat)
    requires Strict(s, key) && i <= |s|
    requires (forall j :: 0 <= j < i ==> key(s[j]) < key(x)) && forall j :: i <= j < |s| ==> key(x) < key(s[j])
    ensures Strict(s[..i] + [x] + s[i..], key)
  {
    var r := s[..i] + [x] + s[i..];
    forall a, b | 0 <= a < b < |r| ensures key(r[a]) < key(r[b]) {
      assert r[a] == if a < i then s[a] else if a == i then x else s[a - 1];
      assert r[b] == if b < i then s[b] else if b == i then x else s[b - 1];
    }
  }

  /** Appending one element with a new key and sorting again puts it between the lower and the higher ones. */
  lemma SortAppended<T>(s: seq<T>, x: T, key: T -> int) returns (i: nat)
    requires Strict(s, key) && forall j :: 0 <= j < |s| ==> key(s[j]) != key(x)
    ensures i <= |s| && Sort(s + [x], key) == s[..i] + [x] + s[i..]
    ensures (forall j :: 0 <= j < i ==> key(s[j]) < key(x)) && forall j :: i <= j < |s| ==> key(x) < key(s[j])
    ensures Strict(Sort(s + [x], key), key)
  {
    SortStrict(s, key);
    SortSnoc(s, x, key);
    i := Position(s, x, key);
    StrictAround(s, x, key, i);
  }

  lemma StrictTail<T>(a: seq<T>, key: T -> int)
    requires Strict(a, key) && a != []
    ensures Strict(a[1..], key) && forall x :: x in a[1..] ==> key(a[0]) < key(x)
  {
    forall x | x in a[1..] ensures key(a[0]) < key(x) {
      var i :| 0 <= i < |a[1..]| && a[1..][i] == x;
      assert a[i + 1] == x;
    }
  }

  lemma StrictHead<T>(a: seq<T>, x: T, key: T -> int)
    requires Strict(a, key) && x in a
    ensures key(a[0]) <= key(x) && (key(a[0]) == key(x) ==> a[0] == x)
  {
    var i :| 0 <= i < |a| && a[i] == x;
  }

  lemma SameTails<T>(a: seq<T>, b: seq<T>, key: T -> int)
    requires Strict(a, key) && Strict(b, key) && (forall x :: x in a <==> x in b)
    requires a != [] && b != [] && a[0] == b[0]
    ensures forall x :: x in a[1..] <==> x in b[1..]
  {
    StrictTail(a, key);
    StrictTail(b, key);
    forall x ensures x in a[1..] <==> x in b[1..] {
      assert x in a <==> x == a[0] || x in a[1..] by { assert a == [a[0]] + a[1..]; }
      assert x in b <==> x == b[0] || x in b[1..] by { assert b == [b[0]] + b[1..]; }
    }
  }

  /** Strictly sorted sequences with the same elements are the same. */
  lemma {:induction false} StrictUnique<T>(a: seq<T>, b: seq<T>, key: T -> int)
    requires Strict(a, key) && Strict(b, key) && forall x :: x in a <==> x in b
    ensures a == b
  {
    if a + b != [] {
      assert (a + b)[0] in a && (a + b)[0] in b;
      StrictHead(a, b[0], key);
      StrictHead(b, a[0], key);
      StrictTail(a, key);
      StrictTail(b, key);
      SameTails(a, b, key);
      StrictUnique(a[1..], b[1..], key);
      assert a == [a[0]] + a[1..] && b == [b[0]] + b[1..];
    }
  }

  predicate DistinctKeys<T>(s: seq<T>, key: T -> int) {
    forall i, j :: 0 <= i < j < |s| ==> key(s[i]) != key(s[j])
  }

  lemma {:induction false} SortDistinct<T>(s: seq<T>, key: T -> int)
    requires DistinctKeys(s, key)
    ensures Strict(Sort(s, key), key)
  {
    if s != [] {
      var front, x := s[..|s| - 1], s[|s| - 1];
      assert s == front + [x];
      SortDistinct(front, key);
      SortSnoc(front, x, key);
      InsertStrict(Sort(front, key), front, x, key);
    }
  }

  lemma InsertStrict<T>(sorted: seq<T>, s: seq<T>, x: T, key: T -> int)
    requires Strict(sorted, key) && multiset(sorted) == multiset(s) && forall j :: 0 <= j < |s| ==> key(s[j]) != key(x)
    ensures Strict(Insert(sorted, x, key), key)
  {
    SameElements(sorted, s);
    forall j | 0 <= j < |sorted| ensures key(sorted[j]) != key(x) {
      assert sorted[j] in s;
    }
    StrictAround(sorted, x, key, Position(sorted, x, key));
  }

  // Whether some element has this key: the search loops of the pools.
  method HasKey<T>(s: seq<T>, k: int, key: T -> int) returns (found: bool)
    ensures found <==> exists i :: 0 <= i < |s| && key(s[i]) == k
  {
    for i := 0 to |s|
      invariant forall j :: 0 <= j < i ==> key(s[j]) != k
    {
      if key(s[i]) == k {
        return true;
      }
    }
    return false;
  }
}
