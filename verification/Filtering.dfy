// The elements of a list that pass a test, in their order; and what that means position by position.
module Filtering {
  function Filter<T>(s: seq<T>, keep: T -> bool): (r: seq<T>)
    ensures forall x :: x in r ==> keep(x)
  {
    if s == [] then []
    else
      var front, last := Filter(s[..|s| - 1], keep), s[|s| - 1];
      if keep(last) then front + [last] else front
  }

  predicate Climbing(places: seq<nat>) { forall i, j :: 0 <= i < j < |places| ==> places[i] < places[j] }

  /** `places` are the positions in s, from left to right, of everything that passes; r is what stands there. */
  predicate Picks<T(==)>(r: seq<T>, s: seq<T>, keep: T -> bool, places: seq<nat>) {
    && |r| == |places| && Climbing(places)
    && (forall i :: 0 <= i < |places| ==> places[i] < |s| && r[i] == s[places[i]] && keep(s[places[i]]))
    && forall j :: 0 <= j < |s| && keep(s[j]) ==> j in places
  }

  lemma PicksOneMore<T>(r: seq<T>, s: seq<T>, x: T, keep: T -> bool, places: seq<nat>)
    requires Picks(r, s, keep, places)
    ensures keep(x) ==> Picks(r + [x], s + [x], keep, places + [|s|])
    ensures !keep(x) ==> Picks(r, s + [x], keep, places)
  {
    var all, more := s + [x], places + [|s|];
    assert forall j :: 0 <= j < |s| ==> all[j] == s[j];
    assert more[|places|] == |s|;
    forall j | j in places ensures j in more {
      var i :| 0 <= i < |places| && places[i] == j;
      assert more[i] == j;
    }
  }

  lemma {:induction false} FilterPicks<T>(s: seq<T>, keep: T -> bool) returns (places: seq<nat>)
    ensures Picks(Filter(s, keep), s, keep, places)
  {
    places := [];
    if s != [] {
      var front, last := s[..|s| - 1], s[|s| - 1];
      places := FilterPicks(front, keep);
      PicksOneMore(Filter(front, keep), front, last, keep, places);
      assert s == front + [last];
      places := if keep(last) then places + [|front|] else places;
    }
  }

  lemma FilterOneMore<T>(s: seq<T>, x: T, keep: T -> bool)
    ensures Filter(s + [x], keep) == Filter(s, keep) + if keep(x) then [x] else []
  {
    assert (s + [x])[..|s|] == s;
  }

  lemma {:induction false} FilterAppend<T>(a: seq<T>, b: seq<T>, keep: T -> bool)
    ensures Filter(a + b, keep) == Filter(a, keep) + Filter(b, keep)
  {
    if b == [] {
      assert a + b == a;
    } else {
      var front, last := b[..|b| - 1], b[|b| - 1];
      FilterAppend(a, front, keep);
      FilterAppendLast(a, front, last, keep);
      assert b == front + [last];
    }
  }

  lemma FilterAppendLast<T>(a: seq<T>, b: seq<T>, last: T, keep: T -> bool)
    requires Filter(a + b, keep) == Filter(a, keep) + Filter(b, keep)
    ensures Filter(a + (b + [last]), keep) == Filter(a, keep) + Filter(b + [last], keep)
  {
    var t := if keep(last) then [last] else [];
    calc {
      Filter(a + (b + [last]), keep);
      { assert a + (b + [last]) == (a + b) + [last]; }
      Filter((a + b) + [last], keep);
      { FilterOneMore(a + b, last, keep); }
      Filter(a + b, keep) + t;
      { assert (Filter(a, keep) + Filter(b, keep)) + t == Filter(a, keep) + (Filter(b, keep) + t); }
      Filter(a, keep) + (Filter(b, keep) + t);
      { FilterOneMore(b, last, keep); }
      Filter(a, keep) + Filter(b + [last], keep);
    }
  }

  lemma {:induction false} FilterSize<T>(s: seq<T>, keep: T -> bool)
    ensures |Filter(s, keep)| <= |s|
    ensures (forall i :: 0 <= i < |s| ==> keep(s[i])) ==> Filter(s, keep) == s
    ensures (forall i :: 0 <= i < |s| ==> !keep(s[i])) ==> Filter(s, keep) == []
  {
    if s != [] {
      FilterSize(s[..|s| - 1], keep);
      assert s == s[..|s| - 1] + [s[|s| - 1]];
    }
  }

  // Permutations have as many elements that pass.
  lemma FilterPermutes<T>(a: seq<T>, b: seq<T>, keep: T -> bool)
    requires multiset(a) == multiset(b)
    ensures |Filter(a, keep)| == |Filter(b, keep)|
  {
    var m, n := multiset(Filter(a, keep)), multiset(Filter(b, keep));
    forall x ensures m[x] == n[x] {
      FilterCount(a, keep, x);
      FilterCount(b, keep, x);
    }
    SameCounts(m, n);
  }

  lemma SameCounts<T>(m: multiset<T>, n: multiset<T>)
    requires forall x :: m[x] == n[x]
    ensures m == n && |m| == |n|
  {
  }

  lemma {:induction false} FilterCount<T>(s: seq<T>, keep: T -> bool, x: T)
    ensures multiset(Filter(s, keep))[x] == if keep(x) then multiset(s)[x] else 0
  {
    if s != [] {
      var front, last := s[..|s| - 1], s[|s| - 1];
      FilterCount(front, keep, x);
      assert s == front + [last];
    }
  }
}
