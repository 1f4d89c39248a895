/** Sorted and cut lists of CPU ids. */
module CpuLists {
  import opened Common

  predicate Ascending(xs: seq<int>) { forall i, j :: 0 <= i < j < |xs| ==> xs[i] < xs[j] }

  function Elements<T>(xs: seq<T>): set<T> { set x | x in xs }

  // ----- sorted(...) -----

  function Insert(xs: seq<int>, x: int): seq<int> {
    if xs == [] then [x] else if x <= xs[0] then [x] + xs else [xs[0]] + Insert(xs[1..], x)
  }

  /** Python's sorted(xs). */
  function Sort(xs: seq<int>): seq<int> {
    if xs == [] then [] else Insert(Sort(xs[..|xs| - 1]), xs[|xs| - 1])
  }

  /** Python's sorted(set(xs)). */
  function SortUnique(xs: seq<int>): seq<int> {
    if xs == [] then []
    else
      var front := SortUnique(xs[..|xs| - 1]);
      if xs[|xs| - 1] in front then front else Insert(front, xs[|xs| - 1])
  }

  lemma {:induction false} InsertFacts(xs: seq<int>, x: int)
    ensures multiset(Insert(xs, x)) == multiset(xs) + multiset{x}
    ensures forall y :: y in Insert(xs, x) <==> y in xs || y == x
    ensures |Insert(xs, x)| == |xs| + 1
  {
    if xs == [] {
    } else if x <= xs[0] {
      assert [x] + xs == Insert(xs, x);
    } else {
      InsertFacts(xs[1..], x);
      assert xs == [xs[0]] + xs[1..];
    }
  }

  lemma {:induction false} InsertAscending(xs: seq<int>, x: int)
    requires Ascending(xs) && x !in xs
    ensures Ascending(Insert(xs, x))
  {
    if xs != [] && x > xs[0] {
      assert xs == [xs[0]] + xs[1..];
      var tail := Insert(xs[1..], x);
      InsertAscending(xs[1..], x);
      InsertFacts(xs[1..], x);
      forall i | 0 <= i < |tail| ensures xs[0] < tail[i] {
        assert tail[i] in tail;
      }
    }
  }

  lemma {:induction false} SortFacts(xs: seq<int>)
    ensures multiset(Sort(xs)) == multiset(xs)
    ensures forall y :: y in Sort(xs) <==> y in xs
    ensures |Sort(xs)| == |xs|
    ensures Distinct(xs) ==> Ascending(Sort(xs))
  {
    if xs != [] {
      var front, last := xs[..|xs| - 1], xs[|xs| - 1];
      SortFacts(front);
      InsertFacts(Sort(front), last);
      assert xs == front + [last];
      if Distinct(xs) {
        assert last !in front;
        InsertAscending(Sort(front), last);
      }
    }
  }

  lemma {:induction false} SortUniqueFacts(xs: seq<int>)
    ensures Ascending(SortUnique(xs))
    ensures forall y :: y in SortUnique(xs) <==> y in xs
  {
    if xs != [] {
      var front, last := xs[..|xs| - 1], xs[|xs| - 1];
      SortUniqueFacts(front);
      InsertFacts(SortUnique(front), last);
      if last !in SortUnique(front) { InsertAscending(SortUnique(front), last); }
      assert xs == front + [last];
    }
  }

  lemma FirstIsLeast(xs: seq<int>, x: int)
    requires Ascending(xs) && x in xs
    ensures xs[0] <= x
  {
    var k :| 0 <= k < |xs| && xs[k] == x;
  }

  lemma RestWithoutFirst(xs: seq<int>)
    requires Ascending(xs) && xs != []
    ensures Ascending(xs[1..]) && forall z :: z in xs[1..] <==> z in xs && z != xs[0]
  {
    assert xs == [xs[0]] + xs[1..];
  }

  /** Ascending lists with the same elements are equal, so the order in which the ids
      were reported does not matter. */
  lemma {:induction false} AscendingUnique(xs: seq<int>, ys: seq<int>)
    requires Ascending(xs) && Ascending(ys) && forall z :: z in xs <==> z in ys
    ensures xs == ys
  {
    assert ys != [] ==> ys[0] in ys;
    if xs != [] {
      assert xs[0] in xs && xs[0] in ys;
      FirstIsLeast(ys, xs[0]);
      FirstIsLeast(xs, ys[0]);
      RestWithoutFirst(xs);
      RestWithoutFirst(ys);
      AscendingUnique(xs[1..], ys[1..]);
      assert xs == [xs[0]] + xs[1..];
      assert ys == [ys[0]] + ys[1..];
    }
  }

  // ----- list comprehensions -----

  /** [x for x in xs if p(x)] */
  function Keep(xs: seq<int>, p: int -> bool): seq<int> {
    if xs == [] then []
    else Keep(xs[..|xs| - 1], p) + (if p(xs[|xs| - 1]) then [xs[|xs| - 1]] else [])
  }

  lemma {:induction false} KeepMembers(xs: seq<int>, p: int -> bool)
    ensures forall x :: x in Keep(xs, p) <==> x in xs && p(x)
  {
    if xs != [] {
      KeepMembers(xs[..|xs| - 1], p);
      assert xs == xs[..|xs| - 1] + [xs[|xs| - 1]];
    }
  }

  lemma {:induction false} KeepFacts(xs: seq<int>, p: int -> bool)
    ensures forall x :: x in Keep(xs, p) <==> x in xs && p(x)
    ensures Distinct(xs) ==> Distinct(Keep(xs, p))
    ensures Ascending(xs) ==> Ascending(Keep(xs, p))
  {
    if xs != [] {
      var front, last := xs[..|xs| - 1], xs[|xs| - 1];
      KeepFacts(front, p);
      KeepMembers(xs, p);
      if Distinct(xs) {
        assert forall x :: x in front ==> x != last;
        DistinctAppend(Keep(front, p), last);
      }
      if Ascending(xs) {
        assert forall x :: x in front ==> x < last;
        AscendingAppend(Keep(front, p), last);
      }
    }
  }

  lemma DistinctAppend(xs: seq<int>, x: int)
    requires Distinct(xs) && x !in xs
    ensures Distinct(xs + [x])
  {}

  lemma AscendingAppend(xs: seq<int>, x: int)
    requires Ascending(xs) && forall y :: y in xs ==> y < x
    ensures Ascending(xs + [x])
  {
    forall i | 0 <= i < |xs| ensures xs[i] < x { assert xs[i] in xs; }
  }

  lemma {:induction false} KeepSame(xs: seq<int>, p: int -> bool, q: int -> bool)
    requires forall x :: x in xs ==> p(x) == q(x)
    ensures Keep(xs, p) == Keep(xs, q)
  {
    if xs != [] {
      var front, last := xs[..|xs| - 1], xs[|xs| - 1];
      KeepSame(front, p, q);
      assert last in xs;
      assert p(last) == q(last);
    }
  }

  // ----- cutting a list into consecutive pieces -----

  /** `cuts` starts at 0, never goes back and ends at the length of the list. */
  ghost predicate CutsOf(cuts: seq<nat>, n: nat) {
    && |cuts| > 0 && cuts[0] == 0 && cuts[|cuts| - 1] == n
    && forall i, j :: 0 <= i <= j < |cuts| ==> cuts[i] <= cuts[j]
  }

  ghost function Piece<T>(xs: seq<T>, cuts: seq<nat>, i: nat): seq<T>
    requires CutsOf(cuts, |xs|) && i < |cuts| - 1
  {
    assert cuts[i] <= cuts[i + 1] <= cuts[|cuts| - 1];
    xs[cuts[i]..cuts[i + 1]]
  }

  ghost function Joined<T>(xs: seq<T>, cuts: seq<nat>, n: nat): seq<T>
    requires CutsOf(cuts, |xs|) && n < |cuts|
  {
    if n == 0 then [] else Joined(xs, cuts, n - 1) + Piece(xs, cuts, n - 1)
  }

  /** The pieces in order concatenate to the list. */
  lemma {:induction false} PiecesConcatenate<T>(xs: seq<T>, cuts: seq<nat>, n: nat)
    requires CutsOf(cuts, |xs|) && n < |cuts|
    ensures cuts[n] <= |xs| && Joined(xs, cuts, n) == xs[..cuts[n]]
  {
    assert cuts[n] <= cuts[|cuts| - 1];
    if n > 0 {
      PiecesConcatenate(xs, cuts, n - 1);
      assert cuts[n - 1] <= cuts[n];
      assert xs[..cuts[n]] == xs[..cuts[n - 1]] + xs[cuts[n - 1]..cuts[n]];
    }
  }

  /** Different pieces of a list without repetition have no element in common. */
  lemma PiecesDisjoint<T>(xs: seq<T>, cuts: seq<nat>, i: nat, j: nat)
    requires CutsOf(cuts, |xs|) && Distinct(xs)
    requires i < |cuts| - 1 && j < |cuts| - 1 && i != j
    ensures Elements(Piece(xs, cuts, i)) !! Elements(Piece(xs, cuts, j))
  {}
}
