/**
 * `value_counts` on the winner column: one row per distinct winner with the
 * number of finals it won, most wins first.
 */
module Tally {

  /** A row of `win_counts` (columns Country and Wins) before the ISO column exists. */
  datatype WinCount<T> = WinCount(country: T, wins: nat)

  predicate NoDuplicates<T(==,!new)>(s: seq<T>) {
    forall i, j :: 0 <= i < j < |s| ==> s[i] != s[j]
  }

  /** The `Country` column of a tally. */
  function Countries<T>(t: seq<WinCount<T>>): (r: seq<T>)
    ensures |r| == |t|
    ensures forall i :: 0 <= i < |t| ==> r[i] == t[i].country
  {
    if t == [] then [] else [t[0].country] + Countries(t[1..])
  }

  /** The sum of the `Wins` column. */
  function TotalWins<T>(t: seq<WinCount<T>>): (n: nat) {
    if t == [] then 0 else t[0].wins + TotalWins(t[1..])
  }

  /**
   * What `value_counts` promises: one row per distinct value (no value twice,
   * every value of s present and nothing else), each carrying its number of
   * occurrences in s.
   */
  ghost predicate IsTallyOf<T(!new)>(t: seq<WinCount<T>>, s: seq<T>) {
    && NoDuplicates(Countries(t))
    && (forall x :: x in Countries(t) <==> x in s)
    && (forall i :: 0 <= i < |t| ==> t[i].wins == multiset(s)[t[i].country])
  }

  /** The distinct values of s, in the order of their first occurrence. */
  function Distinct<T(==,!new)>(s: seq<T>): (r: seq<T>)
    ensures NoDuplicates(r)
    ensures forall x :: x in r <==> x in s
  {
    if s == [] then []
    else
      var p := Distinct(s[..|s| - 1]);
      if s[|s| - 1] in p then p else p + [s[|s| - 1]]
  }

  /** d lists values with non-increasing numbers of occurrences in s. */
  predicate SortedByCount<T(==,!new)>(d: seq<T>, s: seq<T>) {
    forall i, j :: 0 <= i < j < |d| ==> multiset(s)[d[i]] >= multiset(s)[d[j]]
  }

  /** Puts x in front of the first value that occurs in s no more often than x does. */
  function InsertByCount<T(==,!new)>(x: T, d: seq<T>, s: seq<T>): (r: seq<T>)
    requires SortedByCount(d, s)
    ensures multiset(r) == multiset(d) + multiset{x}
    ensures SortedByCount(r, s)
    ensures x !in d && NoDuplicates(d) ==> NoDuplicates(r)
  {
    if d == [] || multiset(s)[x] >= multiset(s)[d[0]] then
      ConsSorted(x, d, s);
      ConsNoDuplicates(x, d);
      [x] + d
    else
      var rest := InsertByCount(x, d[1..], s);
      InsertBehind(x, d, s, rest);
      [d[0]] + rest
  }

  /** The step of InsertByCount that keeps d[0] in front of the insertion into d[1..]. */
  lemma InsertBehind<T(!new)>(x: T, d: seq<T>, s: seq<T>, rest: seq<T>)
    requires SortedByCount(d, s) && d != [] && multiset(s)[x] < multiset(s)[d[0]]
    requires multiset(rest) == multiset(d[1..]) + multiset{x}
    requires SortedByCount(rest, s)
    requires x !in d[1..] && NoDuplicates(d[1..]) ==> NoDuplicates(rest)
    ensures multiset([d[0]] + rest) == multiset(d) + multiset{x}
    ensures SortedByCount([d[0]] + rest, s)
    ensures x !in d && NoDuplicates(d) ==> NoDuplicates([d[0]] + rest)
  {
    assert d == [d[0]] + d[1..];
    assert forall y :: y in rest ==> y == x || y in d[1..] by {
      assert forall y :: y in rest ==> y in multiset(rest);
    }
    ConsSorted(d[0], rest, s);
    ConsNoDuplicates(d[0], rest);
  }

  lemma ConsSorted<T(!new)>(x: T, d: seq<T>, s: seq<T>)
    requires SortedByCount(d, s)
    requires forall y :: y in d ==> multiset(s)[x] >= multiset(s)[y]
    ensures SortedByCount([x] + d, s)
  {
    var r := [x] + d;
    forall i, j | 0 <= i < j < |r| ensures multiset(s)[r[i]] >= multiset(s)[r[j]] {
      assert r[j] == d[j - 1];
      if i > 0 {
        assert r[i] == d[i - 1];
      }
    }
  }

  lemma ConsNoDuplicates<T(!new)>(x: T, d: seq<T>)
    ensures x !in d && NoDuplicates(d) ==> NoDuplicates([x] + d)
  {
    var r := [x] + d;
    if x !in d && NoDuplicates(d) {
      forall i, j | 0 <= i < j < |r| ensures r[i] != r[j] {
        assert r[j] == d[j - 1];
        if i > 0 {
          assert r[i] == d[i - 1];
        }
      }
    }
  }

  /**
   * Stable sort of d by descending number of occurrences in s: values that
   * occur equally often keep their order in d.
   */
  function SortByCount<T(==,!new)>(d: seq<T>, s: seq<T>): (r: seq<T>)
    ensures multiset(r) == multiset(d)
    ensures SortedByCount(r, s)
    ensures NoDuplicates(d) ==> NoDuplicates(r)
  {
    if d == [] then []
    else
      var rest := SortByCount(d[1..], s);
      assert d == [d[0]] + d[1..];
      assert NoDuplicates(d) ==> d[0] !in d[1..];
      assert d[0] !in d[1..] ==> d[0] !in rest by {
        assert forall y :: y in rest <==> y in multiset(d[1..]);
      }
      InsertByCount(d[0], rest, s)
  }

  /** `value_counts()` on the column s, followed by `reset_index()`. */
  function ValueCounts<T(==,!new)>(s: seq<T>): (r: seq<WinCount<T>>)
    ensures IsTallyOf(r, s)
    ensures forall i, j :: 0 <= i < j < |r| ==> r[i].wins >= r[j].wins
  {
    var d := SortByCount(Distinct(s), s);
    assert forall x :: x in d <==> x in s by {
      assert forall x :: x in d <==> x in multiset(Distinct(s));
    }
    var r := seq(|d|, i requires 0 <= i < |d| => WinCount(d[i], multiset(s)[d[i]]));
    assert Countries(r) == d;
    r
  }

  /** The sum over d of the number of occurrences of each entry of d in s. */
  function SumCounts<T(==,!new)>(d: seq<T>, s: seq<T>): (n: nat) {
    if d == [] then 0 else multiset(s)[d[0]] + SumCounts(d[1..], s)
  }

  lemma {:induction false} SumCountsSnoc<T(!new)>(d: seq<T>, s: seq<T>, c: T)
    ensures SumCounts(d, s + [c]) == SumCounts(d, s) + multiset(d)[c]
  {
    if d != [] {
      SumCountsSnoc(d[1..], s, c);
      assert d == [d[0]] + d[1..];
    }
  }

  lemma {:induction false} SumCountsNone<T(!new)>(d: seq<T>)
    ensures SumCounts(d, []) == 0
  {
    if d != [] {
      SumCountsNone(d[1..]);
    }
  }

  lemma {:induction false} OccursOnce<T(!new)>(d: seq<T>, c: T)
    requires NoDuplicates(d) && c in d
    ensures multiset(d)[c] == 1
  {
    assert d == [d[0]] + d[1..];
    if d[0] == c {
      assert c !in d[1..];
    } else {
      OccursOnce(d[1..], c);
    }
  }

  /** Counting every value of s once, in a list without repeats that holds them all, counts all of s. */
  lemma {:induction false} SumCountsCovers<T(!new)>(d: seq<T>, s: seq<T>)
    requires NoDuplicates(d)
    requires forall x :: x in s ==> x in d
    ensures SumCounts(d, s) == |s|
  {
    if s == [] {
      SumCountsNone(d);
    } else {
      var p, c := s[..|s| - 1], s[|s| - 1];
      assert s == p + [c];
      SumCountsCovers(d, p);
      SumCountsSnoc(d, p, c);
      OccursOnce(d, c);
    }
  }

  lemma {:induction false} TotalWinsIsSumCounts<T(!new)>(t: seq<WinCount<T>>, s: seq<T>)
    requires forall i :: 0 <= i < |t| ==> t[i].wins == multiset(s)[t[i].country]
    ensures TotalWins(t) == SumCounts(Countries(t), s)
  {
    if t != [] {
      TotalWinsIsSumCounts(t[1..], s);
      assert Countries(t)[1..] == Countries(t[1..]);
    }
  }

  /**
   * Every row of a tally has at least one win, and the wins add up to the
   * number of values counted: no final is lost or counted twice.
   */
  lemma TallyConservesWins<T(!new)>(t: seq<WinCount<T>>, s: seq<T>)
    requires IsTallyOf(t, s)
    ensures forall i :: 0 <= i < |t| ==> t[i].wins >= 1
    ensures TotalWins(t) == |s|
  {
    forall i | 0 <= i < |t| ensures t[i].wins >= 1 {
      var c := t[i].country;
      assert Countries(t)[i] == c;
      assert c in s;
      assert c in multiset(s);
    }
    TotalWinsIsSumCounts(t, s);
    SumCountsCovers(Countries(t), s);
  }

  /** A list without repeats has as many entries as it has distinct values. */
  lemma {:induction false} DistinctLength<T(!new)>(d: seq<T>)
    requires NoDuplicates(d)
    ensures |set x | x in d| == |d|
  {
    if d != [] {
      DistinctLength(d[1..]);
      assert (set x | x in d) == {d[0]} + (set x | x in d[1..]);
      assert d[0] !in d[1..];
    }
  }

  /** value_counts yields one row per distinct value of the column. */
  lemma TallySize<T(!new)>(t: seq<WinCount<T>>, s: seq<T>)
    requires IsTallyOf(t, s)
    ensures |t| == |set x | x in s|
  {
    DistinctLength(Countries(t));
    assert (set x | x in Countries(t)) == (set x | x in s);
  }

  /** Every value of the column has a row, and every row is a value of the column. */
  lemma TallyLists<T(!new)>(t: seq<WinCount<T>>, s: seq<T>)
    requires IsTallyOf(t, s)
    ensures forall x :: x in s <==> exists i :: 0 <= i < |t| && t[i].country == x
  {
    var names := Countries(t);
    forall x | x in s ensures exists i :: 0 <= i < |t| && t[i].country == x {
      assert x in names;
      var i :| 0 <= i < |names| && names[i] == x;
    }
    forall i | 0 <= i < |t| ensures t[i].country in s {
      assert names[i] in names;
    }
  }
}
