/**
 * The World Cup finals table `df` and the merge of West Germany into
 * Germany applied to its two name columns (a7.py lines 13-29).
 */
module Finals {
  import opened Teams

  /** A DataFrame of finals, held column by column as pandas holds it. */
  datatype Frame = Frame(year: seq<int>, winner: seq<Team>, runnerUp: seq<Team>) {
    predicate WellFormed() {
      |year| == |winner| == |runnerUp|
    }

    function Length(): nat
      requires WellFormed()
    {
      |year|
    }
  }

  // The three columns are written in blocks of six rows (1930-1958,
  // 1962-1982, 1986-2006, 2010-2022) and joined; the blocks keep the
  // verifier's lookups into these constants short.

  const Years: seq<int> :=
    [1930, 1934, 1938, 1950, 1954, 1958] +
    [1962, 1966, 1970, 1974, 1978, 1982] +
    [1986, 1990, 1994, 1998, 2002, 2006] +
    [2010, 2014, 2018, 2022]

  const Winners: seq<Team> :=
    [Uruguay, Italy, Italy, Uruguay, WestGermany, Brazil] +
    [Brazil, England, Brazil, WestGermany, Argentina, Italy] +
    [Argentina, WestGermany, Brazil, France, Brazil, Italy] +
    [Spain, Germany, France, Argentina]

  const RunnersUp: seq<Team> :=
    [Argentina, Czechoslovakia, Hungary, Brazil, Hungary, Sweden] +
    [Czechoslovakia, WestGermany, Italy, Netherlands, Netherlands, WestGermany] +
    [WestGermany, Argentina, Italy, Brazil, Germany, France] +
    [Netherlands, Argentina, Croatia, France]

  /** The table as first built, before any renaming. */
  const Data: Frame := Frame(Years, Winners, RunnersUp)

  /** The replacement dictionary applied to both name columns. */
  const Merge: map<Team, Team> := map[WestGermany := Germany]

  /**
   * pandas `Series.replace(m)` with a dictionary: every entry equal to a key
   * of m becomes that key's value, in a single pass; every other entry is kept.
   */
  function Replace<T>(col: seq<T>, m: map<T, T>): (r: seq<T>)
    ensures |r| == |col|
    ensures forall i :: 0 <= i < |col| ==> r[i] == (if col[i] in m then m[col[i]] else col[i])
  {
    if col == [] then []
    else [if col[0] in m then m[col[0]] else col[0]] + Replace(col[1..], m)
  }

  /** Lines 28-29: both name columns with West Germany rewritten to Germany. */
  function Normalize(df: Frame): (r: Frame)
    requires df.WellFormed()
    ensures r.WellFormed() && r.Length() == df.Length()
  {
    df.(winner := Replace(df.winner, Merge), runnerUp := Replace(df.runnerUp, Merge))
  }

  /** The table `df` as the rest of the program sees it. */
  const Df: Frame := Normalize(Data)

  /**
   * Normalisation keeps the years and the number of rows, leaves no
   * West Germany in either name column, and changes no other name.
   */
  lemma NormalizeMergesWestGermany(df: Frame)
    requires df.WellFormed()
    ensures Normalize(df).year == df.year
    ensures Normalize(df).Length() == df.Length()
    ensures forall i :: 0 <= i < df.Length() ==>
      && Normalize(df).winner[i] != WestGermany
      && Normalize(df).runnerUp[i] != WestGermany
    ensures forall i :: 0 <= i < df.Length() ==>
      && (df.winner[i] == WestGermany ==> Normalize(df).winner[i] == Germany)
      && (df.winner[i] != WestGermany ==> Normalize(df).winner[i] == df.winner[i])
      && (df.runnerUp[i] == WestGermany ==> Normalize(df).runnerUp[i] == Germany)
      && (df.runnerUp[i] != WestGermany ==> Normalize(df).runnerUp[i] == df.runnerUp[i])
  {
  }

  /**
   * Renaming a to b moves every occurrence of a onto b: afterwards a does
   * not occur, b occurs as often as a and b did together, and every other
   * value keeps its number of occurrences.
   */
  lemma {:induction false} ReplaceMovesCounts<T>(col: seq<T>, a: T, b: T, x: T)
    requires a != b
    ensures multiset(Replace(col, map[a := b]))[x] ==
      if x == a then 0
      else if x == b then multiset(col)[b] + multiset(col)[a]
      else multiset(col)[x]
  {
    if col != [] {
      var m := map[a := b];
      var h := if col[0] == a then b else col[0];
      ReplaceMovesCounts(col[1..], a, b, x);
      assert col == [col[0]] + col[1..];
      assert Replace(col, m) == [h] + Replace(col[1..], m);
    }
  }

  /** Each year is smaller than the next one. */
  predicate Increasing(s: seq<int>) {
    forall i :: 0 <= i < |s| - 1 ==> s[i] < s[i + 1]
  }

  lemma {:induction false} IncreasingIsStrictOrder(s: seq<int>)
    requires Increasing(s)
    ensures forall i, j :: 0 <= i < j < |s| ==> s[i] < s[j]
  {
    if |s| > 1 {
      IncreasingIsStrictOrder(s[1..]);
      forall j | 1 <= j < |s| ensures s[0] < s[j] {
        assert s[1..][j - 1] == s[j];
        if j > 1 {
          assert s[1..][0] < s[1..][j - 1];
        }
      }
    }
  }

  /**
   * The finals table has 22 rows in each column, the merge keeps its years,
   * and the years strictly increase, so no year has two finals.
   */
  lemma DataShape()
    ensures Data.WellFormed() && Data.Length() == 22
    ensures Df.WellFormed() && Df.Length() == 22 && Df.year == Years
    ensures forall i, j :: 0 <= i < j < |Df.year| ==> Df.year[i] < Df.year[j]
  {
    assert Data.WellFormed() && Data.Length() == 22;
    NormalizeMergesWestGermany(Data);
    assert Increasing(Years);
    IncreasingIsStrictOrder(Years);
  }
}
