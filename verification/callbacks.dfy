/**
 * The two selection callbacks, `display_win_count` and
 * `display_final_result` (a7.py lines 110-125), as functions from the
 * tables and the selected value to the text shown, or to the exception the
 * lookup raises.
 */
module Callbacks {
  import opened Wrappers
  import opened Decimal
  import opened Teams
  import opened Finals
  import opened Tally
  import opened Iso

  /** `.values[0]` or `.iloc[0]` on an empty selection. */
  datatype Error = IndexError

  /**
   * Filtering rows by p and taking the first: the index of the first row
   * satisfying p, or None when no row does.
   */
  function FirstWhere<T>(s: seq<T>, p: T -> bool): (r: Option<nat>)
    ensures r.Some? ==> r.value < |s| && p(s[r.value])
    ensures r.Some? ==> forall j :: 0 <= j < r.value ==> !p(s[j])
    ensures r.None? <==> forall j :: 0 <= j < |s| ==> !p(s[j])
  {
    if s == [] then None
    else if p(s[0]) then Some(0)
    else
      match FirstWhere(s[1..], p)
      case None => None
      case Some(k) =>
        assert forall j :: 1 <= j < k + 1 ==> s[j] == s[1..][j - 1];
        Some(k + 1)
  }

  /**
   * The win-count sentence. It starts with the country, carries the count
   * in a form that reads back as the count, and ends in " times." exactly
   * when the count is not 1 (" time." otherwise).
   */
  function WinSentence(country: string, count: int): (w: string)
    ensures var k := if count != 1 then 7 else 6;
      && |w| == |country| + 23 + |IntToString(count)| + k
      && w[..|country|] == country
      && w[|country|..|country| + 23] == " has won the World Cup "
      && ParseInt(w[|country| + 23..|w| - k]) == Some(count)
      && w[|w| - k..] == (if count != 1 then " times." else " time.")
      && (w[|w| - 7..] == " times." <==> count != 1)
  {
    var num := IntToString(count);
    var suffix := if count != 1 then " times." else " time.";
    var w := country + " has won the World Cup " + num + suffix;
    assert w[|country|..|country| + 23] == " has won the World Cup ";
    assert w[|country| + 23..|w| - |suffix|] == num;
    IntToStringRoundTrip(count);
    if count == 1 then
      assert num == "1";
      assert w[|w| - 7] == '1';
      w
    else
      w
  }

  /**
   * The final-result sentence. The year stands after "In " in a form that
   * reads back as the year; the winner's name follows it at a fixed offset
   * and the runner-up's name ends the sentence before the full stop.
   */
  function FinalSentence(year: int, winner: string, runnerUp: string): (f: string)
    ensures var n := |IntToString(year)|;
      && |f| == 3 + n + 2 + |winner| + 23 + |runnerUp| + 1
      && f[..3] == "In "
      && ParseInt(f[3..3 + n]) == Some(year)
      && f[3 + n..3 + n + 2] == ", "
      && f[3 + n + 2..3 + n + 2 + |winner|] == winner
      && f[3 + n + 2 + |winner|..|f| - 1 - |runnerUp|] == " won the final against "
      && f[|f| - 1 - |runnerUp|..|f| - 1] == runnerUp
      && f[|f| - 1] == '.'
  {
    var num := IntToString(year);
    YearInSentence(num, winner, runnerUp);
    WinnerInSentence(num, winner, runnerUp);
    RunnerUpInSentence(num, winner, runnerUp);
    IntToStringRoundTrip(year);
    "In " + num + ", " + winner + " won the final against " + runnerUp + "."
  }

  // Where the year, the winner and the runner-up stand in a final-result sentence.

  lemma YearInSentence(num: string, winner: string, runnerUp: string)
    ensures var f := "In " + num + ", " + winner + " won the final against " + runnerUp + ".";
      |f| == 3 + |num| + 2 + |winner| + 23 + |runnerUp| + 1
      && f[..3] == "In " && f[3..3 + |num|] == num && f[3 + |num|..3 + |num| + 2] == ", "
  {
    var rest := ", " + winner + " won the final against " + runnerUp + ".";
    assert "In " + num + ", " + winner + " won the final against " + runnerUp + "." == "In " + num + rest;
    JoinSlices("In ", num, rest);
  }

  lemma WinnerInSentence(num: string, winner: string, runnerUp: string)
    ensures var f := "In " + num + ", " + winner + " won the final against " + runnerUp + ".";
      |f| == 3 + |num| + 2 + |winner| + 23 + |runnerUp| + 1
      && f[3 + |num| + 2..3 + |num| + 2 + |winner|] == winner
      && f[3 + |num| + 2 + |winner|..|f| - 1 - |runnerUp|] == " won the final against "
  {
    var front := "In " + num + ", ";
    var back := " won the final against " + runnerUp + ".";
    assert "In " + num + ", " + winner + " won the final against " + runnerUp + "." == front + winner + back;
    JoinSlices(front, winner, back);
  }

  lemma RunnerUpInSentence(num: string, winner: string, runnerUp: string)
    ensures var f := "In " + num + ", " + winner + " won the final against " + runnerUp + ".";
      |f| == 3 + |num| + 2 + |winner| + 23 + |runnerUp| + 1
      && f[|f| - 1 - |runnerUp|..|f| - 1] == runnerUp
      && f[|f| - 1] == '.'
  {
    var middle := "In " + num + ", " + winner + " won the final against ";
    JoinSlices(middle, runnerUp, ".");
  }

  /**
   * `display_win_count`: nothing selected gives the empty text; otherwise
   * the sentence for the first row whose Country is the selected name,
   * and IndexError when no row has that name.
   */
  function DisplayWinCount(winCounts: seq<CountryRow>, selected: Option<string>): (r: Result<string, Error>)
    ensures selected.None? ==> r == Ok("")
    ensures selected.Some? ==>
      (r == Err(IndexError) <==> forall i :: 0 <= i < |winCounts| ==> winCounts[i].country.Name() != selected.value)
    ensures selected.Some? && r.Ok? ==>
      exists i :: 0 <= i < |winCounts| && winCounts[i].country.Name() == selected.value
        && (forall j :: 0 <= j < i ==> winCounts[j].country.Name() != selected.value)
        && r.value == WinSentence(selected.value, winCounts[i].wins)
  {
    match selected
    case None => Ok("")
    case Some(name) =>
      match FirstWhere(winCounts, (row: CountryRow) => row.country.Name() == name)
      case None => Err(IndexError)
      case Some(i) => Ok(WinSentence(name, winCounts[i].wins))
  }

  /**
   * `display_final_result`: nothing selected gives the empty text; otherwise
   * the sentence built from the first row of `df` with the selected year,
   * and IndexError when no row has that year.
   */
  function DisplayFinalResult(df: Frame, selected: Option<int>): (r: Result<string, Error>)
    requires df.WellFormed()
    ensures selected.None? ==> r == Ok("")
    ensures selected.Some? ==> (r == Err(IndexError) <==> selected.value !in df.year)
    ensures selected.Some? && r.Ok? ==>
      exists i :: 0 <= i < df.Length() && df.year[i] == selected.value
        && (forall j :: 0 <= j < i ==> df.year[j] != selected.value)
        && r.value == FinalSentence(selected.value, df.winner[i].Name(), df.runnerUp[i].Name())
  {
    match selected
    case None => Ok("")
    case Some(year) =>
      match FirstWhere(df.year, (y: int) => y == year)
      case None => Err(IndexError)
      case Some(i) => Ok(FinalSentence(year, df.winner[i].Name(), df.runnerUp[i].Name()))
  }

  /** The middle part of a three-part join is found between the lengths of the other two. */
  lemma JoinSlices(a: string, b: string, c: string)
    ensures |a + b + c| == |a| + |b| + |c|
    ensures (a + b + c)[|a|..|a| + |b|] == b
  {
  }

  /**
   * Selecting a country in a table built by value_counts and the ISO map
   * reports that country's number of occurrences among the values counted;
   * a name that is not among them raises IndexError.
   */
  lemma WinCountReportsTally(s: seq<Team>, m: map<string, string>, name: string)
    ensures DisplayWinCount(MapIso(ValueCounts(s), m), Some(name)) ==
      if TeamNamed(name).Some? && TeamNamed(name).value in s
      then Ok(WinSentence(name, multiset(s)[TeamNamed(name).value]))
      else Err(IndexError)
  {
    var vc := ValueCounts(s);
    var t := MapIso(vc, m);
    if TeamNamed(name).Some? && TeamNamed(name).value in s {
      var team := TeamNamed(name).value;
      WinCountOfListedCountry(s, vc, t, team);
    } else {
      forall i | 0 <= i < |t| ensures t[i].country.Name() != name {
        TeamNamedInvertsName(t[i].country);
        assert Countries(vc)[i] == t[i].country;
      }
    }
  }

  lemma WinCountOfListedCountry(s: seq<Team>, vc: seq<WinCount<Team>>, t: seq<CountryRow>, team: Team)
    requires IsTallyOf(vc, s) && team in s
    requires |t| == |vc|
    requires forall i :: 0 <= i < |vc| ==> t[i].country == vc[i].country && t[i].wins == vc[i].wins
    ensures DisplayWinCount(t, Some(team.Name())) == Ok(WinSentence(team.Name(), multiset(s)[team]))
  {
    var name := team.Name();
    assert team in Countries(vc);
    var k :| 0 <= k < |vc| && Countries(vc)[k] == team;
    assert t[k].country.Name() == name;
    var r := DisplayWinCount(t, Some(name));
    assert r.Ok?;
    var i :| 0 <= i < |t| && t[i].country.Name() == name && r.value == WinSentence(name, t[i].wins);
    NameInjective(t[i].country, team);
    assert t[i].wins == vc[i].wins == multiset(s)[vc[i].country];
  }

  /**
   * In a table whose years are all different, selecting the year of row i
   * reports row i's winner and runner-up.
   */
  lemma FinalResultFindsRecord(df: Frame, i: nat)
    requires df.WellFormed() && NoDuplicates(df.year) && i < df.Length()
    ensures DisplayFinalResult(df, Some(df.year[i])) ==
      Ok(FinalSentence(df.year[i], df.winner[i].Name(), df.runnerUp[i].Name()))
  {
    var r := DisplayFinalResult(df, Some(df.year[i]));
    var j :| 0 <= j < df.Length() && df.year[j] == df.year[i]
      && r.value == FinalSentence(df.year[i], df.winner[j].Name(), df.runnerUp[j].Name());
    assert j == i;
  }
}
