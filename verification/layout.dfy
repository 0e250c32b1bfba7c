/**
 * The data-bearing parts of the page layout (a7.py lines 81, 92 and 101):
 * the options of the two dropdowns and the list of winning countries.
 */
module Layout {
  import opened Wrappers
  import opened Decimal
  import opened Teams
  import opened Finals
  import opened Tally
  import opened Iso
  import opened Callbacks

  /** One `{'label': ..., 'value': ...}` entry of a dropdown; `text` is its label. */
  datatype DropdownOption<V> = DropdownOption(text: string, value: V)

  /**
   * Line 81: one option per row of `win_counts`, in row order, labelled and
   * valued by its Country.
   */
  function CountryOptions(winCounts: seq<CountryRow>): (r: seq<DropdownOption<string>>)
    ensures |r| == |winCounts|
    ensures forall i :: 0 <= i < |winCounts| ==>
      r[i] == DropdownOption(winCounts[i].country.Name(), winCounts[i].country.Name())
  {
    if winCounts == [] then []
    else
      var name := winCounts[0].country.Name();
      [DropdownOption(name, name)] + CountryOptions(winCounts[1..])
  }

  /**
   * Line 92: one option per row of `df`, in row order, labelled by
   * `str(year)` and valued by the year.
   */
  function YearOptions(years: seq<int>): (r: seq<DropdownOption<int>>)
    ensures |r| == |years|
    ensures forall i :: 0 <= i < |years| ==> r[i] == DropdownOption(IntToString(years[i]), years[i])
  {
    if years == [] then []
    else [DropdownOption(IntToString(years[0]), years[0])] + YearOptions(years[1..])
  }

  /** Line 101: the items of the list of winners, the Country of each row of `win_counts` in row order. */
  function WinnerItems(winCounts: seq<CountryRow>): (r: seq<string>)
    ensures |r| == |winCounts|
    ensures forall i :: 0 <= i < |winCounts| ==> r[i] == winCounts[i].country.Name()
  {
    if winCounts == [] then [] else [winCounts[0].country.Name()] + WinnerItems(winCounts[1..])
  }

  /*
   * The lemmas below are about the page built from a table made by
   * value_counts and the ISO map.
   */

  /** The country dropdown offers no country twice. */
  lemma CountryOptionsDistinct(s: seq<Team>, m: map<string, string>)
    ensures var options := CountryOptions(MapIso(ValueCounts(s), m));
      forall i, j :: 0 <= i < j < |options| ==> options[i].value != options[j].value
  {
    var vc := ValueCounts(s);
    var table := MapIso(vc, m);
    var options := CountryOptions(table);
    forall i, j | 0 <= i < j < |options| ensures options[i].value != options[j].value {
      assert Countries(vc)[i] != Countries(vc)[j];
      NameInjective(table[i].country, table[j].country);
    }
  }

  /** A country is listed exactly when it won at least one of the finals counted. */
  lemma WinnerItemsCoverWinners(s: seq<Team>, m: map<string, string>)
    ensures forall t: Team :: t in s <==> t.Name() in WinnerItems(MapIso(ValueCounts(s), m))
  {
    forall t: Team ensures t in s <==> t.Name() in WinnerItems(MapIso(ValueCounts(s), m)) {
      if t in s {
        ListedIfWon(s, m, t);
      }
      if t.Name() in WinnerItems(MapIso(ValueCounts(s), m)) {
        WonIfListed(s, m, t);
      }
    }
  }

  lemma ListedIfWon(s: seq<Team>, m: map<string, string>, t: Team)
    requires t in s
    ensures t.Name() in WinnerItems(MapIso(ValueCounts(s), m))
  {
    var vc := ValueCounts(s);
    var table := MapIso(vc, m);
    assert t in Countries(vc);
    var k :| 0 <= k < |vc| && Countries(vc)[k] == t;
    assert table[k].country == t;
    assert WinnerItems(table)[k] == t.Name();
  }

  lemma WonIfListed(s: seq<Team>, m: map<string, string>, t: Team)
    requires t.Name() in WinnerItems(MapIso(ValueCounts(s), m))
    ensures t in s
  {
    var vc := ValueCounts(s);
    var table := MapIso(vc, m);
    var items := WinnerItems(table);
    var k :| 0 <= k < |items| && items[k] == t.Name();
    NameInjective(table[k].country, t);
    assert Countries(vc)[k] == t;
  }

  /**
   * Selecting any option of the country dropdown reports that country's
   * number of titles and never raises IndexError.
   */
  lemma CountryOptionsSelectable(s: seq<Team>, m: map<string, string>)
    ensures var table := MapIso(ValueCounts(s), m);
      var options := CountryOptions(table);
      forall i :: 0 <= i < |options| ==>
        DisplayWinCount(table, Some(options[i].value)) ==
        Ok(WinSentence(options[i].value, multiset(s)[table[i].country]))
  {
    var vc := ValueCounts(s);
    var table := MapIso(vc, m);
    var options := CountryOptions(table);
    forall i | 0 <= i < |options|
      ensures DisplayWinCount(table, Some(options[i].value)) ==
        Ok(WinSentence(options[i].value, multiset(s)[table[i].country]))
    {
      var t := table[i].country;
      assert options[i].value == t.Name();
      assert Countries(vc)[i] == t;
      WinCountReportsTally(s, m, t.Name());
      TeamNamedInvertsName(t);
    }
  }

  /**
   * The year dropdown lists the table's years in table order; each label
   * reads back as its value, and in a table whose years are all different,
   * selecting option i reports the winner and runner-up of row i.
   */
  lemma YearOptionsMatchTable(df: Frame)
    requires df.WellFormed()
    ensures var options := YearOptions(df.year);
      && |options| == df.Length()
      && (forall i :: 0 <= i < |options| ==>
            options[i].value == df.year[i] && ParseInt(options[i].text) == Some(df.year[i]))
      && (NoDuplicates(df.year) ==> forall i :: 0 <= i < |options| ==>
            DisplayFinalResult(df, Some(options[i].value)) ==
            Ok(FinalSentence(df.year[i], df.winner[i].Name(), df.runnerUp[i].Name())))
  {
    YearLabelsReadBack(df.year);
    if NoDuplicates(df.year) {
      YearOptionsSelectRows(df);
    }
  }

  lemma YearLabelsReadBack(years: seq<int>)
    ensures forall i :: 0 <= i < |years| ==> ParseInt(YearOptions(years)[i].text) == Some(years[i])
  {
    var options := YearOptions(years);
    forall i | 0 <= i < |years| ensures ParseInt(options[i].text) == Some(years[i]) {
      IntToStringRoundTrip(years[i]);
    }
  }

  lemma YearOptionsSelectRows(df: Frame)
    requires df.WellFormed() && NoDuplicates(df.year)
    ensures var options := YearOptions(df.year);
      forall i :: 0 <= i < |options| ==>
        DisplayFinalResult(df, Some(options[i].value)) ==
        Ok(FinalSentence(df.year[i], df.winner[i].Name(), df.runnerUp[i].Name()))
  {
    var options := YearOptions(df.year);
    forall i | 0 <= i < |options|
      ensures DisplayFinalResult(df, Some(options[i].value)) ==
        Ok(FinalSentence(df.year[i], df.winner[i].Name(), df.runnerUp[i].Name()))
    {
      FinalResultFindsRecord(df, i);
    }
  }
}
