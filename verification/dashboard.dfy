/**
 * The tables the dashboard is built from, computed once from the finals
 * table (a7.py lines 25-48), and the figures they show.
 */
module Dashboard {
  import opened Wrappers
  import opened Teams
  import opened Finals
  import opened Tally
  import opened Iso
  import opened Callbacks
  import opened Layout

  /** Lines 34-35: `win_counts` with columns Country and Wins. */
  const WinCounts: seq<WinCount<Team>> := ValueCounts(Df.winner)

  /** Line 48: `win_counts` once the ISO column is added. */
  const WinTable: seq<CountryRow> := MapIso(WinCounts, IsoMapping)

  /** The number of finals each country won, West Germany's counted as Germany's. */
  function Titles(t: Team): (n: nat) {
    match t
    case Brazil => 5
    case Italy => 4
    case Germany => 4
    case Argentina => 3
    case Uruguay => 2
    case France => 2
    case England => 1
    case Spain => 1
    case _ => 0
  }

  lemma WinnerColumnMerged()
    ensures Df.winner == Replace(Winners, Merge)
  {
  }

  /** The number of finals each name won in the winner column as written. */
  function WrittenTitles(t: Team): (n: nat) {
    match t
    case Uruguay => 2
    case Italy => 4
    case WestGermany => 3
    case Germany => 1
    case Brazil => 5
    case England => 1
    case Argentina => 3
    case France => 2
    case Spain => 1
    case _ => 0
  }

  /**
   * Each name occurs in the winner column as written as often as
   * WrittenTitles says; the names are taken a few at a time, grouped by
   * their number of titles.
   */
  lemma WinnersWrittenCount(t: Team)
    ensures multiset(Winners)[t] == WrittenTitles(t)
  {
    if WrittenTitles(t) >= 3 {
      WrittenCountAtLeastThree(t);
    } else if WrittenTitles(t) == 2 {
      WrittenCountTwo(t);
    } else if WrittenTitles(t) == 1 {
      WrittenCountOne(t);
    } else {
      NeverWon(t);
    }
  }

  lemma WrittenCountAtLeastThree(t: Team)
    requires WrittenTitles(t) >= 3
    ensures multiset(Winners)[t] == WrittenTitles(t)
  {
  }

  lemma WrittenCountTwo(t: Team)
    requires WrittenTitles(t) == 2
    ensures multiset(Winners)[t] == 2
  {
  }

  lemma WrittenCountOne(t: Team)
    requires WrittenTitles(t) == 1
    ensures multiset(Winners)[t] == 1
  {
  }

  lemma NeverWon(t: Team)
    requires WrittenTitles(t) == 0
    ensures t !in Winners
  {
  }

  /** Merging West Germany into Germany turns the written counts into Titles. */
  lemma MergedCounts(w: seq<Team>, t: Team)
    requires forall x :: multiset(w)[x] == WrittenTitles(x)
    ensures multiset(Replace(w, Merge))[t] == Titles(t)
  {
    ReplaceMovesCounts(w, WestGermany, Germany, t);
  }

  lemma NormalizedCount(t: Team)
    ensures multiset(Df.winner)[t] == Titles(t)
  {
    WinnerColumnMerged();
    forall x ensures multiset(Winners)[x] == WrittenTitles(x) {
      WinnersWrittenCount(x);
    }
    MergedCounts(Winners, t);
  }

  /**
   * After the merge every country has won exactly Titles of the finals:
   * Brazil 5, Italy 4, Germany 4 (the first three as West Germany, see
   * GermanyFinals), Argentina 3, Uruguay 2, France 2, England 1, Spain 1,
   * and no other name, West Germany included, won any.
   */
  lemma WinnerCountsAreTitles()
    ensures forall t :: multiset(Df.winner)[t] == Titles(t)
  {
    forall t ensures multiset(Df.winner)[t] == Titles(t) {
      NormalizedCount(t);
    }
  }

  /** Germany won the finals of 1954, 1974, 1990 and 2014; the first three as West Germany. */
  lemma GermanyFinals()
    ensures Df.year[4] == 1954 && Df.year[9] == 1974 && Df.year[13] == 1990 && Df.year[19] == 2014
    ensures Df.winner[4] == Df.winner[9] == Df.winner[13] == Df.winner[19] == Germany
  {
    WinnerColumnMerged();
    DataShape();
  }


  lemma ChampionsCount()
    ensures |Champions| == 8
  {
    var a := {Brazil, Italy, Germany, Argentina};
    var b := {Uruguay, France, England, Spain};
    assert |a| == 4 && |b| == 4;
    assert a * b == {};
    assert Champions == a + b;
  }

  /** Brazil alone has five titles, and nobody has more. */
  lemma MostTitles(t: Team)
    ensures Titles(t) <= 5
    ensures Titles(t) == 5 <==> t == Brazil
  {
  }

  lemma ChampionsAreTitleHolders(t: Team)
    ensures t in Champions <==> Titles(t) > 0
  {
  }

  /** A winner column whose counts are Titles holds exactly the champions. */
  lemma WinnersAreChampions(s: seq<Team>)
    requires forall t :: multiset(s)[t] == Titles(t)
    ensures forall t :: t in s <==> t in Champions
  {
    forall t ensures t in s <==> t in Champions {
      ChampionsAreTitleHolders(t);
      assert t in s <==> multiset(s)[t] > 0;
    }
  }

  /** A tally of any winner column whose counts are Titles has a row for each champion and no other. */
  lemma TallyListsChampions(s: seq<Team>)
    requires forall t :: multiset(s)[t] == Titles(t)
    ensures forall t :: t in Champions <==> t in Countries(ValueCounts(s))
  {
    WinnersAreChampions(s);
  }

  /** ... each row holding the champion's number of titles. */
  lemma TallyCountsTitles(s: seq<Team>)
    requires forall t :: multiset(s)[t] == Titles(t)
    ensures var vc := ValueCounts(s);
      forall i :: 0 <= i < |vc| ==> vc[i].wins == Titles(vc[i].country) >= 1
  {
    var vc := ValueCounts(s);
    TallyConservesWins(vc, s);
  }

  lemma TallyOfTitlesLength(s: seq<Team>)
    requires forall t :: multiset(s)[t] == Titles(t)
    ensures |ValueCounts(s)| == 8
  {
    WinnersAreChampions(s);
    ChampionSet(s);
    TallySize(ValueCounts(s), s);
    ChampionsCount();
  }

  lemma ChampionSet(s: seq<Team>)
    requires forall t :: t in s <==> t in Champions
    ensures (set x | x in s) == Champions
  {
  }

  /**
   * Every row of the table built from such a column carries its country's
   * titles and gets an ISO code from the mapping.
   */
  lemma TableRowsOfTitles(s: seq<Team>)
    requires forall t :: multiset(s)[t] == Titles(t)
    ensures var table := MapIso(ValueCounts(s), IsoMapping);
      forall i :: 0 <= i < |table| ==>
        table[i].wins == Titles(table[i].country) >= 1 && table[i].iso.Some?
  {
    var vc := ValueCounts(s);
    var table := MapIso(vc, IsoMapping);
    TallyCountsTitles(s);
    IsoMappingShape();
    forall i | 0 <= i < |table| ensures table[i].iso.Some? {
      var t := vc[i].country;
      assert Countries(vc)[i] == t;
      assert t in s;
      ChampionsAreTitleHolders(t);
    }
  }

  /** The dashboard's own table: every row has its country's titles and an ISO code, so the map shows every champion. */
  lemma WinTableRowsHaveIso()
    ensures forall i :: 0 <= i < |WinTable| ==>
      WinTable[i].wins == Titles(WinTable[i].country) >= 1 && WinTable[i].iso.Some?
  {
    WinnerCountsAreTitles();
    TableRowsOfTitles(Df.winner);
    assert WinTable == MapIso(ValueCounts(Df.winner), IsoMapping);
  }

  /** After the merge West Germany has no row of its own in `win_counts`. */
  lemma WestGermanyNotTallied()
    ensures WestGermany !in Countries(WinCounts)
  {
    WinnerCountsAreTitles();
    assert WestGermany !in Df.winner;
  }

  /** Brazil, with five titles, heads any such tally. */
  lemma LeaderOfTitles(s: seq<Team>)
    requires forall t :: multiset(s)[t] == Titles(t)
    ensures var vc := ValueCounts(s);
      |vc| > 0 && vc[0].country == Brazil && vc[0].wins == 5
  {
    var vc := ValueCounts(s);
    assert multiset(s)[Brazil] == 5;
    assert Brazil in multiset(s);
    assert Brazil in Countries(vc);
    var k :| 0 <= k < |vc| && Countries(vc)[k] == Brazil;
    TallyCountsTitles(s);
    assert vc[0].wins >= vc[k].wins == 5;
    MostTitles(vc[0].country);
  }

  /** The wins in the table add up to the 22 finals. */
  lemma WinCountsTotal()
    ensures TotalWins(WinCounts) == 22
  {
    DataShape();
    TallyConservesWins(WinCounts, Df.winner);
  }

  /**
   * Selecting a country's name in a table built from any winner column
   * whose counts are Titles reports its number of titles; a country
   * without a title, West Germany included, raises IndexError.
   */
  lemma SelectCountryOf(s: seq<Team>, m: map<string, string>, t: Team)
    requires forall t :: multiset(s)[t] == Titles(t)
    ensures DisplayWinCount(MapIso(ValueCounts(s), m), Some(t.Name())) ==
      if Titles(t) > 0 then Ok(WinSentence(t.Name(), Titles(t))) else Err(IndexError)
  {
    TeamNamedInvertsName(t);
    WinCountReportsTally(s, m, t.Name());
    assert t in s <==> multiset(s)[t] > 0;
  }

  /** The same, on the dashboard's own table. */
  lemma SelectCountry(t: Team)
    ensures DisplayWinCount(WinTable, Some(t.Name())) ==
      if Titles(t) > 0 then Ok(WinSentence(t.Name(), Titles(t))) else Err(IndexError)
  {
    WinnerCountsAreTitles();
    SelectCountryOf(Df.winner, IsoMapping, t);
    assert WinTable == MapIso(ValueCounts(Df.winner), IsoMapping);
  }

  /** 1930: the first final, won by Uruguay against Argentina. */
  lemma FirstFinalSelected()
    ensures Df.WellFormed()
    ensures DisplayFinalResult(Df, Some(1930)) ==
      Ok(FinalSentence(1930, Uruguay.Name(), Argentina.Name()))
  {
    DataShape();
    FirstFinal();
    FinalResultFindsRecord(Df, 0);
  }

  lemma FirstFinal()
    ensures Df.year[0] == 1930 && Df.winner[0] == Uruguay && Df.runnerUp[0] == Argentina
  {
    DataShape();
  }

  /** 2022: the last final, won by Argentina against France. */
  lemma LastFinalSelected()
    ensures Df.WellFormed()
    ensures DisplayFinalResult(Df, Some(2022)) ==
      Ok(FinalSentence(2022, Argentina.Name(), France.Name()))
  {
    DataShape();
    LastFinal();
    FinalResultFindsRecord(Df, 21);
  }

  lemma LastFinal()
    ensures Df.year[21] == 2022 && Df.winner[21] == Argentina && Df.runnerUp[21] == France
  {
    DataShape();
  }

  /** Every year of the table selects its own final's winner and runner-up. */
  lemma EveryFinalSelectable()
    ensures Df.WellFormed()
    ensures forall i :: 0 <= i < Df.Length() ==>
      DisplayFinalResult(Df, Some(Df.year[i])) ==
      Ok(FinalSentence(Df.year[i], Df.winner[i].Name(), Df.runnerUp[i].Name()))
  {
    DataShape();
    forall i | 0 <= i < Df.Length()
      ensures DisplayFinalResult(Df, Some(Df.year[i])) ==
        Ok(FinalSentence(Df.year[i], Df.winner[i].Name(), Df.runnerUp[i].Name()))
    {
      FinalResultFindsRecord(Df, i);
    }
  }

  /** No final was played in 1942, so selecting it raises IndexError. */
  lemma NoFinalIn1942()
    ensures Df.WellFormed()
    ensures DisplayFinalResult(Df, Some(1942)) == Err(IndexError)
  {
    DataShape();
    assert 1942 !in Years;
  }

  /**
   * The country dropdown and list offer the eight champions; the year
   * dropdown offers the 22 years of the table, in the table's order.
   */
  lemma DropdownFigures()
    ensures |CountryOptions(WinTable)| == |WinnerItems(WinTable)| == 8
    ensures |YearOptions(Df.year)| == 22
    ensures forall i :: 0 <= i < 22 ==> YearOptions(Df.year)[i].value == Years[i]
  {
    WinnerCountsAreTitles();
    TallyOfTitlesLength(Df.winner);
    assert WinTable == MapIso(ValueCounts(Df.winner), IsoMapping);
    DataShape();
  }
}
