# FIFA World Cup finals dashboard — a Dafny model

The dashboard in `a7.py` builds a fixed table of the 22 World Cup finals
(1930-2022) and merges West Germany into Germany in both name columns. It
then tallies the titles per country with `value_counts` and adds an ISO
3166-1 alpha-3 code to every country of the tally. The page has a country
dropdown, a year dropdown and a list of winners built from these tables.
Two callbacks turn a selection into a sentence: "{country} has won the World
Cup {n} time{s}." and "In {year}, {winner} won the final against
{runner-up}.".

This project models that pipeline as values and pure functions, one
module per stage:

- `wrappers.dfy`: `Option` and `Result`.
- `decimal.dfy`: Python's `str` of an integer, as used by `str(year)` and
  the two f-strings, with a reader that inverts it.
- `teams.dfy`: the 14 country names that occur in the table, as an
  enumeration `Team` whose `Name()` is the spelling used in the source.
- `finals.dfy`: the finals table as a column record `Frame`, pandas'
  dictionary `replace`, and the West Germany merge.
- `tally.dfy`: `value_counts().reset_index()`. It lists the distinct values
  in first-occurrence order, sorts them stably by count in descending
  order, and pairs each value with its number of occurrences.
- `iso.dfy`: `iso_mapping` and the `.map` that adds the ISO column.
- `callbacks.dfy`: `display_win_count` and `display_final_result`. The
  `IndexError` that `.values[0]` and `.iloc[0]` raise on an empty selection
  is the error value `Err(IndexError)`.
- `layout.dfy`: the options of the two dropdowns and the items of the list
  of winners.
- `dashboard.dfy`: the tables the page is built from (`WinCounts`,
  `WinTable`) and the figures they show: Brazil 5, Italy 4, Germany 4,
  Argentina 3, Uruguay 2, France 2, England 1, Spain 1, 22 in all.

The callback handlers take the dropdown value as an `Option`. `None`
stands for Python's `None`, which Dash sends while nothing is selected.

In the code, `.values[0]` on an empty selection raises
`IndexError`, and so does `.iloc[0]` for a year that is not in the table.
The model returns `Err(IndexError)` in both cases and proves exactly when
that happens.

## Model

| member | source | states |
|---|---|---|
| Teams.TeamNamed | a7.py:16-23 | a dropdown string matches a team only if it is that team's spelling in the table |
| Teams.TeamNamedInvertsName | a7.py:16-23 | every team's spelling is read back as that team |
| Teams.NameInjective | a7.py:16-23 | two teams have the same spelling exactly when they are the same team |
| Decimal.NatToString | a7.py:92 | `str` of a natural number is a non-empty digit string with no leading zero |
| Decimal.IntToString | a7.py:92 | `str` of an integer is non-empty and starts with a minus sign exactly when the integer is negative |
| Decimal.IntToStringRoundTrip | a7.py:92 | reading back `str(n)` gives n again |
| Decimal.IntToStringInjective | a7.py:92 | different years get different labels |
| Finals.DataShape | a7.py:13-25 | the table has 22 rows in every column; the merge keeps the years; the years strictly increase, so no year has two finals |
| Finals.IncreasingIsStrictOrder | a7.py:14-15 | years that grow from each entry to the next are ordered between any two positions |
| Finals.Replace | a7.py:28-29 | dictionary `replace` keeps the length; an entry that is a key becomes that key's value and every other entry is kept |
| Finals.Normalize | a7.py:28-29 | the merged table is well formed and has as many rows as before |
| Finals.NormalizeMergesWestGermany | a7.py:28-29 | after the merge no winner or runner-up is West Germany; each West Germany became Germany; every other name and every year is unchanged |
| Finals.ReplaceMovesCounts | a7.py:28 | renaming a to b leaves no a; b then occurs as often as a and b did together; every other value keeps its count |
| Tally.Countries | a7.py:35 | the Country column of a tally, row by row |
| Tally.Distinct | a7.py:34 | the distinct values of a column: no repeats and the same set of values |
| Tally.InsertByCount | a7.py:34 | inserting one value into a list sorted by count keeps it sorted, adds exactly that value, and adds no repeat |
| Tally.SortByCount | a7.py:34 | sorting by count gives a permutation in non-increasing order of count and keeps a repeat-free list repeat-free |
| Tally.ValueCounts | a7.py:34-35 | one row per distinct value, no country twice, each row's Wins is that value's number of occurrences, rows in non-increasing order of Wins |
| Tally.TallyConservesWins | a7.py:34-35 | every Wins is at least 1 and the Wins add up to the number of values counted |
| Tally.TallySize | a7.py:34-35 | the tally has as many rows as the column has distinct values |
| Tally.TallyLists | a7.py:34-35 | a value occurs in the column exactly when some row of the tally names it |
| Tally.DistinctLength | a7.py:34 | a list without repeats has as many entries as distinct values |
| Iso.MapIso | a7.py:48 | each row keeps its country and wins; its ISO code is `iso_mapping[country]` when the country is a key and missing otherwise |
| Iso.IsoMappingShape | a7.py:38-47 | every code has three capital letters; no two names share a code; the map has eight keys, and a team's name is a key exactly when the team is one of the eight title winners after the merge, so the keys are exactly their names; West Germany is not a key |
| Iso.IsoCodes | a7.py:38-47 | every code has three capital letters and no two names share a code |
| Iso.IsoMappingSize | a7.py:38-47 | the map has exactly eight keys |
| Iso.ChampionKey | a7.py:38-47 | a team's name is a key of the map exactly when the team is one of the eight champions |
| Callbacks.FirstWhere | a7.py:113 | the index of the first element that satisfies the filter, or none exactly when no element does |
| Callbacks.DisplayWinCount | a7.py:110-114 | no selection gives ""; otherwise IndexError exactly when no row has the selected name, and else the sentence with the Wins of the first such row |
| Callbacks.DisplayFinalResult | a7.py:121-125 | no selection gives ""; otherwise IndexError exactly when the year is not in the table, and else the sentence with the winner and runner-up of the first row of that year |
| Callbacks.WinSentence | a7.py:114 | the sentence is the country, then " has won the World Cup ", then the count (which reads back as the count), then " times." exactly when the count is not 1 and " time." otherwise |
| Callbacks.FinalSentence | a7.py:125 | the sentence is "In ", the year (which reads back as the year), ", ", the winner, " won the final against ", the runner-up and a closing ".", each at its fixed offset |
| Callbacks.YearInSentence | a7.py:125 | the sentence starts with "In ", then the year's digits, then ", " |
| Callbacks.WinnerInSentence | a7.py:125 | the winner's name stands right after the year and ", ", followed by " won the final against " |
| Callbacks.RunnerUpInSentence | a7.py:125 | the runner-up's name stands right before the closing full stop, which is the last character |
| Callbacks.WinCountReportsTally | a7.py:110-114 | on a tally of any winner column, a name gives the sentence with its number of titles when the name won a final, and IndexError otherwise |
| Callbacks.FinalResultFindsRecord | a7.py:121-125 | in a table whose years are all different, selecting row i's year reports row i's winner and runner-up |
| Layout.CountryOptions | a7.py:81 | one option per row of the tally, in row order, with the row's country as label and as value |
| Layout.YearOptions | a7.py:92 | one option per row of the table, in row order, labelled `str(year)` and valued by the year |
| Layout.WinnerItems | a7.py:101 | one list item per row of the tally, in row order, holding the row's country |
| Layout.CountryOptionsDistinct | a7.py:81 | no two options of the country dropdown have the same value |
| Layout.WinnerItemsCoverWinners | a7.py:101 | a country is in the list of winners exactly when it won at least one final |
| Layout.ListedIfWon | a7.py:101 | a country that won a final is listed |
| Layout.WonIfListed | a7.py:101 | a listed country won a final |
| Layout.CountryOptionsSelectable | a7.py:81-114 | selecting any option of the country dropdown gives the sentence with that country's number of wins and never raises IndexError |
| Layout.YearOptionsMatchTable | a7.py:92 | the labels read back as the years; with distinct years, option i reports row i's final |
| Layout.YearLabelsReadBack | a7.py:92 | every label `str(year)` of the year dropdown reads back as its year |
| Layout.YearOptionsSelectRows | a7.py:92-125 | with distinct years, selecting option i reports the winner and runner-up of row i |
| Dashboard.WinnerColumnMerged | a7.py:28 | the merged winner column is the written column with West Germany replaced |
| Dashboard.WinnersWrittenCount | a7.py:16-23 | each name occurs in the written winner column as often as it won there: West Germany 3 times and Germany once, besides the other seven winners; the five other names never |
| Dashboard.WrittenCountAtLeastThree | a7.py:16-23 | Italy, West Germany, Brazil and Argentina occur as often as they won as written |
| Dashboard.WrittenCountTwo | a7.py:16-23 | Uruguay and France occur twice as winners |
| Dashboard.WrittenCountOne | a7.py:16-23 | Germany, England and Spain occur once as winners |
| Dashboard.NeverWon | a7.py:16-23 | a name with no title as written is not in the winner column |
| Dashboard.MergedCounts | a7.py:28 | merging those counts gives each country its number of titles |
| Dashboard.NormalizedCount | a7.py:16-28 | each country's count in the merged winner column is its number of titles |
| Dashboard.WinnerCountsAreTitles | a7.py:16-28 | Brazil 5, Italy 4, Germany 4, Argentina 3, Uruguay 2, France 2, England 1, Spain 1 and no other name, West Germany included |
| Dashboard.GermanyFinals | a7.py:14-28 | Germany won the finals of 1954, 1974, 1990 and 2014 |
| Dashboard.MostTitles | a7.py:16-28 | nobody has more than five titles and only Brazil has five |
| Dashboard.WinnersAreChampions | a7.py:16-28 | the countries in the merged winner column are exactly the eight champions |
| Dashboard.TallyOfTitlesLength | a7.py:34-35 | the tally has eight rows |
| Dashboard.TallyListsChampions | a7.py:34-35 | the tally's countries are exactly the eight champions |
| Dashboard.TallyCountsTitles | a7.py:34-35 | each row of the tally holds its country's number of titles, at least 1 |
| Dashboard.LeaderOfTitles | a7.py:34-35 | Brazil, with five titles, is the first row of the tally |
| Dashboard.WinCountsTotal | a7.py:34-35 | the Wins of the tally add up to 22 |
| Dashboard.TableRowsOfTitles | a7.py:38-48 | every row of the table with ISO codes has its country's titles and an ISO code; none is missing |
| Dashboard.WinTableRowsHaveIso | a7.py:34-48 | every row of the dashboard's own `win_counts` has its country's titles (at least 1) and an ISO code |
| Dashboard.WestGermanyNotTallied | a7.py:28-35 | after the merge West Germany has no row in `win_counts` |
| Dashboard.SelectCountryOf | a7.py:110-114 | on any table built from these counts, a country's name gives its title count and a country without a title raises IndexError |
| Dashboard.SelectCountry | a7.py:110-114 | the same on the dashboard's own table; for example Brazil gives 5 and West Germany raises IndexError |
| Dashboard.FirstFinalSelected | a7.py:121-125 | selecting 1930 reports Uruguay against Argentina |
| Dashboard.LastFinalSelected | a7.py:121-125 | selecting 2022 reports Argentina against France |
| Dashboard.EveryFinalSelectable | a7.py:121-125 | every year of the table reports its own winner and runner-up |
| Dashboard.NoFinalIn1942 | a7.py:121-125 | selecting 1942, a year without a final, raises IndexError |
| Dashboard.DropdownFigures | a7.py:79-94 | the country dropdown and list have 8 entries; the year dropdown has the 22 years in table order |

## Left out

- The Dash application, its layout containers, headings and styles, `JupyterDash`, `app.server` and `run_server` (a7.py:53-103, 127-129): these only present the tables and serve the page.
- The Plotly choropleth (a7.py:60-72): it is rendering only. The model stops at its input table, `WinTable`.
- The `@app.callback` registrations (a7.py:106-109, 117-120): the framework's event delivery is the handler's `Option` parameter.
- The `html.P` wrapper around each sentence (a7.py:114, 125): the handlers return the paragraph's text.
- `df.head()` and the bare `win_counts` expression (a7.py:31, 50): they only display a table in a notebook.
- Tally.ValueCounts: the order of countries with equal counts is modelled as first-occurrence order. pandas does not promise that order, so the dashboard lemmas state only the order by count and each country's count, not positions among ties.
- Dashboard.SelectCountry: the win-count sentences are stated with `WinSentence` over each team's spelling, not as spelled-out string literals.
- Dashboard.FirstFinalSelected: the sentence is stated with `FinalSentence` over the teams' spellings, not as a spelled-out string literal.
- Dashboard.LastFinalSelected: likewise stated with `FinalSentence`, not as a string literal.
- Dashboard.EveryFinalSelectable: likewise stated with `FinalSentence`, not as string literals.
- Selections of another type than a string for the country or an integer for the year: the dropdowns only produce their own option values.
- What Dash shows after a callback raises `IndexError`: the model stops at the error value.
- The 64-bit width of numpy's counts: the counts here are at most 22.
- England's code 'GBR', which is the United Kingdom's: the map is kept exactly as written.
