/**
 * The ISO 3166-1 alpha-3 column of `win_counts` (a7.py lines 38-48): each
 * country name is looked up in a fixed dictionary, and names that are not
 * keys come out missing.
 */
module Iso {
  import opened Wrappers
  import opened Teams
  import opened Tally

  /** `iso_mapping`, exactly as written (England is given the United Kingdom's code). */
  const IsoMapping: map<string, string> := map[
    "Uruguay" := "URY",
    "Italy" := "ITA",
    "Germany" := "DEU",
    "Brazil" := "BRA",
    "England" := "GBR",
    "Argentina" := "ARG",
    "France" := "FRA",
    "Spain" := "ESP"
  ]

  /** A row of `win_counts` once its ISO column exists; None stands for pandas' NaN. */
  datatype CountryRow = CountryRow(country: Team, wins: nat, iso: Option<string>)

  /**
   * `win_counts['ISO'] = win_counts['Country'].map(m)`: every row keeps its
   * country and wins and gains the dictionary's code for its name, or a
   * missing value when the name is not a key.
   */
  function MapIso(t: seq<WinCount<Team>>, m: map<string, string>): (r: seq<CountryRow>)
    ensures |r| == |t|
    ensures forall i :: 0 <= i < |t| ==> r[i].country == t[i].country && r[i].wins == t[i].wins
    ensures forall i :: 0 <= i < |t| ==> (r[i].iso.Some? <==> t[i].country.Name() in m)
    ensures forall i :: 0 <= i < |t| && r[i].iso.Some? ==> r[i].iso.value == m[t[i].country.Name()]
  {
    if t == [] then []
    else
      var name := t[0].country.Name();
      [CountryRow(t[0].country, t[0].wins, if name in m then Some(m[name]) else None)]
        + MapIso(t[1..], m)
  }

  /** The countries that have won a final once West Germany is merged into Germany. */
  const Champions: set<Team> := {Brazil, Italy, Germany, Argentina, Uruguay, France, England, Spain}

  predicate IsAlpha3(code: string) {
    |code| == 3 && forall i :: 0 <= i < 3 ==> 'A' <= code[i] <= 'Z'
  }

  /**
   * Every code in the dictionary has the alpha-3 shape, no two names share
   * a code, and the keys are exactly the eight countries that have won a
   * final once West Germany is merged into Germany; West Germany itself is
   * not a key.
   */
  lemma IsoMappingShape()
    ensures forall k :: k in IsoMapping ==> IsAlpha3(IsoMapping[k])
    ensures forall k1, k2 :: k1 in IsoMapping && k2 in IsoMapping && IsoMapping[k1] == IsoMapping[k2] ==> k1 == k2
    ensures forall t: Team :: t.Name() in IsoMapping <==> t in Champions
    ensures |IsoMapping| == 8
  {
    IsoCodes();
    forall t: Team ensures t.Name() in IsoMapping <==> t in Champions {
      ChampionKey(t);
    }
    IsoMappingSize();
  }

  lemma IsoCodes()
    ensures forall k :: k in IsoMapping ==> IsAlpha3(IsoMapping[k])
    ensures forall k1, k2 :: k1 in IsoMapping && k2 in IsoMapping && IsoMapping[k1] == IsoMapping[k2] ==> k1 == k2
  {
  }

  lemma IsoMappingSize()
    ensures |IsoMapping| == 8
  {
  }

  lemma ChampionKey(t: Team)
    ensures t.Name() in IsoMapping <==> t in Champions
  {
  }
}
