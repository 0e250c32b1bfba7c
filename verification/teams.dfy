/**
 * The country names that occur in the finals table. The table, the
 * replacement dictionary and the ISO dictionary all spell countries as
 * strings; every string used is the Name of exactly one Team, so
 * comparing Teams is comparing those strings.
 */
module Teams {
  import opened Wrappers

  datatype Team =
    | Uruguay | Italy | WestGermany | Germany | Brazil | England | Argentina
    | France | Spain | Czechoslovakia | Hungary | Sweden | Netherlands | Croatia
  {
    /** The spelling used for this country in the source table. */
    function Name(): string {
      match this
      case Uruguay => "Uruguay"
      case Italy => "Italy"
      case WestGermany => "West Germany"
      case Germany => "Germany"
      case Brazil => "Brazil"
      case England => "England"
      case Argentina => "Argentina"
      case France => "France"
      case Spain => "Spain"
      case Czechoslovakia => "Czechoslovakia"
      case Hungary => "Hungary"
      case Sweden => "Sweden"
      case Netherlands => "Netherlands"
      case Croatia => "Croatia"
    }
  }

  /** The Team spelled `name`, if any: how a dropdown string is matched against the table. */
  function TeamNamed(name: string): (r: Option<Team>)
    ensures r.Some? ==> r.value.Name() == name
  {
    if name == "Uruguay" then Some(Uruguay)
    else if name == "Italy" then Some(Italy)
    else if name == "West Germany" then Some(WestGermany)
    else if name == "Germany" then Some(Germany)
    else if name == "Brazil" then Some(Brazil)
    else if name == "England" then Some(England)
    else if name == "Argentina" then Some(Argentina)
    else if name == "France" then Some(France)
    else if name == "Spain" then Some(Spain)
    else if name == "Czechoslovakia" then Some(Czechoslovakia)
    else if name == "Hungary" then Some(Hungary)
    else if name == "Sweden" then Some(Sweden)
    else if name == "Netherlands" then Some(Netherlands)
    else if name == "Croatia" then Some(Croatia)
    else None
  }

  /** Every spelling is read back as its own Team, so no two Teams share a spelling. */
  lemma TeamNamedInvertsName(t: Team)
    ensures TeamNamed(t.Name()) == Some(t)
  {
  }

  lemma NameInjective(a: Team, b: Team)
    ensures a.Name() == b.Name() <==> a == b
  {
    TeamNamedInvertsName(a);
    TeamNamedInvertsName(b);
  }
}
