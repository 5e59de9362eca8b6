/** What the extractors see of a parsed page, and what they share. */
module Records {
  import opened Wrappers
  import opened Decimal

  /** An lxml element as far as the scraper reads it: its text and its
      attribute dictionary. */
  datatype Element = Element(text: string, attrib: map<string, string>)

  /** The `KeyError` Python raises when `attrib[key]` names an attribute the
      element does not carry. */
  datatype KeyError = KeyError(key: string)

  /** The season range appended to league and team names: "2016/2017" for the
      season that starts in 2016. */
  function SeasonLabel(season: int): (r: string)
    ensures var k := |IntToString(season)|;
            k < |r| && r[k] == '/' && |r| == k + 1 + |IntToString(season + 1)|
  {
    IntToString(season) + "/" + IntToString(season + 1)
  }

  /** The label loses nothing: cut at the '/' after the first season, its two
      halves read back as the season and the season after it. */
  lemma SeasonLabelReadsBack(season: int)
    ensures var r, k := SeasonLabel(season), |IntToString(season)|;
            && k < |r| && r[k] == '/'
            && ParseDecimal(r[..k]) == Some(season)
            && ParseDecimal(r[k + 1..]) == Some(season + 1)
  {
    var a, b := IntToString(season), IntToString(season + 1);
    var r := SeasonLabel(season);
    assert r[..|a|] == a && r[|a| + 1..] == b;
  }
}
