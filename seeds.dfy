/** The seed builder: the static league list expanded, for one season, into
    league records carrying a display name, a canonical URL and the season. */
module Seeds {
  import opened Decimal
  import opened Records

  /** A league record is a Python dict from field name to string. */
  type Dict = map<string, string>

  const StartingLeagues: seq<Dict> := [
    map["name" := "Seria A", "code" := "IT1", "slug" := "serie-a"],
    map["name" := "Premiere League", "code" := "GB1", "slug" := "premiere-league"],
    map["name" := "La Liga", "code" := "ES1", "slug" := "la-liga"]
  ]

  const BaseUrl: string := "https://www.transfermarkt.it"

  /** A `str.format` template after parsing: literal text and numbered
      replacement fields `{i}`. */
  datatype Piece = Lit(text: string) | Slot(index: nat)

  const LeagueUrlTpl: seq<Piece> := [
    Lit(BaseUrl + "/"), Slot(0), Lit("/startseite/wettbewerb/"), Slot(1),
    Lit("/plus/?saison_id="), Slot(2)
  ]

  predicate FitsArgs(tpl: seq<Piece>, n: nat) {
    forall k :: 0 <= k < |tpl| ==> (tpl[k].Slot? ==> tpl[k].index < n)
  }

  /** `tpl.format(*args)`: every replacement field replaced by its argument. */
  function Format(tpl: seq<Piece>, args: seq<string>): (r: string)
    requires FitsArgs(tpl, |args|)
    ensures tpl != [] && tpl[0].Lit? ==> tpl[0].text <= r
  {
    if tpl == [] then ""
    else
      (match tpl[0]
       case Lit(t) => t
       case Slot(i) => args[i])
      + Format(tpl[1..], args)
  }

  /** Formatting works piece by piece: a template split in two formats to the
      two halves formatted separately, one after the other. */
  lemma {:induction false} FormatAppend(t1: seq<Piece>, t2: seq<Piece>, args: seq<string>)
    requires FitsArgs(t1, |args|) && FitsArgs(t2, |args|)
    ensures FitsArgs(t1 + t2, |args|)
    ensures Format(t1 + t2, args) == Format(t1, args) + Format(t2, args)
  {
    if t1 != [] {
      assert (t1 + t2)[1..] == t1[1..] + t2;
      FormatAppend(t1[1..], t2, args);
    } else {
      assert t1 + t2 == t2;
    }
  }

  /** The league URL template with its three replacement fields filled in is
      the base URL, the slug, the competition code and the season, in place. */
  lemma LeagueUrlTplFormat(slug: string, code: string, season: string)
    ensures FitsArgs(LeagueUrlTpl, 3)
    ensures Format(LeagueUrlTpl, [slug, code, season])
         == BaseUrl + "/" + slug + "/startseite/wettbewerb/" + code + "/plus/?saison_id=" + season
  {
    FormatThreeSlots(BaseUrl + "/", "/startseite/wettbewerb/", "/plus/?saison_id=", slug, code, season);
  }

  /** A template of three literal parts, each followed by the next field. */
  lemma FormatThreeSlots(a: string, b: string, c: string, x: string, y: string, z: string)
    ensures FitsArgs([Lit(a), Slot(0), Lit(b), Slot(1), Lit(c), Slot(2)], 3)
    ensures Format([Lit(a), Slot(0), Lit(b), Slot(1), Lit(c), Slot(2)], [x, y, z])
         == a + x + b + y + c + z
  {
    var t := [Lit(a), Slot(0), Lit(b), Slot(1), Lit(c), Slot(2)];
    var args := [x, y, z];
    assert Format(t[5..], args) == z + "";
    assert Format(t[4..], args) == c + z;
    assert Format(t[3..], args) == y + (c + z);
    assert Format(t[2..], args) == b + (y + (c + z));
    assert Format(t[1..], args) == x + (b + (y + (c + z)));
  }

  /** A static league entry: exactly a name, a competition code and a slug. */
  predicate IsTemplate(t: Dict) {
    t.Keys == {"name", "code", "slug"}
  }

  lemma StartingLeaguesAreTemplates()
    ensures forall i :: 0 <= i < |StartingLeagues| ==> IsTemplate(StartingLeagues[i])
  {
  }

  predicate HasTemplateFields(t: Dict) {
    "name" in t && "code" in t && "slug" in t
  }

  /** `league` is what the seed loop makes of template `t` for `season`: the
      three fields name, url and saison and nothing else. */
  predicate IsSeededLeague(league: Dict, t: Dict, season: int)
    requires HasTemplateFields(t)
  {
    && league.Keys == {"name", "url", "saison"}
    && league["name"] == t["name"] + " " + SeasonLabel(season)
    && league["url"] == BaseUrl + "/" + t["slug"] + "/startseite/wettbewerb/" + t["code"]
                        + "/plus/?saison_id=" + IntToString(season)
    && league["saison"] == IntToString(season)
  }

  /** One seeded league per static entry, in the static list's order. */
  predicate IsSeedOutput(leagues: seq<Dict>, season: int) {
    && |leagues| == |StartingLeagues|
    && forall i :: 0 <= i < |leagues| ==>
         IsTemplate(StartingLeagues[i]) && IsSeededLeague(leagues[i], StartingLeagues[i], season)
  }

  /** The edits the seed loop makes to one copied entry: `saison` added,
      `name` popped and put back with the season range, `url` formatted from
      the template, `code` and `slug` popped. */
  method SeedLeague(t: Dict, season: int) returns (league: Dict)
    requires HasTemplateFields(t)
    ensures league.Keys == t.Keys - {"code", "slug"} + {"name", "url", "saison"}
    ensures forall k :: k in league && k != "name" && k != "url" && k != "saison" ==> league[k] == t[k]
    ensures league["name"] == t["name"] + " " + SeasonLabel(season)
    ensures league["url"] == BaseUrl + "/" + t["slug"] + "/startseite/wettbewerb/" + t["code"]
                             + "/plus/?saison_id=" + IntToString(season)
    ensures league["saison"] == IntToString(season)
    ensures IsTemplate(t) ==> IsSeededLeague(league, t, season)
  {
    league := t;
    league := league["saison" := IntToString(season)];
    var name := league["name"];
    league := league - {"name"};
    league := league["name" := name + " " + SeasonLabel(season)];
    LeagueUrlTplFormat(league["slug"], league["code"], IntToString(season));
    league := league["url" := Format(LeagueUrlTpl, [league["slug"], league["code"], IntToString(season)])];
    league := league - {"code"};
    league := league - {"slug"};
  }

  /** The part of the season loop that prepares `leagues` before they are
      saved: a deep copy of the static list, each entry then edited. */
  method SeedLeagues(season: int) returns (leagues: seq<Dict>)
    ensures IsSeedOutput(leagues, season)
  {
    StartingLeaguesAreTemplates();
    leagues := StartingLeagues;
    var i := 0;
    while i < |leagues|
      invariant 0 <= i <= |leagues| == |StartingLeagues|
      invariant forall j :: 0 <= j < i ==>
                  IsTemplate(StartingLeagues[j]) && IsSeededLeague(leagues[j], StartingLeagues[j], season)
      invariant forall j :: i <= j < |leagues| ==> leagues[j] == StartingLeagues[j]
    {
      var league := SeedLeague(leagues[i], season);
      assert IsTemplate(StartingLeagues[i]) && IsSeededLeague(league, StartingLeagues[i], season);
      leagues := leagues[i := league];
      i := i + 1;
    }
  }
}

module SeedProperties {
  import opened Decimal
  import opened Records
  import opened Seeds

  /** The seed output is determined by the season alone: two runs for the
      same season give identical records. */
  lemma SeedDeterministic(a: seq<Dict>, b: seq<Dict>, season: int)
    requires IsSeedOutput(a, season) && IsSeedOutput(b, season)
    ensures a == b
  {
    forall i | 0 <= i < |a|
      ensures a[i] == b[i]
    {
      SeededLeagueUnique(a[i], b[i], StartingLeagues[i], season);
    }
  }

  lemma SeededLeagueUnique(l: Dict, l': Dict, t: Dict, season: int)
    requires HasTemplateFields(t)
    requires IsSeededLeague(l, t, season) && IsSeededLeague(l', t, season)
    ensures l == l'
  {
  }

  /** The url is a key: two seeded leagues share it exactly when they come
      from the same static entry and the same season. */
  lemma SeedUrlIsKey(a: seq<Dict>, s1: int, i: nat, b: seq<Dict>, s2: int, j: nat)
    requires IsSeedOutput(a, s1) && IsSeedOutput(b, s2)
    requires i < |a| && j < |b|
    ensures a[i]["url"] == b[j]["url"] <==> i == j && s1 == s2
  {
    var t, t' := StartingLeagues[i], StartingLeagues[j];
    var p := UrlPrefix(t["slug"], t["code"]);
    var p' := UrlPrefix(t'["slug"], t'["code"]);
    assert a[i]["url"] == p + IntToString(s1);
    assert b[j]["url"] == p' + IntToString(s2);
    if i != j {
      SlugsDiffer(i, j);
      UrlPrefixSlugHead(t["slug"], t["code"], IntToString(s1));
      UrlPrefixSlugHead(t'["slug"], t'["code"], IntToString(s2));
    } else if a[i]["url"] == b[j]["url"] {
      assert (p + IntToString(s1))[|p|..] == IntToString(s1);
      assert (p + IntToString(s2))[|p|..] == IntToString(s2);
      IntToStringInjective(s1, s2);
    }
  }

  function UrlPrefix(slug: string, code: string): string {
    BaseUrl + "/" + slug + "/startseite/wettbewerb/" + code + "/plus/?saison_id="
  }

  lemma UrlPrefixSlugHead(slug: string, code: string, rest: string)
    requires |slug| > 0
    ensures (UrlPrefix(slug, code) + rest)[|BaseUrl| + 1] == slug[0]
  {
  }

  /** The static entries' slugs already differ in their first letter. */
  lemma SlugsDiffer(i: nat, j: nat)
    requires i < |StartingLeagues| && j < |StartingLeagues| && i != j
    ensures |StartingLeagues[i]["slug"]| > 0 && |StartingLeagues[j]["slug"]| > 0
    ensures StartingLeagues[i]["slug"][0] != StartingLeagues[j]["slug"][0]
  {
  }

  /** The la-liga / ES1 / 2016 seed, written out. */
  lemma LaLiga2016(leagues: seq<Dict>)
    requires IsSeedOutput(leagues, 2016)
    ensures leagues[2] == map[
      "name" := "La Liga 2016/2017",
      "url" := "https://www.transfermarkt.it/la-liga/startseite/wettbewerb/ES1/plus/?saison_id=2016",
      "saison" := "2016"]
  {
    SeasonDigits();
    var t := StartingLeagues[2];
    assert t["name"] == "La Liga" && t["slug"] == "la-liga" && t["code"] == "ES1";
    LaLiga2016Name();
    LaLiga2016Url();
    var l := leagues[2];
    assert l["name"] == "La Liga 2016/2017";
    assert l["url"] == "https://www.transfermarkt.it/la-liga/startseite/wettbewerb/ES1/plus/?saison_id=2016";
  }

  // LaLiga2016Name, LaLiga2016Url, LaLigaUrlText and LaLigaUrlHead are solver
  // scaffolding for LaLiga2016: each joins string literals a few at a time,
  // which keeps every step of the concrete example small enough to check.

  lemma LaLiga2016Name()
    ensures "La Liga" + " " + SeasonLabel(2016) == "La Liga 2016/2017"
  {
    SeasonDigits();
    assert SeasonLabel(2016) == "2016/2017";
    assert "La Liga" + " " == "La Liga ";
  }

  lemma LaLiga2016Url()
    ensures UrlPrefix("la-liga", "ES1") + IntToString(2016)
         == "https://www.transfermarkt.it/la-liga/startseite/wettbewerb/ES1/plus/?saison_id=2016"
  {
    SeasonDigits();
    LaLigaUrlText();
  }

  lemma LaLigaUrlText()
    ensures UrlPrefix("la-liga", "ES1") + "2016"
         == "https://www.transfermarkt.it/la-liga/startseite/wettbewerb/ES1/plus/?saison_id=2016"
  {
    LaLigaUrlHead();
    assert "https://www.transfermarkt.it/la-liga" + "/startseite/wettbewerb/"
        == "https://www.transfermarkt.it/la-liga/startseite/wettbewerb/";
    assert "https://www.transfermarkt.it/la-liga/startseite/wettbewerb/" + "ES1"
        == "https://www.transfermarkt.it/la-liga/startseite/wettbewerb/ES1";
    assert "https://www.transfermarkt.it/la-liga/startseite/wettbewerb/ES1" + "/plus/?saison_id="
        == "https://www.transfermarkt.it/la-liga/startseite/wettbewerb/ES1/plus/?saison_id=";
  }

  lemma LaLigaUrlHead()
    ensures BaseUrl + "/" + "la-liga" == "https://www.transfermarkt.it/la-liga"
  {
  }
}
