/** `get_teams`: the team anchors of a league page turned into team records. */
module Teams {
  import opened Wrappers
  import opened Records

  datatype Team = Team(name: string, url: string, league: string)

  /** The dict the comprehension builds for one anchor. */
  function TeamOf(link: Element, leagueUrl: string, season: int): Team
    requires "href" in link.attrib
  {
    Team(link.text + " " + SeasonLabel(season), link.attrib["href"], leagueUrl)
  }

  /** Every anchor carries an `href` attribute. */
  predicate AllHaveHref(links: seq<Element>) {
    forall i :: 0 <= i < |links| ==> "href" in links[i].attrib
  }

  /** The list comprehension itself, once every anchor has its `href`: one
      team per anchor, in document order. */
  function TeamList(links: seq<Element>, leagueUrl: string, season: int): (teams: seq<Team>)
    requires AllHaveHref(links)
    ensures |teams| == |links|
    ensures forall i :: 0 <= i < |links| ==> teams[i] == TeamOf(links[i], leagueUrl, season)
  {
    seq(|links|, i requires 0 <= i < |links| => TeamOf(links[i], leagueUrl, season))
  }

  /** The list comprehension over the anchors the page's CSS selector
      returned: one team per anchor, in document order, named after the
      anchor text with the season range, pointing at the anchor's `href` and
      back at the league. A link without `href` makes the comprehension raise
      KeyError, so no list is returned at all. */
  function GetTeams(links: seq<Element>, leagueUrl: string, season: int): (r: Result<seq<Team>, KeyError>)
    ensures r.Success? <==> forall i :: 0 <= i < |links| ==> "href" in links[i].attrib
    ensures r.Failure? ==> r.error == KeyError("href")
    ensures r.Success? ==> |r.value| == |links|
    ensures r.Success? ==> forall i :: 0 <= i < |links| ==>
              && r.value[i].name == links[i].text + " " + SeasonLabel(season)
              && r.value[i].url == links[i].attrib["href"]
              && r.value[i].league == leagueUrl
  {
    if AllHaveHref(links) then Success(TeamList(links, leagueUrl, season))
    else Failure(KeyError("href"))
  }

  /** Extraction is anchor by anchor: the teams of two consecutive runs of
      anchors are the teams of the first followed by those of the second. */
  lemma GetTeamsAppend(a: seq<Element>, b: seq<Element>, leagueUrl: string, season: int)
    requires GetTeams(a, leagueUrl, season).Success? && GetTeams(b, leagueUrl, season).Success?
    ensures GetTeams(a + b, leagueUrl, season)
         == Success(GetTeams(a, leagueUrl, season).value + GetTeams(b, leagueUrl, season).value)
  {
    TeamListAppend(a, b, leagueUrl, season);
  }

  lemma HrefAppend(a: seq<Element>, b: seq<Element>)
    requires AllHaveHref(a) && AllHaveHref(b)
    ensures AllHaveHref(a + b)
  {
    forall i | 0 <= i < |a + b|
      ensures "href" in (a + b)[i].attrib
    {
      if i >= |a| { assert (a + b)[i] == b[i - |a|]; }
    }
  }

  lemma TeamListAppend(a: seq<Element>, b: seq<Element>, leagueUrl: string, season: int)
    requires AllHaveHref(a) && AllHaveHref(b)
    ensures AllHaveHref(a + b)
    ensures TeamList(a + b, leagueUrl, season) == TeamList(a, leagueUrl, season) + TeamList(b, leagueUrl, season)
  {
    HrefAppend(a, b);
    var ra, rb := TeamList(a, leagueUrl, season), TeamList(b, leagueUrl, season);
    var r := TeamList(a + b, leagueUrl, season);
    forall i | 0 <= i < |r|
      ensures r[i] == (ra + rb)[i]
    {
      if i < |a| {
        assert r[i] == TeamOf(a[i], leagueUrl, season) == ra[i];
      } else {
        assert r[i] == TeamOf(b[i - |a|], leagueUrl, season) == rb[i - |a|];
      }
    }
  }

  /** The anchor text a team name was built from, if `name` carries the
      season range of `season`. */
  function AnchorText(name: string, season: int): Option<string> {
    var suffix := " " + SeasonLabel(season);
    if |suffix| <= |name| && name[|name| - |suffix|..] == suffix
    then Some(name[..|name| - |suffix|])
    else None
  }

  lemma AnchorTextOfName(text: string, season: int)
    ensures AnchorText(text + " " + SeasonLabel(season), season) == Some(text)
  {
    var suffix := " " + SeasonLabel(season);
    var name := text + suffix;
    assert text + " " + SeasonLabel(season) == name;
    assert name[|text|..] == suffix;
    assert name[..|text|] == text;
  }

  /** No anchor is lost in a team: each team's name gives back its anchor's
      text, and its url is the anchor's `href`. */
  lemma TeamsRecoverAnchors(links: seq<Element>, leagueUrl: string, season: int)
    requires GetTeams(links, leagueUrl, season).Success?
    ensures var teams := GetTeams(links, leagueUrl, season).value;
            forall i :: 0 <= i < |links| ==>
              AnchorText(teams[i].name, season) == Some(links[i].text)
              && teams[i].url == links[i].attrib["href"]
  {
    var teams := GetTeams(links, leagueUrl, season).value;
    forall i | 0 <= i < |links|
      ensures AnchorText(teams[i].name, season) == Some(links[i].text)
    {
      AnchorTextOfName(links[i].text, season);
    }
  }

  /** FC Barcelona's anchor on the 2017 page. */
  lemma BarcelonaTeam(href: string, leagueUrl: string)
    ensures GetTeams([Element("FC Barcelona", map["href" := href])], leagueUrl, 2017)
         == Success([Team("FC Barcelona 2017/2018", href, leagueUrl)])
  {
    var links := [Element("FC Barcelona", map["href" := href])];
    Decimal.SeasonDigits();
    assert SeasonLabel(2017) == "2017/2018";
    assert "FC Barcelona" + " " == "FC Barcelona ";
    assert "FC Barcelona " + "2017/2018" == "FC Barcelona 2017/2018";
    var teams := GetTeams(links, leagueUrl, 2017).value;
    assert teams[0] == Team("FC Barcelona 2017/2018", href, leagueUrl);
    assert teams == [teams[0]];
  }
}
