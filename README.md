# transfermarkt scraper: the data logic, verified

This project models the three pieces of plain data logic in `scraper.py`. The
script crawls transfermarkt.it for leagues, teams and players over the seasons
2015-2017. The three pieces are:

- **Seed builder** (module `Seeds`, file `seeds.dfy`). The static league list
  holds 'Seria A', 'Premiere League' and 'La Liga' (spelt as in the
  source), each with a name, a competition code and a slug. For one season,
  each entry becomes a league record. The record gets a `saison` field. Its name gets the season range appended
  ("La Liga 2016/2017"). Its `url` is filled in from the URL template. Its
  `code` and `slug` are popped. The records stay Python dicts
  (`map<string, string>`), so "exactly the fields name, url and saison" is a
  statement about the key set. `copy.deepcopy` is modelled by value
  semantics: the loop edits a copy of the constant list, and the constant
  cannot change.
- **Team records** (module `Teams`, file `teams.dfy`). `get_teams` maps each
  anchor found by the league page's selector to a team. Each team has the
  anchor text plus the season range, the anchor's `href`, and the league URL.
- **Player rows** (module `Players`, file `players.dfy`). `get_players` walks
  the roster rows. A row is modelled by what the three per-row selectors
  found: a profile anchor, a birth-date cell and a portrait image, each
  optional. Rows missing any of them are skipped. The other rows become
  player records, in order.

Shared parts:

- `Records` (`records.dfy`): an element as its text plus its attribute
  dictionary, Python's `KeyError`, and the season label "2016/2017".
- `Decimal` (`decimal.dfy`): Python's `str()` on integers, with a parser
  proved to be its inverse.
- `Wrappers` (`wrappers.dfy`): `Option` and `Result`.

Reading `attrib['href']` or `attrib['data-src']` happens outside the `try` in
`get_players` (and anywhere in `get_teams`). A missing attribute therefore
raises `KeyError` out of the call, and no list is returned. The model returns
`Failure(KeyError(key))` in that case. A missing sub-element is different: it
is caught, and its row is skipped (scraper.py:64-70).

## Model

| member | source | states |
|---|---|---|
| `Records.SeasonLabel` | scraper.py:100 | the label "season/season+1" has its '/' right after the digits of `str(season)`, and the text after it is exactly as long as `str(season+1)`; the characters themselves are stated by `Records.SeasonLabelReadsBack` |
| `Records.SeasonLabelReadsBack` | scraper.py:100 | cut at that '/', the two halves of the label read back as the season and the season after it, so the label loses nothing |
| `Decimal.NatToString` | scraper.py:99-100 | `str()` of a non-negative season is non-empty, all digits, has no leading zero (except "0") and reads back as the same number |
| `Decimal.IntToString` | scraper.py:99-100 | `str()` of any int (minus sign for negatives) is parsed back to the same int, so no information is lost in the label |
| `Decimal.IntToStringInjective` | scraper.py:101-103 | two seasons render to the same text exactly when they are equal |
| `Decimal.SeasonDigits` | scraper.py:94 | the seasons 2015, 2016 and 2017, and 2018 (the end of the last range), render as their four digits |
| `Seeds.LeagueUrlTplFormat` | scraper.py:18-19 | the URL template formatted with (slug, code, season) is `https://www.transfermarkt.it/` + slug + `/startseite/wettbewerb/` + code + `/plus/?saison_id=` + season |
| `Seeds.Format` | scraper.py:101-103 | `str.format` on the URL template: a template that opens with literal text yields a string that opens with that text |
| `Seeds.FormatAppend` | scraper.py:101-103 | formatting is piecewise: a template split in two formats to the two halves formatted separately, one after the other |
| `Seeds.FormatThreeSlots` | scraper.py:19 | `str.format` on a template of three literals, each followed by fields {0}, {1} and {2}, puts the three arguments in place |
| `Seeds.StartingLeaguesAreTemplates` | scraper.py:13-17 | every static entry has exactly the fields name, code and slug |
| `Seeds.SeedLeague` | scraper.py:98-105 | editing one copied entry gives its keys minus code and slug, plus name, url and saison. Other fields are untouched. The name gets " season/season+1", the url comes from the template and saison is `str(season)`. For a static entry the result has exactly the three fields |
| `Seeds.SeedLeagues` | scraper.py:97-105 | one league per static entry, in the list's order. Each has exactly name, url and saison, with the name, URL and season text above |
| `SeedProperties.SeedDeterministic` | scraper.py:97-105 | any two seed outputs for the same season are identical (deep copy, no hidden state) |
| `SeedProperties.SeedUrlIsKey` | scraper.py:101-103 | two seeded league URLs are equal exactly when they come from the same static entry and the same season. Both directions are proved, so the `url` unique key only collides on a re-run of a season |
| `SeedProperties.SlugsDiffer` | scraper.py:13-17 | the three static slugs differ in their first letter |
| `SeedProperties.LaLiga2016` | scraper.py:99-103 | the La Liga seed for 2016 is exactly {name: "La Liga 2016/2017", url: "https://www.transfermarkt.it/la-liga/startseite/wettbewerb/ES1/plus/?saison_id=2016", saison: "2016"} |
| `Teams.GetTeams` | scraper.py:37-44 | (through the comprehension helper `TeamList`) extraction succeeds exactly when every anchor has `href`; otherwise it fails with `KeyError('href')`. On success there is exactly one team per anchor, in document order. Team i has anchor i's text + " " + season/season+1, anchor i's `href` unchanged, and the league URL. No anchors give an empty list, not an error |
| `Teams.GetTeamsAppend` | scraper.py:37-44 | the teams of a run of anchors followed by another are the first run's teams followed by the second's (document order) |
| `Teams.TeamsRecoverAnchors` | scraper.py:39-40 | no anchor information is lost: stripping " season/season+1" from team i's name gives back anchor i's text, and its url is anchor i's `href` |
| `Teams.BarcelonaTeam` | scraper.py:39-41 | the anchor "FC Barcelona" on the 2017 page gives the team "FC Barcelona 2017/2018" |
| `Players.ReadRow` | scraper.py:64-77 | a row is skipped exactly when one of its three sub-elements is missing. A complete row raises exactly when its anchor lacks `href` or its image lacks `data-src`, and `href` is reported first. Otherwise the record has the anchor text, the `href`, the cell text unprocessed and the `data-src` |
| `Players.Players` | scraper.py:62-79 | the row fold: on success there are never more players than rows; on failure the error is a `KeyError` for `href` or `data-src`, the only attributes the loop reads |
| `Players.GetPlayers` | scraper.py:62-79 | the loop's result equals `Players(rows)`: rows in order, skipped rows dropped, the first `KeyError` ending the call |
| `Players.PlayersFailureSticks` | scraper.py:72-77 | once a prefix of the rows has raised, the whole call fails with that error |
| `Players.KeptIndicesSpec` | scraper.py:63-70 | the kept positions are exactly the complete rows, strictly increasing and in range. Kept plus skipped equals the number of rows |
| `Players.PlayersSucceed` | scraper.py:72-77 | the call succeeds exactly when no row raises, that is when every complete row has both `href` and `data-src` |
| `Players.PlayersKept` | scraper.py:62-79 | on success, player j is the record of the j-th complete row, so there is one player per complete row and document order is kept |
| `Players.PlayersFirstError` | scraper.py:72-77 | on failure, the error is that of the first row that raises, and no earlier row raises |
| `Players.PlayersSkipRow` | scraper.py:68-70 | inserting an incomplete row anywhere leaves the result unchanged, and the rows after it are still extracted |
| `Players.PlayersCount` | scraper.py:62-79 | on success, the number of players is the number of rows minus the skipped ones, so it is never more than the number of rows |
| `Players.MissingImageRowDropped` | scraper.py:67-70 | a row without an image between two good rows is dropped whole; both good rows are extracted in order |

## Left out

- HTTP session, request headers and page fetches (scraper.py:31, 56, 84-92): network I/O. Callers pass what the page yielded instead.
- lxml parsing and CSS selector evaluation (scraper.py:34-35, 59-60, 65-67): a foreign library. The league page is given as the sequence of anchors the selector returned. A player row is given as three optional elements. An unparsable document is therefore not modelled.
- `scraperwiki.sqlite.save` and its upsert by `url` (scraper.py:108-128): a foreign library whose replace-on-key behaviour is not in this code. The loops over leagues and teams only fetch pages and save records, so they are not modelled either. The season loop also runs the seed builder (scraper.py:97-105), which `Seeds.SeedLeagues` models for one season at a time; the loop's iteration over the seasons 2015-2017 is not modelled.
- The environment variable that fixes the database file name (scraper.py:7), and every `print` (progress lines and the skipped-row diagnostic).
- Element text: lxml's `.text` can be `None`, which would make `link.text + " "` raise `TypeError`. The model treats every text as a string.
- Seeds.SeedLeagues: Python dict key order (after the edits, `saison` comes first, then `name` and `url`) is not modelled; the records are maps.
- Seeds.Format: `str.format` is modelled on a template that is already split into literal text and numbered fields. The format-string syntax itself is not parsed. The season reaches the template already rendered by `str()`, which is what `format` does with an int.
