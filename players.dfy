/** `get_players`: the roster rows of a team page turned into player records,
    skipping the rows that lack one of the three parts a player row has. */
module Players {
  import opened Wrappers
  import opened Records

  /** A roster row as the three per-row selectors see it: the profile anchor,
      the birth-date cell and the portrait image, each absent when its
      selector matched nothing. */
  datatype Row = Row(nameLink: Option<Element>, birthDateCell: Option<Element>, image: Option<Element>)

  datatype Player = Player(name: string, url: string, birthDate: string, imgUrl: string)

  /** All three sub-elements were found, so the `try` block does not fail. */
  predicate Complete(row: Row) {
    row.nameLink.Some? && row.birthDateCell.Some? && row.image.Some?
  }

  /** The record built from a complete row, once its attributes are known to
      be there. */
  function PlayerOf(row: Row): Player
    requires Complete(row)
    requires "href" in row.nameLink.value.attrib && "data-src" in row.image.value.attrib
  {
    Player(row.nameLink.value.text, row.nameLink.value.attrib["href"],
           row.birthDateCell.value.text, row.image.value.attrib["data-src"])
  }

  /** What one pass of the loop body does with a row. */
  datatype RowOutcome = Skipped | Emitted(player: Player) | Raised(error: KeyError)

  function ReadRow(row: Row): (o: RowOutcome)
    ensures o.Skipped? <==> !Complete(row)
    ensures o.Raised? <==>
              (Complete(row) && ("href" !in row.nameLink.value.attrib || "data-src" !in row.image.value.attrib))
    ensures o.Raised? ==>
              o.error == KeyError(if "href" !in row.nameLink.value.attrib then "href" else "data-src")
    ensures o.Emitted? ==>
              && o.player.name == row.nameLink.value.text
              && o.player.url == row.nameLink.value.attrib["href"]
              && o.player.birthDate == row.birthDateCell.value.text
              && o.player.imgUrl == row.image.value.attrib["data-src"]
  {
    if !Complete(row) then Skipped
    else if "href" !in row.nameLink.value.attrib then Raised(KeyError("href"))
    else if "data-src" !in row.image.value.attrib then Raised(KeyError("data-src"))
    else Emitted(PlayerOf(row))
  }

  /** One row read after the rows before it: a raised KeyError stays raised. */
  function Step(sofar: Result<seq<Player>, KeyError>, row: Row): Result<seq<Player>, KeyError>
  {
    match sofar
    case Failure(e) => Failure(e)
    case Success(ps) =>
      match ReadRow(row)
      case Skipped => Success(ps)
      case Emitted(p) => Success(ps + [p])
      case Raised(e) => Failure(e)
  }

  /** The rows processed one after another: skipped rows add nothing, the
      first KeyError ends the whole call. */
  function Players(rows: seq<Row>): (r: Result<seq<Player>, KeyError>)
    ensures r.Success? ==> |r.value| <= |rows|
    ensures r.Failure? ==> r.error.key == "href" || r.error.key == "data-src"
  {
    if rows == [] then Success([])
    else Step(Players(rows[..|rows| - 1]), rows[|rows| - 1])
  }

  /** The positions of the complete rows, in increasing order. */
  function KeptIndices(rows: seq<Row>): seq<nat>
  {
    if rows == [] then []
    else KeptIndices(rows[..|rows| - 1]) + (if Complete(rows[|rows| - 1]) then [|rows| - 1] else [])
  }

  /** The number of rows that are skipped. */
  function CountIncomplete(rows: seq<Row>): nat
  {
    if rows == [] then 0
    else CountIncomplete(rows[..|rows| - 1]) + (if Complete(rows[|rows| - 1]) then 0 else 1)
  }

  /** The loop of `get_players`: rows whose sub-elements cannot all be found
      are passed over with `continue`; for the others the record is built
      field by field and appended. */
  method GetPlayers(rows: seq<Row>) returns (r: Result<seq<Player>, KeyError>)
    ensures r == Players(rows)
  {
    var players: seq<Player> := [];
    for i := 0 to |rows|
      invariant Players(rows[..i]) == Success(players)
    {
      assert rows[..i + 1][..i] == rows[..i];
      var tr := rows[i];
      if tr.nameLink.None? || tr.birthDateCell.None? || tr.image.None? {
        continue;
      }
      var nameLinkEl, birthDateEl, imgEl := tr.nameLink.value, tr.birthDateCell.value, tr.image.value;
      if "href" !in nameLinkEl.attrib {
        PlayersFailureSticks(rows, i + 1);
        return Failure(KeyError("href"));
      }
      if "data-src" !in imgEl.attrib {
        PlayersFailureSticks(rows, i + 1);
        return Failure(KeyError("data-src"));
      }
      players := players + [Player(nameLinkEl.text, nameLinkEl.attrib["href"], birthDateEl.text, imgEl.attrib["data-src"])];
    }
    assert rows[..|rows|] == rows;
    r := Success(players);
  }

  /** Once a prefix of the rows has raised, so have all the rows. */
  lemma {:induction false} PlayersFailureSticks(rows: seq<Row>, k: nat)
    requires k <= |rows| && Players(rows[..k]).Failure?
    ensures Players(rows) == Players(rows[..k])
    decreases |rows| - k
  {
    if k < |rows| {
      assert rows[..k + 1][..k] == rows[..k];
      assert Players(rows[..k + 1]) == Players(rows[..k]);
      PlayersFailureSticks(rows, k + 1);
    } else {
      assert rows[..k] == rows;
    }
  }

  /** The kept positions are exactly the complete rows, listed in document
      order, and together with the skipped rows they account for every row. */
  lemma {:induction false} KeptIndicesSpec(rows: seq<Row>)
    ensures forall j :: 0 <= j < |KeptIndices(rows)| ==>
              KeptIndices(rows)[j] < |rows| && Complete(rows[KeptIndices(rows)[j]])
    ensures forall j, j' :: 0 <= j < j' < |KeptIndices(rows)| ==> KeptIndices(rows)[j] < KeptIndices(rows)[j']
    ensures forall i :: 0 <= i < |rows| && Complete(rows[i]) ==> i in KeptIndices(rows)
    ensures |KeptIndices(rows)| + CountIncomplete(rows) == |rows|
  {
    if rows != [] {
      var init := rows[..|rows| - 1];
      KeptIndicesSpec(init);
      forall i | 0 <= i < |init| ensures rows[i] == init[i] { }
    }
  }

  /** The rows raise no KeyError exactly when no complete row lacks one of
      the two attributes the record reads. */
  lemma {:induction false} PlayersSucceed(rows: seq<Row>)
    ensures Players(rows).Success? <==> forall i :: 0 <= i < |rows| ==> !ReadRow(rows[i]).Raised?
  {
    if rows != [] {
      var init := rows[..|rows| - 1];
      PlayersSucceed(init);
      assert forall i :: 0 <= i < |init| ==> rows[i] == init[i];
    }
  }

  /** On success the players are the records of the complete rows, one each,
      in document order. */
  lemma {:induction false} PlayersKept(rows: seq<Row>)
    requires Players(rows).Success?
    ensures var ps, kept := Players(rows).value, KeptIndices(rows);
            && |ps| == |kept|
            && forall j :: 0 <= j < |kept| ==> kept[j] < |rows| && ReadRow(rows[kept[j]]) == Emitted(ps[j])
  {
    if rows != [] {
      var init := rows[..|rows| - 1];
      PlayersKept(init);
      KeptIndicesSpec(init);
      var kept := KeptIndices(init);
      forall j | 0 <= j < |kept| ensures rows[kept[j]] == init[kept[j]] { }
    }
  }

  /** On failure the error is that of the first row that raises. */
  lemma {:induction false} PlayersFirstError(rows: seq<Row>)
    requires Players(rows).Failure?
    ensures exists i :: 0 <= i < |rows| && ReadRow(rows[i]) == Raised(Players(rows).error)
              && forall i' :: 0 <= i' < i ==> !ReadRow(rows[i']).Raised?
  {
    var n := |rows|;
    var init := rows[..n - 1];
    assert forall i :: 0 <= i < |init| ==> rows[i] == init[i];
    if Players(init).Failure? {
      PlayersFirstError(init);
      var i :| 0 <= i < |init| && ReadRow(init[i]) == Raised(Players(init).error)
               && forall i' :: 0 <= i' < i ==> !ReadRow(init[i']).Raised?;
      assert ReadRow(rows[i]) == Raised(Players(rows).error);
    } else {
      PlayersSucceed(init);
      assert ReadRow(rows[n - 1]) == Raised(Players(rows).error);
    }
  }

  /** The skip rule: a row missing a sub-element changes nothing, wherever
      it stands, and the rows after it are still read. */
  lemma {:induction false} PlayersSkipRow(before: seq<Row>, row: Row, after: seq<Row>)
    requires !Complete(row)
    ensures Players(before + [row] + after) == Players(before + after)
    decreases |after|
  {
    if after == [] {
      assert (before + [row])[..|before|] == before;
      assert before + [row] + after == before + [row];
      assert before + after == before;
    } else {
      var init := after[..|after| - 1];
      var last := after[|after| - 1];
      PlayersSkipRow(before, row, init);
      var u, v := before + [row] + after, before + after;
      assert u[..|u| - 1] == before + [row] + init && u[|u| - 1] == last;
      assert v[..|v| - 1] == before + init && v[|v| - 1] == last;
      assert Players(u) == Step(Players(before + [row] + init), last);
      assert Players(v) == Step(Players(before + init), last);
    }
  }

  /** A player row is never longer than the roster, and the count of records
      is the count of rows less the skipped ones. */
  lemma {:induction false} PlayersCount(rows: seq<Row>)
    requires Players(rows).Success?
    ensures |Players(rows).value| == |rows| - CountIncomplete(rows) <= |rows|
  {
    PlayersKept(rows);
    KeptIndicesSpec(rows);
  }

  /** A three-row roster whose middle row has no portrait: the middle row is
      dropped whole and the last row is still extracted. */
  lemma MissingImageRowDropped(a: Row, b: Row, c: Row)
    requires ReadRow(a).Emitted? && ReadRow(c).Emitted? && b.image.None?
    ensures Players([a, b, c]) == Success([ReadRow(a).player, ReadRow(c).player])
  {
    var rows := [a, b, c];
    var pa, pc := ReadRow(a).player, ReadRow(c).player;
    assert [a][..0] == [];
    assert [] + [pa] == [pa];
    assert Players([a]) == Success([pa]);
    assert rows[..2][..1] == [a];
    assert rows[..2] == [a, b] && rows[..2][1] == b;
    assert Players([a, b]) == Success([pa]);
    assert rows[..2] == rows[..|rows| - 1];
    assert [pa] + [pc] == [pa, pc];
    assert Players(rows) == Success([pa] + [pc]);
  }
}
