/**
 * The tile catalogue, the difficulty table, the score record and the round
 * states (FolgendMahjongTile.swift).
 */
module MahjongTile {
  import opened Wrappers
  import opened Decimal

  /** The four suits; the raw value is the string the Swift enum carries. */
  datatype TileType = Circle | Wan | Strip | Fangs {
    function RawValue(): (r: string)
      ensures |r| > 0 && '-' !in r
    {
      match this
      case Circle => "circle"
      case Wan => "wan"
      case Strip => "strip"
      case Fangs => "fangs"
    }
  }

  /** `FolgendTileType(rawValue:)`: the suit whose raw value is `raw`, if any. */
  function TileTypeFromRaw(raw: string): (r: Option<TileType>)
    ensures r.Some? ==> r.value.RawValue() == raw
    ensures forall k: TileType :: k.RawValue() == raw ==> r == Some(k)
  {
    if raw == "circle" then Some(Circle)
    else if raw == "wan" then Some(Wan)
    else if raw == "strip" then Some(Strip)
    else if raw == "fangs" then Some(Fangs)
    else None
  }

  /** Rows and columns of the board. */
  datatype Grid = Grid(rows: nat, columns: nat)

  datatype Difficulty = Easy | Medium | Hard {
    function RawValue(): string {
      match this
      case Easy => "Easy"
      case Medium => "Medium"
      case Hard => "Hard"
    }

    function GridSize(): Grid {
      match this
      case Easy => Grid(2, 2)
      case Medium => Grid(2, 3)
      case Hard => Grid(3, 3)
    }

    /** Number of tiles on the board: rows times columns. */
    function TileCount(): (n: nat)
      ensures n == GridSize().rows * GridSize().columns
      ensures 0 < n <= CatalogSize
    {
      var size := GridSize();
      size.rows * size.columns
    }
  }

  /** The board of each difficulty: 2 by 2, 2 by 3 and 3 by 3, so 4, 6 and 9 tiles. */
  lemma DifficultyTable()
    ensures Easy.GridSize() == Grid(2, 2) && Easy.TileCount() == 4
    ensures Medium.GridSize() == Grid(2, 3) && Medium.TileCount() == 6
    ensures Hard.GridSize() == Grid(3, 3) && Hard.TileCount() == 9
  {
  }

  /** `FolgendGameDifficulty(rawValue:)`. */
  function DifficultyFromRaw(raw: string): (r: Option<Difficulty>)
    ensures r.Some? ==> r.value.RawValue() == raw
    ensures forall d: Difficulty :: d.RawValue() == raw ==> r == Some(d)
  {
    if raw == "Easy" then Some(Easy)
    else if raw == "Medium" then Some(Medium)
    else if raw == "Hard" then Some(Hard)
    else None
  }

  /**
   * A tile is its suit and number. The Swift struct also stores an id and an
   * image name, both computed from these two by its only initialiser; here
   * they are member functions.
   */
  datatype Tile = Tile(kind: TileType, number: int) {

    /** `"<type>-<number>"`. */
    function Id(): string {
      kind.RawValue() + "-" + IntToString(number)
    }

    /** The asset name; the fangs branch of the initialiser gives the same shape. */
    function ImageName(): (name: string)
      ensures name == "folgend-" + Id()
    {
      if kind == Fangs then "folgend-fangs-" + IntToString(number)
      else "folgend-" + kind.RawValue() + "-" + IntToString(number)
    }
  }

  /** Splits at the first '-': the text before it and the text after it. */
  function SplitAtDash(s: string): Option<(string, string)> {
    if |s| == 0 then None
    else if s[0] == '-' then Some(([], s[1..]))
    else
      match SplitAtDash(s[1..])
      case Some((before, after)) => Some(([s[0]] + before, after))
      case None => None
  }

  /** Reads a tile back from its id; the reference that shows ids are unique. */
  function ParseId(id: string): Option<Tile> {
    match SplitAtDash(id)
    case None => None
    case Some((raw, digits)) =>
      match (TileTypeFromRaw(raw), ParseInt(digits))
      case (Some(kind), Some(number)) => Some(Tile(kind, number))
      case _ => None
  }

  lemma {:induction false} SplitAtDashOf(before: string, after: string)
    requires '-' !in before
    ensures SplitAtDash(before + "-" + after) == Some((before, after))
  {
    if |before| > 0 {
      var s := before + "-" + after;
      SplitAtDashOf(before[1..], after);
      assert s[0] == before[0] && s[0] != '-';
      assert s[1..] == before[1..] + "-" + after;
      assert [before[0]] + before[1..] == before;
    } else {
      assert before + "-" + after == "-" + after;
    }
  }

  /** A tile's id determines the tile. */
  lemma ParseIdOfId(t: Tile)
    ensures ParseId(t.Id()) == Some(t)
  {
    SplitAtDashOf(t.kind.RawValue(), IntToString(t.number));
    ParseIntOfIntToString(t.number);
  }

  lemma IdInjective(a: Tile, b: Tile)
    requires a.Id() == b.Id()
    ensures a == b
  {
    ParseIdOfId(a);
    ParseIdOfId(b);
  }

  const CatalogSize: nat := 35

  /** Position i of the catalogue: circle 1-9, wan 1-9, strip 1-9, fangs 1-8. */
  function CatalogTile(i: nat): Tile
    requires i < CatalogSize
  {
    if i < 9 then Tile(Circle, i + 1)
    else if i < 18 then Tile(Wan, i - 8)
    else if i < 27 then Tile(Strip, i - 17)
    else Tile(Fangs, i - 26)
  }

  /** What `folgendCreateAllTiles` returns. */
  function Catalog(): (c: seq<Tile>)
    ensures |c| == CatalogSize
  {
    seq(CatalogSize, i requires 0 <= i < CatalogSize => CatalogTile(i))
  }

  predicate DistinctIds(s: seq<Tile>) {
    forall i, j :: 0 <= i < j < |s| ==> s[i].Id() != s[j].Id()
  }

  /** The catalogue in order: circle 1-9, then wan 1-9, strip 1-9, fangs 1-8. */
  lemma CatalogOrder()
    ensures forall n :: 1 <= n <= 9 ==>
      && Catalog()[n - 1] == Tile(Circle, n)
      && Catalog()[n + 8] == Tile(Wan, n)
      && Catalog()[n + 17] == Tile(Strip, n)
    ensures forall n :: 1 <= n <= 8 ==> Catalog()[n + 26] == Tile(Fangs, n)
  {
  }

  /** No two catalogue tiles share an id. */
  lemma CatalogIdsDistinct()
    ensures DistinctIds(Catalog())
  {
    var c := Catalog();
    forall i, j | 0 <= i < j < |c|
      ensures c[i].Id() != c[j].Id()
    {
      if c[i].Id() == c[j].Id() {
        IdInjective(c[i], c[j]);
      }
    }
  }

  /** `folgendCreateAllTiles`: three suits of nine, then the eight fangs. */
  method CreateAllTiles() returns (tiles: seq<Tile>)
    ensures tiles == Catalog()
  {
    tiles := [];
    var kinds := [Circle, Wan, Strip];
    for t := 0 to |kinds|
      invariant |tiles| == 9 * t
      invariant forall k :: 0 <= k < |tiles| ==> tiles[k] == CatalogTile(k)
    {
      for number := 1 to 10
        invariant |tiles| == 9 * t + number - 1
        invariant forall k :: 0 <= k < |tiles| ==> tiles[k] == CatalogTile(k)
      {
        tiles := tiles + [Tile(kinds[t], number)];
      }
    }
    for number := 1 to 9
      invariant |tiles| == 27 + number - 1
      invariant forall k :: 0 <= k < |tiles| ==> tiles[k] == CatalogTile(k)
    {
      tiles := tiles + [Tile(Fangs, number)];
    }
  }

  /** A finished round's record; the date is the clock reading at creation. */
  datatype GameScore = GameScore(difficulty: Difficulty, score: int, date: int, consecutiveWins: int)

  /** `FolgendGameScore.init`: consecutive wins default to 0. */
  function NewGameScore(difficulty: Difficulty, score: int, now: int, consecutiveWins: int := 0): (r: GameScore)
    ensures r.difficulty == difficulty && r.score == score && r.date == now
    ensures r.consecutiveWins == consecutiveWins
  {
    GameScore(difficulty, score, now, consecutiveWins)
  }

  lemma NewGameScoreDefaultsWins(difficulty: Difficulty, score: int, now: int)
    ensures NewGameScore(difficulty, score, now).consecutiveWins == 0
  {
  }

  datatype GameState = Waiting | Showing | Memorizing | Playing | Finished
}
