/**
 * The Codable mapping of a score record to JSON and back (the extension at
 * the end of FolgendGameManager.swift). JSON is modelled as a value tree; the
 * bytes of the encoding, and bytes that are not JSON at all, are not.
 */
module ScoreCodec {
  import opened Wrappers
  import opened MahjongTile

  datatype Json =
    | JNull
    | JBool(b: bool)
    | JNumber(n: int)
    | JString(s: string)
    | JArray(items: seq<Json>)
    | JObject(fields: map<string, Json>)

  const DifficultyKey: string := "folgendDifficulty"
  const ScoreKey: string := "folgendScore"
  const DateKey: string := "folgendDate"
  const WinsKey: string := "folgendConsecutiveWins"

  /** `encode(to:)`: the difficulty is written as its raw value, every field always. */
  function EncodeScore(s: GameScore): Json {
    JObject(map[
      DifficultyKey := JString(s.difficulty.RawValue()),
      ScoreKey := JNumber(s.score),
      DateKey := JNumber(s.date),
      WinsKey := JNumber(s.consecutiveWins)])
  }

  /** `decodeIfPresent(Int.self, ...) ?? 0`: absent or null means 0, any other non-number fails. */
  function DecodeWins(fields: map<string, Json>): Option<int> {
    if WinsKey !in fields || fields[WinsKey] == JNull then Some(0)
    else if fields[WinsKey].JNumber? then Some(fields[WinsKey].n)
    else None
  }

  /**
   * `init(from:)`: difficulty, score and date are required, with the right
   * types; an unknown difficulty string decodes as easy.
   */
  function DecodeScore(j: Json): Option<GameScore> {
    if !j.JObject? then None
    else
      var f := j.fields;
      if DifficultyKey !in f || !f[DifficultyKey].JString? then None
      else if ScoreKey !in f || !f[ScoreKey].JNumber? then None
      else if DateKey !in f || !f[DateKey].JNumber? then None
      else
        match DecodeWins(f)
        case None => None
        case Some(wins) =>
          Some(GameScore(DifficultyFromRaw(f[DifficultyKey].s).GetOr(Easy), f[ScoreKey].n, f[DateKey].n, wins))
  }

  function EncodeScores(history: seq<GameScore>): (j: Json)
    ensures j.JArray? && |j.items| == |history|
  {
    JArray(seq(|history|, i requires 0 <= i < |history| => EncodeScore(history[i])))
  }

  /** Decoding `[FolgendGameScore]` is all or nothing: one bad element fails the whole array. */
  function DecodeAll(items: seq<Json>): Option<seq<GameScore>> {
    if items == [] then Some([])
    else
      match (DecodeScore(items[0]), DecodeAll(items[1..]))
      case (Some(first), Some(rest)) => Some([first] + rest)
      case _ => None
  }

  function DecodeScores(j: Json): Option<seq<GameScore>> {
    if j.JArray? then DecodeAll(j.items) else None
  }

  /** Decoding an encoded record restores difficulty, score, date and wins. */
  lemma DecodeEncodeScore(s: GameScore)
    ensures DecodeScore(EncodeScore(s)) == Some(s)
  {
    var f := EncodeScore(s).fields;
    assert f[DifficultyKey] == JString(s.difficulty.RawValue());
    assert f[WinsKey] == JNumber(s.consecutiveWins);
  }

  lemma {:induction false} DecodeAllOfEncoded(history: seq<GameScore>)
    ensures DecodeAll(EncodeScores(history).items) == Some(history)
  {
    if history != [] {
      var items := EncodeScores(history).items;
      DecodeEncodeScore(history[0]);
      assert items[1..] == EncodeScores(history[1..]).items;
      DecodeAllOfEncoded(history[1..]);
      assert [history[0]] + history[1..] == history;
    }
  }

  /** Decoding an encoded history gives the history back. */
  lemma DecodeEncodeScores(history: seq<GameScore>)
    ensures DecodeScores(EncodeScores(history)) == Some(history)
  {
    DecodeAllOfEncoded(history);
  }

  /** One undecodable element makes the whole history undecodable. */
  lemma {:induction false} DecodeAllFailsOnBadItem(items: seq<Json>, k: nat)
    requires k < |items|
    requires DecodeScore(items[k]) == None
    ensures DecodeAll(items) == None
  {
    if k > 0 {
      DecodeAllFailsOnBadItem(items[1..], k - 1);
    }
  }

  /** A record without a wins field decodes with 0 wins. */
  lemma DecodeMissingWins(fields: map<string, Json>)
    requires WinsKey !in fields
    requires DecodeScore(JObject(fields)).Some?
    ensures DecodeScore(JObject(fields)).value.consecutiveWins == 0
  {
  }

  /**
   * An unknown difficulty string decodes exactly as "Easy" would: the record
   * is easy, and score, date and wins are read as usual.
   */
  lemma DecodeUnknownDifficulty(fields: map<string, Json>, raw: string)
    requires DifficultyKey in fields && fields[DifficultyKey] == JString(raw)
    requires DifficultyFromRaw(raw) == None
    ensures DecodeScore(JObject(fields)) == DecodeScore(JObject(fields[DifficultyKey := JString("Easy")]))
    ensures DecodeScore(JObject(fields)).Some? ==>
      && ScoreKey in fields && DateKey in fields
      && DecodeScore(JObject(fields)).value ==
         GameScore(Easy, fields[ScoreKey].n, fields[DateKey].n, DecodeWins(fields).value)
  {
    var easy := fields[DifficultyKey := JString("Easy")];
    assert DecodeWins(easy) == DecodeWins(fields);
  }
}
