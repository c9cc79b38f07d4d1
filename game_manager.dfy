/**
 * The score, streak and session engine (FolgendGameManager.swift). The
 * process-wide singleton becomes an explicitly constructed object; its
 * UserDefaults store becomes two fields: the JSON value kept under the score
 * key (None when the key is absent) and the integers kept under the other
 * keys. The per-difficulty session totals live only in memory.
 */
module GameManager {
  import opened Wrappers
  import opened MahjongTile
  import opened ScoreCodec
  import opened Shuffle
  import Leaderboard

  const ScoresKey: string := "FolgendGameScores"
  const ConsecutiveWinsKey: string := "FolgendConsecutiveWins"

  /** `"FolgendConsecutiveWins_<rawValue>"`: one store key per difficulty. */
  function WinsKeyFor(d: Difficulty): (key: string)
    ensures key != ScoresKey
  {
    ConsecutiveWinsKey + "_" + d.RawValue()
  }

  /** No two difficulties share a counter key. */
  lemma WinsKeysDistinct(d: Difficulty, e: Difficulty)
    requires d != e
    ensures WinsKeyFor(d) != WinsKeyFor(e)
  {
    var prefix := ConsecutiveWinsKey + "_";
    assert WinsKeyFor(d)[|prefix|..] == d.RawValue();
    assert WinsKeyFor(e)[|prefix|..] == e.RawValue();
  }

  /** `UserDefaults.integer(forKey:)`: an absent key reads as 0. */
  function IntegerFor(defaults: map<string, int>, key: string): (n: int)
    ensures key !in defaults ==> n == 0
    ensures key in defaults ==> n == defaults[key]
  {
    if key in defaults then defaults[key] else 0
  }

  /**
   * `folgendGetAllScores` on a given store value: no data, or data that does
   * not decode as a list of records, reads as the empty history.
   */
  function StoredScores(data: Option<Json>): (history: seq<GameScore>)
    ensures data.None? ==> history == []
    ensures data.Some? && DecodeScores(data.value).None? ==> history == []
    ensures forall h :: data == Some(EncodeScores(h)) ==> history == h
  {
    DecodeEncodeAll();
    match data
    case None => []
    case Some(j) => DecodeScores(j).GetOr([])
  }

  lemma DecodeEncodeAll()
    ensures forall h :: DecodeScores(EncodeScores(h)) == Some(h)
  {
    forall h {
      DecodeEncodeScores(h);
    }
  }

  /** The difficulty multiplier of `folgendCalculateScore`. */
  function Multiplier(d: Difficulty): (m: int)
    ensures 1 <= m <= 3
  {
    match d
    case Easy => 1
    case Medium => 2
    case Hard => 3
  }

  /**
   * `folgendCalculateScore`: ten points times the difficulty multiplier, plus
   * five points for every consecutive win beyond the second.
   */
  function CalculateScore(d: Difficulty, consecutiveWins: int): (score: int)
    ensures score >= 10 * Multiplier(d)
    ensures score % 5 == 0
  {
    var baseScore := 10;
    var bonus := if consecutiveWins >= 3 then (consecutiveWins - 2) * 5 else 0;
    baseScore * Multiplier(d) + bonus
  }

  /** Three worked values of the formula. */
  lemma CalculateScoreExamples()
    ensures CalculateScore(Easy, 1) == 10
    ensures CalculateScore(Medium, 3) == 25
    ensures CalculateScore(Hard, 5) == 45
  {
  }

  /** Up to two wins there is no bonus; from the third on each win adds five points. */
  lemma CalculateScoreStreak(d: Difficulty, w: int)
    ensures w <= 2 ==> CalculateScore(d, w) == 10 * Multiplier(d)
    ensures w >= 2 ==> CalculateScore(d, w + 1) == CalculateScore(d, w) + 5
  {
  }

  /** A longer streak never scores less. */
  lemma CalculateScoreMonotone(d: Difficulty, v: int, w: int)
    requires v <= w
    ensures CalculateScore(d, v) <= CalculateScore(d, w)
  {
  }

  /** A harder difficulty never scores less for the same streak. */
  lemma CalculateScoreByDifficulty(w: int)
    ensures CalculateScore(Easy, w) < CalculateScore(Medium, w) < CalculateScore(Hard, w)
  {
  }

  /** What `folgendGenerateRandomTiles` promises: a board's worth of distinct catalogue tiles. */
  predicate IsBoard(tiles: seq<Tile>, d: Difficulty) {
    && |tiles| == d.TileCount()
    && DistinctIds(tiles)
    && (forall i :: 0 <= i < |tiles| ==> tiles[i] in Catalog())
  }

  /** Reordering a list with distinct ids keeps the ids distinct. */
  lemma PermuteDistinct(s: seq<Tile>, perm: seq<nat>)
    requires DistinctIds(s)
    requires IsPermutation(perm, |s|)
    ensures DistinctIds(Permute(s, perm))
  {
    var p := Permute(s, perm);
    forall i, j | 0 <= i < j < |p| ensures p[i].Id() != p[j].Id() {
      if perm[i] < perm[j] {
        assert s[perm[i]].Id() != s[perm[j]].Id();
      } else {
        assert s[perm[j]].Id() != s[perm[i]].Id();
      }
    }
  }

  class Manager {
    /** The value under `FolgendGameScores`. */
    var scoreData: Option<Json>
    /** The integers under `FolgendConsecutiveWins_<difficulty>`. */
    var intDefaults: map<string, int>
    /** `folgendCurrentSessionScores`. */
    var sessionScores: map<Difficulty, int>

    /** A manager over a store left by earlier runs; session totals start empty. */
    constructor (storedScores: Option<Json>, storedIntegers: map<string, int>)
      ensures scoreData == storedScores && intDefaults == storedIntegers
      ensures sessionScores == map[]
      ensures forall d :: SessionScore(d) == 0
    {
      scoreData := storedScores;
      intDefaults := storedIntegers;
      sessionScores := map[];
    }

    /** Streak counters and session totals are never negative. */
    ghost predicate CountersNonNegative()
      reads this
    {
      forall d :: ConsecutiveWins(d) >= 0 && SessionScore(d) >= 0
    }

    /** `folgendGetAllScores`. */
    function AllScores(): (history: seq<GameScore>)
      reads this
      ensures scoreData.None? ==> history == []
      ensures forall h :: scoreData == Some(EncodeScores(h)) ==> history == h
    {
      StoredScores(scoreData)
    }

    /**
     * `folgendSaveScore`: read the history, append, write it back. When the
     * stored data did not decode, the history read is empty and the new
     * history is the record alone.
     */
    method SaveScore(s: GameScore)
      modifies this
      ensures AllScores() == old(AllScores()) + [s]
      ensures scoreData == Some(EncodeScores(old(AllScores()) + [s]))
      ensures intDefaults == old(intDefaults) && sessionScores == old(sessionScores)
    {
      var scores := AllScores();
      scores := scores + [s];
      scoreData := Some(EncodeScores(scores));
    }

    /** `folgendGetTopScores`; its properties are those of Leaderboard.TopScores. */
    function TopScores(d: Difficulty, limit: nat := 10): (top: seq<GameScore>)
      reads this
      ensures |top| <= limit
      ensures forall i :: 0 <= i < |top| ==> top[i].difficulty == d && top[i].score > 0
      ensures Leaderboard.SortedDesc(top)
      ensures multiset(top) <= multiset(AllScores())
    {
      Leaderboard.TopScores(AllScores(), d, limit)
    }

    /** `folgendGetConsecutiveWins`. */
    function ConsecutiveWins(d: Difficulty): (wins: int)
      reads this
      ensures WinsKeyFor(d) !in intDefaults ==> wins == 0
    {
      IntegerFor(intDefaults, WinsKeyFor(d))
    }

    /** `folgendIncrementConsecutiveWins`: read, add one, write back. */
    method IncrementConsecutiveWins(d: Difficulty)
      modifies this
      ensures ConsecutiveWins(d) == old(ConsecutiveWins(d)) + 1
      ensures forall e :: e != d ==> ConsecutiveWins(e) == old(ConsecutiveWins(e))
      ensures intDefaults == old(intDefaults)[WinsKeyFor(d) := old(ConsecutiveWins(d)) + 1]
      ensures scoreData == old(scoreData) && sessionScores == old(sessionScores)
      ensures old(CountersNonNegative()) ==> CountersNonNegative()
    {
      var current := ConsecutiveWins(d);
      intDefaults := intDefaults[WinsKeyFor(d) := current + 1];
      forall e | e != d ensures ConsecutiveWins(e) == old(ConsecutiveWins(e)) {
        WinsKeysDistinct(d, e);
      }
    }

    /** `folgendResetConsecutiveWins`. */
    method ResetConsecutiveWins(d: Difficulty)
      modifies this
      ensures ConsecutiveWins(d) == 0
      ensures forall e :: e != d ==> ConsecutiveWins(e) == old(ConsecutiveWins(e))
      ensures intDefaults == old(intDefaults)[WinsKeyFor(d) := 0]
      ensures scoreData == old(scoreData) && sessionScores == old(sessionScores)
      ensures old(CountersNonNegative()) ==> CountersNonNegative()
    {
      intDefaults := intDefaults[WinsKeyFor(d) := 0];
      forall e | e != d ensures ConsecutiveWins(e) == old(ConsecutiveWins(e)) {
        WinsKeysDistinct(d, e);
      }
      assert forall e :: ConsecutiveWins(e) == 0 || ConsecutiveWins(e) == old(ConsecutiveWins(e));
    }

    /**
     * `folgendGenerateRandomTiles`: the whole catalogue in the order `perm`
     * (the outcome of `shuffled()`), cut to the board size.
     */
    method GenerateRandomTiles(d: Difficulty, perm: seq<nat>) returns (tiles: seq<Tile>)
      requires IsPermutation(perm, CatalogSize)
      ensures IsBoard(tiles, d)
      ensures forall i :: 0 <= i < |tiles| ==> tiles[i] == Catalog()[perm[i]]
    {
      var all := CreateAllTiles();
      var shuffled := Permute(all, perm);
      CatalogIdsDistinct();
      PermuteDistinct(all, perm);
      tiles := shuffled[..d.TileCount()];
    }

    /** `folgendGetCurrentSessionScore`: 0 for a difficulty not yet played. */
    function SessionScore(d: Difficulty): (score: int)
      reads this
      ensures d !in sessionScores ==> score == 0
    {
      if d in sessionScores then sessionScores[d] else 0
    }

    /** `folgendAddToSessionScore`. */
    method AddToSessionScore(d: Difficulty, points: int)
      modifies this
      ensures SessionScore(d) == old(SessionScore(d)) + points
      ensures forall e :: e != d ==> SessionScore(e) == old(SessionScore(e))
      ensures sessionScores == old(sessionScores)[d := old(SessionScore(d)) + points]
      ensures scoreData == old(scoreData) && intDefaults == old(intDefaults)
      ensures old(CountersNonNegative()) && points >= 0 ==> CountersNonNegative()
    {
      var currentScore := SessionScore(d);
      sessionScores := sessionScores[d := currentScore + points];
      assert forall e :: ConsecutiveWins(e) == old(ConsecutiveWins(e));
      assert forall e :: e != d ==> SessionScore(e) == old(SessionScore(e));
    }

    /** `folgendResetSessionScore`. */
    method ResetSessionScore(d: Difficulty)
      modifies this
      ensures SessionScore(d) == 0
      ensures forall e :: e != d ==> SessionScore(e) == old(SessionScore(e))
      ensures sessionScores == old(sessionScores)[d := 0]
      ensures scoreData == old(scoreData) && intDefaults == old(intDefaults)
      ensures old(CountersNonNegative()) ==> CountersNonNegative()
    {
      sessionScores := sessionScores[d := 0];
      assert forall e :: ConsecutiveWins(e) == old(ConsecutiveWins(e));
      assert forall e :: e != d ==> SessionScore(e) == old(SessionScore(e));
    }
  }
}
