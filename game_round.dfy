/**
 * The round state machine of the game screen (the logic of
 * FolgendGameViewController.swift). Every event handler of the screen is a
 * method; timers, animation completions and `asyncAfter` callbacks become
 * explicit events the caller delivers, and the outcome of each `shuffled()`
 * is a permutation the caller supplies.
 */
module GameRound {
  import opened MahjongTile
  import opened Shuffle
  import opened GameManager
  import Leaderboard

  /** Everything the screen keeps about the round, as one value. */
  datatype RoundSnapshot = RoundSnapshot(
    state: GameState,
    gameTiles: seq<Tile>,
    selectedOrder: seq<Tile>,
    countdown: int,
    tileViews: seq<nat>,
    timerRunning: bool,
    revealPending: bool)

  /** The round after `folgendResetGame`. */
  function AfterReset(r: RoundSnapshot): (s: RoundSnapshot)
    ensures s.state == Waiting && s.selectedOrder == [] && s.tileViews == []
    ensures !s.timerRunning
    ensures s.gameTiles == r.gameTiles && s.countdown == r.countdown
  {
    r.(state := Waiting, selectedOrder := [], tileViews := [], timerRunning := false)
  }

  /** Resetting a round that was just reset changes nothing. */
  lemma AfterResetIdempotent(r: RoundSnapshot)
    ensures AfterReset(AfterReset(r)) == AfterReset(r)
  {
  }

  class GameController {
    const difficulty: Difficulty
    /** The shared game manager the screen calls into. */
    const manager: Manager

    /** `folgendCurrentGameState`. */
    var state: GameState
    /** `folgendGameTiles`: the order the player must reproduce. */
    var gameTiles: seq<Tile>
    /** `folgendSelectedOrder`: the correct picks so far. */
    var selectedOrder: seq<Tile>
    /** `folgendCountdownValue`. */
    var countdown: int
    /**
     * `folgendTileViews`, board position by board position: position p holds
     * the view that shows `gameTiles[tileViews[p]]`. A view never changes its
     * tile; shuffling reorders the views only.
     */
    var tileViews: seq<nat>
    /** Whether the repeating countdown timer is scheduled. */
    var timerRunning: bool
    /** Whether the reveal of the tiles is under way, with the countdown to follow. */
    var revealPending: bool

    /**
     * The view of `gameTiles[k]` carries the "selected" mark exactly when the
     * player has already picked that tile in this round.
     */
    predicate ViewIsSelected(k: nat)
      reads this
    {
      k < |selectedOrder|
    }

    /**
     * What holds between any two steps of a handler: the picks are a prefix
     * of the expected order, and the flags agree with the state.
     */
    ghost predicate Consistent()
      reads this
    {
      && |selectedOrder| <= |gameTiles|
      && selectedOrder == gameTiles[..|selectedOrder|]
      && (state != Waiting ==> IsBoard(gameTiles, difficulty) && IsPermutation(tileViews, |gameTiles|))
      && (state == Waiting ==> selectedOrder == [] && tileViews == [] && !revealPending)
      && (state == Memorizing <==> timerRunning)
      && (timerRunning ==> !revealPending)
      && (state == Showing ==> revealPending)
      && (revealPending ==> (state == Showing || state == Finished) && selectedOrder == [])
    }

    /**
     * The invariant of the round between events: besides Consistent, play
     * always has a tile left to pick, and a running countdown is between 1 and 10.
     */
    ghost predicate Valid()
      reads this
    {
      && Consistent()
      && (state == Playing ==> |selectedOrder| < |gameTiles|)
      && (timerRunning ==> 1 <= countdown <= 10)
    }

    function Snapshot(): RoundSnapshot
      reads this
    {
      RoundSnapshot(state, gameTiles, selectedOrder, countdown, tileViews, timerRunning, revealPending)
    }

    /** `init(folgendDifficulty:)`: a waiting screen with no tiles. */
    constructor (difficulty: Difficulty, manager: Manager)
      ensures Valid()
      ensures this.difficulty == difficulty && this.manager == manager
      ensures state == Waiting && gameTiles == [] && selectedOrder == []
      ensures countdown == 10 && tileViews == [] && !timerRunning && !revealPending
    {
      this.difficulty := difficulty;
      this.manager := manager;
      state := Waiting;
      gameTiles := [];
      selectedOrder := [];
      countdown := 10;
      tileViews := [];
      timerRunning := false;
      revealPending := false;
    }

    /**
     * `folgendStartGame`, reached through the start button, which is shown
     * only while the screen waits: a fresh session, a fresh draw of tiles laid
     * out in drawing order, and the reveal under way.
     */
    method StartGame(perm: seq<nat>)
      requires Valid() && state == Waiting
      requires IsPermutation(perm, CatalogSize)
      modifies this, manager
      ensures Valid()
      ensures state == Showing && revealPending && !timerRunning
      ensures IsBoard(gameTiles, difficulty)
      ensures forall i :: 0 <= i < |gameTiles| ==> gameTiles[i] == Catalog()[perm[i]]
      ensures selectedOrder == [] && tileViews == Identity(|gameTiles|)
      ensures countdown == old(countdown)
      ensures manager.SessionScore(difficulty) == 0
      ensures manager.sessionScores == old(manager.sessionScores)[difficulty := 0]
      ensures manager.scoreData == old(manager.scoreData)
      ensures manager.intDefaults == old(manager.intDefaults)
      ensures old(manager.CountersNonNegative()) ==> manager.CountersNonNegative()
    {
      state := Showing;
      manager.ResetSessionScore(difficulty);
      gameTiles := manager.GenerateRandomTiles(difficulty, perm);
      CreateTileGrid();
      revealPending := true;
    }

    /** `folgendCreateTileGrid`: one view per tile, in the order of `gameTiles`. */
    method CreateTileGrid()
      modifies this`tileViews
      ensures tileViews == Identity(|gameTiles|)
    {
      tileViews := Identity(|gameTiles|);
    }

    /**
     * `folgendStartCountdown`, run once the reveal has finished: the countdown
     * starts at 10 and the timer is scheduled.
     */
    method StartCountdown()
      requires Valid() && revealPending
      modifies this
      ensures Valid()
      ensures state == Memorizing && countdown == 10 && timerRunning && !revealPending
      ensures gameTiles == old(gameTiles) && selectedOrder == old(selectedOrder)
      ensures tileViews == old(tileViews)
    {
      revealPending := false;
      state := Memorizing;
      countdown := 10;
      timerRunning := true;
    }

    /**
     * `folgendCountdownTick`, once per timer firing. The tick that reaches 5
     * starts the shuffle (`shuffleStarted`), whose rearrangement of the views
     * arrives later as RearrangeTileViews; the tick that reaches 0 starts play.
     * Neither touches the expected order.
     */
    method CountdownTick() returns (shuffleStarted: bool)
      requires Valid() && timerRunning
      modifies this
      ensures Valid()
      ensures countdown == old(countdown) - 1
      ensures shuffleStarted <==> countdown == 5
      ensures gameTiles == old(gameTiles) && tileViews == old(tileViews)
      ensures countdown <= 0 ==> state == Playing && selectedOrder == [] && !timerRunning
      ensures countdown > 0 ==> state == Memorizing && selectedOrder == old(selectedOrder) && timerRunning
    {
      countdown := countdown - 1;
      shuffleStarted := countdown == 5;
      if shuffleStarted {
      } else if countdown <= 0 {
        StartPlaying();
      }
    }

    /**
     * `folgendRearrangeTileViews`, half a second after the shuffle starts: the
     * views change board positions in the order `perm`; the tiles they show,
     * the expected order and the picks stay as they were.
     */
    method RearrangeTileViews(perm: seq<nat>)
      requires Valid()
      requires IsPermutation(perm, |tileViews|)
      modifies this`tileViews
      ensures Valid()
      ensures tileViews == Permute(old(tileViews), perm)
      ensures multiset(tileViews) == multiset(old(tileViews))
    {
      PermuteKeepsPermutation(tileViews, perm);
      tileViews := Permute(tileViews, perm);
    }

    /** `folgendStartPlaying`: the timer stops, the picks are cleared, play begins. */
    method StartPlaying()
      requires Consistent() && state == Memorizing
      modifies this
      ensures Valid()
      ensures state == Playing && selectedOrder == [] && !timerRunning
      ensures gameTiles == old(gameTiles) && tileViews == old(tileViews)
      ensures countdown == old(countdown) && revealPending == old(revealPending)
    {
      timerRunning := false;
      state := Playing;
      selectedOrder := [];
    }

    /**
     * A tap on the view at board position `position`. The view drops the tap
     * when it already carries the selected mark; otherwise the screen handles
     * the tile it shows. During play the tap is right exactly when the view
     * shows the tile expected next, wherever the shuffle has put that view.
     */
    method TileTapped(position: nat, now: int)
      requires Valid()
      requires position < |tileViews|
      modifies this, manager
      ensures Valid()
      ensures gameTiles == old(gameTiles) && tileViews == old(tileViews) && countdown == old(countdown)
      ensures timerRunning == old(timerRunning) && revealPending == old(revealPending)
      ensures forall e :: e != difficulty ==>
        manager.ConsecutiveWins(e) == old(manager.ConsecutiveWins(e)) &&
        manager.SessionScore(e) == old(manager.SessionScore(e))
      ensures old(ViewIsSelected(tileViews[position])) ==>
        Snapshot() == old(Snapshot()) && unchanged(manager)
      ensures old(state) != Playing ==> Snapshot() == old(Snapshot()) && unchanged(manager)
      ensures old(state) == Playing && !old(ViewIsSelected(tileViews[position])) ==>
        if old(tileViews[position]) == old(|selectedOrder|) then
          && selectedOrder == old(selectedOrder) + [old(gameTiles[tileViews[position]])]
          && (if |selectedOrder| == |gameTiles|
              then state == Finished && selectedOrder == gameTiles && WonRound(old(manager.ConsecutiveWins(difficulty)),
                                                 old(manager.SessionScore(difficulty)),
                                                 old(manager.AllScores()), now)
              else state == Playing && unchanged(manager))
        else
          && state == Finished && selectedOrder == old(selectedOrder)
          && LostRound(old(manager.AllScores()))
      ensures old(manager.CountersNonNegative()) ==> manager.CountersNonNegative()
    {
      var k := tileViews[position];
      if !ViewIsSelected(k) {
        if state == Playing {
          var next := |selectedOrder|;
          // An unmarked view sits at or beyond the next expected position.
          assert k != next ==> gameTiles[next].Id() != gameTiles[k].Id();
        }
        TileSelected(gameTiles[k], now);
      }
    }

    /**
     * `folgendTileSelected`: outside play the tap is ignored. A tile with the
     * id expected next is appended to the picks, and the last one wins the
     * round; any other tile loses it at once. `now` is the clock reading that
     * a won round's record carries.
     */
    method TileSelected(tile: Tile, now: int)
      requires Valid()
      modifies this, manager
      ensures Valid()
      ensures gameTiles == old(gameTiles) && tileViews == old(tileViews) && countdown == old(countdown)
      ensures timerRunning == old(timerRunning) && revealPending == old(revealPending)
      ensures forall e :: e != difficulty ==>
        manager.ConsecutiveWins(e) == old(manager.ConsecutiveWins(e)) &&
        manager.SessionScore(e) == old(manager.SessionScore(e))
      ensures old(state) != Playing ==> Snapshot() == old(Snapshot()) && unchanged(manager)
      ensures old(state) == Playing && tile.Id() == old(gameTiles[|selectedOrder|]).Id() ==>
        && selectedOrder == old(selectedOrder) + [tile]
        && (if |selectedOrder| == |gameTiles|
            then state == Finished && selectedOrder == gameTiles && WonRound(old(manager.ConsecutiveWins(difficulty)),
                                               old(manager.SessionScore(difficulty)),
                                               old(manager.AllScores()), now)
            else state == Playing && unchanged(manager))
      ensures old(state) == Playing && tile.Id() != old(gameTiles[|selectedOrder|]).Id() ==>
        && state == Finished && selectedOrder == old(selectedOrder)
        && LostRound(old(manager.AllScores()))
      ensures old(manager.CountersNonNegative()) ==> manager.CountersNonNegative()
    {
      if state != Playing {
        return;
      }
      var expected := gameTiles[|selectedOrder|];
      if tile.Id() == expected.Id() {
        IdInjective(tile, expected);
        selectedOrder := selectedOrder + [tile];
        assert selectedOrder == gameTiles[..|selectedOrder|];
        if |selectedOrder| == |gameTiles| {
          GameCompleted(true, now);
        }
      } else {
        GameCompleted(false, now);
      }
    }

    /**
     * The manager after a won round, given the streak, session total and
     * history before it: the streak is one longer, the session total grew by
     * the round's score, and one record carrying the new total and streak was
     * appended to the history.
     */
    ghost predicate WonRound(oldWins: int, oldSession: int, oldHistory: seq<GameScore>, now: int)
      reads this, manager
    {
      && manager.ConsecutiveWins(difficulty) == oldWins + 1
      && manager.SessionScore(difficulty) == oldSession + CalculateScore(difficulty, oldWins + 1)
      && manager.AllScores() == oldHistory + [GameScore(difficulty, manager.SessionScore(difficulty), now, oldWins + 1)]
    }

    /** The manager after a lost round: streak and session total are 0, and nothing was saved. */
    ghost predicate LostRound(oldHistory: seq<GameScore>)
      reads this, manager
    {
      && manager.ConsecutiveWins(difficulty) == 0
      && manager.SessionScore(difficulty) == 0
      && manager.AllScores() == oldHistory
    }

    /** `folgendGameCompleted`: the round is over; the outcome decides what the manager records. */
    method GameCompleted(success: bool, now: int)
      requires Consistent()
      requires state == Playing || state == Finished
      requires success ==> |selectedOrder| == |gameTiles|
      modifies this, manager
      ensures Valid()
      ensures state == Finished
      ensures gameTiles == old(gameTiles) && selectedOrder == old(selectedOrder)
      ensures tileViews == old(tileViews) && countdown == old(countdown)
      ensures timerRunning == old(timerRunning) && revealPending == old(revealPending)
      ensures forall e :: e != difficulty ==>
        manager.ConsecutiveWins(e) == old(manager.ConsecutiveWins(e)) &&
        manager.SessionScore(e) == old(manager.SessionScore(e))
      ensures success ==> WonRound(old(manager.ConsecutiveWins(difficulty)),
                                   old(manager.SessionScore(difficulty)),
                                   old(manager.AllScores()), now)
      ensures !success ==> LostRound(old(manager.AllScores()))
      ensures old(manager.CountersNonNegative()) ==> manager.CountersNonNegative()
    {
      state := Finished;
      if success {
        ShowGameCompletedAlert(now);
      } else {
        ShowGameFailedAlert();
      }
    }

    /**
     * The bookkeeping of `folgendShowGameCompletedAlert` (run when the
     * celebration ends): the streak grows, the round's score, computed with
     * the grown streak, joins the session total, and that total is saved.
     */
    method ShowGameCompletedAlert(now: int)
      modifies manager
      ensures WonRound(old(manager.ConsecutiveWins(difficulty)),
                       old(manager.SessionScore(difficulty)),
                       old(manager.AllScores()), now)
      ensures forall e :: e != difficulty ==>
        manager.ConsecutiveWins(e) == old(manager.ConsecutiveWins(e)) &&
        manager.SessionScore(e) == old(manager.SessionScore(e))
      ensures old(manager.CountersNonNegative()) ==> manager.CountersNonNegative()
    {
      var consecutiveWins := manager.ConsecutiveWins(difficulty) + 1;
      manager.IncrementConsecutiveWins(difficulty);
      var roundScore := CalculateScore(difficulty, consecutiveWins);
      manager.AddToSessionScore(difficulty, roundScore);
      var totalSessionScore := manager.SessionScore(difficulty);
      var gameScore := NewGameScore(difficulty, totalSessionScore, now, consecutiveWins);
      manager.SaveScore(gameScore);
    }

    /** The bookkeeping of `folgendShowGameFailedAlert`: streak and session total drop to 0. */
    method ShowGameFailedAlert()
      modifies manager
      ensures LostRound(old(manager.AllScores()))
      ensures manager.scoreData == old(manager.scoreData)
      ensures forall e :: e != difficulty ==>
        manager.ConsecutiveWins(e) == old(manager.ConsecutiveWins(e)) &&
        manager.SessionScore(e) == old(manager.SessionScore(e))
      ensures old(manager.CountersNonNegative()) ==> manager.CountersNonNegative()
    {
      manager.ResetConsecutiveWins(difficulty);
      manager.ResetSessionScore(difficulty);
    }

    /**
     * `folgendStartNextRound`, run when the success feedback ends: new tiles,
     * no picks, the session total kept. The state stays finished, so taps are
     * ignored until the countdown starts.
     */
    method StartNextRound(perm: seq<nat>)
      requires Valid() && state == Finished
      requires IsPermutation(perm, CatalogSize)
      modifies this
      ensures Valid()
      ensures state == Finished && revealPending && !timerRunning
      ensures IsBoard(gameTiles, difficulty)
      ensures forall i :: 0 <= i < |gameTiles| ==> gameTiles[i] == Catalog()[perm[i]]
      ensures selectedOrder == [] && tileViews == Identity(|gameTiles|)
      ensures countdown == old(countdown)
    {
      selectedOrder := [];
      tileViews := [];
      gameTiles := manager.GenerateRandomTiles(difficulty, perm);
      CreateTileGrid();
      revealPending := true;
    }

    /**
     * `folgendResetGame`, from the "Try Again" button of the failure alert,
     * which is shown only when no reveal is under way: back to waiting with
     * no picks and no views; nothing is written to the manager.
     */
    method ResetGame()
      requires Valid() && !revealPending
      modifies this
      ensures Valid()
      ensures Snapshot() == AfterReset(old(Snapshot()))
      ensures !revealPending
    {
      timerRunning := false;
      state := Waiting;
      selectedOrder := [];
      tileViews := [];
    }

    /**
     * The "Best" figure of `folgendUpdateScoreDisplay`: the first of the top
     * scores, or 0 when there is none.
     */
    function BestScore(): (best: int)
      reads this, manager
      ensures best >= 0
      ensures forall k :: 0 <= k < |manager.AllScores()| && manager.AllScores()[k].difficulty == difficulty ==>
        manager.AllScores()[k].score <= best
    {
      Leaderboard.BestScoreIsMaximum(manager.AllScores(), difficulty);
      Leaderboard.BestScore(manager.AllScores(), difficulty)
    }
  }
}
