# Folgend: a verified model of the game core

Folgend is a memory game. The player watches a few mahjong tiles appear,
memorises their order during a ten-second countdown (the tiles are shuffled on
the board half-way through), and then taps them back in the order they first
appeared. A wrong tap ends the round. A won round raises a per-difficulty
streak, adds a streak-dependent score to the session total and saves the
total to a leaderboard kept in UserDefaults.

This project models the three pieces that hold the game's logic:

- `mahjong_tile.dfy` (module `MahjongTile`): the tile suits, the difficulty
  table (grid size, tile count), tiles with their derived id and image name,
  the 35-tile catalogue built by `folgendCreateAllTiles`, the score record and
  the round states.
- `game_manager.dfy` (module `GameManager`): the score formula and the manager
  object. Its UserDefaults store becomes two fields (the JSON value under the
  score key, the integers under the streak keys), and its session totals a
  map. The manager covers save and read of the history, the top-score query,
  the streak counters, the random draw of a board and the session totals.
- `game_round.dfy` (module `GameRound`): the round state machine of the game
  screen as a class whose methods are the screen's event handlers. Its
  invariant says the picks are always a prefix of the expected order, and a
  shuffle moves views only, never the expected order.

Supporting modules: `score_codec.dfy` (the Codable mapping of a score record,
on a JSON value tree), `leaderboard.dfy` (filter, sort descending, prefix),
`decimal.dfy` (Swift's `"\(n)"` for integers, with a parser used only to prove
that tile ids are unique), `shuffle.dfy` (the outcome of `shuffled()` as a
permutation chosen by the caller) and `wrappers.dfy` (an `Option` type).

Three behaviours of the code worth stating:

- After a won round, `folgendStartNextRound` leaves the state at `finished`
  until the next countdown starts. It does not go back to `waiting`.
- The countdown is 10 for every difficulty, and the shuffle always comes at 5.
  The in-app help text claims other timers.
- Swift's sort is stable, so the top-score query keeps history order among
  records with equal scores. The model's sort is stable too, and this is
  proved (`SortDescStable`, `TopScoresStable`).

## Model

| member | source | states |
|---|---|---|
| `MahjongTile.TileType.RawValue` | Folgend/Folgend/FolgendMahjongTile.swift:5-10 | each suit's raw string is non-empty and has no '-', so it cannot blur the id's separator |
| `MahjongTile.DifficultyFromRaw` | Folgend/Folgend/FolgendMahjongTile.swift:12-15 | `FolgendGameDifficulty(rawValue:)` finds the difficulty with that raw value, and only that one |
| `MahjongTile.DifficultyTable` | Folgend/Folgend/FolgendMahjongTile.swift:17-26 | easy is 2×2 with 4 tiles, medium 2×3 with 6, hard 3×3 with 9 |
| `MahjongTile.Difficulty.TileCount` | Folgend/Folgend/FolgendMahjongTile.swift:28-31 | the tile count is rows × columns, positive and at most 35, the catalogue size |
| `MahjongTile.Tile.ImageName` | Folgend/Folgend/FolgendMahjongTile.swift:45-49 | both branches of the initialiser give `"folgend-" + id` |
| `MahjongTile.ParseIdOfId` | Folgend/Folgend/FolgendMahjongTile.swift:51 | the id `"<type>-<number>"` can be read back to the tile it came from |
| `MahjongTile.IdInjective` | Folgend/Folgend/FolgendMahjongTile.swift:51 | two tiles with the same id are the same tile |
| `MahjongTile.CreateAllTiles` | Folgend/Folgend/FolgendMahjongTile.swift:54-70 | the nested loops build exactly the 35-tile catalogue |
| `MahjongTile.CatalogOrder` | Folgend/Folgend/FolgendMahjongTile.swift:54-70 | the catalogue lists circle 1–9, wan 1–9, strip 1–9, then fangs 1–8 |
| `MahjongTile.CatalogIdsDistinct` | Folgend/Folgend/FolgendMahjongTile.swift:54-70 | no two catalogue tiles share an id |
| `MahjongTile.NewGameScore` | Folgend/Folgend/FolgendMahjongTile.swift:80-85 | the record keeps the given difficulty, score and streak, stamped with the current time |
| `MahjongTile.NewGameScoreDefaultsWins` | Folgend/Folgend/FolgendMahjongTile.swift:80 | when no streak is given it is 0 |
| `Decimal.IntToStringInjective` | Folgend/Folgend/FolgendMahjongTile.swift:51 | interpolating different integers gives different strings |
| `ScoreCodec.DecodeEncodeScore` | Folgend/Folgend/FolgendGameManager.swift:109-124 | decoding an encoded record restores its difficulty, score, date and streak |
| `ScoreCodec.DecodeEncodeScores` | Folgend/Folgend/FolgendGameManager.swift:25-36 | decoding an encoded history gives the same history back |
| `ScoreCodec.DecodeAllFailsOnBadItem` | Folgend/Folgend/FolgendGameManager.swift:36 | one record that does not decode makes the whole history undecodable |
| `ScoreCodec.DecodeMissingWins` | Folgend/Folgend/FolgendGameManager.swift:115 | a record without a streak field decodes with streak 0 |
| `ScoreCodec.DecodeUnknownDifficulty` | Folgend/Folgend/FolgendGameManager.swift:111-112 | a record with an unknown difficulty string decodes exactly as if it said "Easy": score, date and streak are read as usual |
| `Leaderboard.Qualifying` | Folgend/Folgend/FolgendGameManager.swift:41-43 | keeps exactly the records of the difficulty with a positive score, each as often as in the history |
| `Leaderboard.SortDesc` | Folgend/Folgend/FolgendGameManager.swift:44 | the result is ordered by non-increasing score and is a permutation of its input |
| `Leaderboard.TopScores` | Folgend/Folgend/FolgendGameManager.swift:39-45 | min(limit, qualifying count) records, all of the difficulty with score > 0, sorted by non-increasing score, taken from the history, and no qualifying record left out scores higher than any returned |
| `Leaderboard.SortDescStable` | Folgend/Folgend/FolgendGameManager.swift:44 | the sort is stable: the records with any one score appear in the same order as in its input |
| `Leaderboard.TopScoresStable` | Folgend/Folgend/FolgendGameManager.swift:41-45 | among records with equal scores, the top list holds the first ones of the qualifying history, in history order |
| `Leaderboard.TopScoresComplete` | Folgend/Folgend/FolgendGameManager.swift:39-45 | with at most `limit` qualifying records, every one of them is returned |
| `Leaderboard.BestScoreIsMaximum` | Folgend/Folgend/FolgendGameViewController.swift:742-743 | the best score is the highest score of the difficulty in the history, and 0 exactly when it has no positive score |
| `GameManager.WinsKeysDistinct` | Folgend/Folgend/FolgendGameManager.swift:49-59 | each difficulty has its own streak key |
| `GameManager.IntegerFor` | Folgend/Folgend/FolgendGameManager.swift:49 | an absent key reads as 0 |
| `GameManager.StoredScores` | Folgend/Folgend/FolgendGameManager.swift:30-37 | no data, or data that does not decode, reads as the empty history; an encoded history reads back as itself |
| `GameManager.CalculateScore` | Folgend/Folgend/FolgendGameManager.swift:68-83 | the score is at least 10 × the difficulty multiplier and a multiple of 5 |
| `GameManager.CalculateScoreExamples` | Folgend/Folgend/FolgendGameManager.swift:68-83 | easy with 1 win scores 10, medium with 3 scores 25, hard with 5 scores 45 |
| `GameManager.CalculateScoreStreak` | Folgend/Folgend/FolgendGameManager.swift:70 | up to 2 wins there is no bonus; each further win adds 5 |
| `GameManager.CalculateScoreMonotone` | Folgend/Folgend/FolgendGameManager.swift:68-83 | a longer streak never scores less |
| `GameManager.CalculateScoreByDifficulty` | Folgend/Folgend/FolgendGameManager.swift:71-82 | for the same streak, medium scores more than easy and hard more than medium |
| `Shuffle.Permute` | Folgend/Folgend/FolgendGameManager.swift:64 | a shuffled list holds the same elements, each as often, as the list it came from |
| `GameManager.PermuteDistinct` | Folgend/Folgend/FolgendGameManager.swift:64 | shuffling a list with distinct ids keeps them distinct |
| `GameManager.Manager.constructor` | Folgend/Folgend/FolgendGameManager.swift:9-17 | the manager starts over the stored data with no session totals |
| `GameManager.Manager.AllScores` | Folgend/Folgend/FolgendGameManager.swift:30-37 | an absent key gives the empty history; a stored encoded history reads back as itself |
| `GameManager.Manager.SaveScore` | Folgend/Folgend/FolgendGameManager.swift:20-28 | the history becomes the old history plus the record (just the record if the old data did not decode); nothing else changes |
| `GameManager.Manager.TopScores` | Folgend/Folgend/FolgendGameManager.swift:39-45 | at most `limit` (default 10) records of the difficulty with positive scores, sorted, all from the history |
| `GameManager.Manager.ConsecutiveWins` | Folgend/Folgend/FolgendGameManager.swift:48-50 | an unseen difficulty has streak 0 |
| `GameManager.Manager.IncrementConsecutiveWins` | Folgend/Folgend/FolgendGameManager.swift:52-55 | the streak becomes its old value + 1; other difficulties, the history and the session totals are unchanged |
| `GameManager.Manager.ResetConsecutiveWins` | Folgend/Folgend/FolgendGameManager.swift:57-59 | the streak becomes 0; everything else is unchanged |
| `GameManager.Manager.GenerateRandomTiles` | Folgend/Folgend/FolgendGameManager.swift:62-66 | exactly the difficulty's tile count of catalogue tiles with distinct ids: the first ones of the shuffled catalogue |
| `GameManager.Manager.SessionScore` | Folgend/Folgend/FolgendGameManager.swift:86-88 | an unseen difficulty has session total 0 |
| `GameManager.Manager.AddToSessionScore` | Folgend/Folgend/FolgendGameManager.swift:90-93 | the difficulty's total rises by exactly the points; other totals and the store are unchanged |
| `GameManager.Manager.ResetSessionScore` | Folgend/Folgend/FolgendGameManager.swift:95-97 | the difficulty's total becomes 0; nothing else changes |
| `GameRound.AfterReset` | Folgend/Folgend/FolgendGameViewController.swift:726-737 | a reset round is waiting, with no picks, no views and no timer; its tiles and countdown are kept |
| `GameRound.AfterResetIdempotent` | Folgend/Folgend/FolgendGameViewController.swift:726-737 | resetting twice gives the same round as resetting once |
| `GameRound.GameController.constructor` | Folgend/Folgend/FolgendGameViewController.swift:8-31 | a new screen is waiting, with no tiles, no picks and the countdown at 10 |
| `GameRound.GameController.StartGame` | Folgend/Folgend/FolgendGameViewController.swift:227-242 | state showing, session total reset to 0, a fresh board drawn and laid out, no store writes |
| `GameRound.GameController.CreateTileGrid` | Folgend/Folgend/FolgendGameViewController.swift:244-275 | one view per tile, in drawing order |
| `GameRound.GameController.StartCountdown` | Folgend/Folgend/FolgendGameViewController.swift:284-292 | after the reveal: state memorizing, countdown 10, timer running |
| `GameRound.GameController.CountdownTick` | Folgend/Folgend/FolgendGameViewController.swift:349-358 | the countdown drops by 1; reaching 5 starts the shuffle, reaching 0 starts play with no picks; the expected order never changes |
| `GameRound.GameController.RearrangeTileViews` | Folgend/Folgend/FolgendGameViewController.swift:426-462 | the views are permuted on the board and the same views remain; tiles, expected order and picks are unchanged |
| `GameRound.GameController.StartPlaying` | Folgend/Folgend/FolgendGameViewController.swift:464-467 | state playing, timer stopped, picks cleared |
| `GameRound.GameController.TileTapped` | Folgend/Folgend/FolgendMahjongTileView.swift:176-183 | a tap on a view already marked selected, or outside play, changes nothing; otherwise the view's tile is selected: right exactly when the view shows the next expected tile (appended, and the last one wins the round), any other view loses the round; the reveal flag, the timer and other difficulties' counters are untouched |
| `GameRound.GameController.TileSelected` | Folgend/Folgend/FolgendGameViewController.swift:515-535 | ignored outside play; the expected tile is appended and the last one wins the round; any other tile loses at once; picks stay a prefix of the expected order; the timer, the reveal flag and other difficulties' streaks and session totals are untouched |
| `GameRound.GameController.GameCompleted` | Folgend/Folgend/FolgendGameViewController.swift:537-545 | the round is finished and the manager records a win or a loss; the reveal flag and other difficulties' streaks and session totals are untouched |
| `GameRound.GameController.ShowGameCompletedAlert` | Folgend/Folgend/FolgendGameViewController.swift:550-560 | with old streak w: the streak becomes w+1, the session total rises by the score for w+1, and one record with the new total and streak w+1 is saved |
| `GameRound.GameController.ShowGameFailedAlert` | Folgend/Folgend/FolgendGameViewController.swift:573-575 | streak and session total become 0 and nothing is saved |
| `GameRound.GameController.StartNextRound` | Folgend/Folgend/FolgendGameViewController.swift:710-724 | session total kept, picks cleared, a fresh board drawn, state left at finished until the countdown |
| `GameRound.GameController.ResetGame` | Folgend/Folgend/FolgendGameViewController.swift:726-737 | the round becomes its reset form: waiting, no picks, no views, no timer; the manager is not touched |
| `GameRound.GameController.BestScore` | Folgend/Folgend/FolgendGameViewController.swift:739-746 | the best figure is non-negative and no score of the difficulty in the history exceeds it |

## Left out

- Views, layout, SnapKit constraints, animations, colours, haptics and the countdown colour thresholds. They are presentation only. The tile-size geometry (CGFloat arithmetic) goes with them.
- Timers and `asyncAfter` delays. The reveal's end, each timer firing and the delayed rearrangement of the views are separate events. The success bookkeeping, which the source runs when the celebration animation ends, happens synchronously when the round ends; the failure bookkeeping is synchronous in the source too. The delayed un-marking of the tile views after play starts is folded into `StartPlaying`.
- `shuffled()` randomness. Each shuffle is a permutation supplied by the caller.
- UserDefaults and JSON bytes. The store is a JSON value tree plus a map of integers. Bytes that are not JSON at all are not modelled; a tree that does not decode stands for them. A non-integer value under a streak key is not modelled either.
- `Date`. It is an integer clock reading passed in (`now`). JSON encodes it as a number.
- GameManager.Manager.SaveScore: encoding is assumed to succeed, so the write always happens. The source skips the write when encoding fails, which these field types only do for non-finite dates.
- Leaderboard.TopScores: the limit is a natural number. Swift's `prefix` traps on a negative length, and that error path is not modelled.
- GameManager.CalculateScore: Swift's 64-bit `Int` traps on overflow; the model uses unbounded integers. The same holds for the streak increment and the session sums.
- GameRound.GameController.StartGame: it requires the waiting state, because the start button is visible only then. A double tap during the button animation could start twice; that race is not modelled.
- GameRound.GameController.StartNextRound: it requires the finished state, because its only caller is the success path. GameRound.GameController.ResetGame requires that no reveal is pending, because its only caller is the failure alert.
- The back button, `viewWillDisappear` and the timer cleanup on leaving the screen. They are navigation.
- The failure alert's text and buttons. Only "Try Again", which calls `ResetGame`, matters here.
- The score label string. Only its best-score lookup is modelled.
- FolgendHomeViewController.swift, FolgendLeaderboardViewController.swift, FolgendCustomAlert.swift and FolgendCustomButton.swift. They are UI: menus, table cells, alert chrome, feedback text. FolgendMahjongTileView.swift is animation, except the guard that drops taps on selected tiles, which `TileTapped` models.
