/**
 * The leaderboard query `folgendGetTopScores` and the best-score lookup of the
 * game screen: filter by difficulty and positive score, sort by score from
 * high to low, take a prefix.
 */
module Leaderboard {
  import opened MahjongTile

  /** The filter of `folgendGetTopScores`. */
  predicate Qualifies(s: GameScore, d: Difficulty) {
    s.difficulty == d && s.score > 0
  }

  /** The history restricted to qualifying records, each as often as in the history. */
  function Qualifying(history: seq<GameScore>, d: Difficulty): (r: seq<GameScore>)
    ensures forall i :: 0 <= i < |r| ==> Qualifies(r[i], d)
    ensures forall x :: multiset(r)[x] == if Qualifies(x, d) then multiset(history)[x] else 0
    ensures multiset(r) <= multiset(history)
  {
    if history == [] then []
    else
      assert history == [history[0]] + history[1..];
      var rest := Qualifying(history[1..], d);
      if Qualifies(history[0], d) then [history[0]] + rest else rest
  }

  predicate SortedDesc(s: seq<GameScore>) {
    forall i, j :: 0 <= i < j < |s| ==> s[i].score >= s[j].score
  }

  /** Inserts `x` into a list sorted from high to low score. */
  function InsertDesc(x: GameScore, s: seq<GameScore>): (r: seq<GameScore>)
    requires SortedDesc(s)
    ensures |r| == |s| + 1
    ensures forall k :: 0 <= k < |r| ==> r[k] == x || r[k] in s
    ensures SortedDesc(r)
    ensures multiset(r) == multiset(s) + multiset{x}
  {
    if s == [] || x.score >= s[0].score then [x] + s
    else
      var tail := InsertDesc(x, s[1..]);
      assert s == [s[0]] + s[1..];
      HeadAbove(s[0], s[1..], x, tail);
      [s[0]] + tail
  }

  /** A record above `x` and above every record of `t` heads any list drawn from them. */
  lemma HeadAbove(y: GameScore, t: seq<GameScore>, x: GameScore, r: seq<GameScore>)
    requires SortedDesc(r)
    requires y.score >= x.score
    requires forall k :: 0 <= k < |t| ==> y.score >= t[k].score
    requires forall k :: 0 <= k < |r| ==> r[k] == x || r[k] in t
    ensures SortedDesc([y] + r)
  {
    forall k | 0 <= k < |r| ensures y.score >= r[k].score {
      if r[k] != x {
        var j :| 0 <= j < |t| && t[j] == r[k];
      }
    }
  }

  /**
   * Swift's `sorted { $0.score > $1.score }`. Swift's sort is stable, and so is
   * this one: records with equal scores keep their order (SortDescStable).
   */
  function SortDesc(s: seq<GameScore>): (r: seq<GameScore>)
    ensures SortedDesc(r)
    ensures multiset(r) == multiset(s)
  {
    if s == [] then []
    else
      assert s == [s[0]] + s[1..];
      InsertDesc(s[0], SortDesc(s[1..]))
  }

  /** The records of `s` with score `v`, in the order of `s`. */
  function WithScore(s: seq<GameScore>, v: int): seq<GameScore> {
    if s == [] then []
    else (if s[0].score == v then [s[0]] else []) + WithScore(s[1..], v)
  }

  lemma WithScoreCons(y: GameScore, t: seq<GameScore>, v: int)
    ensures WithScore([y] + t, v) == (if y.score == v then [y] else []) + WithScore(t, v)
  {
    assert ([y] + t)[1..] == t;
  }

  /** One step of InsertDescStable: `x` passes a record that scores higher. */
  lemma PassHigher(x: GameScore, y: GameScore, rest: seq<GameScore>, tail: seq<GameScore>, v: int)
    requires x.score < y.score
    requires WithScore(tail, v) == (if x.score == v then [x] else []) + WithScore(rest, v)
    ensures WithScore([y] + tail, v) == (if x.score == v then [x] else []) + WithScore([y] + rest, v)
  {
    WithScoreCons(y, tail, v);
    WithScoreCons(y, rest, v);
    if x.score == v {
      assert y.score != v;
    }
  }

  /** Inserting `x` puts it ahead of every record with its score. */
  lemma {:induction false} InsertDescStable(x: GameScore, s: seq<GameScore>, v: int)
    requires SortedDesc(s)
    ensures WithScore(InsertDesc(x, s), v) == (if x.score == v then [x] else []) + WithScore(s, v)
  {
    if s == [] || x.score >= s[0].score {
      WithScoreCons(x, s, v);
    } else {
      InsertDescStable(x, s[1..], v);
      PassHigher(x, s[0], s[1..], InsertDesc(x, s[1..]), v);
      assert s == [s[0]] + s[1..];
    }
  }

  /** The sort is stable: among records with equal scores the input order is kept. */
  lemma {:induction false} SortDescStable(s: seq<GameScore>, v: int)
    ensures WithScore(SortDesc(s), v) == WithScore(s, v)
  {
    if s != [] {
      SortDescStable(s[1..], v);
      InsertDescStable(s[0], SortDesc(s[1..]), v);
    }
  }

  /** The records of a prefix with a given score are a prefix of those of the whole. */
  lemma {:induction false} WithScorePrefix(s: seq<GameScore>, n: nat, v: int)
    requires n <= |s|
    ensures WithScore(s[..n], v) <= WithScore(s, v)
  {
    if n > 0 {
      WithScorePrefix(s[1..], n - 1, v);
      assert s[..n][1..] == s[1..][..n - 1];
    }
  }

  function Min(a: nat, b: nat): nat {
    if a <= b then a else b
  }

  /** A prefix of a sorted list keeps its elements, and what it leaves out is no higher. */
  lemma SortedPrefix(s: seq<GameScore>, n: nat)
    requires SortedDesc(s) && n <= |s|
    ensures multiset(s[..n]) <= multiset(s)
    ensures forall x, i :: x in multiset(s) - multiset(s[..n]) && 0 <= i < n ==> x.score <= s[i].score
  {
    assert s == s[..n] + s[n..];
    assert multiset(s) == multiset(s[..n]) + multiset(s[n..]);
    forall x, i | x in multiset(s) - multiset(s[..n]) && 0 <= i < n
      ensures x.score <= s[i].score
    {
      assert x in multiset(s[n..]);
      var j :| 0 <= j < |s[n..]| && s[n..][j] == x;
      assert s[n + j] == x;
    }
  }

  /**
   * `folgendGetTopScores(for: d, folgendLimit: limit)`. Swift's `prefix`
   * traps on a negative length, so the limit is a natural number.
   */
  function TopScores(history: seq<GameScore>, d: Difficulty, limit: nat): (r: seq<GameScore>)
    ensures |r| == Min(limit, |Qualifying(history, d)|)
    ensures forall i :: 0 <= i < |r| ==> r[i].difficulty == d && r[i].score > 0
    ensures SortedDesc(r)
    ensures multiset(r) <= multiset(history)
    ensures forall x, i :: x in multiset(Qualifying(history, d)) - multiset(r) && 0 <= i < |r| ==>
      x.score <= r[i].score
  {
    var sorted := SortDesc(Qualifying(history, d));
    var n := Min(limit, |sorted|);
    TopPrefix(history, Qualifying(history, d), sorted, d, n);
    sorted[..n]
  }

  /** What TopScores promises, for any sorted arrangement of the qualifying records. */
  lemma TopPrefix(history: seq<GameScore>, q: seq<GameScore>, sorted: seq<GameScore>, d: Difficulty, n: nat)
    requires forall i :: 0 <= i < |q| ==> Qualifies(q[i], d)
    requires multiset(q) <= multiset(history)
    requires SortedDesc(sorted) && multiset(sorted) == multiset(q)
    requires n <= |sorted|
    ensures forall i :: 0 <= i < n ==> sorted[i].difficulty == d && sorted[i].score > 0
    ensures SortedDesc(sorted[..n])
    ensures multiset(sorted[..n]) <= multiset(history)
    ensures forall x, i :: x in multiset(q) - multiset(sorted[..n]) && 0 <= i < n ==> x.score <= sorted[i].score
  {
    SortedPrefix(sorted, n);
    forall i | 0 <= i < n ensures sorted[i].difficulty == d && sorted[i].score > 0 {
      assert sorted[i] in multiset(q);
      var k :| 0 <= k < |q| && q[k] == sorted[i];
    }
  }

  /**
   * Among records with the same score, the top list holds the first ones of
   * the qualifying history, in history order.
   */
  lemma TopScoresStable(history: seq<GameScore>, d: Difficulty, limit: nat, v: int)
    ensures WithScore(TopScores(history, d, limit), v) <= WithScore(Qualifying(history, d), v)
  {
    var sorted := SortDesc(Qualifying(history, d));
    SortDescStable(Qualifying(history, d), v);
    WithScorePrefix(sorted, Min(limit, |sorted|), v);
  }

  /** When the history has at most `limit` qualifying records, all of them are returned. */
  lemma TopScoresComplete(history: seq<GameScore>, d: Difficulty, limit: nat)
    requires |Qualifying(history, d)| <= limit
    ensures multiset(TopScores(history, d, limit)) == multiset(Qualifying(history, d))
  {
    var q := Qualifying(history, d);
    var sorted := SortDesc(q);
    assert TopScores(history, d, limit) == sorted[..|sorted|];
    assert sorted[..|sorted|] == sorted;
  }

  /** The "Best" figure of the score label: the first top score, or 0 if there is none. */
  function BestScore(history: seq<GameScore>, d: Difficulty): int {
    var top := TopScores(history, d, 1);
    if top == [] then 0 else top[0].score
  }

  /**
   * The best score is the highest qualifying score in the history, and 0
   * exactly when the history has no positive score for that difficulty.
   */
  lemma {:induction false} BestScoreIsMaximum(history: seq<GameScore>, d: Difficulty)
    ensures BestScore(history, d) >= 0
    ensures forall k :: 0 <= k < |history| && history[k].difficulty == d ==>
      history[k].score <= BestScore(history, d)
    ensures BestScore(history, d) == 0 <==>
      forall k :: 0 <= k < |history| && history[k].difficulty == d ==> history[k].score <= 0
    ensures BestScore(history, d) > 0 ==>
      exists k :: 0 <= k < |history| && history[k].difficulty == d && history[k].score == BestScore(history, d)
  {
    var q := Qualifying(history, d);
    forall k | 0 <= k < |history| && Qualifies(history[k], d)
      ensures history[k] in multiset(q)
    {
      InQualifying(history, d, k);
    }
    HeadIsMaximum(history, q, TopScores(history, d, 1), d);
  }

  /** The first of at most one top record bounds every qualifying record. */
  lemma HeadIsMaximum(history: seq<GameScore>, q: seq<GameScore>, top: seq<GameScore>, d: Difficulty)
    requires forall k :: 0 <= k < |history| && Qualifies(history[k], d) ==> history[k] in multiset(q)
    requires |top| == Min(1, |q|)
    requires forall i :: 0 <= i < |top| ==> top[i].difficulty == d && top[i].score > 0
    requires multiset(top) <= multiset(history)
    requires forall x, i :: x in multiset(q) - multiset(top) && 0 <= i < |top| ==> x.score <= top[i].score
    ensures var best := if top == [] then 0 else top[0].score;
      && best >= 0
      && (forall k :: 0 <= k < |history| && history[k].difficulty == d ==> history[k].score <= best)
      && (best == 0 <==> forall k :: 0 <= k < |history| && history[k].difficulty == d ==> history[k].score <= 0)
      && (best > 0 ==> exists k :: 0 <= k < |history| && history[k].difficulty == d && history[k].score == best)
  {
    if top != [] {
      assert top[0] in multiset(history);
      var j :| 0 <= j < |history| && history[j] == top[0];
      assert top == [top[0]];
      forall k | 0 <= k < |history| && Qualifies(history[k], d) && history[k] != top[0]
        ensures history[k].score <= top[0].score
      {
        assert history[k] in multiset(q) - multiset(top);
      }
    }
  }

  lemma InQualifying(history: seq<GameScore>, d: Difficulty, k: nat)
    requires k < |history| && Qualifies(history[k], d)
    ensures history[k] in multiset(Qualifying(history, d))
  {
    assert history[k] in multiset(history);
  }
}
