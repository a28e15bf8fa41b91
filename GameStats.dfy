/** The statistics screen: summaries folded over the saved match records. */
module GameStats {
  import opened GameRecords
  import opened PlayGame

  predicate Won(g: GameResult) { g.result == "WIN" }
  predicate Drawn(g: GameResult) { g.result == "DRAW" }
  predicate Lost(g: GameResult) { g.result == "LOSE" }
  predicate GotBonus(g: GameResult) { g.gotBonus }
  predicate GotYahtzee(g: GameResult) { g.gotYahtzee }

  function MyPoints(g: GameResult): int { g.myPoints }
  function WinMargin(g: GameResult): int { g.myPoints - g.opponentPoints }
  function LossMargin(g: GameResult): int { g.opponentPoints - g.myPoints }

  /** A record as the match engine writes it: its tag is the outcome of its
      own two totals. */
  predicate FromEngine(g: GameResult) { g.result == Outcome(g.myPoints, g.opponentPoints) }

  /** `count { p }`: the number of records satisfying `p`. */
  function CountWhere(games: seq<GameResult>, p: GameResult -> bool): (n: nat)
    ensures n <= |games|
  {
    if games == [] then 0
    else CountWhere(games[..|games| - 1], p) + (if p(games[|games| - 1]) then 1 else 0)
  }

  /** No record counted exactly when none satisfies `p`; all counted exactly
      when all do. */
  lemma {:induction false} CountWhereBounds(games: seq<GameResult>, p: GameResult -> bool)
    ensures CountWhere(games, p) == 0 <==> forall i :: 0 <= i < |games| ==> !p(games[i])
    ensures CountWhere(games, p) == |games| <==> forall i :: 0 <= i < |games| ==> p(games[i])
  {
    if games != [] {
      var init := games[..|games| - 1];
      CountWhereBounds(init, p);
      assert forall i :: 0 <= i < |init| ==> init[i] == games[i];
    }
  }

  /** The three outcome counts never exceed the number of records, and add up
      to it exactly when every record carries one of the three tags. */
  lemma {:induction false} OutcomeCounts(games: seq<GameResult>)
    ensures CountWhere(games, Won) + CountWhere(games, Drawn) + CountWhere(games, Lost) <= |games|
    ensures CountWhere(games, Won) + CountWhere(games, Drawn) + CountWhere(games, Lost) == |games|
      <==> forall i :: 0 <= i < |games| ==> Won(games[i]) || Drawn(games[i]) || Lost(games[i])
  {
    if games != [] {
      var init := games[..|games| - 1];
      OutcomeCounts(init);
      assert forall i :: 0 <= i < |init| ==> init[i] == games[i];
    }
  }

  /** `maxOfOrNull { f }`: the largest value of `f` over the records, None
      when there are none. */
  function MaxOfOrNull(games: seq<GameResult>, f: GameResult -> int): (r: Option<int>)
    ensures r.None? <==> games == []
    ensures r.Some? ==> exists i :: 0 <= i < |games| && f(games[i]) == r.value
    ensures r.Some? ==> forall i :: 0 <= i < |games| ==> f(games[i]) <= r.value
  {
    if games == [] then None
    else
      var init := games[..|games| - 1];
      var last := f(games[|games| - 1]);
      match MaxOfOrNull(init, f)
      case None => Some(last)
      case Some(m) =>
        assert forall i :: 0 <= i < |init| ==> init[i] == games[i];
        Some(if last > m then last else m)
  }

  /** `minOfOrNull { f }`: the smallest value of `f` over the records, None
      when there are none. */
  function MinOfOrNull(games: seq<GameResult>, f: GameResult -> int): (r: Option<int>)
    ensures r.None? <==> games == []
    ensures r.Some? ==> exists i :: 0 <= i < |games| && f(games[i]) == r.value
    ensures r.Some? ==> forall i :: 0 <= i < |games| ==> r.value <= f(games[i])
  {
    if games == [] then None
    else
      var init := games[..|games| - 1];
      var last := f(games[|games| - 1]);
      match MinOfOrNull(init, f)
      case None => Some(last)
      case Some(m) =>
        assert forall i :: 0 <= i < |init| ==> init[i] == games[i];
        Some(if last < m then last else m)
  }

  /** `filter { p }`: the records satisfying `p`, each kept as often as it
      occurs. */
  function Filter(games: seq<GameResult>, p: GameResult -> bool): (r: seq<GameResult>)
    ensures forall g :: g in r <==> g in games && p(g)
    ensures |r| == CountWhere(games, p)
  {
    if games == [] then []
    else
      var init := games[..|games| - 1];
      var last := games[|games| - 1];
      assert games == init + [last];
      Filter(init, p) + (if p(last) then [last] else [])
  }

  /** The largest winning margin over the won matches, or -1 when no match
      was won. */
  function BiggestWin(games: seq<GameResult>): (m: int)
    ensures (forall g :: g in games ==> !Won(g)) ==> m == -1
    ensures (exists g :: g in games && Won(g)) ==>
      (exists g :: g in games && Won(g) && WinMargin(g) == m) &&
      forall g :: g in games && Won(g) ==> WinMargin(g) <= m
  {
    var wins := Filter(games, Won);
    match MaxOfOrNull(wins, WinMargin)
    case None => -1
    case Some(best) =>
      assert forall g :: g in wins ==> WinMargin(g) <= best by {
        forall g | g in wins ensures WinMargin(g) <= best {
          var i :| 0 <= i < |wins| && wins[i] == g;
        }
      }
      best
  }

  /** The largest losing margin over the lost matches, or -1 when no match
      was lost. */
  function BiggestLoss(games: seq<GameResult>): (m: int)
    ensures (forall g :: g in games ==> !Lost(g)) ==> m == -1
    ensures (exists g :: g in games && Lost(g)) ==>
      (exists g :: g in games && Lost(g) && LossMargin(g) == m) &&
      forall g :: g in games && Lost(g) ==> LossMargin(g) <= m
  {
    var losses := Filter(games, Lost);
    match MaxOfOrNull(losses, LossMargin)
    case None => -1
    case Some(best) =>
      assert forall g :: g in losses ==> LossMargin(g) <= best by {
        forall g | g in losses ensures LossMargin(g) <= best {
          var i :| 0 <= i < |losses| && losses[i] == g;
        }
      }
      best
  }

  /** The figures the statistics screen shows (the average score aside). */
  datatype Stats = Stats(
    gamesPlayed: nat,
    gamesWon: nat,
    gamesDrawn: nat,
    gamesLost: nat,
    maxScore: int,
    minScore: int,
    biggestWin: int,
    biggestLoss: int,
    bonusesGained: nat,
    yahtzeeGained: nat)

  /** The statistics of the saved records; None when there are none, and the
      screen then shows only "No games played". */
  function Statistics(games: seq<GameResult>): (r: Option<Stats>)
    ensures r.None? <==> games == []
    ensures r.Some? ==>
      r.value.gamesPlayed == |games| &&
      r.value.gamesWon + r.value.gamesDrawn + r.value.gamesLost <= r.value.gamesPlayed &&
      r.value.bonusesGained <= r.value.gamesPlayed && r.value.yahtzeeGained <= r.value.gamesPlayed
    ensures r.Some? ==>
      r.value.minScore <= r.value.maxScore &&
      (exists i :: 0 <= i < |games| && games[i].myPoints == r.value.maxScore) &&
      (exists i :: 0 <= i < |games| && games[i].myPoints == r.value.minScore) &&
      forall i :: 0 <= i < |games| ==> r.value.minScore <= games[i].myPoints <= r.value.maxScore
    ensures r.Some? ==>
      r.value.gamesWon == CountWhere(games, Won) && r.value.gamesDrawn == CountWhere(games, Drawn) &&
      r.value.gamesLost == CountWhere(games, Lost) &&
      r.value.bonusesGained == CountWhere(games, GotBonus) &&
      r.value.yahtzeeGained == CountWhere(games, GotYahtzee) &&
      r.value.biggestWin == BiggestWin(games) && r.value.biggestLoss == BiggestLoss(games)
  {
    if games == [] then None
    else
      OutcomeCounts(games);
      var maxScore := match MaxOfOrNull(games, MyPoints) case Some(m) => m case None => 0;
      var minScore := match MinOfOrNull(games, MyPoints) case Some(m) => m case None => 0;
      assert MyPoints(games[0]) == games[0].myPoints;
      Some(Stats(
        |games|,
        CountWhere(games, Won),
        CountWhere(games, Drawn),
        CountWhere(games, Lost),
        maxScore,
        minScore,
        BiggestWin(games),
        BiggestLoss(games),
        CountWhere(games, GotBonus),
        CountWhere(games, GotYahtzee)))
  }

  /** Over records written by the match engine, every record is counted
      under exactly one outcome. */
  lemma EngineOutcomeCounts(games: seq<GameResult>)
    requires forall g :: g in games ==> FromEngine(g)
    ensures CountWhere(games, Won) + CountWhere(games, Drawn) + CountWhere(games, Lost) == |games|
  {
    OutcomeCounts(games);
    forall i | 0 <= i < |games| ensures Won(games[i]) || Drawn(games[i]) || Lost(games[i]) {
      assert FromEngine(games[i]);
    }
  }

  /** A record written by the match engine is won exactly when its winning
      margin is positive, and lost exactly when its losing margin is. */
  lemma EngineRecordMargins(g: GameResult)
    requires FromEngine(g)
    ensures Won(g) <==> WinMargin(g) > 0
    ensures Lost(g) <==> LossMargin(g) > 0
  {
  }

  /** Over records written by the match engine the biggest win is shown as
      a number exactly when some match was won. */
  lemma EngineBiggestWin(games: seq<GameResult>)
    requires forall g :: g in games ==> FromEngine(g)
    ensures BiggestWin(games) > 0 <==> exists g :: g in games && Won(g)
  {
    if exists g :: g in games && Won(g) {
      var g :| g in games && Won(g);
      EngineRecordMargins(g);
    }
  }

  /** Over records written by the match engine the biggest loss is shown as
      a number exactly when some match was lost. */
  lemma EngineBiggestLoss(games: seq<GameResult>)
    requires forall g :: g in games ==> FromEngine(g)
    ensures BiggestLoss(games) > 0 <==> exists g :: g in games && Lost(g)
  {
    if exists g :: g in games && Lost(g) {
      var g :| g in games && Lost(g);
      EngineRecordMargins(g);
    }
  }

  /** The statistics of a non-empty history written by the match engine:
      the outcome counts add up to the number of matches, and the biggest
      win and loss are positive exactly when such a match exists. */
  lemma EngineRecordStatistics(games: seq<GameResult>)
    requires games != [] && forall g :: g in games ==> FromEngine(g)
    ensures Statistics(games).Some?
    ensures Statistics(games).value.gamesWon + Statistics(games).value.gamesDrawn
      + Statistics(games).value.gamesLost == |games|
    ensures Statistics(games).value.biggestWin > 0 <==> exists g :: g in games && Won(g)
    ensures Statistics(games).value.biggestLoss > 0 <==> exists g :: g in games && Lost(g)
  {
    EngineOutcomeCounts(games);
    EngineBiggestWin(games);
    EngineBiggestLoss(games);
  }
}
