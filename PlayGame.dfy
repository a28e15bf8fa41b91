/** One match against the computer: the turn lifecycle, the computer's
    category heuristic and the end-of-match bonus, totals and outcome. */
module PlayGame {
  import opened Scoring
  import opened GameRecords

  // ---------------------------------------------------------------------------
  // The computer's choice of category
  // ---------------------------------------------------------------------------

  /** The least score the computer accepts in each hand-scored row before
      its last roll. */
  const PreferredMinScores: seq<int> := [3, 6, 9, 12, 15, 18, 20, 18, 25, 30, 40, 20, 50]

  /** `maxByOrNull` over the eligible entries of an indexed list: the index of
      the first largest eligible value, or None when nothing is eligible. */
  function MaxByOrNull(values: seq<int>, eligible: seq<bool>): (r: Option<nat>)
    requires |eligible| == |values|
    ensures r.None? <==> forall i :: 0 <= i < |values| ==> !eligible[i]
    ensures r.Some? ==> r.value < |values| && eligible[r.value]
    ensures r.Some? ==> forall j :: 0 <= j < |values| && eligible[j] ==> values[j] <= values[r.value]
    ensures r.Some? ==> forall j :: 0 <= j < r.value && eligible[j] ==> values[j] < values[r.value]
  {
    if values == [] then None
    else
      var last := |values| - 1;
      var best := MaxByOrNull(values[..last], eligible[..last]);
      if !eligible[last] then best
      else if best.None? || values[best.value] < values[last] then Some(last)
      else best
  }

  /** Row i is open on the computer's sheet and the hand reaches its minimum. */
  predicate Acceptable(scores: seq<int>, chosen: seq<bool>, i: int)
    requires |scores| == 13 && |chosen| >= 13
  {
    0 <= i < 13 && !chosen[i] && scores[i] >= PreferredMinScores[i]
  }

  /** The computer's pick before its last roll: the best-scoring acceptable
      row, the lowest such row on a tie, or None when no row is acceptable. */
  function SelectBestCategory(scores: seq<int>, chosen: seq<bool>): (r: Option<nat>)
    requires |scores| == 13 && |chosen| >= 13
    ensures r.None? <==> forall i :: 0 <= i < 13 ==> !Acceptable(scores, chosen, i)
    ensures r.Some? ==> Acceptable(scores, chosen, r.value)
    ensures r.Some? ==> forall j :: 0 <= j < 13 && Acceptable(scores, chosen, j) ==> scores[j] <= scores[r.value]
    ensures r.Some? ==> forall j :: 0 <= j < r.value && Acceptable(scores, chosen, j) ==> scores[j] < scores[r.value]
  {
    var eligible := seq(13, i requires 0 <= i < 13 => Acceptable(scores, chosen, i));
    assert forall i :: 0 <= i < 13 ==> eligible[i] == Acceptable(scores, chosen, i);
    MaxByOrNull(scores, eligible)
  }

  /** The computer's pick after its last roll: the best-scoring open row
      whatever its minimum, the lowest such row on a tie, or None when every
      row is filled. */
  function FallbackCategory(scores: seq<int>, chosen: seq<bool>): (r: Option<nat>)
    requires |scores| == 13 && |chosen| >= 13
    ensures r.None? <==> forall i :: 0 <= i < 13 ==> chosen[i]
    ensures r.Some? ==> r.value < 13 && !chosen[r.value]
    ensures r.Some? ==> forall j :: 0 <= j < 13 && !chosen[j] ==> scores[j] <= scores[r.value]
    ensures r.Some? ==> forall j :: 0 <= j < r.value && !chosen[j] ==> scores[j] < scores[r.value]
  {
    var open := seq(13, i requires 0 <= i < 13 => !chosen[i]);
    assert forall i :: 0 <= i < 13 ==> open[i] == !chosen[i];
    MaxByOrNull(scores, open)
  }

  // ---------------------------------------------------------------------------
  // Dice
  // ---------------------------------------------------------------------------

  /** The hand after rolling again exactly the selected dice. */
  function Reroll(dice: seq<int>, selected: seq<bool>, rolled: seq<int>): (r: seq<int>)
    requires |dice| == 5 && |selected| == 5 && |rolled| == 5
    ensures |r| == 5
    ensures ValidHand(dice) && ValidHand(rolled) ==> ValidHand(r)
  {
    seq(5, i requires 0 <= i < 5 => if selected[i] then rolled[i] else dice[i])
  }

  /** The computer's successive hands: all five dice rolled, then, twice,
      the dice picked by `reselections[k]` rolled again. */
  function OpponentHands(rolls: seq<seq<int>>, reselections: seq<seq<bool>>): (hands: seq<seq<int>>)
    requires |rolls| == 3 && forall k :: 0 <= k < 3 ==> ValidHand(rolls[k])
    requires |reselections| == 2 && forall k :: 0 <= k < 2 ==> |reselections[k]| == 5
    ensures |hands| == 3 && forall k :: 0 <= k < 3 ==> ValidHand(hands[k])
    ensures hands[0] == rolls[0]
    ensures |hands[0]| == 5 && |rolls[1]| == 5 && hands[1] == Reroll(hands[0], reselections[0], rolls[1])
    ensures |rolls[2]| == 5 && hands[2] == Reroll(hands[1], reselections[1], rolls[2])
  {
    assert ValidHand(rolls[0]) && ValidHand(rolls[1]) && ValidHand(rolls[2]);
    var first := rolls[0];
    var second := Reroll(first, reselections[0], rolls[1]);
    [first, second, Reroll(second, reselections[1], rolls[2])]
  }

  // ---------------------------------------------------------------------------
  // Turn accounting
  // ---------------------------------------------------------------------------

  /** Number of set flags. */
  function FilledCount(flags: seq<bool>): (n: nat)
    ensures n <= |flags|
  {
    if flags == [] then 0
    else FilledCount(flags[..|flags| - 1]) + (if flags[|flags| - 1] then 1 else 0)
  }

  lemma {:induction false} FilledCountBounds(flags: seq<bool>)
    ensures FilledCount(flags) == |flags| <==> forall i :: 0 <= i < |flags| ==> flags[i]
    ensures FilledCount(flags) == 0 <==> forall i :: 0 <= i < |flags| ==> !flags[i]
  {
    if flags != [] {
      var init := flags[..|flags| - 1];
      FilledCountBounds(init);
      assert forall i :: 0 <= i < |init| ==> init[i] == flags[i];
      if FilledCount(flags) == |flags| {
        forall i | 0 <= i < |flags| ensures flags[i] {
          if i < |init| { assert init[i] == flags[i]; }
        }
      }
      if FilledCount(flags) == 0 {
        forall i | 0 <= i < |flags| ensures !flags[i] {
          if i < |init| { assert init[i] == flags[i]; }
        }
      }
    }
  }

  /** Setting an unset flag adds one to the count. */
  lemma {:induction false} FilledCountMark(flags: seq<bool>, i: int)
    requires 0 <= i < |flags| && !flags[i]
    ensures FilledCount(flags[i := true]) == FilledCount(flags) + 1
  {
    var last := |flags| - 1;
    if i == last {
      assert flags[i := true][..last] == flags[..last];
    } else {
      FilledCountMark(flags[..last], i);
      assert flags[i := true][..last] == flags[..last][i := true];
    }
  }

  /** Every finished turn filled one hand-scored row of the side that played
      it, and the two sides alternate: the side to move has filled no more
      rows than the other side, and at most one fewer. */
  predicate TurnsBalanced(playerChosen: seq<bool>, opponentChosen: seq<bool>, turnsLeft: int, playerTurn: bool)
    requires |playerChosen| >= 13 && |opponentChosen| >= 13
  {
    var p := FilledCount(playerChosen[..13]);
    var o := FilledCount(opponentChosen[..13]);
    p + o + turnsLeft == 26 &&
    if playerTurn then o - 1 <= p <= o else p - 1 <= o <= p
  }

  /** Filling an open row of the side to move and passing the turn keeps
      the turn accounting. */
  lemma CommitKeepsBalance(pc: seq<bool>, oc: seq<bool>, turnsLeft: int, playerTurn: bool, i: int)
    requires |pc| >= 13 && |oc| >= 13 && 0 <= i < 13
    requires if playerTurn then !pc[i] else !oc[i]
    ensures TurnsBalanced(pc, oc, turnsLeft, playerTurn) ==>
      if playerTurn then TurnsBalanced(pc[i := true], oc, turnsLeft - 1, false)
      else TurnsBalanced(pc, oc[i := true], turnsLeft - 1, true)
  {
    if playerTurn {
      assert pc[i := true][..13] == pc[..13][i := true];
      FilledCountMark(pc[..13], i);
    } else {
      assert oc[i := true][..13] == oc[..13][i := true];
      FilledCountMark(oc[..13], i);
    }
  }

  /** While turns are left, the side to move still has an open row. */
  lemma MoverHasOpenRow(pc: seq<bool>, oc: seq<bool>, turnsLeft: int, playerTurn: bool)
    requires |pc| >= 13 && |oc| >= 13
    ensures TurnsBalanced(pc, oc, turnsLeft, playerTurn) && turnsLeft > 0 && playerTurn ==>
      exists i :: 0 <= i < 13 && !pc[i]
    ensures TurnsBalanced(pc, oc, turnsLeft, playerTurn) && turnsLeft > 0 && !playerTurn ==>
      exists i :: 0 <= i < 13 && !oc[i]
  {
    FilledCountBounds(pc[..13]);
    FilledCountBounds(oc[..13]);
    if TurnsBalanced(pc, oc, turnsLeft, playerTurn) && turnsLeft > 0 {
      if playerTurn {
        var i :| 0 <= i < 13 && !pc[..13][i];
        assert !pc[i];
      } else {
        var i :| 0 <= i < 13 && !oc[..13][i];
        assert !oc[i];
      }
    }
  }

  /** When no turn is left, both sides have filled all thirteen rows: each
      side played exactly thirteen turns. */
  lemma SheetsCompleteAtEnd(pc: seq<bool>, oc: seq<bool>, playerTurn: bool)
    requires |pc| >= 13 && |oc| >= 13
    ensures TurnsBalanced(pc, oc, 0, playerTurn) ==> forall i :: 0 <= i < 13 ==> pc[i] && oc[i]
  {
    FilledCountBounds(pc[..13]);
    FilledCountBounds(oc[..13]);
    if TurnsBalanced(pc, oc, 0, playerTurn) {
      forall i | 0 <= i < 13 ensures pc[i] && oc[i] {
        assert pc[..13][i] && oc[..13][i];
      }
    }
  }

  // ---------------------------------------------------------------------------
  // End of the match
  // ---------------------------------------------------------------------------

  /** 35 when the six upper rows add up to at least 63. */
  function UpperBonus(sheet: seq<int>): int
    requires |sheet| >= 6
  {
    if Sum(sheet[..6]) >= 63 then 35 else 0
  }

  /** The sheet with Bonus written, then Total as the sum of every row
      before it. */
  function FinalSheet(sheet: seq<int>): seq<int>
    requires |sheet| == 15
  {
    var withBonus := sheet[13 := UpperBonus(sheet)];
    withBonus[14 := Sum(withBonus[..14])]
  }

  /** The final sheet keeps the thirteen scored rows, holds a bonus of 35
      exactly when the upper rows reach 63 (0 otherwise), and a total equal
      to the bonus plus the thirteen scored rows. */
  lemma FinalSheetRows(sheet: seq<int>)
    requires |sheet| == 15
    ensures |FinalSheet(sheet)| == 15
    ensures FinalSheet(sheet)[..13] == sheet[..13]
    ensures FinalSheet(sheet)[13] == 35 <==> Sum(sheet[..6]) >= 63
    ensures FinalSheet(sheet)[13] == 0 <==> Sum(sheet[..6]) < 63
    ensures FinalSheet(sheet)[14] == Sum(sheet[..13]) + FinalSheet(sheet)[13]
  {
    var withBonus := sheet[13 := UpperBonus(sheet)];
    assert withBonus[..14][..13] == sheet[..13];
  }

  /** Writes Bonus and then Total on one sheet, marks both rows filled, and
      returns the bonus. */
  method CloseSheet(sheet: array<int>, chosen: array<bool>) returns (bonus: int)
    requires sheet.Length == 15 && chosen.Length == 15
    modifies sheet, chosen
    ensures sheet[..] == FinalSheet(old(sheet[..]))
    ensures chosen[..] == old(chosen[..])[13 := true][14 := true]
    ensures bonus == sheet[13]
  {
    var upperSum := Sum(sheet[..6]);
    bonus := if upperSum >= 63 then 35 else 0;
    sheet[13] := bonus;
    sheet[14] := Sum(sheet[..14]);
    chosen[13] := true;
    chosen[14] := true;
  }

  /** The outcome tag saved with a finished match, from the player's side. */
  function Outcome(playerTotal: int, opponentTotal: int): (tag: string)
    ensures tag == "WIN" <==> playerTotal > opponentTotal
    ensures tag == "LOSE" <==> playerTotal < opponentTotal
    ensures tag == "DRAW" <==> playerTotal == opponentTotal
  {
    if playerTotal > opponentTotal then "WIN"
    else if playerTotal < opponentTotal then "LOSE"
    else "DRAW"
  }

  /** The headline shown after the match agrees with the saved outcome. */
  lemma ResultTextMatchesOutcome(mine: int, opponent: int)
    ensures ResultText(mine, opponent) == "You won!" <==> Outcome(mine, opponent) == "WIN"
    ensures ResultText(mine, opponent) == "It's a draw!" <==> Outcome(mine, opponent) == "DRAW"
    ensures ResultText(mine, opponent) == "You lost!" <==> Outcome(mine, opponent) == "LOSE"
  {
  }

  // ---------------------------------------------------------------------------
  // The match
  // ---------------------------------------------------------------------------

  /** The state of one match: the hand and its selection, both score sheets
      with their filled flags, and the turn counters. */
  class Match {
    const diceValues: array<int>
    const diceSelected: array<bool>
    const playerScores: array<int>
    const opponentScores: array<int>
    const playerChosenCategories: array<bool>
    const opponentChosenCategories: array<bool>
    var isPlayerTurn: bool
    var rollsLeft: int
    var turnsLeft: int
    var turnFinished: bool
    var gameFinished: bool
    var finalPlayerScore: int
    var finalOpponentScore: int

    /** Shapes of the lists, distinct lists, a valid hand, and 0..3 rolls left. */
    ghost predicate Valid()
      reads this, diceValues
    {
      diceValues.Length == 5 && diceSelected.Length == 5 &&
      playerScores.Length == 15 && opponentScores.Length == 15 &&
      playerChosenCategories.Length == 15 && opponentChosenCategories.Length == 15 &&
      diceValues != playerScores && diceValues != opponentScores && playerScores != opponentScores &&
      diceSelected != playerChosenCategories && diceSelected != opponentChosenCategories &&
      playerChosenCategories != opponentChosenCategories &&
      ValidHand(diceValues[..]) && 0 <= rollsLeft <= 3
    }

    /** The turn accounting holds of the current sheets and counters. */
    ghost predicate Balanced()
      reads this, playerChosenCategories, opponentChosenCategories
    {
      playerChosenCategories.Length == 15 && opponentChosenCategories.Length == 15 &&
      TurnsBalanced(playerChosenCategories[..], opponentChosenCategories[..], turnsLeft, isPlayerTurn)
    }

    /** A new match: a first random hand, every die selected, empty sheets,
        a random starting side, three rolls and twenty-six turns to go. */
    constructor (initialDice: seq<int>, playerStarts: bool)
      requires ValidHand(initialDice)
      ensures Valid() && Balanced()
      ensures fresh(diceValues) && fresh(diceSelected) && fresh(playerScores) && fresh(opponentScores)
      ensures fresh(playerChosenCategories) && fresh(opponentChosenCategories)
      ensures diceValues[..] == initialDice
      ensures forall i :: 0 <= i < 5 ==> diceSelected[i]
      ensures forall i :: 0 <= i < 15 ==>
        playerScores[i] == 0 && opponentScores[i] == 0 &&
        !playerChosenCategories[i] && !opponentChosenCategories[i]
      ensures isPlayerTurn == playerStarts && rollsLeft == 3 && turnsLeft == 26
      ensures !turnFinished && !gameFinished && finalPlayerScore == 0 && finalOpponentScore == 0
    {
      diceValues := new int[5](i requires 0 <= i < 5 => initialDice[i]);
      diceSelected := new bool[5](_ => true);
      playerScores := new int[15](_ => 0);
      opponentScores := new int[15](_ => 0);
      playerChosenCategories := new bool[15](_ => false);
      opponentChosenCategories := new bool[15](_ => false);
      isPlayerTurn := playerStarts;
      rollsLeft := 3;
      turnsLeft := 26;
      turnFinished := false;
      gameFinished := false;
      finalPlayerScore := 0;
      finalOpponentScore := 0;
      new;
      assert diceValues[..] == initialDice;
      FilledCountBounds(playerChosenCategories[..13]);
      FilledCountBounds(opponentChosenCategories[..13]);
    }

    /** Marks every die selected (`value` true) or none (`value` false). */
    method FillSelection(value: bool)
      requires diceSelected.Length == 5
      modifies diceSelected
      ensures forall i :: 0 <= i < 5 ==> diceSelected[i] == value
    {
      forall i | 0 <= i < 5 {
        diceSelected[i] := value;
      }
    }

    /** Rolls again exactly the selected dice, with `newValues` as the faces
        that come up. */
    method RollSelectedDices(newValues: seq<int>)
      requires Valid() && ValidHand(newValues)
      modifies diceValues
      ensures Valid()
      ensures diceValues[..] == Reroll(old(diceValues[..]), diceSelected[..], newValues)
    {
      for i := 0 to 5
        invariant forall j :: 0 <= j < i ==>
          diceValues[j] == if diceSelected[j] then newValues[j] else old(diceValues[j])
        invariant forall j :: i <= j < 5 ==> diceValues[j] == old(diceValues[j])
      {
        if diceSelected[i] {
          diceValues[i] := newValues[i];
        }
      }
    }

    /** Passes the turn: three rolls again, one turn fewer, the other side to
        move, every die selected. */
    method EndTurn()
      requires Valid()
      modifies this`rollsLeft, this`turnFinished, this`turnsLeft, this`isPlayerTurn, diceSelected
      ensures Valid()
      ensures rollsLeft == 3 && !turnFinished
      ensures turnsLeft == old(turnsLeft) - 1 && isPlayerTurn == !old(isPlayerTurn)
      ensures forall i :: 0 <= i < 5 ==> diceSelected[i]
    {
      rollsLeft := 3;
      turnFinished := false;
      turnsLeft := turnsLeft - 1;
      isPlayerTurn := !isPlayerTurn;
      FillSelection(true);
    }

    /** The effect run whenever the side to move changes, on the branch that
        does not start the computer's turn: with all three rolls left, every
        die is selected again; otherwise nothing changes. */
    method ReselectOnTurnChange()
      requires Valid()
      modifies diceSelected
      ensures Valid()
      ensures (isPlayerTurn || gameFinished) && rollsLeft == 3 ==>
        forall i :: 0 <= i < 5 ==> diceSelected[i]
      ensures !((isPlayerTurn || gameFinished) && rollsLeft == 3) ==>
        diceSelected[..] == old(diceSelected[..])
    {
      if !(!isPlayerTurn && !gameFinished) && rollsLeft == 3 {
        FillSelection(true);
      }
    }

    /** The player's roll (triggered by shaking the phone): rolls the selected
        dice, uses up one roll, and clears the selection. The roll button
        checks the turn and the selection only when it is pressed; the shake
        that follows acts on whatever the state then is, so neither is
        required here. Nothing between press and shake lowers `rollsLeft`, so
        a roll is always left. */
    method PlayerRoll(newValues: seq<int>)
      requires Valid() && ValidHand(newValues)
      requires rollsLeft > 0
      modifies this`rollsLeft, diceValues, diceSelected
      ensures Valid()
      ensures diceValues[..] == Reroll(old(diceValues[..]), old(diceSelected[..]), newValues)
      ensures rollsLeft == old(rollsLeft) - 1 && 0 <= rollsLeft <= 2
      ensures forall i :: 0 <= i < 5 ==> !diceSelected[i]
    {
      RollSelectedDices(newValues);
      rollsLeft := rollsLeft - 1;
      if rollsLeft <= 2 {
        FillSelection(false);
      }
    }

    /** A tap on die `index`: flips its selection while one or two rolls are
        left, and does nothing otherwise. */
    method ToggleDie(index: int)
      requires Valid() && 0 <= index < 5
      modifies diceSelected
      ensures Valid()
      ensures 1 <= rollsLeft <= 2 ==>
        diceSelected[..] == old(diceSelected[..])[index := !old(diceSelected[index])]
      ensures !(1 <= rollsLeft <= 2) ==> diceSelected[..] == old(diceSelected[..])
    {
      if 1 <= rollsLeft <= 2 {
        diceSelected[index] := !diceSelected[index];
      }
    }

    /** The player commits row `index`: its score for the current hand is
        written to the player's sheet, the row is marked filled, and the turn
        passes. Only open rows 0..12 are offered, on the player's turn after
        the first roll. */
    method ChooseCategory(index: int)
      requires Valid()
      requires isPlayerTurn && rollsLeft < 3
      requires 0 <= index <= 12 && !playerChosenCategories[index]
      modifies this`rollsLeft, this`turnFinished, this`turnsLeft, this`isPlayerTurn, diceSelected
      modifies playerScores, playerChosenCategories
      ensures Valid()
      ensures playerScores[..] == old(playerScores[..])[index := Scores(diceValues[..])[index]]
      ensures playerChosenCategories[..] == old(playerChosenCategories[..])[index := true]
      ensures opponentScores[..] == old(opponentScores[..])
      ensures opponentChosenCategories[..] == old(opponentChosenCategories[..])
      ensures rollsLeft == 3 && !turnFinished && turnsLeft == old(turnsLeft) - 1 && !isPlayerTurn
      ensures forall i :: 0 <= i < 5 ==> diceSelected[i]
      ensures old(Balanced()) ==> Balanced()
    {
      CommitKeepsBalance(playerChosenCategories[..], opponentChosenCategories[..], turnsLeft, true, index);
      var calculatedScores := CalculateYahtzeeScores(diceValues[..]);
      playerScores[index] := calculatedScores[index];
      playerChosenCategories[index] := true;
      EndTurn();
    }

    /** The computer fills its open row `row` with `score` and passes the turn. */
    method OpponentCommit(row: nat, score: int)
      requires Valid() && !isPlayerTurn && row < 13 && !opponentChosenCategories[row]
      modifies this`rollsLeft, this`turnFinished, this`turnsLeft, this`isPlayerTurn
      modifies diceSelected, opponentScores, opponentChosenCategories
      ensures Valid()
      ensures opponentScores[..] == old(opponentScores[..])[row := score]
      ensures opponentChosenCategories[..] == old(opponentChosenCategories[..])[row := true]
      ensures rollsLeft == 3 && !turnFinished && turnsLeft == old(turnsLeft) - 1 && isPlayerTurn
      ensures forall i :: 0 <= i < 5 ==> diceSelected[i]
      ensures old(Balanced()) ==> Balanced()
    {
      CommitKeepsBalance(playerChosenCategories[..], opponentChosenCategories[..], turnsLeft, false, row);
      opponentScores[row] := score;
      opponentChosenCategories[row] := true;
      EndTurn();
    }

    /** The computer's pick for the current hand before its last roll. */
    method BestForHand() returns (best: Option<nat>)
      requires Valid()
      ensures best == SelectBestCategory(Scores(diceValues[..]), opponentChosenCategories[..])
    {
      var calculated := CalculateYahtzeeScores(diceValues[..]);
      best := SelectBestCategory(calculated, opponentChosenCategories[..]);
    }

    /** Selects exactly the dice flagged in `flags`. */
    method SetSelection(flags: seq<bool>)
      requires diceSelected.Length == 5 && |flags| == 5
      modifies diceSelected
      ensures diceSelected[..] == flags
    {
      forall i | 0 <= i < 5 {
        diceSelected[i] := flags[i];
      }
    }

    /** The rolling part of the computer's turn. It rolls all dice; then, up
        to twice, stops at the best acceptable row if there is one, and
        otherwise picks dice at random (`reselections`) and rolls them again
        (`rolls` are the faces that come up). After the third roll it picks
        the best open row whatever its score. */
    method OpponentRolls(rolls: seq<seq<int>>, reselections: seq<seq<bool>>)
      returns (rollsMade: nat, category: Option<nat>)
      requires Valid()
      requires |rolls| == 3 && forall k :: 0 <= k < 3 ==> ValidHand(rolls[k])
      requires |reselections| == 2 && forall k :: 0 <= k < 2 ==> |reselections[k]| == 5
      modifies diceValues, diceSelected
      ensures Valid()
      ensures 1 <= rollsMade <= 3
      ensures diceValues[..] == OpponentHands(rolls, reselections)[rollsMade - 1]
      ensures forall k :: 0 <= k < rollsMade - 1 ==>
        SelectBestCategory(Scores(OpponentHands(rolls, reselections)[k]), opponentChosenCategories[..]).None?
      ensures rollsMade < 3 ==>
        category.Some? && category == SelectBestCategory(Scores(diceValues[..]), opponentChosenCategories[..])
      ensures rollsMade == 3 ==>
        category == FallbackCategory(Scores(diceValues[..]), opponentChosenCategories[..])
    {
      ghost var hands := OpponentHands(rolls, reselections);
      ghost var chosen := opponentChosenCategories[..];
      FillSelection(true);
      RollSelectedDices(rolls[0]);
      assert diceValues[..] == hands[0];
      rollsMade := 1;

      for round := 0 to 2
        invariant Valid()
        invariant rollsMade == round + 1
        invariant diceValues[..] == hands[round]
        invariant opponentChosenCategories[..] == chosen
        invariant forall k :: 0 <= k < round ==> SelectBestCategory(Scores(hands[k]), chosen).None?
      {
        var bestCategory := BestForHand();
        if bestCategory.Some? {
          return rollsMade, bestCategory;
        }
        SetSelection(reselections[round]);
        assert hands[round + 1] == Reroll(hands[round], reselections[round], rolls[round + 1]);
        RollSelectedDices(rolls[round + 1]);
        rollsMade := rollsMade + 1;
      }

      var calculated := CalculateYahtzeeScores(diceValues[..]);
      category := FallbackCategory(calculated, opponentChosenCategories[..]);
    }

    /** The computer's turn: its rolls, then the picked row (if any row is
        still open) filled with its score for the final hand, and the turn
        passes. */
    method OpponentTurn(rolls: seq<seq<int>>, reselections: seq<seq<bool>>)
      returns (rollsMade: nat, category: Option<nat>)
      requires Valid()
      requires !isPlayerTurn && !gameFinished
      requires |rolls| == 3 && forall k :: 0 <= k < 3 ==> ValidHand(rolls[k])
      requires |reselections| == 2 && forall k :: 0 <= k < 2 ==> |reselections[k]| == 5
      modifies this`rollsLeft, this`turnFinished, this`turnsLeft, this`isPlayerTurn
      modifies diceValues, diceSelected, opponentScores, opponentChosenCategories
      ensures Valid()
      ensures 1 <= rollsMade <= 3
      ensures diceValues[..] == OpponentHands(rolls, reselections)[rollsMade - 1]
      ensures forall k :: 0 <= k < rollsMade - 1 ==>
        SelectBestCategory(Scores(OpponentHands(rolls, reselections)[k]), old(opponentChosenCategories[..])).None?
      ensures rollsMade < 3 ==>
        category.Some? && category == SelectBestCategory(Scores(diceValues[..]), old(opponentChosenCategories[..]))
      ensures rollsMade == 3 ==>
        category == FallbackCategory(Scores(diceValues[..]), old(opponentChosenCategories[..]))
      ensures category.None? <==> forall i :: 0 <= i < 13 ==> old(opponentChosenCategories[i])
      ensures category.Some? ==>
        category.value < 13 && !old(opponentChosenCategories[category.value]) &&
        opponentScores[..] == old(opponentScores[..])[category.value := Scores(diceValues[..])[category.value]] &&
        opponentChosenCategories[..] == old(opponentChosenCategories[..])[category.value := true]
      ensures category.None? ==>
        opponentScores[..] == old(opponentScores[..]) &&
        opponentChosenCategories[..] == old(opponentChosenCategories[..])
      ensures playerScores[..] == old(playerScores[..])
      ensures playerChosenCategories[..] == old(playerChosenCategories[..])
      ensures rollsLeft == 3 && !turnFinished && turnsLeft == old(turnsLeft) - 1 && isPlayerTurn
      ensures forall i :: 0 <= i < 5 ==> diceSelected[i]
      ensures old(Balanced()) && old(turnsLeft) > 0 ==> Balanced()
    {
      MoverHasOpenRow(playerChosenCategories[..], opponentChosenCategories[..], turnsLeft, false);
      rollsMade, category := OpponentRolls(rolls, reselections);
      if category.Some? {
        var calculated := CalculateYahtzeeScores(diceValues[..]);
        OpponentCommit(category.value, calculated[category.value]);
      } else {
        EndTurn();
      }
    }

    /** The end of the match: writes Bonus and Total on both sheets, marks
        them filled, decides the outcome, ends the match and returns the one
        save request (to the cloud store when a user is signed in, else to
        the local one). */
    method FinishGame(isUserLoggedIn: bool) returns (saved: SaveRequest)
      requires Valid() && turnsLeft <= 0 && !gameFinished
      modifies this`isPlayerTurn, this`turnFinished, this`gameFinished
      modifies this`finalPlayerScore, this`finalOpponentScore
      modifies diceSelected, playerScores, opponentScores, playerChosenCategories, opponentChosenCategories
      ensures Valid()
      ensures gameFinished && turnFinished && !isPlayerTurn
      ensures forall i :: 0 <= i < 5 ==> diceSelected[i]
      ensures playerScores[..] == FinalSheet(old(playerScores[..]))
      ensures opponentScores[..] == FinalSheet(old(opponentScores[..]))
      ensures playerChosenCategories[..] == old(playerChosenCategories[..])[13 := true][14 := true]
      ensures opponentChosenCategories[..] == old(opponentChosenCategories[..])[13 := true][14 := true]
      ensures finalPlayerScore == playerScores[14] && finalOpponentScore == opponentScores[14]
      ensures saved == SaveRequest(
        if isUserLoggedIn then CloudStore else LocalStore,
        playerScores[14], opponentScores[14],
        Outcome(playerScores[14], opponentScores[14]),
        playerScores[13] > 0, playerScores[12] == 50)
      ensures old(turnsLeft) == 0 && old(Balanced()) ==>
        forall i :: 0 <= i < 15 ==> playerChosenCategories[i] && opponentChosenCategories[i]
    {
      SheetsCompleteAtEnd(playerChosenCategories[..], opponentChosenCategories[..], isPlayerTurn);
      var playerBonus := CloseSheet(playerScores, playerChosenCategories);
      var opponentBonus := CloseSheet(opponentScores, opponentChosenCategories);

      var result := Outcome(playerScores[14], opponentScores[14]);
      var gotYahtzee := playerScores[12] == 50;
      var gotBonus := playerBonus > 0;

      var target := if isUserLoggedIn then CloudStore else LocalStore;
      saved := SaveRequest(target, playerScores[14], opponentScores[14], result, gotBonus, gotYahtzee);

      FillSelection(true);
      isPlayerTurn := false;
      turnFinished := true;
      gameFinished := true;

      finalPlayerScore := playerScores[14];
      finalOpponentScore := opponentScores[14];
    }

    /** Runs whenever the turn counter changes: the first time no turn is
        left it ends the match and returns its save request; every other
        time it changes nothing. */
    method FinishGameIfOver(isUserLoggedIn: bool) returns (saved: Option<SaveRequest>)
      requires Valid()
      modifies this`isPlayerTurn, this`turnFinished, this`gameFinished
      modifies this`finalPlayerScore, this`finalOpponentScore
      modifies diceSelected, playerScores, opponentScores, playerChosenCategories, opponentChosenCategories
      ensures Valid()
      ensures saved.Some? <==> old(turnsLeft) <= 0 && !old(gameFinished)
      ensures saved.None? ==>
        unchanged(this, diceSelected, playerScores, opponentScores) &&
        unchanged(playerChosenCategories, opponentChosenCategories)
      ensures saved.Some? ==>
        gameFinished && turnFinished && !isPlayerTurn &&
        playerScores[..] == FinalSheet(old(playerScores[..])) &&
        opponentScores[..] == FinalSheet(old(opponentScores[..])) &&
        saved.value == SaveRequest(
          if isUserLoggedIn then CloudStore else LocalStore,
          playerScores[14], opponentScores[14],
          Outcome(playerScores[14], opponentScores[14]),
          playerScores[13] > 0, playerScores[12] == 50)
      ensures saved.Some? ==>
        playerChosenCategories[..] == old(playerChosenCategories[..])[13 := true][14 := true] &&
        opponentChosenCategories[..] == old(opponentChosenCategories[..])[13 := true][14 := true] &&
        (forall i :: 0 <= i < 5 ==> diceSelected[i]) &&
        finalPlayerScore == playerScores[14] && finalOpponentScore == opponentScores[14]
    {
      saved := None;
      if turnsLeft <= 0 && !gameFinished {
        var request := FinishGame(isUserLoggedIn);
        saved := Some(request);
      }
    }
  }
}
