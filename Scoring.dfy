/** Scoring of one hand of five dice, the score sheet's category order, and
    the two texts chosen from points and from the roll counter. */
module Scoring {

  /** A hand: five dice, each showing a face in 1..6. */
  predicate ValidHand(dice: seq<int>) {
    |dice| == 5 && forall i :: 0 <= i < |dice| ==> 1 <= dice[i] <= 6
  }

  /** Number of dice showing `face`. */
  function Count(dice: seq<int>, face: int): (n: nat)
    ensures n <= |dice|
  {
    if dice == [] then 0
    else Count(dice[..|dice| - 1], face) + (if dice[|dice| - 1] == face then 1 else 0)
  }

  /** Sum of a sequence of integers: the dice of a hand, or a run of score slots. */
  function Sum(xs: seq<int>): int {
    if xs == [] then 0 else Sum(xs[..|xs| - 1]) + xs[|xs| - 1]
  }

  // ---------------------------------------------------------------------------
  // Categories
  // ---------------------------------------------------------------------------

  /** The rows of a score sheet. The first thirteen are scored from a hand;
      Bonus and Total are filled only when the match ends. */
  datatype Category =
    | Ones | Twos | Threes | Fours | Fives | Sixes
    | ThreeOfAKind | FourOfAKind | FullHouse | SmallStraight | LargeStraight
    | Chance | Yahtzee | Bonus | Total

  /** Row order of the sheet; a category is referred to by its index here. */
  const CategoryOrder: seq<Category> :=
    [Ones, Twos, Threes, Fours, Fives, Sixes, ThreeOfAKind, FourOfAKind,
     FullHouse, SmallStraight, LargeStraight, Chance, Yahtzee, Bonus, Total]

  /** The row labels of the sheet, in row order. */
  const Categories: seq<string> :=
    ["Ones", "Twos", "Threes", "Fours", "Fives",
     "Sixes", "Three of a Kind", "Four of a Kind",
     "Full House", "Small Straight", "Large Straight",
     "Chance", "Yahtzee", "Bonus", "Total"]

  /** The label of a row. The model scores rows by `Category`, while the
      sheet is drawn from the label list `Categories`; `CategoryLabels`
      shows that the two agree row by row. */
  function Name(c: Category): string {
    match c
    case Ones => "Ones"
    case Twos => "Twos"
    case Threes => "Threes"
    case Fours => "Fours"
    case Fives => "Fives"
    case Sixes => "Sixes"
    case ThreeOfAKind => "Three of a Kind"
    case FourOfAKind => "Four of a Kind"
    case FullHouse => "Full House"
    case SmallStraight => "Small Straight"
    case LargeStraight => "Large Straight"
    case Chance => "Chance"
    case Yahtzee => "Yahtzee"
    case Bonus => "Bonus"
    case Total => "Total"
  }

  /** The labels are the names of the categories in row order, Bonus and Total last. */
  lemma CategoryLabels()
    ensures |CategoryOrder| == |Categories| == 15
    ensures forall i :: 0 <= i < 15 ==> Name(CategoryOrder[i]) == Categories[i]
    ensures CategoryOrder[13] == Bonus && CategoryOrder[14] == Total
  {
  }

  // ---------------------------------------------------------------------------
  // The scoring rules, stated over face counts
  // ---------------------------------------------------------------------------

  predicate Present(dice: seq<int>, face: int) {
    Count(dice, face) > 0
  }

  /** Some face shows on at least `n` dice. */
  predicate SomeFaceAtLeast(dice: seq<int>, n: nat) {
    exists face :: 1 <= face <= 6 && Count(dice, face) >= n
  }

  /** Some face shows on exactly `n` dice. */
  predicate SomeFaceExactly(dice: seq<int>, n: nat) {
    exists face :: 1 <= face <= 6 && Count(dice, face) == n
  }

  /** Every face lo, lo+1, ..., lo+len-1 shows on at least one die. */
  predicate RunFrom(dice: seq<int>, lo: int, len: nat) {
    forall face :: lo <= face < lo + len ==> Present(dice, face)
  }

  /** The faces present contain `len` consecutive values within 1..6. */
  predicate HasRun(dice: seq<int>, len: nat) {
    exists lo :: 1 <= lo && lo + len <= 7 && RunFrom(dice, lo, len)
  }

  /** What a hand scores in one of the thirteen hand-scored categories. */
  function CategoryScore(dice: seq<int>, c: Category): int
    requires c != Bonus && c != Total
  {
    match c
    case Ones => 1 * Count(dice, 1)
    case Twos => 2 * Count(dice, 2)
    case Threes => 3 * Count(dice, 3)
    case Fours => 4 * Count(dice, 4)
    case Fives => 5 * Count(dice, 5)
    case Sixes => 6 * Count(dice, 6)
    case ThreeOfAKind => if SomeFaceAtLeast(dice, 3) then Sum(dice) else 0
    case FourOfAKind => if SomeFaceAtLeast(dice, 4) then Sum(dice) else 0
    case FullHouse => if SomeFaceExactly(dice, 3) && SomeFaceExactly(dice, 2) then 25 else 0
    case SmallStraight => if HasRun(dice, 4) then 30 else 0
    case LargeStraight => if HasRun(dice, 5) then 40 else 0
    case Chance => Sum(dice)
    case Yahtzee => if SomeFaceExactly(dice, 5) then 50 else 0
  }

  /** The thirteen scores of a hand, indexed like the sheet rows. */
  function Scores(dice: seq<int>): seq<int> {
    [CategoryScore(dice, Ones), CategoryScore(dice, Twos), CategoryScore(dice, Threes),
     CategoryScore(dice, Fours), CategoryScore(dice, Fives), CategoryScore(dice, Sixes),
     CategoryScore(dice, ThreeOfAKind), CategoryScore(dice, FourOfAKind),
     CategoryScore(dice, FullHouse), CategoryScore(dice, SmallStraight),
     CategoryScore(dice, LargeStraight), CategoryScore(dice, Chance),
     CategoryScore(dice, Yahtzee)]
  }

  /** Entry i of the scores is the score of the category in row i, for the
      first thirteen rows. */
  lemma ScoresFollowCategoryOrder(dice: seq<int>)
    ensures |Scores(dice)| == 13
    ensures forall i :: 0 <= i < 13 ==>
      CategoryOrder[i] != Bonus && CategoryOrder[i] != Total &&
      Scores(dice)[i] == CategoryScore(dice, CategoryOrder[i])
  {
  }

  // ---------------------------------------------------------------------------
  // The computation as the application performs it
  // ---------------------------------------------------------------------------

  /** `c` holds, at index j, the number of dice showing face j+1. */
  predicate IsCounts(dice: seq<int>, c: seq<int>) {
    |c| == 6 && forall j :: 0 <= j < 6 ==> c[j] == Count(dice, j + 1)
  }

  /** One mark per face: '1' when the face occurs, '0' when it does not. */
  function Bitmap(counts: seq<int>): (b: string)
    ensures |b| == |counts|
    ensures forall j :: 0 <= j < |counts| ==> (b[j] == '1' <==> counts[j] > 0)
    ensures forall j :: 0 <= j < |counts| ==> (b[j] == '0' <==> counts[j] <= 0)
  {
    seq(|counts|, j requires 0 <= j < |counts| => if counts[j] > 0 then '1' else '0')
  }

  /** Substring search: `pattern` occurs somewhere in `text`. */
  function Contains(text: string, pattern: string): bool
    decreases |text|
  {
    |pattern| <= |text| &&
    (text[..|pattern|] == pattern || (0 < |text| && Contains(text[1..], pattern)))
  }

  /** Scores a hand: counts the faces, sums the dice, then appends the thirteen
      category scores in row order. Straights are found by searching the
      presence bitmap for runs of '1'. */
  method CalculateYahtzeeScores(dice: seq<int>) returns (scores: seq<int>)
    requires ValidHand(dice)
    ensures scores == Scores(dice)
  {
    var counts := CountFaces(dice);
    var total := Sum(dice);
    scores := [];
    for i := 0 to 6
      invariant |scores| == i
      invariant forall j :: 0 <= j < i ==> scores[j] == counts[j] * (j + 1)
    {
      scores := scores + [counts[i] * (i + 1)];
    }
    var c := counts[..];
    var threeOfAKind := exists j :: 0 <= j < 6 && c[j] >= 3;
    var fourOfAKind := exists j :: 0 <= j < 6 && c[j] >= 4;
    var fullHouse := 3 in c && 2 in c;
    var straights := Bitmap(c);
    var hasSmallStraight :=
      Contains(straights, "1111") || Contains(straights, "01111") || Contains(straights, "11110");
    var hasLargeStraight := Contains(straights, "11111");
    var yahtzee := exists j :: 0 <= j < 6 && c[j] == 5;
    var lower := [if threeOfAKind then total else 0, if fourOfAKind then total else 0,
                  if fullHouse then 25 else 0, if hasSmallStraight then 30 else 0,
                  if hasLargeStraight then 40 else 0, total, if yahtzee then 50 else 0];
    UpperRows(dice, c, scores);
    LowerRows(dice, c, lower);
    ScoresSplit(dice);
    scores := scores + lower;
  }

  /** The scores are the six upper rows followed by the seven lower rows. */
  lemma ScoresSplit(dice: seq<int>)
    ensures Scores(dice) == Scores(dice)[..6] + Scores(dice)[6..]
  {
  }

  /** The first six rows computed from the count table are the rules'
      scores for Ones .. Sixes. */
  lemma UpperRows(dice: seq<int>, c: seq<int>, upper: seq<int>)
    requires IsCounts(dice, c)
    requires |upper| == 6 && forall j :: 0 <= j < 6 ==> upper[j] == c[j] * (j + 1)
    ensures upper == Scores(dice)[..6]
  {
    assert upper[0] == c[0] && upper[1] == 2 * c[1] && upper[2] == 3 * c[2];
    assert upper[3] == 4 * c[3] && upper[4] == 5 * c[4] && upper[5] == 6 * c[5];
  }

  /** The last seven rows computed from the count table are the rules'
      scores for those rows. */
  lemma LowerRows(dice: seq<int>, c: seq<int>, lower: seq<int>)
    requires IsCounts(dice, c)
    requires lower ==
      [if exists j :: 0 <= j < 6 && c[j] >= 3 then Sum(dice) else 0,
       if exists j :: 0 <= j < 6 && c[j] >= 4 then Sum(dice) else 0,
       if 3 in c && 2 in c then 25 else 0,
       if Contains(Bitmap(c), "1111") || Contains(Bitmap(c), "01111") || Contains(Bitmap(c), "11110")
       then 30 else 0,
       if Contains(Bitmap(c), "11111") then 40 else 0,
       Sum(dice),
       if exists j :: 0 <= j < 6 && c[j] == 5 then 50 else 0]
    ensures lower == Scores(dice)[6..]
  {
    CountTests(dice, c);
    SmallStraightInBitmap(dice, c);
    LargeStraightInBitmap(dice, c);
  }

  /** The count table: entry j is the number of dice showing face j+1. */
  method CountFaces(dice: seq<int>) returns (counts: array<int>)
    requires ValidHand(dice)
    ensures fresh(counts)
    ensures IsCounts(dice, counts[..])
  {
    counts := new int[6](_ => 0);
    for k := 0 to |dice|
      invariant forall j :: 0 <= j < 6 ==> counts[j] == Count(dice[..k], j + 1)
    {
      assert dice[..k + 1][..k] == dice[..k];
      counts[dice[k] - 1] := counts[dice[k] - 1] + 1;
    }
    assert dice[..|dice|] == dice;
  }

  /** The tests the computation makes on the count table agree with the
      rules stated over face counts. */
  lemma CountTests(dice: seq<int>, c: seq<int>)
    requires IsCounts(dice, c)
    ensures (exists j :: 0 <= j < 6 && c[j] >= 3) <==> SomeFaceAtLeast(dice, 3)
    ensures (exists j :: 0 <= j < 6 && c[j] >= 4) <==> SomeFaceAtLeast(dice, 4)
    ensures (exists j :: 0 <= j < 6 && c[j] == 5) <==> SomeFaceExactly(dice, 5)
    ensures (3 in c && 2 in c) <==> (SomeFaceExactly(dice, 3) && SomeFaceExactly(dice, 2))
  {
    forall n: nat ensures (exists j :: 0 <= j < 6 && c[j] >= n) <==> SomeFaceAtLeast(dice, n) {
      if exists j :: 0 <= j < 6 && c[j] >= n {
        var j :| 0 <= j < 6 && c[j] >= n;
        assert Count(dice, j + 1) >= n;
      }
      if SomeFaceAtLeast(dice, n) {
        var face :| 1 <= face <= 6 && Count(dice, face) >= n;
        assert c[face - 1] >= n;
      }
    }
    forall n: nat ensures n in c <==> SomeFaceExactly(dice, n) {
      if n in c {
        var j :| 0 <= j < 6 && c[j] == n;
        assert Count(dice, j + 1) == n;
      }
      if SomeFaceExactly(dice, n) {
        var face :| 1 <= face <= 6 && Count(dice, face) == n;
        assert c[face - 1] == n;
      }
    }
    assert 5 in c <==> SomeFaceExactly(dice, 5);
    assert (exists j :: 0 <= j < 6 && c[j] == 5) <==> 5 in c;
  }

  // ---------------------------------------------------------------------------
  // Substring search over the presence bitmap
  // ---------------------------------------------------------------------------

  /** `pattern` occurs in `text` starting at index i. */
  predicate OccursAt(text: string, pattern: string, i: nat) {
    i + |pattern| <= |text| && text[i..i + |pattern|] == pattern
  }

  /** The search finds a pattern exactly when it occurs at some index. */
  lemma {:induction false} ContainsIffOccurs(text: string, pattern: string)
    ensures Contains(text, pattern) <==> exists i: nat :: OccursAt(text, pattern, i)
    decreases |text|
  {
    if |pattern| > |text| {
    } else if text[..|pattern|] == pattern {
      assert OccursAt(text, pattern, 0);
    } else {
      assert |pattern| > 0;
      ContainsIffOccurs(text[1..], pattern);
      if Contains(text[1..], pattern) {
        var i: nat :| OccursAt(text[1..], pattern, i);
        assert text[1..][i..i + |pattern|] == text[i + 1..i + 1 + |pattern|];
        assert OccursAt(text, pattern, i + 1);
      }
      if exists i: nat :: OccursAt(text, pattern, i) {
        var i: nat :| OccursAt(text, pattern, i);
        assert i != 0;
        assert text[1..][i - 1..i - 1 + |pattern|] == text[i..i + |pattern|];
        assert OccursAt(text[1..], pattern, i - 1);
      }
    }
  }

  /** `n` marks '1' in a row. */
  function Marks(n: nat): string {
    seq(n, _ => '1')
  }

  /** Positions i .. i+n-1 of `text` all hold '1'. */
  predicate MarkedFrom(text: string, i: int, n: nat) {
    0 <= i && i + n <= |text| && forall k :: i <= k < i + n ==> text[k] == '1'
  }

  lemma MarksOccurAt(text: string, i: nat, n: nat)
    ensures OccursAt(text, Marks(n), i) <==> MarkedFrom(text, i, n)
  {
    if OccursAt(text, Marks(n), i) {
      forall k | i <= k < i + n ensures text[k] == '1' {
        assert text[k] == text[i..i + n][k - i];
      }
    }
    if MarkedFrom(text, i, n) {
      assert text[i..i + n] == Marks(n);
    }
  }

  /** A run of faces lo .. lo+n-1 is a run of marks from index lo-1 of the bitmap. */
  lemma RunIsMarked(dice: seq<int>, c: seq<int>, lo: int, n: nat)
    requires IsCounts(dice, c)
    requires 1 <= lo && lo + n <= 7
    ensures RunFrom(dice, lo, n) <==> MarkedFrom(Bitmap(c), lo - 1, n)
  {
    var b := Bitmap(c);
    if RunFrom(dice, lo, n) {
      forall k | lo - 1 <= k < lo - 1 + n ensures b[k] == '1' {
        assert Present(dice, k + 1);
      }
    }
    if MarkedFrom(b, lo - 1, n) {
      forall face | lo <= face < lo + n ensures Present(dice, face) {
        assert b[face - 1] == '1';
      }
    }
  }

  /** A run of `n` marks is found by the search exactly when the faces hold a
      run of length `n`. */
  lemma MarksFoundIffRun(dice: seq<int>, c: seq<int>, n: nat)
    requires IsCounts(dice, c)
    requires 1 <= n
    ensures Contains(Bitmap(c), Marks(n)) <==> HasRun(dice, n)
  {
    var b := Bitmap(c);
    ContainsIffOccurs(b, Marks(n));
    if Contains(b, Marks(n)) {
      var i: nat :| OccursAt(b, Marks(n), i);
      MarksOccurAt(b, i, n);
      RunIsMarked(dice, c, i + 1, n);
      assert RunFrom(dice, i + 1, n);
    }
    if HasRun(dice, n) {
      var lo :| 1 <= lo && lo + n <= 7 && RunFrom(dice, lo, n);
      RunIsMarked(dice, c, lo, n);
      MarksOccurAt(b, lo - 1, n);
      assert OccursAt(b, Marks(n), lo - 1);
    }
  }

  /** The small-straight test: the three patterns searched for amount to a run
      of four present faces (a pattern with a '0' beside the run adds nothing). */
  lemma SmallStraightInBitmap(dice: seq<int>, c: seq<int>)
    requires IsCounts(dice, c)
    ensures (Contains(Bitmap(c), "1111") || Contains(Bitmap(c), "01111") || Contains(Bitmap(c), "11110"))
            <==> HasRun(dice, 4)
  {
    var b := Bitmap(c);
    assert "1111" == Marks(4);
    MarksFoundIffRun(dice, c, 4);
    ContainsIffOccurs(b, "1111");
    ContainsIffOccurs(b, "01111");
    ContainsIffOccurs(b, "11110");
    if Contains(b, "01111") {
      var i: nat :| OccursAt(b, "01111", i);
      assert b[i + 1..i + 5] == b[i..i + 5][1..];
      assert OccursAt(b, "1111", i + 1);
    }
    if Contains(b, "11110") {
      var i: nat :| OccursAt(b, "11110", i);
      assert b[i..i + 4] == b[i..i + 5][..4];
      assert OccursAt(b, "1111", i);
    }
  }

  /** The large-straight test finds a run of five present faces. */
  lemma LargeStraightInBitmap(dice: seq<int>, c: seq<int>)
    requires IsCounts(dice, c)
    ensures Contains(Bitmap(c), "11111") <==> HasRun(dice, 5)
  {
    assert "11111" == Marks(5);
    MarksFoundIffRun(dice, c, 5);
  }

  // ---------------------------------------------------------------------------
  // Facts about counting and summing dice
  // ---------------------------------------------------------------------------

  /** All dice show the same face. */
  predicate AllEqual(dice: seq<int>) {
    forall i, j :: 0 <= i < |dice| && 0 <= j < |dice| ==> dice[i] == dice[j]
  }

  lemma {:induction false} CountIsMultiplicity(xs: seq<int>, face: int)
    ensures Count(xs, face) == multiset(xs)[face]
  {
    if xs != [] {
      var init := xs[..|xs| - 1];
      CountIsMultiplicity(init, face);
      assert xs == init + [xs[|xs| - 1]];
    }
  }

  /** Two different faces never share a die. */
  lemma {:induction false} CountTwoFaces(xs: seq<int>, v: int, w: int)
    requires v != w
    ensures Count(xs, v) + Count(xs, w) <= |xs|
  {
    if xs != [] {
      CountTwoFaces(xs[..|xs| - 1], v, w);
    }
  }

  /** A face counts every die exactly when every die shows it. */
  lemma {:induction false} CountAll(xs: seq<int>, face: int)
    ensures Count(xs, face) == |xs| <==> forall i :: 0 <= i < |xs| ==> xs[i] == face
  {
    if xs != [] {
      var init := xs[..|xs| - 1];
      CountAll(init, face);
      if forall i :: 0 <= i < |xs| ==> xs[i] == face {
        assert forall i :: 0 <= i < |init| ==> init[i] == xs[i];
      }
      if Count(xs, face) == |xs| {
        forall i | 0 <= i < |xs| ensures xs[i] == face {
          if i < |init| { assert init[i] == xs[i]; }
        }
      }
    }
  }

  /** Each die adds between 1 and 6 to the sum. */
  lemma {:induction false} SumBounds(xs: seq<int>)
    requires forall i :: 0 <= i < |xs| ==> 1 <= xs[i] <= 6
    ensures |xs| <= Sum(xs) <= 6 * |xs|
  {
    if xs != [] {
      SumBounds(xs[..|xs| - 1]);
    }
  }

  /** The sum of the dice, grouped by face. */
  lemma {:induction false} SumByFaces(xs: seq<int>)
    requires forall i :: 0 <= i < |xs| ==> 1 <= xs[i] <= 6
    ensures Sum(xs) == Count(xs, 1) + 2 * Count(xs, 2) + 3 * Count(xs, 3)
                     + 4 * Count(xs, 4) + 5 * Count(xs, 5) + 6 * Count(xs, 6)
  {
    if xs != [] {
      SumByFaces(xs[..|xs| - 1]);
    }
  }

  // ---------------------------------------------------------------------------
  // Properties of the scores of a hand
  // ---------------------------------------------------------------------------

  /** Row i < 6 scores face i+1 times the number of dice showing it, at most
      five dice' worth. */
  lemma UpperRowScore(dice: seq<int>, i: int)
    requires ValidHand(dice) && 0 <= i < 6
    ensures Scores(dice)[i] == (i + 1) * Count(dice, i + 1)
    ensures 0 <= Scores(dice)[i] <= 5 * (i + 1)
  {
    var n := Count(dice, i + 1);
    assert n <= 5;
    assert (i + 1) * n <= (i + 1) * 5;
  }

  /** Chance is the dice sum, between 5 and 30, and the six upper rows add up
      to the same sum. */
  lemma ChanceIsUpperTotal(dice: seq<int>)
    requires ValidHand(dice)
    ensures Scores(dice)[11] == Sum(dice)
    ensures 5 <= Sum(dice) <= 30
    ensures Scores(dice)[0] + Scores(dice)[1] + Scores(dice)[2]
            + Scores(dice)[3] + Scores(dice)[4] + Scores(dice)[5] == Sum(dice)
  {
    SumBounds(dice);
    SumByFaces(dice);
  }

  /** Three and four of a kind score either nothing or the whole sum, and a
      four of a kind is also a three of a kind. */
  lemma OfAKindRows(dice: seq<int>)
    requires ValidHand(dice)
    ensures Scores(dice)[6] == 0 || Scores(dice)[6] == Sum(dice)
    ensures Scores(dice)[7] == 0 || Scores(dice)[7] == Sum(dice)
    ensures Scores(dice)[6] == Sum(dice) <==> SomeFaceAtLeast(dice, 3)
    ensures Scores(dice)[7] == Sum(dice) <==> SomeFaceAtLeast(dice, 4)
    ensures Scores(dice)[7] != 0 ==> Scores(dice)[6] == Scores(dice)[7]
  {
    SumBounds(dice);
    if SomeFaceAtLeast(dice, 4) {
      var face :| 1 <= face <= 6 && Count(dice, face) >= 4;
      assert Count(dice, face) >= 3;
    }
  }

  /** One face shows on exactly three dice and another on exactly two. */
  predicate ThreeAndTwo(dice: seq<int>) {
    exists v, w :: 1 <= v <= 6 && 1 <= w <= 6 && v != w && Count(dice, v) == 3 && Count(dice, w) == 2
  }

  /** Full house is 25 exactly when one face shows three times and another
      twice, and 0 otherwise. */
  lemma FullHouseRow(dice: seq<int>)
    requires ValidHand(dice)
    ensures Scores(dice)[8] == 25 || Scores(dice)[8] == 0
    ensures Scores(dice)[8] == 25 <==> ThreeAndTwo(dice)
  {
    var rule := SomeFaceExactly(dice, 3) && SomeFaceExactly(dice, 2);
    assert Scores(dice)[8] == if rule then 25 else 0;
    if rule {
      var v :| 1 <= v <= 6 && Count(dice, v) == 3;
      var w :| 1 <= w <= 6 && Count(dice, w) == 2;
      assert v != w;
      assert ThreeAndTwo(dice);
    }
  }

  /** The small straight scores 30 exactly when four consecutive faces are
      present, the large straight 40 exactly when five are, and a large
      straight is always also a small one. */
  lemma StraightRows(dice: seq<int>)
    requires ValidHand(dice)
    ensures Scores(dice)[9] == 30 <==> HasRun(dice, 4)
    ensures Scores(dice)[9] != 30 ==> Scores(dice)[9] == 0
    ensures Scores(dice)[10] == 40 <==> HasRun(dice, 5)
    ensures Scores(dice)[10] != 40 ==> Scores(dice)[10] == 0
    ensures Scores(dice)[10] == 40 ==> Scores(dice)[9] == 30
  {
    if HasRun(dice, 5) {
      var lo :| 1 <= lo && lo + 5 <= 7 && RunFrom(dice, lo, 5);
      assert RunFrom(dice, lo, 4);
    }
  }

  /** Yahtzee is 50 exactly when all five dice are equal; such a hand scores
      its sum as both three and four of a kind and nothing as a full house. */
  lemma YahtzeeRow(dice: seq<int>)
    requires ValidHand(dice)
    ensures Scores(dice)[12] == 50 || Scores(dice)[12] == 0
    ensures Scores(dice)[12] == 50 <==> AllEqual(dice)
    ensures AllEqual(dice) ==>
      Scores(dice)[6] == Sum(dice) && Scores(dice)[7] == Sum(dice) && Scores(dice)[8] == 0
  {
    if SomeFaceExactly(dice, 5) {
      var face :| 1 <= face <= 6 && Count(dice, face) == 5;
      CountAll(dice, face);
    }
    if AllEqual(dice) {
      var face := dice[0];
      CountAll(dice, face);
      assert Count(dice, face) == 5;
      assert SomeFaceAtLeast(dice, 4) && SomeFaceAtLeast(dice, 3);
      forall v | 1 <= v <= 6 ensures Count(dice, v) != 3 {
        if v != face { CountTwoFaces(dice, face, v); }
      }
    }
  }

  /** The order of the dice never matters: two hands with the same faces
      score the same in every row. */
  lemma PermutationInvariant(dice: seq<int>, other: seq<int>)
    requires ValidHand(dice)
    requires multiset(dice) == multiset(other)
    ensures ValidHand(other)
    ensures Scores(dice) == Scores(other)
  {
    assert |other| == |multiset(other)| == |multiset(dice)| == 5;
    forall i | 0 <= i < |other| ensures 1 <= other[i] <= 6 {
      assert other[i] in multiset(dice);
    }
    forall v ensures Count(dice, v) == Count(other, v) {
      CountIsMultiplicity(dice, v);
      CountIsMultiplicity(other, v);
    }
    SumByFaces(dice);
    SumByFaces(other);
    forall n: nat ensures SomeFaceAtLeast(dice, n) == SomeFaceAtLeast(other, n)
                   && SomeFaceExactly(dice, n) == SomeFaceExactly(other, n) {
    }
    forall face ensures Present(dice, face) == Present(other, face) {
    }
    forall lo, len: nat ensures RunFrom(dice, lo, len) == RunFrom(other, lo, len) {
    }
    forall len: nat ensures HasRun(dice, len) == HasRun(other, len) {
    }
  }

  /** A full house scores 25; five equal dice score nothing as a full house. */
  lemma SampleFullHouses()
    ensures Scores([2, 2, 2, 3, 3])[8] == 25
    ensures Scores([5, 5, 5, 5, 5])[8] == 0 && Scores([5, 5, 5, 5, 5])[12] == 50
  {
    var fh := [2, 2, 2, 3, 3];
    CountIsMultiplicity(fh, 2);
    CountIsMultiplicity(fh, 3);
    assert Count(fh, 2) == 3 && Count(fh, 3) == 2;
    YahtzeeRow([5, 5, 5, 5, 5]);
  }

  /** Five sixes: 30 in Sixes, in both of-a-kind rows, and 50 as Yahtzee. */
  lemma SampleSixes()
    ensures Scores([6, 6, 6, 6, 6])[5] == 30 && Scores([6, 6, 6, 6, 6])[6] == 30
    ensures Scores([6, 6, 6, 6, 6])[7] == 30 && Scores([6, 6, 6, 6, 6])[12] == 50
  {
    var six := [6, 6, 6, 6, 6];
    // Count and Sum peel off the last die; unfold them one die at a time.
    assert [6, 6][..1] == [6] && [6, 6, 6][..2] == [6, 6];
    assert [6, 6, 6, 6][..3] == [6, 6, 6] && six[..4] == [6, 6, 6, 6];
    assert Count([6], 6) == 1 && Sum([6]) == 6;
    assert Count([6, 6], 6) == 2 && Sum([6, 6]) == 12;
    assert Count([6, 6, 6], 6) == 3 && Sum([6, 6, 6]) == 18;
    assert Count([6, 6, 6, 6], 6) == 4 && Sum([6, 6, 6, 6]) == 24;
    YahtzeeRow(six);
  }

  /** Duplicates do not spoil a small straight. */
  lemma SampleSmallStraight()
    ensures Scores([1, 1, 2, 3, 4])[9] == 30 && Scores([1, 1, 2, 3, 4])[10] == 0
  {
    var low := [1, 1, 2, 3, 4];
    CountIsMultiplicity(low, 1);
    CountIsMultiplicity(low, 2);
    CountIsMultiplicity(low, 3);
    CountIsMultiplicity(low, 4);
    CountIsMultiplicity(low, 5);
    assert RunFrom(low, 1, 4);
    assert !Present(low, 5);
    StraightRows(low);
  }

  /** 1, 2, 3, 4, 5 scores both straights. */
  lemma SampleLargeStraight()
    ensures Scores([1, 2, 3, 4, 5])[9] == 30 && Scores([1, 2, 3, 4, 5])[10] == 40
  {
    var run := [1, 2, 3, 4, 5];
    CountIsMultiplicity(run, 1);
    CountIsMultiplicity(run, 2);
    CountIsMultiplicity(run, 3);
    CountIsMultiplicity(run, 4);
    CountIsMultiplicity(run, 5);
    assert RunFrom(run, 1, 5);
    StraightRows(run);
  }

  // ---------------------------------------------------------------------------
  // Texts
  // ---------------------------------------------------------------------------

  /** The headline shown once a match is over. */
  function ResultText(minePoints: int, oppPoints: int): (text: string)
    ensures text == "You won!" <==> minePoints > oppPoints
    ensures text == "It's a draw!" <==> minePoints == oppPoints
    ensures text == "You lost!" <==> minePoints < oppPoints
  {
    if minePoints > oppPoints then "You won!"
    else if minePoints == oppPoints then "It's a draw!"
    else "You lost!"
  }

  /** The hint shown on the player's turn: none before the first roll, a
      prompt to commit once no roll is left, and otherwise an offer to pick
      dice to roll again, which is exactly when dice may be toggled. */
  function SelectDiceText(rollsLeft: int): (text: string)
    ensures text == "" <==> rollsLeft == 3
    ensures text == "Choose category" <==> rollsLeft == 0
    ensures 0 <= rollsLeft <= 3 ==>
      (text == "Select dices to roll again or choose category" <==> 1 <= rollsLeft <= 2)
  {
    match rollsLeft
    case 3 => ""
    case 0 => "Choose category"
    case _ => "Select dices to roll again or choose category"
  }
}
