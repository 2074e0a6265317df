/** The position evaluator (`calc_score`): material tallies per cell code and
    the score of a board for one side, with its terminal cases. Scores are
    exact reals here. */
module Evaluation {
  import opened Board

  /** The "infinite" score of a won position. */
  const INF: real := 1000000000.0

  /** The bonus the "NumberAndPotential" mode gives a man on row i: 0.05 per
      row advanced (white men advance toward row 0, black men toward row 7). */
  function Potential(code: int, i: int): real {
    if code == WhiteMan then 0.05 * (7 - i) as real
    else if code == BlackMan then 0.05 * i as real
    else 0.0
  }

  /** What a cell holding c on row i adds to the tally of `code`. */
  function CellTally(c: int, code: int, i: int, potential: bool): real {
    if c != code then 0.0 else 1.0 + (if potential then Potential(code, i) else 0.0)
  }

  /** What calc_score adds for one cell, as the source writes it: one per
      matching piece and, in the "NumberAndPotential" mode, 0.05 per row
      advanced for a man. */
  lemma CellTallies(c: int, i: int, potential: bool)
    ensures CellTally(c, WhiteMan, i, potential) ==
              (if c == WhiteMan then 1.0 else 0.0) + (if potential then 0.05 * (if c == WhiteMan then 1.0 else 0.0) * (7 - i) as real else 0.0)
    ensures CellTally(c, BlackMan, i, potential) ==
              (if c == BlackMan then 1.0 else 0.0) + (if potential then 0.05 * (if c == BlackMan then 1.0 else 0.0) * i as real else 0.0)
    ensures CellTally(c, WhiteKing, i, potential) == if c == WhiteKing then 1.0 else 0.0
    ensures CellTally(c, BlackKing, i, potential) == if c == BlackKing then 1.0 else 0.0
  {
  }

  function RowTally(row: seq<int>, code: int, i: int, potential: bool, n: nat): real
    requires n <= |row|
  {
    if n == 0 then 0.0 else RowTally(row, code, i, potential, n - 1) + CellTally(row[n - 1], code, i, potential)
  }

  function GridTally(b: Grid, code: int, potential: bool, n: nat): real
    requires ValidBoard(b) && n <= 8
  {
    if n == 0 then 0.0 else GridTally(b, code, potential, n - 1) + RowTally(b[n - 1], code, n - 1, potential, 8)
  }

  /** The tally of cell code `code` over the whole board. */
  function Tally(b: Grid, code: int, potential: bool): real
    requires ValidBoard(b)
  {
    GridTally(b, code, potential, 8)
  }

  function RowCount(row: seq<int>, code: int, n: nat): nat
    requires n <= |row|
  {
    if n == 0 then 0 else RowCount(row, code, n - 1) + (if row[n - 1] == code then 1 else 0)
  }

  function GridCount(b: Grid, code: int, n: nat): nat
    requires ValidBoard(b) && n <= 8
  {
    if n == 0 then 0 else GridCount(b, code, n - 1) + RowCount(b[n - 1], code, 8)
  }

  /** The number of cells holding `code`. */
  function Count(b: Grid, code: int): nat
    requires ValidBoard(b)
  {
    GridCount(b, code, 8)
  }

  /** The number of men and kings of a side (true is black). */
  function SidePieces(b: Grid, black: bool): nat
    requires ValidBoard(b)
  {
    if black then Count(b, BlackMan) + Count(b, BlackKing) else Count(b, WhiteMan) + Count(b, WhiteKing)
  }

  /** The score from the evaluated side's tallies (own men, own kings) and
      the opponent's: a side without pieces decides the game (the opponent's
      loss is INF, the evaluated side's loss is 0); otherwise the ratio of the
      material values, a king weighing 4 (5 in the "NumberAndPotential" mode). */
  function Ratio(own: real, ownKings: real, opp: real, oppKings: real, potential: bool): real
    requires 0.0 <= own && 0.0 <= ownKings && 0.0 <= opp && 0.0 <= oppKings
  {
    if opp + oppKings == 0.0 then INF
    else if own + ownKings == 0.0 then 0.0
    else
      var q := if potential then 5 else 4;
      (own + ownKings * q as real) / (opp + oppKings * q as real)
  }

  /** calc_score: the score of board b for the side `firstBotColor` (true is
      black), from the tallies of both sides; the "NumberAndPotential" mode
      also adds the men's potential. */
  function Score(b: Grid, firstBotColor: bool, potential: bool): real
    requires ValidBoard(b)
  {
    TallyNonNegative(b, WhiteMan, potential);
    TallyNonNegative(b, WhiteKing, potential);
    TallyNonNegative(b, BlackMan, potential);
    TallyNonNegative(b, BlackKing, potential);
    var w, wq := Tally(b, WhiteMan, potential), Tally(b, WhiteKing, potential);
    var bl, bq := Tally(b, BlackMan, potential), Tally(b, BlackKing, potential);
    if firstBotColor then Ratio(bl, bq, w, wq, potential) else Ratio(w, wq, bl, bq, potential)
  }

  lemma {:induction false} RowTallyBounds(row: seq<int>, code: int, i: int, potential: bool, n: nat)
    requires n <= |row| && 0 <= i < 8
    ensures RowCount(row, code, n) as real <= RowTally(row, code, i, potential, n) <= 1.35 * RowCount(row, code, n) as real
    ensures RowCount(row, code, n) <= n
  {
    if n > 0 {
      RowTallyBounds(row, code, i, potential, n - 1);
    }
  }

  lemma {:induction false} GridTallyBounds(b: Grid, code: int, potential: bool, n: nat)
    requires ValidBoard(b) && n <= 8
    ensures GridCount(b, code, n) as real <= GridTally(b, code, potential, n) <= 1.35 * GridCount(b, code, n) as real
    ensures GridCount(b, code, n) <= 8 * n
  {
    if n > 0 {
      GridTallyBounds(b, code, potential, n - 1);
      RowTallyBounds(b[n - 1], code, n - 1, potential, 8);
    }
  }

  /** A tally lies between the number of pieces of that code and 1.35 times
      it, so it is zero exactly when there is no such piece. */
  lemma TallyBounds(b: Grid, code: int, potential: bool)
    requires ValidBoard(b)
    ensures Count(b, code) as real <= Tally(b, code, potential) <= 1.35 * Count(b, code) as real
    ensures Count(b, code) <= 64
    ensures Tally(b, code, potential) == 0.0 <==> Count(b, code) == 0
  {
    GridTallyBounds(b, code, potential, 8);
  }

  lemma TallyNonNegative(b: Grid, code: int, potential: bool)
    requires ValidBoard(b)
    ensures Tally(b, code, potential) >= 0.0
  {
    TallyBounds(b, code, potential);
  }

  /** The general formula on material values of at most 64 pieces, a side
      with material weighing at least one man. */
  lemma RatioBounds(own: real, ownKings: real, opp: real, oppKings: real, q: real)
    requires 0.0 <= own <= 86.4 && 0.0 <= ownKings <= 86.4 && 1.0 <= own + ownKings
    requires 0.0 <= opp <= 86.4 && 0.0 <= oppKings <= 86.4 && 1.0 <= opp + oppKings
    requires q == 4.0 || q == 5.0
    ensures 0.0 < (own + ownKings * q) / (opp + oppKings * q) < INF
  {
    var n, d := own + ownKings * q, opp + oppKings * q;
    if q == 4.0 {
      assert 1.0 <= n <= 500.0 && 1.0 <= d;
    } else {
      assert 1.0 <= n <= 600.0 && 1.0 <= d;
    }
    var r := n / d;
    assert r * d == n;
  }

  /** A side's men and kings tallies: each at most 86.4 (64 pieces), and
      their sum is zero exactly when the side has no piece, at least 1 otherwise. */
  lemma SideTallies(b: Grid, black: bool, potential: bool)
    requires ValidBoard(b)
    ensures var men := Tally(b, if black then BlackMan else WhiteMan, potential);
            var kings := Tally(b, if black then BlackKing else WhiteKing, potential);
            && 0.0 <= men <= 86.4 && 0.0 <= kings <= 86.4
            && (SidePieces(b, black) == 0 <==> men + kings == 0.0)
            && (SidePieces(b, black) > 0 ==> 1.0 <= men + kings)
  {
    TallyBounds(b, if black then BlackMan else WhiteMan, potential);
    TallyBounds(b, if black then BlackKing else WhiteKing, potential);
  }

  /** The terminal cases come before the ratio: no opponent piece scores INF,
      no own piece (with the opponent on the board) scores 0, and otherwise the
      score is a positive ratio far below INF. */
  lemma ScoreCases(b: Grid, firstBotColor: bool, potential: bool)
    requires ValidBoard(b)
    ensures SidePieces(b, !firstBotColor) == 0 ==> Score(b, firstBotColor, potential) == INF
    ensures SidePieces(b, !firstBotColor) > 0 && SidePieces(b, firstBotColor) == 0 ==> Score(b, firstBotColor, potential) == 0.0
    ensures SidePieces(b, !firstBotColor) > 0 && SidePieces(b, firstBotColor) > 0 ==>
              0.0 < Score(b, firstBotColor, potential) < INF
    ensures 0.0 <= Score(b, firstBotColor, potential) <= INF
  {
    SideTallies(b, firstBotColor, potential);
    SideTallies(b, !firstBotColor, potential);
    var w, wq := Tally(b, WhiteMan, potential), Tally(b, WhiteKing, potential);
    var bl, bq := Tally(b, BlackMan, potential), Tally(b, BlackKing, potential);
    var opp, oppKings := if firstBotColor then w else bl, if firstBotColor then wq else bq;
    var own, ownKings := if firstBotColor then bl else w, if firstBotColor then bq else wq;
    var q := if potential then 5.0 else 4.0;
    assert Score(b, firstBotColor, potential) == Ratio(own, ownKings, opp, oppKings, potential);
    if opp + oppKings != 0.0 && own + ownKings != 0.0 {
      RatioBounds(own, ownKings, opp, oppKings, q);
    }
  }
}
