/** The engine object `Logic`: the move generator that fills `turns` and
    `have_beats`, the evaluator, the alpha-beta search and the top-level
    search that records the best chain in `next_move` / `next_best_state`.
    Each method is proved against the functions of Moves, Evaluation and
    Search. */
module Engine {
  import opened Board
  import opened Moves
  import opened Evaluation
  import opened Search

  /** Concatenation regroups. Called with the concrete lists of a loop step
      it costs the solver far less than the same equation as an assertion. */
  lemma Associative(a: seq<Move>, b: seq<Move>, c: seq<Move>)
    ensures (a + b) + c == a + (b + c)
  {
  }

  /** The measure of a walk toward the edge along direction d from coordinate i. */
  function Remaining(i: int, d: int): int {
    if d == 1 then 8 - i else i + 1
  }

  /** The capture walk as the source's loop performs it: (i2,j2) is the cell
      under inspection, (xb,yb) the opposing piece seen so far (xb == -1 for
      none) and `acc` the moves found before. */
  ghost function CaptureWalk(b: Grid, x: int, y: int, t: int, di: int, dj: int, i2: int, j2: int, xb: int, yb: int, acc: seq<Move>): seq<Move>
    requires ValidBoard(b) && Dir(di) && Dir(dj) && -1 <= i2 <= 8 && -1 <= j2 <= 8
    decreases Remaining(i2, di)
  {
    if !OnBoard(i2, j2) then acc
    else if b[i2][j2] != Empty && (b[i2][j2] % 2 == t % 2 || xb != -1) then acc
    else
      var xb', yb' := if b[i2][j2] != Empty then i2 else xb, if b[i2][j2] != Empty then j2 else yb;
      CaptureWalk(b, x, y, t, di, dj, i2 + di, j2 + dj, xb', yb',
        if xb' != -1 && xb' != i2 then acc + [Move(x, y, i2, j2, xb', yb')] else acc)
  }

  /** One step of the walk when it goes on: the cell is on the board and is
      empty or holds the first opposing piece. */
  lemma CaptureWalkStep(b: Grid, x: int, y: int, t: int, di: int, dj: int, i2: int, j2: int, xb: int, yb: int, acc: seq<Move>,
                        xb': int, yb': int, acc': seq<Move>)
    requires ValidBoard(b) && Dir(di) && Dir(dj) && OnBoard(i2, j2)
    requires !(b[i2][j2] != Empty && (b[i2][j2] % 2 == t % 2 || xb != -1))
    requires xb' == (if b[i2][j2] != Empty then i2 else xb) && yb' == (if b[i2][j2] != Empty then j2 else yb)
    requires acc' == if xb' != -1 && xb' != i2 then acc + [Move(x, y, i2, j2, xb', yb')] else acc
    ensures CaptureWalk(b, x, y, t, di, dj, i2, j2, xb, yb, acc) == CaptureWalk(b, x, y, t, di, dj, i2 + di, j2 + dj, xb', yb', acc')
  {
  }

  lemma RayCapturesStep(b: Grid, x: int, y: int, t: int, di: int, dj: int, s: nat, hit: int)
    requires ValidBoard(b) && OnBoard(x, y) && Dir(di) && Dir(dj) && 1 <= s && -1 <= hit < s
    requires OnBoard(Toward(x, di, s), Toward(y, dj, s))
    requires var c := b[Toward(x, di, s)][Toward(y, dj, s)]; !(c != Empty && (c % 2 == t % 2 || hit != -1))
    ensures var i2, j2 := Toward(x, di, s), Toward(y, dj, s);
            var h := if b[i2][j2] != Empty then s else hit;
            RayCaptures(b, x, y, t, di, dj, s, hit) ==
              (if h != -1 && h != s then [Move(x, y, i2, j2, Toward(x, di, h), Toward(y, dj, h))] else []) + RayCaptures(b, x, y, t, di, dj, s + 1, h)
  {
  }

  /** One step of the walk that goes on, given the claim for the next cell:
      the first opposing piece is remembered, and a cell behind it is a
      landing cell. */
  lemma CaptureWalkStepIsRay(b: Grid, x: int, y: int, t: int, di: int, dj: int, s: nat, hit: int,
                             i2: int, j2: int, xb: int, yb: int, acc: seq<Move>, h: int, xb': int, yb': int, here: seq<Move>)
    requires ValidBoard(b) && OnBoard(x, y) && Dir(di) && Dir(dj) && 1 <= s && -1 <= hit < s
    requires i2 == Toward(x, di, s) && j2 == Toward(y, dj, s) && OnBoard(i2, j2)
    requires hit == -1 ==> xb == -1
    requires hit != -1 ==> 0 < hit && xb == Toward(x, di, hit) && yb == Toward(y, dj, hit)
    requires !(b[i2][j2] != Empty && (b[i2][j2] % 2 == t % 2 || hit != -1))
    requires h == (if b[i2][j2] != Empty then s else hit)
    requires xb' == (if b[i2][j2] != Empty then i2 else xb) && yb' == (if b[i2][j2] != Empty then j2 else yb)
    requires here == if b[i2][j2] == Empty && hit != -1 then [Move(x, y, i2, j2, xb, yb)] else []
    requires CaptureWalk(b, x, y, t, di, dj, i2 + di, j2 + dj, xb', yb', acc + here) ==
             (acc + here) + RayCaptures(b, x, y, t, di, dj, s + 1, h)
    ensures CaptureWalk(b, x, y, t, di, dj, i2, j2, xb, yb, acc) == acc + RayCaptures(b, x, y, t, di, dj, s, hit)
  {
    CaptureWalkStep(b, x, y, t, di, dj, i2, j2, xb, yb, acc, xb', yb', acc + here);
    RayCapturesStep(b, x, y, t, di, dj, s, hit);
    Associative(acc, here, RayCaptures(b, x, y, t, di, dj, s + 1, h));
  }

  lemma {:induction false} CaptureWalkIsRay(b: Grid, x: int, y: int, t: int, di: int, dj: int, s: nat, hit: int,
                                            i2: int, j2: int, xb: int, yb: int, acc: seq<Move>)
    requires ValidBoard(b) && OnBoard(x, y) && Dir(di) && Dir(dj) && 1 <= s && -1 <= hit < s
    requires i2 == Toward(x, di, s) && j2 == Toward(y, dj, s) && -1 <= i2 <= 8 && -1 <= j2 <= 8
    requires hit == -1 ==> xb == -1
    requires hit != -1 ==> 0 < hit && xb == Toward(x, di, hit) && yb == Toward(y, dj, hit)
    ensures CaptureWalk(b, x, y, t, di, dj, i2, j2, xb, yb, acc) == acc + RayCaptures(b, x, y, t, di, dj, s, hit)
    decreases 8 - s
  {
    if !OnBoard(i2, j2) || (b[i2][j2] != Empty && (b[i2][j2] % 2 == t % 2 || hit != -1)) {
      assert hit != -1 ==> 0 <= xb < 8;
      assert RayCaptures(b, x, y, t, di, dj, s, hit) == [];
      assert acc + [] == acc;
    } else {
      var h := if b[i2][j2] != Empty then s else hit;
      var xb', yb' := if b[i2][j2] != Empty then i2 else xb, if b[i2][j2] != Empty then j2 else yb;
      var here := if b[i2][j2] == Empty && hit != -1 then [Move(x, y, i2, j2, xb, yb)] else [];
      CaptureWalkIsRay(b, x, y, t, di, dj, s + 1, h, i2 + di, j2 + dj, xb', yb', acc + here);
      CaptureWalkStepIsRay(b, x, y, t, di, dj, s, hit, i2, j2, xb, yb, acc, h, xb', yb', here);
    }
  }

  /** The walk of a king along direction (di,dj) looking for captures: stop
      at an own piece or at a second opposing piece, remember the first
      opposing piece, and list every cell after it. */
  method CaptureRay(mtx: Grid, x: int, y: int, t: int, di: int, dj: int) returns (found: seq<Move>)
    requires ValidBoard(mtx) && OnBoard(x, y) && Dir(di) && Dir(dj)
    ensures found == RayCaptures(mtx, x, y, t, di, dj, 1, -1)
  {
    found := [];
    var xb, yb := -1, -1;
    var i2, j2 := x + di, y + dj;
    CaptureWalkIsRay(mtx, x, y, t, di, dj, 1, -1, i2, j2, xb, yb, found);
    ghost var full := CaptureWalk(mtx, x, y, t, di, dj, i2, j2, xb, yb, found);
    while i2 != 8 && j2 != 8 && i2 != -1 && j2 != -1
      invariant -1 <= i2 <= 8 && -1 <= j2 <= 8
      invariant CaptureWalk(mtx, x, y, t, di, dj, i2, j2, xb, yb, found) == full
      decreases Remaining(i2, di)
    {
      if mtx[i2][j2] != Empty {
        if mtx[i2][j2] % 2 == t % 2 || (mtx[i2][j2] % 2 != t % 2 && xb != -1) {
          break;
        }
        xb, yb := i2, j2;
      }
      if xb != -1 && xb != i2 {
        found := found + [Move(x, y, i2, j2, xb, yb)];
      }
      i2, j2 := i2 + di, j2 + dj;
    }
  }

  /** The step walk as the source's loop performs it: (i2,j2) is the cell
      under inspection and `acc` the moves found before. */
  ghost function StepWalk(b: Grid, x: int, y: int, di: int, dj: int, i2: int, j2: int, acc: seq<Move>): seq<Move>
    requires ValidBoard(b) && Dir(di) && Dir(dj) && -1 <= i2 <= 8 && -1 <= j2 <= 8
    decreases Remaining(i2, di)
  {
    if !OnBoard(i2, j2) || b[i2][j2] != Empty then acc
    else StepWalk(b, x, y, di, dj, i2 + di, j2 + dj, acc + [SimpleMove(x, y, i2, j2)])
  }

  lemma {:induction false} StepWalkIsRay(b: Grid, x: int, y: int, di: int, dj: int, s: nat, i2: int, j2: int, acc: seq<Move>)
    requires ValidBoard(b) && OnBoard(x, y) && Dir(di) && Dir(dj) && 1 <= s
    requires i2 == Toward(x, di, s) && j2 == Toward(y, dj, s) && -1 <= i2 <= 8 && -1 <= j2 <= 8
    ensures StepWalk(b, x, y, di, dj, i2, j2, acc) == acc + RaySteps(b, x, y, di, dj, s)
    decreases 8 - s
  {
    if !OnBoard(i2, j2) || b[i2][j2] != Empty {
      assert acc + [] == acc;
    } else {
      var here := [SimpleMove(x, y, i2, j2)];
      StepWalkIsRay(b, x, y, di, dj, s + 1, i2 + di, j2 + dj, acc + here);
      Associative(acc, here, RaySteps(b, x, y, di, dj, s + 1));
    }
  }

  /** The walk of a king along direction (di,dj) listing the empty cells up
      to the first piece or the edge. */
  method StepRay(mtx: Grid, x: int, y: int, di: int, dj: int) returns (found: seq<Move>)
    requires ValidBoard(mtx) && OnBoard(x, y) && Dir(di) && Dir(dj)
    ensures found == RaySteps(mtx, x, y, di, dj, 1)
  {
    found := [];
    var i2, j2 := x + di, y + dj;
    StepWalkIsRay(mtx, x, y, di, dj, 1, i2, j2, found);
    ghost var full := StepWalk(mtx, x, y, di, dj, i2, j2, found);
    while i2 != 8 && j2 != 8 && i2 != -1 && j2 != -1
      invariant -1 <= i2 <= 8 && -1 <= j2 <= 8
      invariant StepWalk(mtx, x, y, di, dj, i2, j2, found) == full
      decreases Remaining(i2, di)
    {
      if mtx[i2][j2] != Empty {
        break;
      }
      found := found + [SimpleMove(x, y, i2, j2)];
      i2, j2 := i2 + di, j2 + dj;
    }
  }

  // The lists the direction loops of the move generator have produced
  // before row offset i (and, inside a row, before column offset j).

  ghost function JumpsBefore(b: Grid, x: int, y: int, t: int, i: int): seq<Move>
    requires ValidBoard(b) && OnBoard(x, y)
  {
    if i == x - 2 then [] else if i == x + 2 then ManJump(b, x, y, t, x - 2, y - 2) + ManJump(b, x, y, t, x - 2, y + 2)
    else ManCaptures(b, x, y, t)
  }

  ghost function JumpsInRow(b: Grid, x: int, y: int, t: int, i: int, j: int): seq<Move>
    requires ValidBoard(b) && OnBoard(x, y) && (i == x - 2 || i == x + 2)
  {
    if j == y - 2 then [] else if j == y + 2 then ManJump(b, x, y, t, i, y - 2)
    else ManJump(b, x, y, t, i, y - 2) + ManJump(b, x, y, t, i, y + 2)
  }

  ghost function CaptureRaysBefore(b: Grid, x: int, y: int, t: int, i: int): seq<Move>
    requires ValidBoard(b) && OnBoard(x, y)
  {
    if i == -1 then [] else if i == 1 then RayCaptures(b, x, y, t, -1, -1, 1, -1) + RayCaptures(b, x, y, t, -1, 1, 1, -1)
    else KingCaptures(b, x, y, t)
  }

  ghost function CaptureRaysInRow(b: Grid, x: int, y: int, t: int, i: int, j: int): seq<Move>
    requires ValidBoard(b) && OnBoard(x, y) && Dir(i)
  {
    if j == -1 then [] else if j == 1 then RayCaptures(b, x, y, t, i, -1, 1, -1)
    else RayCaptures(b, x, y, t, i, -1, 1, -1) + RayCaptures(b, x, y, t, i, 1, 1, -1)
  }

  ghost function StepRaysBefore(b: Grid, x: int, y: int, i: int): seq<Move>
    requires ValidBoard(b) && OnBoard(x, y)
  {
    if i == -1 then [] else if i == 1 then RaySteps(b, x, y, -1, -1, 1) + RaySteps(b, x, y, -1, 1, 1)
    else KingSteps(b, x, y)
  }

  ghost function StepRaysInRow(b: Grid, x: int, y: int, i: int, j: int): seq<Move>
    requires ValidBoard(b) && OnBoard(x, y) && Dir(i)
  {
    if j == -1 then [] else if j == 1 then RaySteps(b, x, y, i, -1, 1)
    else RaySteps(b, x, y, i, -1, 1) + RaySteps(b, x, y, i, 1, 1)
  }

  /** The capture loop of a man: the four jumps two cells away, skipping
      cells off the board, a non-empty landing cell and a jumped cell that is
      empty or holds a piece of the man's own colour. */
  method ScanManCaptures(mtx: Grid, x: int, y: int, t: int) returns (found: seq<Move>)
    requires ValidBoard(mtx) && OnBoard(x, y)
    ensures found == ManCaptures(mtx, x, y, t)
  {
    found := [];
    var i := x - 2;
    while i <= x + 2
      invariant i == x - 2 || i == x + 2 || i == x + 6
      invariant found == JumpsBefore(mtx, x, y, t, i)
    {
      ghost var before := found;
      var j := y - 2;
      while j <= y + 2
        invariant j == y - 2 || j == y + 2 || j == y + 6
        invariant found == before + JumpsInRow(mtx, x, y, t, i, j)
      {
        ghost var row := JumpsInRow(mtx, x, y, t, i, j);
        ghost var jump := ManJump(mtx, x, y, t, i, j);
        if !(i < 0 || i > 7 || j < 0 || j > 7) {
          var xb, yb := (x + i) / 2, (y + j) / 2;
          if !(mtx[i][j] != Empty || mtx[xb][yb] == Empty || mtx[xb][yb] % 2 == t % 2) {
            found := found + [Move(x, y, i, j, xb, yb)];
          }
        }
        assert found == (before + row) + jump;
        Associative(before, row, jump);
        j := j + 4;
      }
      if i == x + 2 {
        Associative(ManJump(mtx, x, y, t, x - 2, y - 2) + ManJump(mtx, x, y, t, x - 2, y + 2),
                    ManJump(mtx, x, y, t, x + 2, y - 2), ManJump(mtx, x, y, t, x + 2, y + 2));
      } else {
        assert [] + JumpsInRow(mtx, x, y, t, i, j) == JumpsInRow(mtx, x, y, t, i, j);
      }
      i := i + 4;
    }
  }

  /** The capture loop of a king: the capture walks in the four diagonal
      directions, in the order (-1,-1), (-1,1), (1,-1), (1,1). */
  method ScanKingCaptures(mtx: Grid, x: int, y: int, t: int) returns (found: seq<Move>)
    requires ValidBoard(mtx) && OnBoard(x, y)
    ensures found == KingCaptures(mtx, x, y, t)
  {
    found := [];
    var i := -1;
    while i <= 1
      invariant i == -1 || i == 1 || i == 3
      invariant found == CaptureRaysBefore(mtx, x, y, t, i)
    {
      ghost var before := found;
      var j := -1;
      while j <= 1
        invariant j == -1 || j == 1 || j == 3
        invariant found == before + CaptureRaysInRow(mtx, x, y, t, i, j)
      {
        ghost var row := CaptureRaysInRow(mtx, x, y, t, i, j);
        var ray := CaptureRay(mtx, x, y, t, i, j);
        found := found + ray;
        Associative(before, row, ray);
        j := j + 2;
      }
      if i == 1 {
        Associative(RayCaptures(mtx, x, y, t, -1, -1, 1, -1) + RayCaptures(mtx, x, y, t, -1, 1, 1, -1),
                    RayCaptures(mtx, x, y, t, 1, -1, 1, -1), RayCaptures(mtx, x, y, t, 1, 1, 1, -1));
      } else {
        assert [] + CaptureRaysInRow(mtx, x, y, t, i, j) == CaptureRaysInRow(mtx, x, y, t, i, j);
      }
      i := i + 2;
    }
  }

  /** The simple-move loop of a man: the two cells diagonally forward
      (row x-1 for white, x+1 for black) that are on the board and empty. */
  method ScanManSteps(mtx: Grid, x: int, y: int, t: int) returns (found: seq<Move>)
    requires ValidBoard(mtx) && OnBoard(x, y)
    ensures found == ManSteps(mtx, x, y, t)
  {
    found := [];
    var i := if t % 2 == 1 then x - 1 else x + 1;
    var j := y - 1;
    while j <= y + 1
      invariant j == y - 1 || j == y + 1 || j == y + 3
      invariant found == if j == y - 1 then [] else if j == y + 1 then ManStep(mtx, x, y, i, y - 1) else ManSteps(mtx, x, y, t)
    {
      if !(i < 0 || i > 7 || j < 0 || j > 7 || mtx[i][j] != Empty) {
        found := found + [SimpleMove(x, y, i, j)];
      }
      j := j + 2;
    }
  }

  /** The simple-move loop of a king: the step walks in the four diagonal
      directions. */
  method ScanKingSteps(mtx: Grid, x: int, y: int) returns (found: seq<Move>)
    requires ValidBoard(mtx) && OnBoard(x, y)
    ensures found == KingSteps(mtx, x, y)
  {
    found := [];
    var i := -1;
    while i <= 1
      invariant i == -1 || i == 1 || i == 3
      invariant found == StepRaysBefore(mtx, x, y, i)
    {
      ghost var before := found;
      var j := -1;
      while j <= 1
        invariant j == -1 || j == 1 || j == 3
        invariant found == before + StepRaysInRow(mtx, x, y, i, j)
      {
        ghost var row := StepRaysInRow(mtx, x, y, i, j);
        var ray := StepRay(mtx, x, y, i, j);
        found := found + ray;
        Associative(before, row, ray);
        j := j + 2;
      }
      if i == 1 {
        Associative(RaySteps(mtx, x, y, -1, -1, 1) + RaySteps(mtx, x, y, -1, 1, 1),
                    RaySteps(mtx, x, y, 1, -1, 1), RaySteps(mtx, x, y, 1, 1, 1));
      } else {
        assert [] + StepRaysInRow(mtx, x, y, i, j) == StepRaysInRow(mtx, x, y, i, j);
      }
      i := i + 2;
    }
  }

  /** One square of the colour loop of the move generator: a square of the
      side adds its moves when they are of the current kind; its first
      capture discards the simple moves gathered so far. */
  lemma GatherStep(b: Grid, color: bool, i: int, j: int, hasBeats: bool, res: seq<Move>, squareTurns: Turns, hasBeats': bool, res': seq<Move>)
    requires ValidBoard(b) && OnBoard(i, j)
    requires hasBeats == (GridTurns(b, color, i, true) + RowTurns(b, color, i, j, true) != [])
    requires res == GridTurns(b, color, i, hasBeats) + RowTurns(b, color, i, j, hasBeats)
    requires !Owns(color, b[i][j]) ==> hasBeats' == hasBeats && res' == res
    requires Owns(color, b[i][j]) ==> squareTurns == SquareTurns(b, i, j)
    requires Owns(color, b[i][j]) ==>
               && hasBeats' == (hasBeats || squareTurns.beats)
               && res' == (if squareTurns.beats && !hasBeats then squareTurns.moves else if (hasBeats && squareTurns.beats) || !hasBeats then res + squareTurns.moves else res)
    ensures hasBeats' == (GridTurns(b, color, i, true) + RowTurns(b, color, i, j + 1, true) != [])
    ensures res' == GridTurns(b, color, i, hasBeats') + RowTurns(b, color, i, j + 1, hasBeats')
  {
    var gt, rt := GridTurns(b, color, i, true), RowTurns(b, color, i, j, true);
    var gf, rf := GridTurns(b, color, i, false), RowTurns(b, color, i, j, false);
    var ct, cf := Contribution(b, color, i, j, true), Contribution(b, color, i, j, false);
    assert RowTurns(b, color, i, j + 1, true) == rt + ct;
    assert RowTurns(b, color, i, j + 1, false) == rf + cf;
    Associative(gt, rt, ct);
    Associative(gf, rf, cf);
    if !Owns(color, b[i][j]) {
      assert ct == [] && cf == [];
      assert rt + [] == rt && rf + [] == rf;
    } else {
      if squareTurns.beats {
        assert squareTurns.moves != [] && cf == [] && ct == squareTurns.moves;
        assert rf + [] == rf;
        if !hasBeats {
          assert gt + rt == [];
          assert gt == [] && rt == [];
          assert [] + ([] + squareTurns.moves) == squareTurns.moves;
        }
      } else {
        assert ct == [] && cf == squareTurns.moves;
        assert rt + [] == rt;
      }
    }
  }

  /** The best chain stored in the arena from state s: the move at s, then
      (when the link at s is not -1) the chain stored from the linked state,
      which lies further on; a state holding the placeholder with no link
      stores the empty chain. */
  ghost predicate Encodes(nextMoves: seq<Move>, nextStates: seq<int>, s: int, chain: seq<Move>)
    decreases |chain|
  {
    && 0 <= s < |nextMoves| && |nextStates| == |nextMoves|
    && if chain == [] then nextMoves[s] == Sentinel && nextStates[s] == -1
       else
         && nextMoves[s] == chain[0] && chain[0].x != -1
         && (nextStates[s] == -1 ==> |chain| == 1)
         && (nextStates[s] != -1 ==> s < nextStates[s] && Encodes(nextMoves, nextStates, nextStates[s], chain[1..]))
  }

  /** A stored chain survives changes outside the states from s on and
      growth of the arena. */
  lemma {:induction false} EncodesFrame(nextMoves: seq<Move>, nextStates: seq<int>, nextMoves': seq<Move>, nextStates': seq<int>, s: int, chain: seq<Move>)
    requires Encodes(nextMoves, nextStates, s, chain)
    requires |nextMoves| <= |nextMoves'| && |nextStates'| == |nextMoves'|
    requires forall i :: s <= i < |nextMoves| ==> nextMoves'[i] == nextMoves[i] && nextStates'[i] == nextStates[i]
    ensures Encodes(nextMoves', nextStates', s, chain)
    decreases |chain|
  {
    if chain != [] && nextStates[s] != -1 {
      EncodesFrame(nextMoves, nextStates, nextMoves', nextStates', nextStates[s], chain[1..]);
    }
  }

  /** During the loop of find_first_best_turn at state s: the entry of s
      holds the choice so far (the move at index idx, or the placeholder),
      and after a capture it points to a later state holding the
      continuation chain of that capture. */
  ghost predicate Stored(cfg: Config, b: Grid, color: bool, moves: seq<Move>, captures: bool,
                         nextMoves: seq<Move>, nextStates: seq<int>, s: int, idx: int)
    requires ValidBoard(b) && Expandable(b, moves, captures)
  {
    && 0 <= s < |nextMoves| && |nextStates| == |nextMoves|
    && (idx == -1 ==> nextMoves[s] == Sentinel && nextStates[s] == -1)
    && (idx != -1 ==>
          && 0 <= idx < |moves| && nextMoves[s] == moves[idx]
          && (!captures ==> nextStates[s] == -1)
          && (captures ==> s < nextStates[s] && Encodes(nextMoves, nextStates, nextStates[s], ChainAfter(cfg, b, color, moves[idx]))))
  }

  /** The stored choice survives a recursive call that only appends to the arena. */
  lemma StoredFrame(cfg: Config, b: Grid, color: bool, moves: seq<Move>, captures: bool,
                    nextMoves: seq<Move>, nextStates: seq<int>, nextMoves': seq<Move>, nextStates': seq<int>, s: int, idx: int)
    requires ValidBoard(b) && Expandable(b, moves, captures)
    requires Stored(cfg, b, color, moves, captures, nextMoves, nextStates, s, idx)
    requires |nextMoves| <= |nextMoves'| && |nextStates'| == |nextMoves'| && nextMoves'[..|nextMoves|] == nextMoves && nextStates'[..|nextStates|] == nextStates
    ensures Stored(cfg, b, color, moves, captures, nextMoves', nextStates', s, idx)
  {
    assert forall i :: 0 <= i < |nextMoves| ==> nextMoves'[i] == nextMoves'[..|nextMoves|][i] && nextStates'[i] == nextStates'[..|nextStates|][i];
    if idx != -1 && captures {
      assert moves[idx] in moves;
      EncodesFrame(nextMoves, nextStates, nextMoves', nextStates', nextStates[s], ChainAfter(cfg, b, color, moves[idx]));
    }
  }

  /** A better move k is recorded: the entry of s now holds move k and
      points to the state ns that holds the continuation after it. */
  lemma StoredUpdate(cfg: Config, b: Grid, color: bool, moves: seq<Move>, captures: bool,
                     nextMoves: seq<Move>, nextStates: seq<int>, s: int, k: int, ns: int, nextMoves': seq<Move>, nextStates': seq<int>)
    requires ValidBoard(b) && Expandable(b, moves, captures) && 0 <= k < |moves|
    requires 0 <= s < |nextMoves| && |nextStates| == |nextMoves|
    requires captures ==> s < ns && Encodes(nextMoves, nextStates, ns, ChainAfter(cfg, b, color, moves[k]))
    requires nextMoves' == nextMoves[s := moves[k]] && nextStates' == nextStates[s := if captures then ns else -1]
    ensures Stored(cfg, b, color, moves, captures, nextMoves', nextStates', s, k)
  {
    if captures {
      assert moves[k] in moves;
      EncodesFrame(nextMoves, nextStates, nextMoves', nextStates', ns, ChainAfter(cfg, b, color, moves[k]));
    }
  }

  /** After the loop the entry of s encodes the whole selected chain. */
  lemma StoredDone(cfg: Config, b: Grid, color: bool, moves: seq<Move>, captures: bool,
                   nextMoves: seq<Move>, nextStates: seq<int>, s: int, idx: int)
    requires ValidBoard(b) && Expandable(b, moves, captures)
    requires Stored(cfg, b, color, moves, captures, nextMoves, nextStates, s, idx)
    requires Choose(TopValues(cfg, b, color, moves, captures)).index == idx
    ensures Encodes(nextMoves, nextStates, s, DecisionChain(cfg, b, color, moves, captures))
  {
    var chain := DecisionChain(cfg, b, color, moves, captures);
    if idx != -1 {
      var m := moves[idx];
      assert m in moves;
      assert chain[0] == m && chain[1..] == if captures then ChainAfter(cfg, b, color, m) else [];
    }
  }

  class Logic {
    /** The moves found by the last move-generator call and whether they are captures. */
    var turns: seq<Move>
    var haveBeats: bool
    /** The search depth (`Max_depth`). */
    var maxDepth: nat
    /** The configuration strings "BotScoringType" and "Optimization". */
    const scoringMode: string
    const optimization: string
    /** The random engine: `draw(k)` is its k-th number; `drawCount` numbers have been used. */
    const draw: nat -> nat
    var drawCount: nat
    /** The arena of the top-level search: per state the best move and the state that continues it. */
    var nextMove: seq<Move>
    var nextBestState: seq<int>

    constructor (maxDepth: nat, scoringMode: string, optimization: string, draw: nat -> nat)
      ensures this.maxDepth == maxDepth && this.scoringMode == scoringMode && this.optimization == optimization
      ensures this.draw == draw && drawCount == 0
      ensures turns == [] && !haveBeats && nextMove == [] && nextBestState == []
    {
      this.maxDepth := maxDepth;
      this.scoringMode := scoringMode;
      this.optimization := optimization;
      this.draw := draw;
      drawCount := 0;
      turns := [];
      haveBeats := false;
      nextMove := [];
      nextBestState := [];
    }

    /** The search configuration the methods read. */
    function Cfg(): Config
      reads this`maxDepth
    {
      Config(maxDepth, scoringMode == "NumberAndPotential")
    }

    /** find_turns(x, y, mtx): the moves of the piece on (x,y) into `turns`,
        captures only if it has any. */
    method FindTurnsAt(x: int, y: int, mtx: Grid)
      requires ValidBoard(mtx) && OnBoard(x, y) && mtx[x][y] != Empty
      modifies this`turns, this`haveBeats
      ensures turns == SquareTurns(mtx, x, y).moves && haveBeats == SquareTurns(mtx, x, y).beats
    {
      turns := [];
      haveBeats := false;
      var t := mtx[x][y];
      if t == WhiteMan || t == BlackMan {
        turns := ScanManCaptures(mtx, x, y, t);
      } else {
        turns := ScanKingCaptures(mtx, x, y, t);
      }
      if turns != [] {
        haveBeats := true;
        return;
      }
      if t == WhiteMan || t == BlackMan {
        turns := ScanManSteps(mtx, x, y, t);
      } else {
        turns := ScanKingSteps(mtx, x, y);
      }
    }

    /** The shuffle of `turns`: a Fisher-Yates pass driven by the random
        engine; it reorders the moves and neither adds nor drops one. */
    method Shuffle()
      modifies this`turns, this`drawCount
      ensures multiset(turns) == multiset(old(turns))
      ensures drawCount == old(drawCount) + (if |turns| > 0 then |turns| - 1 else 0)
    {
      var n := |turns|;
      var i := n;
      while i > 1
        invariant 0 <= i <= n && |turns| == n && (n > 0 ==> i >= 1)
        invariant multiset(turns) == multiset(old(turns))
        invariant drawCount == old(drawCount) + (n - i)
      {
        i := i - 1;
        var k := draw(drawCount) % (i + 1);
        drawCount := drawCount + 1;
        turns := turns[i := turns[k]][k := turns[i]];
      }
    }

    /** find_turns(color, mtx): all moves of side `color` into `turns`,
        shuffled; only captures when some piece can capture. */
    method FindTurnsColor(color: bool, mtx: Grid)
      requires ValidBoard(mtx)
      modifies this`turns, this`haveBeats, this`drawCount
      ensures multiset(turns) == multiset(ColorTurns(mtx, color).moves)
      ensures haveBeats == ColorTurns(mtx, color).beats
      ensures drawCount >= old(drawCount)
    {
      var resTurns, haveBeatsBefore := GatherTurns(color, mtx);
      turns := resTurns;
      Shuffle();
      haveBeats := haveBeatsBefore;
    }

    /** The scan of find_turns(color, mtx) over the squares, row by row,
        before the shuffle: the first capture found discards the simple
        moves gathered so far, and from then on only captures are kept. */
    method GatherTurns(color: bool, mtx: Grid) returns (resTurns: seq<Move>, haveBeatsBefore: bool)
      requires ValidBoard(mtx)
      modifies this`turns, this`haveBeats
      ensures resTurns == ColorTurns(mtx, color).moves && haveBeatsBefore == ColorTurns(mtx, color).beats
    {
      resTurns := [];
      haveBeatsBefore := false;
      for i := 0 to 8
        invariant haveBeatsBefore == (GridTurns(mtx, color, i, true) != [])
        invariant resTurns == GridTurns(mtx, color, i, haveBeatsBefore)
      {
        haveBeatsBefore, resTurns := GatherRow(color, mtx, i, haveBeatsBefore, resTurns);
      }
    }

    /** One row of that scan. */
    method GatherRow(color: bool, mtx: Grid, i: int, hasBeats: bool, res: seq<Move>) returns (haveBeatsBefore: bool, resTurns: seq<Move>)
      requires ValidBoard(mtx) && 0 <= i < 8
      requires hasBeats == (GridTurns(mtx, color, i, true) != []) && res == GridTurns(mtx, color, i, hasBeats)
      modifies this`turns, this`haveBeats
      ensures haveBeatsBefore == (GridTurns(mtx, color, i + 1, true) != [])
      ensures resTurns == GridTurns(mtx, color, i + 1, haveBeatsBefore)
    {
      haveBeatsBefore, resTurns := hasBeats, res;
      for j := 0 to 8
        invariant haveBeatsBefore == (GridTurns(mtx, color, i, true) + RowTurns(mtx, color, i, j, true) != [])
        invariant resTurns == GridTurns(mtx, color, i, haveBeatsBefore) + RowTurns(mtx, color, i, j, haveBeatsBefore)
      {
        haveBeatsBefore, resTurns := GatherSquare(color, mtx, i, j, haveBeatsBefore, resTurns);
      }
    }

    /** One square of that scan: a piece of `color` adds its moves, unless
        they are simple moves and a capture has been seen; its first capture
        replaces what was gathered. */
    method GatherSquare(color: bool, mtx: Grid, i: int, j: int, hasBeats: bool, res: seq<Move>) returns (haveBeatsBefore: bool, resTurns: seq<Move>)
      requires ValidBoard(mtx) && OnBoard(i, j)
      requires hasBeats == (GridTurns(mtx, color, i, true) + RowTurns(mtx, color, i, j, true) != [])
      requires res == GridTurns(mtx, color, i, hasBeats) + RowTurns(mtx, color, i, j, hasBeats)
      modifies this`turns, this`haveBeats
      ensures haveBeatsBefore == (GridTurns(mtx, color, i, true) + RowTurns(mtx, color, i, j + 1, true) != [])
      ensures resTurns == GridTurns(mtx, color, i, haveBeatsBefore) + RowTurns(mtx, color, i, j + 1, haveBeatsBefore)
    {
      haveBeatsBefore, resTurns := hasBeats, res;
      ghost var squareTurns := Turns([], false);
      if mtx[i][j] != Empty && mtx[i][j] % 2 != Bit(color) {
        FindTurnsAt(i, j, mtx);
        squareTurns := Turns(turns, haveBeats);
        if haveBeats && !haveBeatsBefore {
          haveBeatsBefore := true;
          resTurns := [];
        }
        if (haveBeatsBefore && haveBeats) || !haveBeatsBefore {
          resTurns := resTurns + turns;
        }
      }
      GatherStep(mtx, color, i, j, hasBeats, res, squareTurns, haveBeatsBefore, resTurns);
    }

    /** calc_score: the board's score for side `firstBotColor`, accumulated
        cell by cell. */
    method CalcScore(mtx: Grid, firstBotColor: bool) returns (r: real)
      requires ValidBoard(mtx)
      ensures r == Score(mtx, firstBotColor, scoringMode == "NumberAndPotential")
    {
      // the mode test the source repeats per cell, evaluated once
      var potential := scoringMode == "NumberAndPotential";
      var w, wq, b, bq := 0.0, 0.0, 0.0, 0.0;
      for i := 0 to 8
        invariant w == GridTally(mtx, WhiteMan, potential, i) && wq == GridTally(mtx, WhiteKing, potential, i)
        invariant b == GridTally(mtx, BlackMan, potential, i) && bq == GridTally(mtx, BlackKing, potential, i)
      {
        for j := 0 to 8
          invariant w == GridTally(mtx, WhiteMan, potential, i) + RowTally(mtx[i], WhiteMan, i, potential, j)
          invariant wq == GridTally(mtx, WhiteKing, potential, i) + RowTally(mtx[i], WhiteKing, i, potential, j)
          invariant b == GridTally(mtx, BlackMan, potential, i) + RowTally(mtx[i], BlackMan, i, potential, j)
          invariant bq == GridTally(mtx, BlackKing, potential, i) + RowTally(mtx[i], BlackKing, i, potential, j)
        {
          var c := mtx[i][j];
          CellTallies(c, i, potential);
          w := w + if c == WhiteMan then 1.0 else 0.0;
          wq := wq + if c == WhiteKing then 1.0 else 0.0;
          b := b + if c == BlackMan then 1.0 else 0.0;
          bq := bq + if c == BlackKing then 1.0 else 0.0;
          if potential {
            w := w + 0.05 * (if c == WhiteMan then 1.0 else 0.0) * (7 - i) as real;
            b := b + 0.05 * (if c == BlackMan then 1.0 else 0.0) * i as real;
          }
        }
      }
      TallyNonNegative(mtx, WhiteMan, potential);
      TallyNonNegative(mtx, WhiteKing, potential);
      TallyNonNegative(mtx, BlackMan, potential);
      TallyNonNegative(mtx, BlackKing, potential);
      if !firstBotColor {
        b, w := w, b;
        bq, wq := wq, bq;
      }
      r := Ratio(b, bq, w, wq, potential);
    }

    /** find_best_turns_rec: the alpha-beta search. Without cut-offs ("O0")
        it returns the minimax value; with them, for a non-empty window, a
        result that agrees with the value inside the window and lies on
        the correct side of it outside. */
    method FindBestTurnsRec(mtx: Grid, color: bool, depth: nat, alpha: real, beta: real, x: int, y: int) returns (r: real)
      requires ValidBoard(mtx) && depth <= maxDepth
      requires x == -1 || (OnBoard(x, y) && mtx[x][y] != Empty)
      modifies this`turns, this`haveBeats, this`drawCount
      ensures optimization == "O0" ==> r == Value(Cfg(), mtx, color, depth, x, y)
      ensures optimization != "O0" && alpha < beta ==> Window(r, Value(Cfg(), mtx, color, depth, x, y), alpha, beta)
      decreases maxDepth - depth, Pieces(mtx), 4
    {
      if depth == maxDepth {
        r := CalcScore(mtx, FirstBotColor(depth, color));
        return;
      }
      if x != -1 {
        FindTurnsAt(x, y, mtx);
      } else {
        FindTurnsColor(color, mtx);
      }
      r := SearchNode(mtx, color, depth, alpha, beta, x, y, turns, haveBeats);
    }

    /** find_best_turns_rec once the moves `turnsNow` of an inner node are
        known: the end of a chain of captures, a side without moves, or the
        search over the children. */
    method SearchNode(mtx: Grid, color: bool, depth: nat, alpha: real, beta: real, x: int, y: int,
                      turnsNow: seq<Move>, haveBeatsNow: bool) returns (r: real)
      requires ValidBoard(mtx) && depth < maxDepth
      requires x == -1 || (OnBoard(x, y) && mtx[x][y] != Empty)
      requires multiset(turnsNow) == multiset(NodeTurns(mtx, color, x, y).moves) && haveBeatsNow == NodeTurns(mtx, color, x, y).beats
      modifies this`turns, this`haveBeats, this`drawCount
      ensures optimization == "O0" ==> r == Value(Cfg(), mtx, color, depth, x, y)
      ensures optimization != "O0" && alpha < beta ==> Window(r, Value(Cfg(), mtx, color, depth, x, y), alpha, beta)
      decreases maxDepth - depth, Pieces(mtx), 3
    {
      if !haveBeatsNow && x != -1 {
        ValueAtChainEnd(Cfg(), mtx, color, depth, x, y);
        r := FindBestTurnsRec(mtx, !color, depth + 1, alpha, beta, -1, -1);
        return;
      }
      if turnsNow == [] {
        ValueWithoutMoves(Cfg(), mtx, color, depth, x, y, turnsNow);
        r := if depth % 2 == 1 then 0.0 else INF;
        return;
      }
      ValueOfChildren(Cfg(), mtx, color, depth, x, y, turnsNow, haveBeatsNow);
      r := SearchChildren(mtx, color, depth, alpha, beta, x, turnsNow, haveBeatsNow);
    }

    /** The loop of find_best_turns_rec over the moves `turnsNow` of the
        node: the running extrema of the children's scores, the bound of the
        moving side, and the cut-off once the bounds cross. */
    method SearchChildren(mtx: Grid, color: bool, depth: nat, alpha: real, beta: real, x: int,
                          turnsNow: seq<Move>, haveBeatsNow: bool) returns (r: real)
      requires ValidBoard(mtx) && depth < maxDepth
      requires Expandable(mtx, turnsNow, haveBeatsNow) && (x != -1 ==> haveBeatsNow)
      modifies this`turns, this`haveBeats, this`drawCount
      ensures optimization == "O0" ==> r == NodeValue(depth % 2 == 1, ChildValues(Cfg(), mtx, color, depth, turnsNow, haveBeatsNow))
      ensures optimization != "O0" && alpha < beta ==>
                Window(r, NodeValue(depth % 2 == 1, ChildValues(Cfg(), mtx, color, depth, turnsNow, haveBeatsNow)), alpha, beta)
      decreases maxDepth - depth, Pieces(mtx), 2
    {
      ghost var cfg := Cfg();
      ghost var odd := depth % 2 == 1;
      ghost var values := ChildValues(cfg, mtx, color, depth, turnsNow, haveBeatsNow);
      ChildValuesInRange(cfg, mtx, color, depth, turnsNow, haveBeatsNow);
      // the mode test the source repeats per move, evaluated once
      var cutoffs := optimization != "O0";
      var minScore := INF + 1.0;
      var maxScore := -1.0;
      var a, b := alpha, beta;
      for k := 0 to |turnsNow|
        invariant Scan(cutoffs, odd, alpha, beta, values, k, minScore, maxScore, a, b)
      {
        var stop;
        minScore, maxScore, a, b, stop :=
          SearchStep(mtx, color, depth, alpha, beta, x, turnsNow, haveBeatsNow, values, cutoffs, k, minScore, maxScore, a, b);
        if stop {
          r := if depth % 2 == 1 then maxScore + 1.0 else minScore - 1.0;
          return;
        }
      }
      ScanDone(cutoffs, odd, alpha, beta, values, minScore, maxScore, a, b);
      r := if depth % 2 == 1 then maxScore else minScore;
    }

    /** One pass of the loop of find_best_turns_rec: score move k, fold the
        score into the running extrema and the moving side's bound, and report
        whether the bounds have crossed. */
    method SearchStep(mtx: Grid, color: bool, depth: nat, alpha: real, beta: real, x: int,
                      turnsNow: seq<Move>, haveBeatsNow: bool, ghost values: seq<real>, cutoffs: bool, k: nat,
                      minScore: real, maxScore: real, a: real, b: real)
        returns (minScore': real, maxScore': real, a': real, b': real, stop: bool)
      requires ValidBoard(mtx) && depth < maxDepth
      requires Expandable(mtx, turnsNow, haveBeatsNow) && (x != -1 ==> haveBeatsNow)
      requires values == ChildValues(Cfg(), mtx, color, depth, turnsNow, haveBeatsNow)
      requires forall v :: v in values ==> 0.0 <= v <= INF
      requires cutoffs == (optimization != "O0") && k < |turnsNow|
      requires Scan(cutoffs, depth % 2 == 1, alpha, beta, values, k, minScore, maxScore, a, b)
      modifies this`turns, this`haveBeats, this`drawCount
      ensures stop == (cutoffs && a' >= b')
      ensures stop && alpha < beta ==>
                Window(if depth % 2 == 1 then maxScore' + 1.0 else minScore' - 1.0, NodeValue(depth % 2 == 1, values), alpha, beta)
      ensures !stop ==> Scan(cutoffs, depth % 2 == 1, alpha, beta, values, k + 1, minScore', maxScore', a', b')
      decreases maxDepth - depth, Pieces(mtx), 1
    {
      ChildValuesAt(Cfg(), mtx, color, depth, turnsNow, haveBeatsNow, k);
      var score := SearchChild(mtx, color, depth, a, b, x, turnsNow[k], haveBeatsNow);
      minScore' := Min(minScore, score);
      maxScore' := Max(maxScore, score);
      a', b' := a, b;
      if depth % 2 == 1 {
        a' := Max(a, maxScore');
      } else {
        b' := Min(b, minScore');
      }
      ScanStep(cutoffs, depth % 2 == 1, alpha, beta, values, k, minScore, maxScore, a, b, score, minScore', maxScore', a', b');
      stop := cutoffs && a' >= b';
    }

    /** The body of the loop of find_best_turns_rec for one move: a simple
        move at the start of a turn hands the move to the opponent one level
        deeper; a capture continues with the same side from the landing
        square. */
    method SearchChild(mtx: Grid, color: bool, depth: nat, a: real, b: real, x: int, turn: Move, haveBeatsNow: bool)
        returns (score: real)
      requires ValidBoard(mtx) && depth < maxDepth && Fits(turn) && (haveBeatsNow ==> CaptureShape(mtx, turn))
      requires x != -1 ==> haveBeatsNow
      modifies this`turns, this`haveBeats, this`drawCount
      ensures optimization == "O0" ==> score == ChildValue(Cfg(), mtx, color, depth, turn, haveBeatsNow)
      ensures optimization != "O0" && a < b ==> Window(score, ChildValue(Cfg(), mtx, color, depth, turn, haveBeatsNow), a, b)
      decreases maxDepth - depth, Pieces(mtx), 0
    {
      if !haveBeatsNow && x == -1 {
        score := FindBestTurnsRec(MakeTurn(mtx, turn), !color, depth + 1, a, b, -1, -1);
      } else {
        CaptureEffects(mtx, turn);
        score := FindBestTurnsRec(MakeTurn(mtx, turn), color, depth, a, b, turn.x2, turn.y2);
      }
    }

    /** find_first_best_turn: record in the arena, from entry `state` on, the
        chain the bot plays from this position. At the start of the turn
        (state 0) the candidates are the moves already in `turns`; inside a
        chain of captures they are the captures of the piece on (x,y), and
        if it has none the chain ends and the opponent's search is run. */
    method FindFirstBestTurn(mtx: Grid, color: bool, x: int, y: int, state: nat, alpha: real) returns (score: real)
      requires ValidBoard(mtx) && state == |nextMove| == |nextBestState|
      requires state == 0 ==> Expandable(mtx, turns, haveBeats)
      requires state != 0 ==> OnBoard(x, y) && mtx[x][y] != Empty
      modifies this`turns, this`haveBeats, this`drawCount, this`nextMove, this`nextBestState
      ensures |nextMove| == |nextBestState| > state
      ensures nextMove[..state] == old(nextMove) && nextBestState[..state] == old(nextBestState)
      ensures state == 0 ==> score == Choose(TopValues(Cfg(), mtx, color, old(turns), old(haveBeats))).score
      ensures state == 0 ==> Encodes(nextMove, nextBestState, 0, DecisionChain(Cfg(), mtx, color, old(turns), old(haveBeats)))
      ensures state != 0 ==> Encodes(nextMove, nextBestState, state, ContinuationChain(Cfg(), mtx, color, x, y))
      ensures state != 0 && optimization == "O0" ==> score == ChainValue(Cfg(), mtx, color, x, y)
      ensures state != 0 && optimization != "O0" && alpha < INF + 1.0 ==>
                Window(score, ChainValue(Cfg(), mtx, color, x, y), alpha, INF + 1.0)
      decreases Pieces(mtx), 3
    {
      nextBestState := nextBestState + [-1];
      nextMove := nextMove + [Sentinel];
      if state != 0 {
        FindTurnsAt(x, y, mtx);
      }
      var turnsNow, haveBeatsNow := turns, haveBeats;
      if !haveBeatsNow && state != 0 {
        score := FindBestTurnsRec(mtx, !color, 0, alpha, INF + 1.0, -1, -1);
        return;
      }
      if state != 0 {
        SquareTurnsShape(mtx, x, y);
      }
      score := FirstBestLoop(mtx, color, state, turnsNow, haveBeatsNow);
    }

    /** The loop of find_first_best_turn: each move is scored, and the first
        one scoring strictly above the best so far replaces the entry of
        `state`, pointing after a capture to the state its continuation was
        built in. */
    method FirstBestLoop(mtx: Grid, color: bool, state: nat, turnsNow: seq<Move>, haveBeatsNow: bool) returns (best: real)
      requires ValidBoard(mtx) && Expandable(mtx, turnsNow, haveBeatsNow)
      requires state + 1 == |nextMove| == |nextBestState| && nextMove[state] == Sentinel && nextBestState[state] == -1
      modifies this`turns, this`haveBeats, this`drawCount, this`nextMove, this`nextBestState
      ensures |nextMove| == |nextBestState| > state
      ensures nextMove[..state] == old(nextMove[..state]) && nextBestState[..state] == old(nextBestState[..state])
      ensures best == Choose(TopValues(Cfg(), mtx, color, turnsNow, haveBeatsNow)).score
      ensures Encodes(nextMove, nextBestState, state, DecisionChain(Cfg(), mtx, color, turnsNow, haveBeatsNow))
      decreases Pieces(mtx), 2
    {
      ghost var cfg := Cfg();
      ghost var values := TopValues(cfg, mtx, color, turnsNow, haveBeatsNow);
      TopValuesInRange(cfg, mtx, color, turnsNow, haveBeatsNow);
      best := -1.0;
      ghost var idx := -1;
      for k := 0 to |turnsNow|
        invariant |nextMove| == |nextBestState| > state
        invariant nextMove[..state] == old(nextMove[..state]) && nextBestState[..state] == old(nextBestState[..state])
        invariant Choose(values[..k]) == Pick(best, idx)
        invariant Stored(cfg, mtx, color, turnsNow, haveBeatsNow, nextMove, nextBestState, state, idx)
      {
        best, idx := FirstBestStep(mtx, color, state, turnsNow, haveBeatsNow, values, k, best, idx);
      }
      assert values[..|turnsNow|] == values;
      StoredDone(cfg, mtx, color, turnsNow, haveBeatsNow, nextMove, nextBestState, state, idx);
    }

    /** One pass of the loop of find_first_best_turn over move k. */
    method FirstBestStep(mtx: Grid, color: bool, state: nat, turnsNow: seq<Move>, haveBeatsNow: bool,
                         ghost values: seq<real>, k: nat, best: real, ghost idx: int)
        returns (best': real, ghost idx': int)
      requires ValidBoard(mtx) && Expandable(mtx, turnsNow, haveBeatsNow) && k < |turnsNow|
      requires values == TopValues(Cfg(), mtx, color, turnsNow, haveBeatsNow)
      requires forall i :: 0 <= i < |values| ==> 0.0 <= values[i] <= INF
      requires |nextMove| == |nextBestState| > state
      requires Choose(values[..k]) == Pick(best, idx)
      requires Stored(Cfg(), mtx, color, turnsNow, haveBeatsNow, nextMove, nextBestState, state, idx)
      modifies this`turns, this`haveBeats, this`drawCount, this`nextMove, this`nextBestState
      ensures |nextMove| == |nextBestState| > state
      ensures nextMove[..state] == old(nextMove[..state]) && nextBestState[..state] == old(nextBestState[..state])
      ensures Choose(values[..k + 1]) == Pick(best', idx')
      ensures Stored(Cfg(), mtx, color, turnsNow, haveBeatsNow, nextMove, nextBestState, state, idx')
      decreases Pieces(mtx), 1
    {
      ghost var cfg := Cfg();
      TopValuesAt(cfg, mtx, color, turnsNow, haveBeatsNow, k);
      ChooseStep(values, k, Pick(best, idx));
      ghost var movesBefore, statesBefore := nextMove, nextBestState;
      var score, nextState := FirstBestChild(mtx, color, turnsNow[k], haveBeatsNow, best);
      assert Cfg() == cfg;
      StoredFrame(cfg, mtx, color, turnsNow, haveBeatsNow, movesBefore, statesBefore, nextMove, nextBestState, state, idx);
      assert nextMove[..state] == movesBefore[..state] && nextBestState[..state] == statesBefore[..state] by {
        assert nextMove[..state] == nextMove[..|movesBefore|][..state] && nextBestState[..state] == nextBestState[..|movesBefore|][..state];
      }
      best', idx' := best, idx;
      if score > best {
        var movesAfter, statesAfter := nextMove[state := turnsNow[k]], nextBestState[state := if haveBeatsNow then nextState else -1];
        StoredUpdate(cfg, mtx, color, turnsNow, haveBeatsNow, nextMove, nextBestState, state, k, nextState, movesAfter, statesAfter);
        assert movesAfter[..state] == nextMove[..state] && statesAfter[..state] == nextBestState[..state];
        best' := score;
        nextMove, nextBestState := movesAfter, statesAfter;
        idx' := k;
      }
    }

    /** The score of one move at the top level, searched with alpha = best:
        a capture continues the chain in a new arena state, a simple move
        ends the bot's turn. */
    method FirstBestChild(mtx: Grid, color: bool, turn: Move, haveBeatsNow: bool, best: real)
        returns (score: real, nextState: int)
      requires ValidBoard(mtx) && Fits(turn) && (haveBeatsNow ==> CaptureShape(mtx, turn))
      requires -1.0 <= best <= INF && 0 < |nextMove| == |nextBestState|
      modifies this`turns, this`haveBeats, this`drawCount, this`nextMove, this`nextBestState
      ensures nextState == old(|nextMove|) && |nextMove| == |nextBestState| >= nextState
      ensures nextMove[..nextState] == old(nextMove) && nextBestState[..nextState] == old(nextBestState)
      ensures haveBeatsNow ==> Encodes(nextMove, nextBestState, nextState, ChainAfter(Cfg(), mtx, color, turn))
      ensures score > best <==> TopValue(Cfg(), mtx, color, turn, haveBeatsNow) > best
      ensures score > best ==> score == TopValue(Cfg(), mtx, color, turn, haveBeatsNow)
      decreases Pieces(mtx), 0
    {
      nextState := |nextMove|;
      if haveBeatsNow {
        CaptureEffects(mtx, turn);
        ChainValueInRange(Cfg(), MakeTurn(mtx, turn), color, turn.x2, turn.y2);
        score := FindFirstBestTurn(MakeTurn(mtx, turn), color, turn.x2, turn.y2, nextState, best);
        if optimization != "O0" {
          WindowAbove(score, ChainValue(Cfg(), MakeTurn(mtx, turn), color, turn.x2, turn.y2), best);
        }
      } else {
        ValueInRange(Cfg(), MakeTurn(mtx, turn), !color, 0, -1, -1);
        score := FindBestTurnsRec(MakeTurn(mtx, turn), !color, 0, best, INF + 1.0, -1, -1);
        if optimization != "O0" {
          WindowAbove(score, Value(Cfg(), MakeTurn(mtx, turn), !color, 0, -1, -1), best);
        }
      }
    }

    /** find_best_turns: clear the arena, run the top-level search from the
        moves in `turns`, and read the chain back from state 0, stopping at
        a state with no successor or holding the placeholder. */
    method FindBestTurns(board: Grid, color: bool) returns (res: seq<Move>)
      requires ValidBoard(board) && Expandable(board, turns, haveBeats)
      modifies this`turns, this`haveBeats, this`drawCount, this`nextMove, this`nextBestState
      ensures var chain := DecisionChain(Cfg(), board, color, old(turns), old(haveBeats));
              res == if chain == [] then [Sentinel] else chain
      ensures Encodes(nextMove, nextBestState, 0, DecisionChain(Cfg(), board, color, old(turns), old(haveBeats)))
    {
      nextBestState := [];
      nextMove := [];
      var _ := FindFirstBestTurn(board, color, -1, -1, 0, -1.0);
      ghost var chain := DecisionChain(Cfg(), board, color, old(turns), old(haveBeats));
      var cur := 0;
      res := [nextMove[cur]];
      cur := nextBestState[cur];
      ghost var rest := if chain == [] then [] else chain[1..];
      while cur != -1 && nextMove[cur].x != -1
        invariant cur == -1 ==> rest == []
        invariant cur != -1 ==> Encodes(nextMove, nextBestState, cur, rest)
        invariant res + rest == if chain == [] then [Sentinel] else chain
        decreases |rest|
      {
        assert rest != [];
        res := res + [nextMove[cur]];
        cur := nextBestState[cur];
        assert res + rest[1..] == (res[..|res| - 1] + rest[..1]) + rest[1..];
        rest := rest[1..];
      }
      assert rest == [];
    }
  }
}
