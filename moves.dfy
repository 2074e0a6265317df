/** Reference definitions of the move generator: the moves of one square and
    the moves of one side, in the order the generator produces them before
    the shuffle, with lemmas that characterise them rule by rule. */
module Moves {
  import opened Board

  /** A move list and whether it is a list of captures (`turns`, `have_beats`). */
  datatype Turns = Turns(moves: seq<Move>, beats: bool)

  predicate Dir(d: int) { d == 1 || d == -1 }

  /** The coordinate k steps from x in direction d. */
  function Toward(x: int, d: int, k: int): int {
    if d == 1 then x + k else x - k
  }

  function Abs(z: int): nat { if z < 0 then -z else z }

  /** Cell code c belongs to the other side than a piece of code t. */
  predicate Opposes(c: int, t: int) { c != Empty && c % 2 != t % 2 }

  function IsMan(t: int): bool { t == WhiteMan || t == BlackMan }

  // ---------------------------------------------------------------------
  // Man captures: a jump over a neighbouring diagonal cell, in all four
  // directions, onto an empty cell two rows and two columns away.

  function ManJump(b: Grid, x: int, y: int, t: int, i: int, j: int): seq<Move>
    requires ValidBoard(b) && OnBoard(x, y) && (i == x - 2 || i == x + 2) && (j == y - 2 || j == y + 2)
  {
    if !OnBoard(i, j) then []
    else
      var xb, yb := (x + i) / 2, (y + j) / 2;
      if b[i][j] != Empty || b[xb][yb] == Empty || b[xb][yb] % 2 == t % 2 then []
      else [Move(x, y, i, j, xb, yb)]
  }

  function ManCaptures(b: Grid, x: int, y: int, t: int): seq<Move>
    requires ValidBoard(b) && OnBoard(x, y)
  {
    ManJump(b, x, y, t, x - 2, y - 2) + ManJump(b, x, y, t, x - 2, y + 2)
      + ManJump(b, x, y, t, x + 2, y - 2) + ManJump(b, x, y, t, x + 2, y + 2)
  }

  /** The man-capture rule, stated on the move alone. */
  predicate IsManCapture(b: Grid, x: int, y: int, t: int, m: Move)
    requires ValidBoard(b) && OnBoard(x, y)
  {
    && m.x == x && m.y == y
    && Abs(m.xb - x) == 1 && Abs(m.yb - y) == 1
    && m.x2 == x + 2 * (m.xb - x) && m.y2 == y + 2 * (m.yb - y)
    && OnBoard(m.x2, m.y2)
    && b[m.x2][m.y2] == Empty && Opposes(b[m.xb][m.yb], t)
  }

  lemma ManCapturesExactly(b: Grid, x: int, y: int, t: int, m: Move)
    requires ValidBoard(b) && OnBoard(x, y)
    ensures m in ManCaptures(b, x, y, t) <==> IsManCapture(b, x, y, t, m)
  {
    if IsManCapture(b, x, y, t, m) {
      if m.x2 == x - 2 && m.y2 == y - 2 {
        assert m in ManJump(b, x, y, t, x - 2, y - 2);
      } else if m.x2 == x - 2 {
        assert m in ManJump(b, x, y, t, x - 2, y + 2);
      } else if m.y2 == y - 2 {
        assert m in ManJump(b, x, y, t, x + 2, y - 2);
      } else {
        assert m in ManJump(b, x, y, t, x + 2, y + 2);
      }
    }
  }

  // ---------------------------------------------------------------------
  // King captures: walk along a diagonal; the first opposing piece is the
  // captured one, every empty cell after it (up to the next piece or the
  // edge) is a landing cell; an own piece or a second opposing piece ends
  // the walk. `hit` is the step of the captured piece, or -1.

  function RayCaptures(b: Grid, x: int, y: int, t: int, di: int, dj: int, s: nat, hit: int): seq<Move>
    requires ValidBoard(b) && OnBoard(x, y) && Dir(di) && Dir(dj) && 1 <= s && -1 <= hit < s
    decreases 8 - s
  {
    var i2, j2 := Toward(x, di, s), Toward(y, dj, s);
    if !OnBoard(i2, j2) then []
    else if b[i2][j2] != Empty && (b[i2][j2] % 2 == t % 2 || hit != -1) then []
    else
      var h := if b[i2][j2] != Empty then s else hit;
      (if h != -1 && h != s then [Move(x, y, i2, j2, Toward(x, di, h), Toward(y, dj, h))] else [])
        + RayCaptures(b, x, y, t, di, dj, s + 1, h)
  }

  function KingCaptures(b: Grid, x: int, y: int, t: int): seq<Move>
    requires ValidBoard(b) && OnBoard(x, y)
  {
    RayCaptures(b, x, y, t, -1, -1, 1, -1) + RayCaptures(b, x, y, t, -1, 1, 1, -1)
      + RayCaptures(b, x, y, t, 1, -1, 1, -1) + RayCaptures(b, x, y, t, 1, 1, 1, -1)
  }

  /** A king capture in direction (di,dj): exactly one piece, an opposing one,
      stands on the diagonal between the king and the landing cell, and the
      landing cell is empty. */
  predicate IsRayCapture(b: Grid, x: int, y: int, t: int, di: int, dj: int, m: Move)
    requires ValidBoard(b) && OnBoard(x, y) && Dir(di) && Dir(dj)
  {
    var k1, k2 := Abs(m.xb - x), Abs(m.x2 - x);
    && m.x == x && m.y == y
    && 0 < k1 < k2
    && m.x2 == Toward(x, di, k2) && m.y2 == Toward(y, dj, k2) && OnBoard(m.x2, m.y2)
    && m.xb == Toward(x, di, k1) && m.yb == Toward(y, dj, k1)
    && Opposes(b[m.xb][m.yb], t)
    && forall k :: 0 < k <= k2 && k != k1 ==> b[Toward(x, di, k)][Toward(y, dj, k)] == Empty
  }

  predicate IsKingCapture(b: Grid, x: int, y: int, t: int, m: Move)
    requires ValidBoard(b) && OnBoard(x, y)
  {
    || IsRayCapture(b, x, y, t, -1, -1, m) || IsRayCapture(b, x, y, t, -1, 1, m)
    || IsRayCapture(b, x, y, t, 1, -1, m) || IsRayCapture(b, x, y, t, 1, 1, m)
  }

  /** What the walk has seen before step s: empty cells only, or (hit != -1)
      one opposing piece at step `hit` and otherwise empty cells. */
  predicate ScannedSoFar(b: Grid, x: int, y: int, t: int, di: int, dj: int, s: nat, hit: int)
    requires ValidBoard(b) && OnBoard(x, y) && Dir(di) && Dir(dj) && 1 <= s
    requires OnBoard(Toward(x, di, s - 1), Toward(y, dj, s - 1))
  {
    && (hit != -1 ==> 0 < hit < s && Opposes(b[Toward(x, di, hit)][Toward(y, dj, hit)], t))
    && forall k :: 0 < k < s && k != hit ==> b[Toward(x, di, k)][Toward(y, dj, k)] == Empty
  }

  /** Every move the walk lists from step s on is a king capture landing at step s or later. */
  lemma {:induction false} RayCapturesSound(b: Grid, x: int, y: int, t: int, di: int, dj: int, s: nat, hit: int, m: Move)
    requires ValidBoard(b) && OnBoard(x, y) && Dir(di) && Dir(dj) && 1 <= s && -1 <= hit < s
    requires OnBoard(Toward(x, di, s - 1), Toward(y, dj, s - 1))
    requires ScannedSoFar(b, x, y, t, di, dj, s, hit)
    requires m in RayCaptures(b, x, y, t, di, dj, s, hit)
    ensures IsRayCapture(b, x, y, t, di, dj, m) && Abs(m.x2 - x) >= s
    decreases 8 - s
  {
    var i2, j2 := Toward(x, di, s), Toward(y, dj, s);
    var h := if b[i2][j2] != Empty then s else hit;
    assert ScannedSoFar(b, x, y, t, di, dj, s + 1, h);
    if m in RayCaptures(b, x, y, t, di, dj, s + 1, h) {
      RayCapturesSound(b, x, y, t, di, dj, s + 1, h, m);
    } else {
      assert m == Move(x, y, i2, j2, Toward(x, di, h), Toward(y, dj, h));
      assert b[i2][j2] == Empty;
    }
  }

  /** Every king capture landing at step s or later is listed by the walk from step s. */
  lemma {:induction false} RayCapturesComplete(b: Grid, x: int, y: int, t: int, di: int, dj: int, s: nat, hit: int, m: Move)
    requires ValidBoard(b) && OnBoard(x, y) && Dir(di) && Dir(dj) && 1 <= s && -1 <= hit < s
    requires OnBoard(Toward(x, di, s - 1), Toward(y, dj, s - 1))
    requires ScannedSoFar(b, x, y, t, di, dj, s, hit)
    requires IsRayCapture(b, x, y, t, di, dj, m) && Abs(m.x2 - x) >= s
    ensures m in RayCaptures(b, x, y, t, di, dj, s, hit)
    decreases 8 - s
  {
    var i2, j2 := Toward(x, di, s), Toward(y, dj, s);
    var k1, k2 := Abs(m.xb - x), Abs(m.x2 - x);
    assert OnBoard(i2, j2);
    if k1 != s {
      assert b[i2][j2] == Empty;
    }
    var h := if b[i2][j2] != Empty then s else hit;
    assert h == (if k1 <= s then k1 else -1);
    assert ScannedSoFar(b, x, y, t, di, dj, s + 1, h);
    var here := if h != -1 && h != s then [Move(x, y, i2, j2, Toward(x, di, h), Toward(y, dj, h))] else [];
    var rest := RayCaptures(b, x, y, t, di, dj, s + 1, h);
    assert RayCaptures(b, x, y, t, di, dj, s, hit) == here + rest;
    if k2 != s {
      RayCapturesComplete(b, x, y, t, di, dj, s + 1, h, m);
      assert m in rest;
    } else {
      assert m in here;
    }
  }

  lemma RayCapturesBothWays(b: Grid, x: int, y: int, t: int, di: int, dj: int, m: Move)
    requires ValidBoard(b) && OnBoard(x, y) && Dir(di) && Dir(dj)
    ensures m in RayCaptures(b, x, y, t, di, dj, 1, -1) <==> IsRayCapture(b, x, y, t, di, dj, m)
  {
    if m in RayCaptures(b, x, y, t, di, dj, 1, -1) {
      RayCapturesSound(b, x, y, t, di, dj, 1, -1, m);
    }
    if IsRayCapture(b, x, y, t, di, dj, m) {
      RayCapturesComplete(b, x, y, t, di, dj, 1, -1, m);
    }
  }

  lemma KingCapturesExactly(b: Grid, x: int, y: int, t: int, m: Move)
    requires ValidBoard(b) && OnBoard(x, y)
    ensures m in KingCaptures(b, x, y, t) <==> IsKingCapture(b, x, y, t, m)
  {
    RayCapturesBothWays(b, x, y, t, -1, -1, m);
    RayCapturesBothWays(b, x, y, t, -1, 1, m);
    RayCapturesBothWays(b, x, y, t, 1, -1, m);
    RayCapturesBothWays(b, x, y, t, 1, 1, m);
  }

  // ---------------------------------------------------------------------
  // Simple moves: a man steps one row forward (white toward row 0, black
  // toward row 7) onto an empty diagonal neighbour; a king slides along a
  // diagonal over empty cells up to the first piece or the edge.

  function ManStep(b: Grid, x: int, y: int, i: int, j: int): seq<Move>
    requires ValidBoard(b)
  {
    if !OnBoard(i, j) || b[i][j] != Empty then [] else [SimpleMove(x, y, i, j)]
  }

  /** The row a man of code t moves to from row x. */
  function Forward(t: int, x: int): int {
    if t % 2 == 1 then x - 1 else x + 1
  }

  function ManSteps(b: Grid, x: int, y: int, t: int): seq<Move>
    requires ValidBoard(b)
  {
    ManStep(b, x, y, Forward(t, x), y - 1) + ManStep(b, x, y, Forward(t, x), y + 1)
  }

  predicate IsManStep(b: Grid, x: int, y: int, t: int, m: Move)
    requires ValidBoard(b)
  {
    && m == SimpleMove(x, y, m.x2, m.y2)
    && m.x2 == Forward(t, x) && Abs(m.y2 - y) == 1
    && OnBoard(m.x2, m.y2) && b[m.x2][m.y2] == Empty
  }

  lemma ManStepsExactly(b: Grid, x: int, y: int, t: int, m: Move)
    requires ValidBoard(b)
    ensures m in ManSteps(b, x, y, t) <==> IsManStep(b, x, y, t, m)
  {
    if IsManStep(b, x, y, t, m) {
      if m.y2 == y - 1 {
        assert m in ManStep(b, x, y, Forward(t, x), y - 1);
      } else {
        assert m in ManStep(b, x, y, Forward(t, x), y + 1);
      }
    }
  }

  function RaySteps(b: Grid, x: int, y: int, di: int, dj: int, s: nat): seq<Move>
    requires ValidBoard(b) && OnBoard(x, y) && Dir(di) && Dir(dj) && 1 <= s
    decreases 8 - s
  {
    var i2, j2 := Toward(x, di, s), Toward(y, dj, s);
    if !OnBoard(i2, j2) || b[i2][j2] != Empty then []
    else [SimpleMove(x, y, i2, j2)] + RaySteps(b, x, y, di, dj, s + 1)
  }

  function KingSteps(b: Grid, x: int, y: int): seq<Move>
    requires ValidBoard(b) && OnBoard(x, y)
  {
    RaySteps(b, x, y, -1, -1, 1) + RaySteps(b, x, y, -1, 1, 1)
      + RaySteps(b, x, y, 1, -1, 1) + RaySteps(b, x, y, 1, 1, 1)
  }

  /** A king slide in direction (di,dj): every cell from the king to the
      destination, the destination included, is empty. */
  predicate IsRayStep(b: Grid, x: int, y: int, di: int, dj: int, m: Move)
    requires ValidBoard(b) && OnBoard(x, y) && Dir(di) && Dir(dj)
  {
    var k2 := Abs(m.x2 - x);
    && m == SimpleMove(x, y, m.x2, m.y2)
    && 0 < k2
    && m.x2 == Toward(x, di, k2) && m.y2 == Toward(y, dj, k2) && OnBoard(m.x2, m.y2)
    && forall k :: 0 < k <= k2 ==> b[Toward(x, di, k)][Toward(y, dj, k)] == Empty
  }

  predicate IsKingStep(b: Grid, x: int, y: int, m: Move)
    requires ValidBoard(b) && OnBoard(x, y)
  {
    || IsRayStep(b, x, y, -1, -1, m) || IsRayStep(b, x, y, -1, 1, m)
    || IsRayStep(b, x, y, 1, -1, m) || IsRayStep(b, x, y, 1, 1, m)
  }

  lemma {:induction false} RayStepsExactly(b: Grid, x: int, y: int, di: int, dj: int, s: nat, m: Move)
    requires ValidBoard(b) && OnBoard(x, y) && Dir(di) && Dir(dj) && 1 <= s
    requires OnBoard(Toward(x, di, s - 1), Toward(y, dj, s - 1))
    requires forall k :: 0 < k < s ==> b[Toward(x, di, k)][Toward(y, dj, k)] == Empty
    ensures m in RaySteps(b, x, y, di, dj, s) <==> IsRayStep(b, x, y, di, dj, m) && Abs(m.x2 - x) >= s
    decreases 8 - s
  {
    var i2, j2 := Toward(x, di, s), Toward(y, dj, s);
    var k2 := Abs(m.x2 - x);
    if OnBoard(i2, j2) && b[i2][j2] == Empty {
      RayStepsExactly(b, x, y, di, dj, s + 1, m);
    }
  }

  lemma KingStepsExactly(b: Grid, x: int, y: int, m: Move)
    requires ValidBoard(b) && OnBoard(x, y)
    ensures m in KingSteps(b, x, y) <==> IsKingStep(b, x, y, m)
  {
    RayStepsExactly(b, x, y, -1, -1, 1, m);
    RayStepsExactly(b, x, y, -1, 1, 1, m);
    RayStepsExactly(b, x, y, 1, -1, 1, m);
    RayStepsExactly(b, x, y, 1, 1, 1, m);
  }

  // ---------------------------------------------------------------------
  // One square.

  /** The captures of the piece on (x,y): codes 1 and 2 capture as men, the others as kings. */
  function Captures(b: Grid, x: int, y: int): seq<Move>
    requires ValidBoard(b) && OnBoard(x, y)
  {
    var t := b[x][y];
    if IsMan(t) then ManCaptures(b, x, y, t) else KingCaptures(b, x, y, t)
  }

  /** The simple moves of the piece on (x,y). */
  function Steps(b: Grid, x: int, y: int): seq<Move>
    requires ValidBoard(b) && OnBoard(x, y)
  {
    var t := b[x][y];
    if IsMan(t) then ManSteps(b, x, y, t) else KingSteps(b, x, y)
  }

  /** The moves of the piece on (x,y): its captures if it has any, otherwise
      its simple moves. */
  function SquareTurns(b: Grid, x: int, y: int): Turns
    requires ValidBoard(b) && OnBoard(x, y) && b[x][y] != Empty
  {
    var captures := Captures(b, x, y);
    if captures != [] then Turns(captures, true) else Turns(Steps(b, x, y), false)
  }

  predicate IsCaptureOf(b: Grid, x: int, y: int, m: Move)
    requires ValidBoard(b) && OnBoard(x, y)
  {
    if IsMan(b[x][y]) then IsManCapture(b, x, y, b[x][y], m) else IsKingCapture(b, x, y, b[x][y], m)
  }

  predicate IsStepOf(b: Grid, x: int, y: int, m: Move)
    requires ValidBoard(b) && OnBoard(x, y)
  {
    if IsMan(b[x][y]) then IsManStep(b, x, y, b[x][y], m) else IsKingStep(b, x, y, m)
  }

  lemma CapturesExactly(b: Grid, x: int, y: int, m: Move)
    requires ValidBoard(b) && OnBoard(x, y)
    ensures m in Captures(b, x, y) <==> IsCaptureOf(b, x, y, m)
  {
    if IsMan(b[x][y]) {
      ManCapturesExactly(b, x, y, b[x][y], m);
    } else {
      KingCapturesExactly(b, x, y, b[x][y], m);
    }
  }

  lemma StepsExactly(b: Grid, x: int, y: int, m: Move)
    requires ValidBoard(b) && OnBoard(x, y)
    ensures m in Steps(b, x, y) <==> IsStepOf(b, x, y, m)
  {
    if IsMan(b[x][y]) {
      ManStepsExactly(b, x, y, b[x][y], m);
    } else {
      KingStepsExactly(b, x, y, m);
    }
  }

  /** Capture exclusivity for one square: the flag is set exactly when the
      piece has a capture, and then the list is its captures; otherwise the
      list is its simple moves. */
  lemma SquareTurnsExactly(b: Grid, x: int, y: int, m: Move)
    requires ValidBoard(b) && OnBoard(x, y) && b[x][y] != Empty
    ensures SquareTurns(b, x, y).beats <==> exists c :: IsCaptureOf(b, x, y, c)
    ensures SquareTurns(b, x, y).beats ==> (m in SquareTurns(b, x, y).moves <==> IsCaptureOf(b, x, y, m))
    ensures !SquareTurns(b, x, y).beats ==> (m in SquareTurns(b, x, y).moves <==> IsStepOf(b, x, y, m))
  {
    CapturesExactly(b, x, y, m);
    StepsExactly(b, x, y, m);
    var captures := Captures(b, x, y);
    if captures != [] {
      CapturesExactly(b, x, y, captures[0]);
    } else {
      forall c ensures !IsCaptureOf(b, x, y, c) {
        CapturesExactly(b, x, y, c);
      }
    }
  }

  /** Every listed move starts on (x,y) and fits the board; captures have the
      shape of a capture (distinct cells, a piece jumped, an empty landing
      cell) and simple moves go to an empty cell other than the origin. */
  predicate WellShaped(b: Grid, x: int, y: int, m: Move, capture: bool)
    requires ValidBoard(b)
  {
    && m.x == x && m.y == y && Fits(m) && m.IsCapture() == capture
    && (capture ==> CaptureShape(b, m) && Opposes(b[m.xb][m.yb], b[x][y]))
    && (!capture ==> (m.x2, m.y2) != (x, y) && b[m.x2][m.y2] == Empty)
  }

  lemma {:induction false} RayCapturesShape(b: Grid, x: int, y: int, t: int, di: int, dj: int, s: nat, hit: int)
    requires ValidBoard(b) && OnBoard(x, y) && Dir(di) && Dir(dj) && 1 <= s && -1 <= hit < s
    requires b[x][y] == t && t != Empty
    requires hit != -1 ==>
               0 < hit && OnBoard(Toward(x, di, hit), Toward(y, dj, hit)) &&
               Opposes(b[Toward(x, di, hit)][Toward(y, dj, hit)], t)
    ensures forall m :: m in RayCaptures(b, x, y, t, di, dj, s, hit) ==> WellShaped(b, x, y, m, true)
    decreases 8 - s
  {
    var i2, j2 := Toward(x, di, s), Toward(y, dj, s);
    if OnBoard(i2, j2) && !(b[i2][j2] != Empty && (b[i2][j2] % 2 == t % 2 || hit != -1)) {
      var h := if b[i2][j2] != Empty then s else hit;
      RayCapturesShape(b, x, y, t, di, dj, s + 1, h);
    }
  }

  lemma {:induction false} RayStepsShape(b: Grid, x: int, y: int, di: int, dj: int, s: nat)
    requires ValidBoard(b) && OnBoard(x, y) && Dir(di) && Dir(dj) && 1 <= s
    ensures forall m :: m in RaySteps(b, x, y, di, dj, s) ==> WellShaped(b, x, y, m, false)
    decreases 8 - s
  {
    var i2, j2 := Toward(x, di, s), Toward(y, dj, s);
    if OnBoard(i2, j2) && b[i2][j2] == Empty {
      RayStepsShape(b, x, y, di, dj, s + 1);
    }
  }

  lemma CapturesShape(b: Grid, x: int, y: int)
    requires ValidBoard(b) && OnBoard(x, y) && b[x][y] != Empty
    ensures forall m :: m in Captures(b, x, y) ==> WellShaped(b, x, y, m, true)
  {
    var t := b[x][y];
    if IsMan(t) {
      forall m | m in Captures(b, x, y) ensures WellShaped(b, x, y, m, true) {
        ManCapturesExactly(b, x, y, t, m);
      }
    } else {
      RayCapturesShape(b, x, y, t, -1, -1, 1, -1);
      RayCapturesShape(b, x, y, t, -1, 1, 1, -1);
      RayCapturesShape(b, x, y, t, 1, -1, 1, -1);
      RayCapturesShape(b, x, y, t, 1, 1, 1, -1);
    }
  }

  lemma StepsShape(b: Grid, x: int, y: int)
    requires ValidBoard(b) && OnBoard(x, y) && b[x][y] != Empty
    ensures forall m :: m in Steps(b, x, y) ==> WellShaped(b, x, y, m, false)
  {
    if !IsMan(b[x][y]) {
      RayStepsShape(b, x, y, -1, -1, 1);
      RayStepsShape(b, x, y, -1, 1, 1);
      RayStepsShape(b, x, y, 1, -1, 1);
      RayStepsShape(b, x, y, 1, 1, 1);
    }
  }

  lemma SquareTurnsShape(b: Grid, x: int, y: int)
    requires ValidBoard(b) && OnBoard(x, y) && b[x][y] != Empty
    ensures forall m :: m in SquareTurns(b, x, y).moves ==> WellShaped(b, x, y, m, SquareTurns(b, x, y).beats)
  {
    CapturesShape(b, x, y);
    StepsShape(b, x, y);
  }

  // ---------------------------------------------------------------------
  // One side: the squares are visited row by row, column by column; once a
  // capture is found only capturing squares contribute.

  /** The moves of the squares (i,0..n-1) owned by `color` whose capture flag is `caps`. */
  function RowTurns(b: Grid, color: bool, i: int, n: nat, caps: bool): seq<Move>
    requires ValidBoard(b) && 0 <= i < 8 && n <= 8
  {
    if n == 0 then [] else RowTurns(b, color, i, n - 1, caps) + Contribution(b, color, i, n - 1, caps)
  }

  /** The moves square (i,j) adds to a side's list under capture flag `caps`. */
  function Contribution(b: Grid, color: bool, i: int, j: int, caps: bool): seq<Move>
    requires ValidBoard(b) && OnBoard(i, j)
  {
    if Owns(color, b[i][j]) && SquareTurns(b, i, j).beats == caps then SquareTurns(b, i, j).moves else []
  }

  /** The same over rows 0..n-1. */
  function GridTurns(b: Grid, color: bool, n: nat, caps: bool): seq<Move>
    requires ValidBoard(b) && n <= 8
  {
    if n == 0 then [] else GridTurns(b, color, n - 1, caps) + RowTurns(b, color, n - 1, 8, caps)
  }

  /** Some piece of `color` has a capture. */
  predicate ColorHasCapture(b: Grid, color: bool)
    requires ValidBoard(b)
  {
    GridTurns(b, color, 8, true) != []
  }

  /** The moves of side `color` (before the shuffle) and whether they are captures. */
  function ColorTurns(b: Grid, color: bool): Turns
    requires ValidBoard(b)
  {
    var beats := ColorHasCapture(b, color);
    Turns(GridTurns(b, color, 8, beats), beats)
  }

  /** A move listed for row i comes from one of its squares. */
  lemma {:induction false} RowTurnsSource(b: Grid, color: bool, i: int, n: nat, caps: bool, m: Move) returns (j: int)
    requires ValidBoard(b) && 0 <= i < 8 && n <= 8 && m in RowTurns(b, color, i, n, caps)
    ensures 0 <= j < n && m in Contribution(b, color, i, j, caps)
  {
    var front := RowTurns(b, color, i, n - 1, caps);
    if m in front {
      j := RowTurnsSource(b, color, i, n - 1, caps, m);
    } else {
      j := n - 1;
    }
  }

  /** Every move a square of row i contributes is listed for the row. */
  lemma {:induction false} RowTurnsCover(b: Grid, color: bool, i: int, n: nat, caps: bool, m: Move, j: int)
    requires ValidBoard(b) && 0 <= i < 8 && n <= 8 && 0 <= j < n && m in Contribution(b, color, i, j, caps)
    ensures m in RowTurns(b, color, i, n, caps)
  {
    var front, last := RowTurns(b, color, i, n - 1, caps), Contribution(b, color, i, n - 1, caps);
    assert RowTurns(b, color, i, n, caps) == front + last;
    if j < n - 1 {
      RowTurnsCover(b, color, i, n - 1, caps, m, j);
      assert m in front;
    } else {
      assert m in last;
    }
  }

  /** A move listed over rows 0..n-1 comes from one of their squares. */
  lemma {:induction false} GridTurnsSource(b: Grid, color: bool, n: nat, caps: bool, m: Move) returns (i: int, j: int)
    requires ValidBoard(b) && n <= 8 && m in GridTurns(b, color, n, caps)
    ensures 0 <= i < n && 0 <= j < 8 && m in Contribution(b, color, i, j, caps)
  {
    var front := GridTurns(b, color, n - 1, caps);
    if m in front {
      i, j := GridTurnsSource(b, color, n - 1, caps, m);
    } else {
      i := n - 1;
      j := RowTurnsSource(b, color, n - 1, 8, caps, m);
    }
  }

  /** Every move a square of rows 0..n-1 contributes is listed. */
  lemma {:induction false} GridTurnsCover(b: Grid, color: bool, n: nat, caps: bool, m: Move, i: int, j: int)
    requires ValidBoard(b) && n <= 8 && 0 <= i < n && 0 <= j < 8 && m in Contribution(b, color, i, j, caps)
    ensures m in GridTurns(b, color, n, caps)
  {
    if i < n - 1 {
      GridTurnsCover(b, color, n - 1, caps, m, i, j);
    } else {
      RowTurnsCover(b, color, i, 8, caps, m, j);
    }
  }

  /** The side has a capture exactly when one of its pieces has a capture. */
  lemma ColorHasCaptureExactly(b: Grid, color: bool)
    requires ValidBoard(b)
    ensures ColorHasCapture(b, color) <==>
            exists i, j :: OnBoard(i, j) && Owns(color, b[i][j]) && SquareTurns(b, i, j).beats
  {
    if ColorHasCapture(b, color) {
      var m := GridTurns(b, color, 8, true)[0];
      var i, j := GridTurnsSource(b, color, 8, true, m);
      assert OnBoard(i, j) && Owns(color, b[i][j]) && SquareTurns(b, i, j).beats;
    } else if exists i, j :: OnBoard(i, j) && Owns(color, b[i][j]) && SquareTurns(b, i, j).beats {
      var i, j :| OnBoard(i, j) && Owns(color, b[i][j]) && SquareTurns(b, i, j).beats;
      var m := SquareTurns(b, i, j).moves[0];
      GridTurnsCover(b, color, 8, true, m, i, j);
      assert false;
    }
  }

  /** Mandatory capture for a side, membership: a move is listed exactly when
      it is a move of a piece of that side whose capture flag agrees with the
      side's. */
  lemma ColorTurnsMembers(b: Grid, color: bool, m: Move)
    requires ValidBoard(b)
    ensures m in ColorTurns(b, color).moves <==>
            exists i, j :: OnBoard(i, j) && Owns(color, b[i][j]) && m in SquareTurns(b, i, j).moves
                           && SquareTurns(b, i, j).beats == ColorHasCapture(b, color)
  {
    var beats := ColorHasCapture(b, color);
    if m in ColorTurns(b, color).moves {
      var i, j := GridTurnsSource(b, color, 8, beats, m);
      assert OnBoard(i, j) && Owns(color, b[i][j]) && m in SquareTurns(b, i, j).moves && SquareTurns(b, i, j).beats == beats;
    }
    if exists i, j :: OnBoard(i, j) && Owns(color, b[i][j]) && m in SquareTurns(b, i, j).moves
                      && SquareTurns(b, i, j).beats == beats {
      var i, j :| OnBoard(i, j) && Owns(color, b[i][j]) && m in SquareTurns(b, i, j).moves
                  && SquareTurns(b, i, j).beats == beats;
      GridTurnsCover(b, color, 8, beats, m, i, j);
    }
  }

  /** Mandatory capture for a side: when the side has a capture every listed
      move is a capture, otherwise every listed move is a simple move. */
  lemma MandatoryCapture(b: Grid, color: bool)
    requires ValidBoard(b)
    ensures ColorTurns(b, color).beats ==> forall c :: c in ColorTurns(b, color).moves ==> c.IsCapture()
    ensures !ColorTurns(b, color).beats ==> forall c :: c in ColorTurns(b, color).moves ==> !c.IsCapture()
  {
    ColorTurnsShape(b, color);
  }

  /** Every move of a side starts on a piece of that side and has the shape
      of its kind (capture or simple move). */
  lemma ColorTurnsShape(b: Grid, color: bool)
    requires ValidBoard(b)
    ensures forall m :: m in ColorTurns(b, color).moves ==>
              Fits(m) && Owns(color, b[m.x][m.y]) && WellShaped(b, m.x, m.y, m, ColorTurns(b, color).beats)
  {
    var beats := ColorHasCapture(b, color);
    forall m | m in ColorTurns(b, color).moves
      ensures Fits(m) && Owns(color, b[m.x][m.y]) && WellShaped(b, m.x, m.y, m, beats)
    {
      var i, j := GridTurnsSource(b, color, 8, beats, m);
      SquareTurnsShape(b, i, j);
    }
  }
}
