/** What the search computes, as functions: the minimax value of a node
    (`find_best_turns_rec` without cut-offs), the value the top-level
    procedure gives a position inside the bot's capture chain, and the chain
    of moves it selects (`find_first_best_turn` followed by the
    reconstruction in `find_best_turns`). */
module Search {
  import opened Board
  import opened Moves
  import opened Evaluation

  /** The configuration the search reads: the maximum depth and whether the
      scoring mode is "NumberAndPotential". */
  datatype Config = Config(maxDepth: nat, potential: bool)

  /** The side calc_score evaluates for at depth `depth` when `color` is to
      move there (`depth % 2 == color`). */
  function FirstBotColor(depth: nat, color: bool): bool {
    (depth % 2 == 1) == color
  }

  function Max(a: real, b: real): real { if a < b then b else a }
  function Min(a: real, b: real): real { if a < b then a else b }

  /** The largest of `init` and the elements of s. */
  function MaxOf(init: real, s: seq<real>): real {
    if s == [] then init else Max(MaxOf(init, s[..|s| - 1]), s[|s| - 1])
  }

  /** The smallest of `init` and the elements of s. */
  function MinOf(init: real, s: seq<real>): real {
    if s == [] then init else Min(MinOf(init, s[..|s| - 1]), s[|s| - 1])
  }

  lemma {:induction false} MaxOfIsMaximum(init: real, s: seq<real>)
    ensures MaxOf(init, s) >= init && forall i :: 0 <= i < |s| ==> MaxOf(init, s) >= s[i]
    ensures MaxOf(init, s) == init || MaxOf(init, s) in s
  {
    if s != [] {
      MaxOfIsMaximum(init, s[..|s| - 1]);
      assert forall i :: 0 <= i < |s| - 1 ==> s[..|s| - 1][i] == s[i];
    }
  }

  lemma {:induction false} MinOfIsMinimum(init: real, s: seq<real>)
    ensures MinOf(init, s) <= init && forall i :: 0 <= i < |s| ==> MinOf(init, s) <= s[i]
    ensures MinOf(init, s) == init || MinOf(init, s) in s
  {
    if s != [] {
      MinOfIsMinimum(init, s[..|s| - 1]);
      assert forall i :: 0 <= i < |s| - 1 ==> s[..|s| - 1][i] == s[i];
    }
  }

  /** Maximum and minimum depend only on which values occur, not on their order. */
  lemma ExtremaIgnoreOrder(init: real, s1: seq<real>, s2: seq<real>)
    requires forall v :: v in s1 <==> v in s2
    ensures MaxOf(init, s1) == MaxOf(init, s2)
    ensures MinOf(init, s1) == MinOf(init, s2)
  {
    MaxOfIsMaximum(init, s1);
    MaxOfIsMaximum(init, s2);
    MinOfIsMinimum(init, s1);
    MinOfIsMinimum(init, s2);
  }

  /** The moves a node expands: the continuing piece's in a capture chain
      (x != -1), otherwise all of the moves of `color`. */
  function NodeTurns(b: Grid, color: bool, x: int, y: int): Turns
    requires ValidBoard(b) && (x == -1 || (OnBoard(x, y) && b[x][y] != Empty))
  {
    if x != -1 then SquareTurns(b, x, y) else ColorTurns(b, color)
  }

  /** A move list the recursion can follow: every move fits the board and,
      in a capture list, has the shape of a capture. */
  predicate Expandable(b: Grid, moves: seq<Move>, captures: bool)
    requires ValidBoard(b)
  {
    forall m :: m in moves ==> Fits(m) && (captures ==> CaptureShape(b, m))
  }

  lemma NodeTurnsExpandable(b: Grid, color: bool, x: int, y: int)
    requires ValidBoard(b) && (x == -1 || (OnBoard(x, y) && b[x][y] != Empty))
    ensures Expandable(b, NodeTurns(b, color, x, y).moves, NodeTurns(b, color, x, y).beats)
  {
    if x != -1 {
      SquareTurnsShape(b, x, y);
    } else {
      ColorTurnsShape(b, color);
    }
  }

  /** The minimax value of a node as find_best_turns_rec computes it without
      cut-offs: the score at the maximum depth; the end of a capture chain
      passes the move to the other side one level deeper; a side without
      moves scores 0 at odd depth and INF at even depth; otherwise the
      maximum (odd depth) or minimum (even depth) of the children's values,
      a capture continuing at the same depth with the same side. */
  function Value(cfg: Config, b: Grid, color: bool, depth: nat, x: int, y: int): real
    requires ValidBoard(b) && depth <= cfg.maxDepth
    requires x == -1 || (OnBoard(x, y) && b[x][y] != Empty)
    decreases cfg.maxDepth - depth, Pieces(b), 2, 0
  {
    if depth == cfg.maxDepth then Score(b, FirstBotColor(depth, color), cfg.potential)
    else
      var turns := NodeTurns(b, color, x, y);
      if !turns.beats && x != -1 then Value(cfg, b, !color, depth + 1, -1, -1)
      else if turns.moves == [] then (if depth % 2 == 1 then 0.0 else INF)
      else
        NodeTurnsExpandable(b, color, x, y);
        var values := ChildValues(cfg, b, color, depth, turns.moves, turns.beats);
        NodeValue(depth % 2 == 1, values)
  }

  /** The values of the children reached by `moves`, in order. */
  function ChildValues(cfg: Config, b: Grid, color: bool, depth: nat, moves: seq<Move>, captures: bool): (r: seq<real>)
    requires ValidBoard(b) && depth < cfg.maxDepth && Expandable(b, moves, captures)
    ensures |r| == |moves|
    decreases cfg.maxDepth - depth, Pieces(b), 1, |moves|
  {
    if moves == [] then []
    else
      ChildValues(cfg, b, color, depth, moves[..|moves| - 1], captures)
        + [ChildValue(cfg, b, color, depth, moves[|moves| - 1], captures)]
  }

  /** The value of the child reached by m: a capture continues the chain from
      the landing square, a simple move hands the turn over. */
  function ChildValue(cfg: Config, b: Grid, color: bool, depth: nat, m: Move, capture: bool): real
    requires ValidBoard(b) && depth < cfg.maxDepth && Fits(m) && (capture ==> CaptureShape(b, m))
    decreases cfg.maxDepth - depth, Pieces(b), 0, 0
  {
    if capture then
      CaptureEffects(b, m);
      Value(cfg, MakeTurn(b, m), color, depth, m.x2, m.y2)
    else Value(cfg, MakeTurn(b, m), !color, depth + 1, -1, -1)
  }

  lemma {:induction false} ChildValuesAt(cfg: Config, b: Grid, color: bool, depth: nat, moves: seq<Move>, captures: bool, k: int)
    requires ValidBoard(b) && depth < cfg.maxDepth && Expandable(b, moves, captures) && 0 <= k < |moves|
    ensures ChildValues(cfg, b, color, depth, moves, captures)[k] == ChildValue(cfg, b, color, depth, moves[k], captures)
    decreases |moves|
  {
    if k < |moves| - 1 {
      var front := moves[..|moves| - 1];
      ChildValuesAt(cfg, b, color, depth, front, captures, k);
    }
  }

  /** A value occurs among the children's values exactly when some move reaches a child of that value. */
  lemma ChildValuesMembers(cfg: Config, b: Grid, color: bool, depth: nat, moves: seq<Move>, captures: bool, v: real)
    requires ValidBoard(b) && depth < cfg.maxDepth && Expandable(b, moves, captures)
    ensures v in ChildValues(cfg, b, color, depth, moves, captures) <==>
            exists m :: m in moves && v == ChildValue(cfg, b, color, depth, m, captures)
  {
    var vs := ChildValues(cfg, b, color, depth, moves, captures);
    if v in vs {
      var k :| 0 <= k < |vs| && vs[k] == v;
      ChildValuesAt(cfg, b, color, depth, moves, captures, k);
    }
    if exists m :: m in moves && v == ChildValue(cfg, b, color, depth, m, captures) {
      var m :| m in moves && v == ChildValue(cfg, b, color, depth, m, captures);
      var k :| 0 <= k < |moves| && moves[k] == m;
      ChildValuesAt(cfg, b, color, depth, moves, captures, k);
      assert vs[k] == v;
    }
  }

  // The value of a node, one lemma per case of find_best_turns_rec; an inner
  // node is read from its moves in any order.

  /** At the depth limit the node is scored for the bot's colour. */
  lemma ValueAtDepthLimit(cfg: Config, b: Grid, color: bool, x: int, y: int)
    requires ValidBoard(b) && (x == -1 || (OnBoard(x, y) && b[x][y] != Empty))
    ensures Value(cfg, b, color, cfg.maxDepth, x, y) == Score(b, FirstBotColor(cfg.maxDepth, color), cfg.potential)
  {
  }

  /** A piece that cannot capture again ends the chain: the opponent moves one level down. */
  lemma ValueAtChainEnd(cfg: Config, b: Grid, color: bool, depth: nat, x: int, y: int)
    requires ValidBoard(b) && depth < cfg.maxDepth && OnBoard(x, y) && b[x][y] != Empty
    requires !SquareTurns(b, x, y).beats
    ensures Value(cfg, b, color, depth, x, y) == Value(cfg, b, !color, depth + 1, -1, -1)
  {
  }

  /** A side without moves has lost: 0 for the bot, INF for its opponent. */
  lemma {:induction false} ValueWithoutMoves(cfg: Config, b: Grid, color: bool, depth: nat, x: int, y: int, moves: seq<Move>)
    requires ValidBoard(b) && depth < cfg.maxDepth && (x == -1 || (OnBoard(x, y) && b[x][y] != Empty))
    requires x == -1 || NodeTurns(b, color, x, y).beats
    requires multiset(moves) == multiset(NodeTurns(b, color, x, y).moves) && moves == []
    ensures Value(cfg, b, color, depth, x, y) == if depth % 2 == 1 then 0.0 else INF
  {
    var node := NodeTurns(b, color, x, y);
    assert |node.moves| == |multiset(node.moves)| == 0;
  }

  /** Otherwise the node takes the extremum of its children's values. */
  lemma {:induction false} ValueOfChildren(cfg: Config, b: Grid, color: bool, depth: nat, x: int, y: int, moves: seq<Move>, captures: bool)
    requires ValidBoard(b) && depth < cfg.maxDepth && (x == -1 || (OnBoard(x, y) && b[x][y] != Empty))
    requires multiset(moves) == multiset(NodeTurns(b, color, x, y).moves) && captures == NodeTurns(b, color, x, y).beats
    requires (captures || x == -1) && moves != []
    ensures Expandable(b, moves, captures)
    ensures Value(cfg, b, color, depth, x, y) == NodeValue(depth % 2 == 1, ChildValues(cfg, b, color, depth, moves, captures))
  {
    var node := NodeTurns(b, color, x, y);
    assert |node.moves| == |multiset(node.moves)| == |multiset(moves)| != 0;
    NodeTurnsExpandable(b, color, x, y);
    ChildExtremaIgnoreOrder(cfg, b, color, depth, node.moves, moves, captures);
  }

  /** The shuffle does not matter: two orderings of the same moves give the
      same maximum and minimum over their children. */
  lemma ChildExtremaIgnoreOrder(cfg: Config, b: Grid, color: bool, depth: nat, m1: seq<Move>, m2: seq<Move>, captures: bool)
    requires ValidBoard(b) && depth < cfg.maxDepth
    requires Expandable(b, m1, captures) && multiset(m1) == multiset(m2)
    ensures Expandable(b, m2, captures)
    ensures MaxOf(-1.0, ChildValues(cfg, b, color, depth, m1, captures)) == MaxOf(-1.0, ChildValues(cfg, b, color, depth, m2, captures))
    ensures MinOf(INF + 1.0, ChildValues(cfg, b, color, depth, m1, captures)) == MinOf(INF + 1.0, ChildValues(cfg, b, color, depth, m2, captures))
  {
    assert forall m :: m in m1 <==> m in m2 by {
      forall m ensures m in m1 <==> m in m2 {
        assert m in m1 <==> m in multiset(m1);
        assert m in m2 <==> m in multiset(m2);
      }
    }
    var v1 := ChildValues(cfg, b, color, depth, m1, captures);
    var v2 := ChildValues(cfg, b, color, depth, m2, captures);
    forall v ensures v in v1 <==> v in v2 {
      ChildValuesMembers(cfg, b, color, depth, m1, captures, v);
      ChildValuesMembers(cfg, b, color, depth, m2, captures, v);
    }
    ExtremaIgnoreOrder(-1.0, v1, v2);
    ExtremaIgnoreOrder(INF + 1.0, v1, v2);
  }

  /** Every node value lies between 0 (a lost position) and INF (a won one). */
  lemma {:induction false} ValueInRange(cfg: Config, b: Grid, color: bool, depth: nat, x: int, y: int)
    requires ValidBoard(b) && depth <= cfg.maxDepth
    requires x == -1 || (OnBoard(x, y) && b[x][y] != Empty)
    ensures 0.0 <= Value(cfg, b, color, depth, x, y) <= INF
    decreases cfg.maxDepth - depth, Pieces(b), 2, 0
  {
    if depth == cfg.maxDepth {
      ScoreCases(b, FirstBotColor(depth, color), cfg.potential);
    } else {
      var turns := NodeTurns(b, color, x, y);
      if !turns.beats && x != -1 {
        ValueInRange(cfg, b, !color, depth + 1, -1, -1);
      } else if turns.moves != [] {
        NodeTurnsExpandable(b, color, x, y);
        var values := ChildValues(cfg, b, color, depth, turns.moves, turns.beats);
        ChildValuesInRange(cfg, b, color, depth, turns.moves, turns.beats);
        MaxOfIsMaximum(-1.0, values);
        MinOfIsMinimum(INF + 1.0, values);
        assert values[0] in values;
      }
    }
  }

  lemma {:induction false} ChildValuesInRange(cfg: Config, b: Grid, color: bool, depth: nat, moves: seq<Move>, captures: bool)
    requires ValidBoard(b) && depth < cfg.maxDepth && Expandable(b, moves, captures)
    ensures forall v :: v in ChildValues(cfg, b, color, depth, moves, captures) ==> 0.0 <= v <= INF
    decreases cfg.maxDepth - depth, Pieces(b), 1, |moves|
  {
    if moves != [] {
      var m := moves[|moves| - 1];
      ChildValuesInRange(cfg, b, color, depth, moves[..|moves| - 1], captures);
      if captures {
        CaptureEffects(b, m);
        ValueInRange(cfg, MakeTurn(b, m), color, depth, m.x2, m.y2);
      } else {
        ValueInRange(cfg, MakeTurn(b, m), !color, depth + 1, -1, -1);
      }
    }
  }

  /** The alpha-beta contract of a search result r for a node of value v and
      window (alpha, beta): exact inside the window, at most alpha below it,
      at least beta above it. */
  predicate Window(r: real, v: real, alpha: real, beta: real) {
    && (v <= alpha ==> r <= alpha)
    && (v >= beta ==> r >= beta)
    && (alpha < v < beta ==> r == v)
  }

  /** The loop of a maximising node under cut-offs, after k children with
      exact running maximum m: the bound a = max(alpha, maxScore) is still
      below beta, and maxScore is exact above alpha and at most alpha below. */
  predicate MaxLoop(alpha: real, beta: real, k: nat, maxScore: real, a: real, m: real) {
    && a < beta
    && (k == 0 ==> maxScore == -1.0 && a == alpha && m == -1.0)
    && (k > 0 ==> a == Max(alpha, maxScore) && 0.0 <= m < beta)
    && (m <= alpha ==> maxScore <= alpha)
    && (m > alpha ==> maxScore == m)
  }

  /** One child of a maximising node: if the bound reaches beta the node's
      value is at least beta and so is the returned max_score + 1; otherwise
      the loop state is kept. */
  lemma MaxLoopStep(alpha: real, beta: real, k: nat, maxScore: real, a: real, m: real, v: real, s: real)
    requires alpha < beta && MaxLoop(alpha, beta, k, maxScore, a, m)
    requires 0.0 <= v && Window(s, v, a, beta)
    ensures Max(a, Max(maxScore, s)) >= beta ==> Max(m, v) >= beta && Max(maxScore, s) + 1.0 >= beta
    ensures Max(a, Max(maxScore, s)) < beta ==> MaxLoop(alpha, beta, k + 1, Max(maxScore, s), Max(a, Max(maxScore, s)), Max(m, v))
  {
    if k > 0 && m > alpha {
      assert a == m;
    }
  }

  /** The mirror image for a minimising node, with bound b = min(beta, minScore). */
  predicate MinLoop(alpha: real, beta: real, k: nat, minScore: real, b: real, m: real) {
    && alpha < b
    && (k == 0 ==> minScore == INF + 1.0 && b == beta && m == INF + 1.0)
    && (k > 0 ==> b == Min(beta, minScore) && alpha < m <= INF)
    && (m >= beta ==> minScore >= beta)
    && (m < beta ==> minScore == m)
  }

  lemma MinLoopStep(alpha: real, beta: real, k: nat, minScore: real, b: real, m: real, v: real, s: real)
    requires alpha < beta && MinLoop(alpha, beta, k, minScore, b, m)
    requires v <= INF && Window(s, v, alpha, b)
    ensures alpha >= Min(b, Min(minScore, s)) ==> Min(m, v) <= alpha && Min(minScore, s) - 1.0 <= alpha
    ensures alpha < Min(b, Min(minScore, s)) ==> MinLoop(alpha, beta, k + 1, Min(minScore, s), Min(b, Min(minScore, s)), Min(m, v))
  {
    if k > 0 && m < beta {
      assert b == m;
    }
  }

  /** Extending a sequence can only raise its maximum and lower its minimum. */
  lemma ExtremaOfPrefix(init: real, s: seq<real>, k: nat)
    requires k <= |s|
    ensures MaxOf(init, s[..k]) <= MaxOf(init, s)
    ensures MinOf(init, s) <= MinOf(init, s[..k])
  {
    MaxOfIsMaximum(init, s[..k]);
    MaxOfIsMaximum(init, s);
    MinOfIsMinimum(init, s[..k]);
    MinOfIsMinimum(init, s);
  }

  /** The state of the children loop of find_best_turns_rec after k of the
      children `values`: without cut-offs the running extrema are exact;
      with them, for a non-empty window, the maximising (odd) or minimising
      loop state holds. */
  predicate Scan(cutoffs: bool, odd: bool, alpha: real, beta: real, values: seq<real>, k: nat,
                 minScore: real, maxScore: real, a: real, b: real)
    requires k <= |values|
  {
    && (!cutoffs ==> maxScore == MaxOf(-1.0, values[..k]) && minScore == MinOf(INF + 1.0, values[..k]))
    && (cutoffs && alpha < beta && odd ==> b == beta && MaxLoop(alpha, beta, k, maxScore, a, MaxOf(-1.0, values[..k])))
    && (cutoffs && alpha < beta && !odd ==> a == alpha && MinLoop(alpha, beta, k, minScore, b, MinOf(INF + 1.0, values[..k])))
  }

  /** The value of a node from its children's values. */
  function NodeValue(odd: bool, values: seq<real>): real {
    if odd then MaxOf(-1.0, values) else MinOf(INF + 1.0, values)
  }

  /** One child: the running extrema take in its score and the bound of the
      moving side is raised (alpha) or lowered (beta). Either the bounds cross
      and, under cut-offs, the returned max_score + 1 or min_score - 1 lies on
      the correct side of the window, or the loop state is kept. */
  lemma ScanStep(cutoffs: bool, odd: bool, alpha: real, beta: real, values: seq<real>, k: nat,
                 minScore: real, maxScore: real, a: real, b: real, score: real,
                 minScore': real, maxScore': real, a': real, b': real)
    requires k < |values| && Scan(cutoffs, odd, alpha, beta, values, k, minScore, maxScore, a, b)
    requires forall v :: v in values ==> 0.0 <= v <= INF
    requires !cutoffs ==> score == values[k]
    requires cutoffs && a < b ==> Window(score, values[k], a, b)
    requires minScore' == Min(minScore, score) && maxScore' == Max(maxScore, score)
    requires a' == (if odd then Max(a, maxScore') else a) && b' == (if odd then b else Min(b, minScore'))
    ensures cutoffs && a' >= b' && alpha < beta ==>
              Window(if odd then maxScore' + 1.0 else minScore' - 1.0, NodeValue(odd, values), alpha, beta)
    ensures !(cutoffs && a' >= b') ==> Scan(cutoffs, odd, alpha, beta, values, k + 1, minScore', maxScore', a', b')
  {
    var v := values[k];
    assert v in values;
    assert values[..k + 1][..k] == values[..k];
    var mx, mn := MaxOf(-1.0, values[..k]), MinOf(INF + 1.0, values[..k]);
    assert MaxOf(-1.0, values[..k + 1]) == Max(mx, v);
    assert MinOf(INF + 1.0, values[..k + 1]) == Min(mn, v);
    if cutoffs && alpha < beta {
      ExtremaOfPrefix(-1.0, values, k + 1);
      ExtremaOfPrefix(INF + 1.0, values, k + 1);
      MaxOfIsMaximum(-1.0, values);
      MinOfIsMinimum(INF + 1.0, values);
      if odd {
        MaxLoopStep(alpha, beta, k, maxScore, a, mx, v, score);
      } else {
        MinLoopStep(alpha, beta, k, minScore, b, mn, v, score);
      }
    }
  }

  /** The loop ran through all children: without cut-offs the result is the
      node's value; with them, for a non-empty window, it lies on the
      correct side of the window and is exact inside it. */
  lemma ScanDone(cutoffs: bool, odd: bool, alpha: real, beta: real, values: seq<real>,
                 minScore: real, maxScore: real, a: real, b: real)
    requires Scan(cutoffs, odd, alpha, beta, values, |values|, minScore, maxScore, a, b)
    ensures !cutoffs ==> (if odd then maxScore else minScore) == NodeValue(odd, values)
    ensures cutoffs && alpha < beta ==> Window(if odd then maxScore else minScore, NodeValue(odd, values), alpha, beta)
  {
    assert values[..|values|] == values;
  }

  // ---------------------------------------------------------------------
  // The top level: the bot's own turn, possibly a chain of captures.

  /** The best score so far and its index, as the loop `if (score >
      best_score)` keeps them from best_score = -1: the first strictly
      greatest value wins. */
  datatype Pick = Pick(score: real, index: int)

  function Choose(values: seq<real>): (p: Pick)
    ensures -1 <= p.index < |values|
    ensures p.index == -1 ==> p.score == -1.0
    ensures p.index != -1 ==> p.score == values[p.index]
  {
    if values == [] then Pick(-1.0, -1)
    else
      var p := Choose(values[..|values| - 1]);
      if values[|values| - 1] > p.score then Pick(values[|values| - 1], |values| - 1) else p
  }

  /** The value of a position inside the bot's turn after a capture that
      landed on (x,y): the best continuation if the piece can capture again,
      otherwise the opponent's search one level down. */
  function ChainValue(cfg: Config, b: Grid, color: bool, x: int, y: int): real
    requires ValidBoard(b) && OnBoard(x, y) && b[x][y] != Empty
    decreases Pieces(b), 2, 0
  {
    var turns := SquareTurns(b, x, y);
    if !turns.beats then Value(cfg, b, !color, 0, -1, -1)
    else
      SquareTurnsShape(b, x, y);
      Choose(TopValues(cfg, b, color, turns.moves, true)).score
  }

  /** The values the top level gives the moves of a decision point. */
  function TopValues(cfg: Config, b: Grid, color: bool, moves: seq<Move>, captures: bool): (r: seq<real>)
    requires ValidBoard(b) && Expandable(b, moves, captures)
    ensures |r| == |moves|
    decreases Pieces(b), 1, |moves|
  {
    if moves == [] then []
    else TopValues(cfg, b, color, moves[..|moves| - 1], captures) + [TopValue(cfg, b, color, moves[|moves| - 1], captures)]
  }

  function TopValue(cfg: Config, b: Grid, color: bool, m: Move, capture: bool): real
    requires ValidBoard(b) && Fits(m) && (capture ==> CaptureShape(b, m))
    decreases Pieces(b), 0, 0
  {
    if capture then
      CaptureEffects(b, m);
      ChainValue(cfg, MakeTurn(b, m), color, m.x2, m.y2)
    else Value(cfg, MakeTurn(b, m), !color, 0, -1, -1)
  }

  lemma {:induction false} TopValuesAt(cfg: Config, b: Grid, color: bool, moves: seq<Move>, captures: bool, k: int)
    requires ValidBoard(b) && Expandable(b, moves, captures) && 0 <= k < |moves|
    ensures TopValues(cfg, b, color, moves, captures)[k] == TopValue(cfg, b, color, moves[k], captures)
    decreases |moves|
  {
    if k < |moves| - 1 {
      TopValuesAt(cfg, b, color, moves[..|moves| - 1], captures, k);
    }
  }

  /** One more value for the running choice: it wins only if strictly greater. */
  lemma ChooseStep(values: seq<real>, k: nat, p: Pick)
    requires k < |values| && p == Choose(values[..k])
    ensures Choose(values[..k + 1]) == if values[k] > p.score then Pick(values[k], k) else p
  {
    assert values[..k + 1][..k] == values[..k];
  }

  /** A result within the window (best, INF + 1) of a value at most INF
      compares with best exactly as the value does, and equals it when
      it is greater: the test `score > best_score` is not affected by
      cut-offs below. */
  lemma WindowAbove(score: real, v: real, best: real)
    requires Window(score, v, best, INF + 1.0) && v <= INF
    ensures score > best <==> v > best
    ensures score > best ==> score == v
  {
  }

  /** The chain the top level selects at a decision point with the given
      moves: the first move of greatest value, followed, after a capture, by
      the chain selected from its landing square. */
  function DecisionChain(cfg: Config, b: Grid, color: bool, moves: seq<Move>, captures: bool): seq<Move>
    requires ValidBoard(b) && Expandable(b, moves, captures)
    decreases Pieces(b), 1, 0
  {
    var p := Choose(TopValues(cfg, b, color, moves, captures));
    if p.index == -1 then []
    else
      var m := moves[p.index];
      [m] + if captures then ChainAfter(cfg, b, color, m) else []
  }

  /** The chain selected after capture m, from where m lands. */
  function ChainAfter(cfg: Config, b: Grid, color: bool, m: Move): seq<Move>
    requires ValidBoard(b) && CaptureShape(b, m)
    decreases Pieces(b), 0, 0
  {
    CaptureEffects(b, m);
    ContinuationChain(cfg, MakeTurn(b, m), color, m.x2, m.y2)
  }

  /** The rest of the chain after a capture landed on (x,y): empty when the
      piece cannot capture again. */
  function ContinuationChain(cfg: Config, b: Grid, color: bool, x: int, y: int): seq<Move>
    requires ValidBoard(b) && OnBoard(x, y) && b[x][y] != Empty
    decreases Pieces(b), 2, 0
  {
    var turns := SquareTurns(b, x, y);
    if !turns.beats then []
    else
      SquareTurnsShape(b, x, y);
      DecisionChain(cfg, b, color, turns.moves, true)
  }

  // ---------------------------------------------------------------------
  // Properties of the top level.

  /** Choose picks the first strict maximum: its value is at least every
      value and greater than every earlier one, and (values being
      non-negative) nothing is picked only when there is nothing to pick. */
  lemma {:induction false} ChooseFirstMaximum(values: seq<real>)
    requires forall i :: 0 <= i < |values| ==> values[i] >= 0.0
    ensures Choose(values).index == -1 <==> values == []
    ensures forall i :: 0 <= i < |values| ==> values[i] <= Choose(values).score
    ensures forall i :: 0 <= i < Choose(values).index ==> values[i] < Choose(values).score
    ensures Choose(values).score == MaxOf(-1.0, values)
  {
    if values != [] {
      var front := values[..|values| - 1];
      assert forall i :: 0 <= i < |front| ==> front[i] == values[i];
      ChooseFirstMaximum(front);
    }
  }

  /** Values at the top level lie between 0 and INF, as in the search. */
  lemma {:induction false} ChainValueInRange(cfg: Config, b: Grid, color: bool, x: int, y: int)
    requires ValidBoard(b) && OnBoard(x, y) && b[x][y] != Empty
    ensures 0.0 <= ChainValue(cfg, b, color, x, y) <= INF
    decreases Pieces(b), 2, 0
  {
    var turns := SquareTurns(b, x, y);
    if !turns.beats {
      ValueInRange(cfg, b, !color, 0, -1, -1);
    } else {
      SquareTurnsShape(b, x, y);
      var values := TopValues(cfg, b, color, turns.moves, true);
      TopValuesInRange(cfg, b, color, turns.moves, true);
      ChooseFirstMaximum(values);
    }
  }

  lemma {:induction false} TopValuesInRange(cfg: Config, b: Grid, color: bool, moves: seq<Move>, captures: bool)
    requires ValidBoard(b) && Expandable(b, moves, captures)
    ensures forall i :: 0 <= i < |moves| ==> 0.0 <= TopValues(cfg, b, color, moves, captures)[i] <= INF
    decreases Pieces(b), 1, |moves|
  {
    if moves != [] {
      TopValuesInRange(cfg, b, color, moves[..|moves| - 1], captures);
      TopValueInRange(cfg, b, color, moves[|moves| - 1], captures);
    }
  }

  lemma {:induction false} TopValueInRange(cfg: Config, b: Grid, color: bool, m: Move, capture: bool)
    requires ValidBoard(b) && Fits(m) && (capture ==> CaptureShape(b, m))
    ensures 0.0 <= TopValue(cfg, b, color, m, capture) <= INF
    decreases Pieces(b), 0, 0
  {
    if capture {
      CaptureEffects(b, m);
      ChainValueInRange(cfg, MakeTurn(b, m), color, m.x2, m.y2);
    } else {
      ValueInRange(cfg, MakeTurn(b, m), !color, 0, -1, -1);
    }
  }

  /** A legal continuation by the piece on (x,y): each move is one of that
      piece's captures, made from where the previous one landed, and the
      chain stops exactly when the piece has no capture left. */
  predicate ContinuesFrom(b: Grid, x: int, y: int, chain: seq<Move>)
    requires ValidBoard(b) && OnBoard(x, y) && b[x][y] != Empty
    decreases |chain|, 1
  {
    var turns := SquareTurns(b, x, y);
    if chain == [] then !turns.beats
    else
      && turns.beats && chain[0] in turns.moves
      && (SquareTurnsShape(b, x, y); ContinuesAfter(b, chain[0], chain[1..]))
  }

  /** `rest` legally continues the turn after capture m. */
  predicate ContinuesAfter(b: Grid, m: Move, rest: seq<Move>)
    requires ValidBoard(b) && CaptureShape(b, m)
    decreases |rest| + 1, 0
  {
    CaptureEffects(b, m);
    ContinuesFrom(MakeTurn(b, m), m.x2, m.y2, rest)
  }

  /** The selected chain is a legal turn: it is empty only when there is no
      move, it starts with one of the moves, a simple move is the whole
      turn, and after a capture the chain goes on capturing with the same
      piece until it can capture no more. */
  lemma {:induction false} DecisionChainLegal(cfg: Config, b: Grid, color: bool, moves: seq<Move>, captures: bool)
    requires ValidBoard(b) && Expandable(b, moves, captures)
    ensures DecisionChain(cfg, b, color, moves, captures) == [] <==> moves == []
    ensures DecisionChain(cfg, b, color, moves, captures) != [] ==> DecisionChain(cfg, b, color, moves, captures)[0] in moves
    ensures DecisionChain(cfg, b, color, moves, captures) != [] && !captures ==> |DecisionChain(cfg, b, color, moves, captures)| == 1
    ensures DecisionChain(cfg, b, color, moves, captures) != [] && captures ==>
              var chain := DecisionChain(cfg, b, color, moves, captures);
              ContinuesAfter(b, chain[0], chain[1..])
    decreases Pieces(b), 1, 0
  {
    var values := TopValues(cfg, b, color, moves, captures);
    TopValuesInRange(cfg, b, color, moves, captures);
    ChooseFirstMaximum(values);
    var p := Choose(values);
    if p.index != -1 && captures {
      var m := moves[p.index];
      CaptureEffects(b, m);
      ContinuationChainLegal(cfg, MakeTurn(b, m), color, m.x2, m.y2);
    }
  }

  lemma {:induction false} ContinuationChainLegal(cfg: Config, b: Grid, color: bool, x: int, y: int)
    requires ValidBoard(b) && OnBoard(x, y) && b[x][y] != Empty
    ensures ContinuesFrom(b, x, y, ContinuationChain(cfg, b, color, x, y))
    decreases Pieces(b), 2, 0
  {
    var turns := SquareTurns(b, x, y);
    if turns.beats {
      SquareTurnsShape(b, x, y);
      DecisionChainLegal(cfg, b, color, turns.moves, true);
    }
  }

  /** The selected first move has the greatest top-level value, and every
      move listed before it has a smaller one. */
  lemma DecisionChainOptimal(cfg: Config, b: Grid, color: bool, moves: seq<Move>, captures: bool)
    requires ValidBoard(b) && Expandable(b, moves, captures)
    ensures DecisionChain(cfg, b, color, moves, captures) != [] ==>
              exists k :: 0 <= k < |moves| && moves[k] == DecisionChain(cfg, b, color, moves, captures)[0]
                && (forall j :: 0 <= j < |moves| ==> TopValue(cfg, b, color, moves[j], captures) <= TopValue(cfg, b, color, moves[k], captures))
                && (forall j :: 0 <= j < k ==> TopValue(cfg, b, color, moves[j], captures) < TopValue(cfg, b, color, moves[k], captures))
  {
    var values := TopValues(cfg, b, color, moves, captures);
    TopValuesInRange(cfg, b, color, moves, captures);
    ChooseFirstMaximum(values);
    var p := Choose(values);
    if p.index != -1 {
      forall j | 0 <= j < |moves| {
        TopValuesAt(cfg, b, color, moves, captures, j);
      }
      assert moves[p.index] == DecisionChain(cfg, b, color, moves, captures)[0];
    }
  }
}
