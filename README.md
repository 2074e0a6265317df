# Checkers engine `Logic` — a verified Dafny model

This project models the rules and search engine of a draughts (checkers) game: the class `Logic` in `Game/Logic.h`. It covers five parts:

- **Applying a move.** `make_turn` clears the captured cell, promotes a man that reaches its last row, and moves the piece.
- **Moves of one piece.** `find_turns(x, y, mtx)` finds man captures at distance two in all four diagonal directions, and long-range king captures that stop at an own piece or a second opposing piece. Simple moves are generated only when the piece has no capture.
- **Moves of one side.** `find_turns(color, mtx)` enforces mandatory capture over all pieces of one side, then shuffles the list.
- **Scoring.** `calc_score` computes a material ratio, with the terminal scores INF (no opposing piece) and 0 (no own piece).
- **The bot's search.** The fixed-depth minimax `find_best_turns_rec` works with or without alpha-beta cut-offs. Odd depths maximise and even depths minimise. A capture chain continues with the same side at the same depth. `find_first_best_turn` chooses the bot's own turn, which may be a chain of captures, and records it in the arrays `next_move` / `next_best_state`. `find_best_turns` reads the chain back from them.

Boards are `seq<seq<int>>` with codes 0 (empty), 1/2 (white/black man) and 3/4 (white/black king). A colour is a `bool`: false is white, true is black. Scores are exact `real`s.

The files follow the engine's structure:

- `board.dfy`: cells, moves, `make_turn`, piece count.
- `moves.dfy`: reference definitions of the move lists, with the rules they satisfy, each proved in both directions.
- `evaluation.dfy`: the score.
- `search.dfy`: the value of a search node, `Value`, is plain minimax over the moves the engine generates. Beside it is the chain the top level selects, `DecisionChain`.
- `engine.dfy`: class `Logic`, with its fields `turns`, `haveBeats`, `maxDepth`, `nextMove` and `nextBestState`. Its methods are imperative, keeping the source's loops and state updates, and each is proved against the functions above.

Some source functions are split into several methods so that each proof stays small. `find_turns(x, y, mtx)` is split into one scan method per loop. `find_turns(color, mtx)` is split into FindTurnsColor, GatherTurns, GatherRow and GatherSquare. `find_best_turns_rec` is split into FindBestTurnsRec, SearchNode, SearchChildren, SearchStep and SearchChild. `find_first_best_turn` is split into FindFirstBestTurn, FirstBestLoop, FirstBestStep and FirstBestChild. Read together, each group performs the source function's steps in the source's order.

The search results are stated against `Value`:

- With optimization "O0" the result is exactly the node's value.
- With any other optimization and a non-empty window (alpha < beta), the result meets the alpha-beta contract `Window`. It is exact inside the window, and at most alpha or at least beta outside it (from cut-offs at this node or below, or from a node whose children all fall outside). Under that contract, the top level's `score > best_score` test picks the same moves as without cut-offs, and `find_best_turns` returns exactly `DecisionChain`.

## Model

| member | source | states |
|---|---|---|
| Board.MakeTurn | Game/Logic.h:58-72 | the result is a valid board. The origin is empty. The destination holds the moving piece, promoted if it is a man reaching its last row. Every other cell keeps its code, except that the captured cell of a capture is emptied |
| Board.Promoted | Game/Logic.h:64-66 | the promotion rule: a white man on row 0 and a black man on row 7 gain 2. The result keeps the piece's colour (parity) and stays a valid cell code, and a king is never changed |
| Board.PromotionOnLanding | Game/Logic.h:64-69 | a white man landing on row 0 is a white king, a black man landing on row 7 a black king, and any other landing keeps the piece's code |
| Board.CaptureEffects | Game/Logic.h:60-70 | a rule-shaped capture removes exactly one piece, and the destination holds a piece of the mover's colour |
| Board.SimpleMoveEffects | Game/Logic.h:68-70 | a simple move onto an empty cell keeps the number of pieces |
| Moves.ManCaptures | Game/Logic.h:343-355 | reference definition of the man jump loop: for each of the four diagonal neighbours in the source's order, the jump two cells away when it lands on an empty cell of the board over an opposing piece. `ManCapturesExactly` states its meaning and `Engine.ScanManCaptures` is proved equal to it |
| Moves.ManCapturesExactly | Game/Logic.h:343-354 | a move is a man capture exactly when it lands two diagonal steps away, in any of the four directions, on an empty cell of the board, over an opposing piece on the midpoint |
| Moves.RayCaptures | Game/Logic.h:363-381 | reference definition of the king's capture walk along one diagonal: cells are visited outward; an own piece or a second piece ends the walk; after the first opposing piece every empty cell is a landing cell of a capture of that piece. `RayCapturesBothWays` states its meaning and `Engine.CaptureRay` is proved equal to it |
| Moves.RayCapturesSound | Game/Logic.h:365-381 | every move the king's walk along one diagonal lists lands beyond the first opposing piece, with only empty cells on the way apart from that piece |
| Moves.RayCapturesComplete | Game/Logic.h:365-381 | every such landing cell beyond exactly one opposing piece is listed by the walk |
| Moves.RayCapturesBothWays | Game/Logic.h:359-381 | membership in the walk of one diagonal is equivalent to the king-capture rule for that diagonal |
| Moves.KingCaptures | Game/Logic.h:359-383 | reference definition of the king capture scan: the capture walks of the four diagonals, (-1,-1), (-1,1), (1,-1), (1,1), concatenated in that order |
| Moves.KingCapturesExactly | Game/Logic.h:357-384 | a move is a king capture exactly when, along one of the four diagonals, it jumps the first and only opposing piece and lands on an empty cell, with every other cell on the way empty. The scan stops at an own piece or a second piece |
| Moves.ManSteps | Game/Logic.h:397-408 | reference definition of the man step loop: the cells one row forward (row - 1 for white, row + 1 for black) and one column left, then right, that are on the board and empty |
| Moves.ManStepsExactly | Game/Logic.h:397-408 | a man's simple moves are exactly the empty on-board cells one row forward (toward row 0 for code 1, row 7 for code 2) and one column to either side |
| Moves.RaySteps | Game/Logic.h:416-421 | reference definition of the king's slide along one diagonal: the empty cells outward from the king, up to the first piece or the edge |
| Moves.KingSteps | Game/Logic.h:410-424 | reference definition of the king slide: the slides of the four diagonals concatenated in the source's order |
| Moves.RayStepsExactly | Game/Logic.h:416-421 | the king's slide along one diagonal lists exactly the empty cells before the first piece or the edge |
| Moves.KingStepsExactly | Game/Logic.h:410-424 | a king's simple moves are exactly the empty cells along the four diagonals up to the first occupied cell |
| Moves.Captures | Game/Logic.h:338-385 | reference definition of the first `switch (type)`: codes 1 and 2 capture as men, the other codes as kings |
| Moves.Steps | Game/Logic.h:395-425 | reference definition of the second `switch (type)`: codes 1 and 2 step as men, the other codes slide as kings |
| Moves.CapturesExactly | Game/Logic.h:338-385 | a move is a capture of the piece on (x,y) exactly when it satisfies the man rule (codes 1, 2) or the king rule (other codes) |
| Moves.StepsExactly | Game/Logic.h:395-425 | a move is a simple move of the piece exactly when it satisfies the man-step or king-step rule |
| Moves.SquareTurns | Game/Logic.h:331-426 | reference definition of find_turns(x, y): the piece's captures with the flag set when it has any, otherwise its simple moves with the flag clear. `SquareTurnsExactly` and `SquareTurnsShape` state its meaning, and `Engine.Logic.FindTurnsAt` is proved equal to it |
| Moves.SquareTurnsExactly | Game/Logic.h:331-426 | the capture flag is set exactly when the piece has some capture. The listed moves are then exactly its captures, and otherwise exactly its simple moves |
| Moves.SquareTurnsShape | Game/Logic.h:387-392 | every listed move starts at (x,y) and fits the board. It is a capture exactly when the flag is set. A capture has an opposing piece at a third, distinct cell and an empty destination (that the piece lies on the diagonal between them is `Moves.CapturesExactly`). A simple move goes to a different, empty cell |
| Moves.GridTurns | Game/Logic.h:304-322 | reference definition of the row loop of find_turns(color): the moves of the side's pieces in rows 0 to n - 1, row by row and column by column, keeping a square's moves only when its capture flag equals the given flag |
| Moves.ColorTurns | Game/Logic.h:300-323 | reference definition of find_turns(color) before the shuffle: the flag says whether some piece of the side can capture, and the list is GridTurns over all eight rows with that flag. `ColorTurnsMembers`, `MandatoryCapture` and `ColorTurnsShape` state its meaning |
| Moves.ColorHasCaptureExactly | Game/Logic.h:304-322 | a side has a capture exactly when some piece of that side has one |
| Moves.ColorTurnsMembers | Game/Logic.h:300-326 | a move is listed for a side exactly when it is a move of one of the side's pieces whose capture flag equals the side's flag. Listed moves are all the captures of the capturing pieces, or else all simple moves |
| Moves.MandatoryCapture | Game/Logic.h:311-319 | when the side has a capture every listed move is a capture, otherwise every listed move is a simple move |
| Moves.ColorTurnsShape | Game/Logic.h:308-319 | every move listed for a side starts on a piece of that side and has the shape of its kind |
| Evaluation.CellTally | Game/Logic.h:86-95 | what one cell on row i adds to the counter of a code: 1 for a matching piece, plus the 0.05-per-row potential bonus for a man in that mode, 0 otherwise |
| Evaluation.Tally | Game/Logic.h:82-97 | reference definition of one of the four counters w, wq, b, bq: the sum of the cell contributions over all 64 cells, row by row. `TallyBounds` states its range and `Engine.Logic.CalcScore` accumulates it |
| Evaluation.CellTallies | Game/Logic.h:86-95 | connects the source's per-cell increments to `CellTally`: each cell adds 1 to the counter of its code. In the potential mode a man also adds 0.05 per row it is from its own back row: 7 - row for white, row for black |
| Evaluation.TallyBounds | Game/Logic.h:82-97 | a counter lies between the number of pieces of its code and 1.35 times that number, and is zero exactly when there is none |
| Evaluation.SideTallies | Game/Logic.h:98-109 | a side's men and kings counters sum to zero exactly when the side has no piece, and to at least 1 otherwise |
| Evaluation.Ratio | Game/Logic.h:104-118 | reference definition of the last step of calc_score: INF without opposing material, 0 without own material, otherwise own material over opposing material with kings weighted 5 in the potential mode and 4 otherwise. `RatioBounds` states its range |
| Evaluation.Score | Game/Logic.h:78-119 | reference definition of calc_score: the four counters of the board, swapped to the bot's side when the bot plays white, given to Ratio. `ScoreCases` states its cases and `Engine.Logic.CalcScore` is proved equal to it |
| Evaluation.RatioBounds | Game/Logic.h:111-118 | with pieces on both sides the ratio is positive and below INF, for king weight 4 or 5 |
| Evaluation.ScoreCases | Game/Logic.h:98-118 | no opposing piece scores INF. No own piece, with opposing pieces, scores 0. Otherwise the score lies strictly between 0 and INF |
| Search.MaxOfIsMaximum | Game/Logic.h:252-253 | the running maximum bounds its start value and every score, and is one of them |
| Search.MinOfIsMinimum | Game/Logic.h:252-253 | the running minimum is below its start value and every score, and is one of them |
| Search.ExtremaIgnoreOrder | Game/Logic.h:252-253 | maximum and minimum depend only on which scores occur |
| Search.NodeTurns | Game/Logic.h:202-212 | the moves a node expands: those of the continuing piece (SquareTurns) when x != -1, otherwise all moves of the side (ColorTurns, up to the shuffle's order) |
| Search.NodeTurnsExpandable | Game/Logic.h:202-212 | the moves the search expands fit the board, and in a capture list each is a rule-shaped capture |
| Search.ChildExtremaIgnoreOrder | Game/Logic.h:324 | a permutation of a node's moves, such as the shuffle, leaves the extrema of the children's values unchanged |
| Search.ChildValues | Game/Logic.h:234-249 | the children's values in the order of the moves, one per move |
| Search.ChildValue | Game/Logic.h:238-249 | one child's value: after a capture the same side continues at the same depth from the landing cell, after a simple move the opponent moves one level deeper |
| Search.ChildValuesAt | Game/Logic.h:238-249 | child k's value is that of the board after move k: the same side and depth from the landing square after a capture, the opponent one level deeper after a simple move |
| Search.ChildValuesMembers | Game/Logic.h:234-249 | a value occurs among the children exactly when some move leads to it |
| Search.Value | Game/Logic.h:191-278 | reference definition of find_best_turns_rec without cut-offs (plain minimax). Its four cases are stated by `ValueAtDepthLimit`, `ValueAtChainEnd`, `ValueWithoutMoves` and `ValueOfChildren`, and its range by `ValueInRange` |
| Search.ValueAtDepthLimit | Game/Logic.h:194-199 | at depth == Max_depth the node's value is the board's score for the bot's colour, `depth % 2 == color` |
| Search.ValueAtChainEnd | Game/Logic.h:216-219 | when the continuing piece has no capture left, the node's value is the opponent's value one level deeper |
| Search.ValueWithoutMoves | Game/Logic.h:222-227 | a side without moves is worth 0 at odd depth and INF at even depth |
| Search.ValueOfChildren | Game/Logic.h:228-277 | otherwise the node's value is the maximum (odd depth) or minimum (even depth) of its children's values, in whatever order the moves come |
| Search.ValueInRange | Game/Logic.h:191-278 | every node value lies between 0 and INF |
| Search.MaxLoopStep | Game/Logic.h:253-271 | at a maximising node, once alpha reaches beta the node's value is at least beta, and so is max_score + 1. Otherwise the loop state is kept |
| Search.MinLoopStep | Game/Logic.h:252-271 | at a minimising node, once beta falls to alpha the node's value is at most alpha, and so is min_score - 1. Otherwise the loop state is kept |
| Search.ScanStep | Game/Logic.h:252-271 | one child of the loop either keeps the loop state (exact extrema without cut-offs, the window contract with them) or ends at a cut-off whose return value meets the window contract |
| Search.ScanDone | Game/Logic.h:277 | after all children the returned extremum is the node's value, exactly without cut-offs and within the window contract with them |
| Search.Choose | Game/Logic.h:135-177 | the choice is either no move with score -1 or an index whose value is the score |
| Search.ChooseFirstMaximum | Game/Logic.h:170-177 | starting from -1 with a strict `>` test, nothing is chosen only when there are no moves. The chosen value is the maximum, and every earlier value is smaller |
| Search.ChooseStep | Game/Logic.h:170-177 | one more move replaces the choice exactly when its value is strictly greater |
| Search.WindowAbove | Game/Logic.h:161-172 | a result in the window (best, INF + 1) compares with best exactly as the true value does, and equals it when greater |
| Search.ChainValue | Game/Logic.h:137-150 | reference definition of find_first_best_turn inside a chain without cut-offs: after a capture landed on (x,y), the best value over the piece's further captures, or the opponent's search from depth 0 when it has none |
| Search.TopValues | Game/Logic.h:153-167 | the values the top level gives the moves of a decision point, one per move and in order |
| Search.TopValue | Game/Logic.h:158-167 | one move's top-level value: a capture continues the chain from where it lands, a simple move hands the turn to the opponent's search at depth 0 |
| Search.ChainValueInRange | Game/Logic.h:128-181 | the top-level value of a chain position lies between 0 and INF |
| Search.DecisionChain | Game/Logic.h:153-177 | reference definition of the chain find_first_best_turn records: the first move chosen by `Choose` over the top-level values, followed after a capture by the chain from its landing square. `DecisionChainLegal` and `DecisionChainOptimal` state its meaning, and `Engine.Logic.FindBestTurns` returns it (Game/Logic.h:28-51) |
| Search.ContinuationChain | Game/Logic.h:139-150 | the rest of the chain after a capture landed on (x,y): empty when the piece cannot capture again, otherwise the chain chosen from its captures |
| Search.DecisionChainLegal | Game/Logic.h:153-177 | the selected chain is empty only without moves and starts with one of the moves. After a simple move it is one move long. After a capture it continues with captures by the piece that just landed until that piece can capture no more |
| Search.ContinuationChainLegal | Game/Logic.h:139-150 | the continuation after a landing is a legal chain of that piece's captures, ending when it has none |
| Search.DecisionChainOptimal | Game/Logic.h:153-177 | the selected first move has the greatest top-level value, and every earlier move has a smaller one |
| Engine.CaptureWalkIsRay | Game/Logic.h:365-381 | the capture loop's walk from any cell, with any moves found so far, produces those moves followed by the reference walk's |
| Engine.StepWalkIsRay | Game/Logic.h:416-421 | the same for the king's slide loop |
| Engine.CaptureRay | Game/Logic.h:363-381 | the king's capture loop along one diagonal returns exactly the reference captures of that diagonal |
| Engine.StepRay | Game/Logic.h:416-421 | the king's slide loop along one diagonal returns exactly the reference moves of that diagonal |
| Engine.ScanManCaptures | Game/Logic.h:343-355 | the nested offset loops return the man captures in the source's order |
| Engine.ScanKingCaptures | Game/Logic.h:359-383 | the four direction loops return the king captures in the source's order |
| Engine.ScanManSteps | Game/Logic.h:401-407 | the column loop returns the man's simple moves |
| Engine.ScanKingSteps | Game/Logic.h:412-423 | the four direction loops return the king's simple moves |
| Engine.GatherStep | Game/Logic.h:308-319 | one square keeps the side's scan exact: the first capture discards the gathered simple moves, later simple moves are dropped, and other squares add their moves |
| Engine.Encodes | Game/Logic.h:40-48 | what the arrays next_move / next_best_state hold from state s: the chain's first move at s and, while the link there is not -1, the rest of the chain from the linked (later) state; the empty chain is the placeholder move with no link. The do-while loop of find_best_turns reads exactly this back |
| Engine.Logic.constructor | Game/Logic.h:16-23 | the configuration values become the object's fields, an empty arena and no moves |
| Engine.Logic.FindTurnsAt | Game/Logic.h:331-426 | `turns` and `have_beats` become the moves and the capture flag of the piece on (x,y) |
| Engine.Logic.Shuffle | Game/Logic.h:324 | `turns` becomes a permutation of itself, drawing one random number per swap |
| Engine.Logic.FindTurnsColor | Game/Logic.h:300-326 | `turns` is a permutation of the side's move list, and `have_beats` says whether the side has a capture |
| Engine.Logic.GatherTurns | Game/Logic.h:302-322 | the row loop returns exactly the side's move list and flag, before the shuffle |
| Engine.Logic.GatherRow | Game/Logic.h:306-321 | one row extends the exact list and flag from the first i rows to the first i + 1 |
| Engine.Logic.GatherSquare | Game/Logic.h:308-320 | one square extends them by one column |
| Engine.Logic.CalcScore | Game/Logic.h:78-119 | the accumulated counters, the colour swap and the terminal cases give exactly the score of the board for the given side |
| Engine.Logic.FindBestTurnsRec | Game/Logic.h:191-278 | with "O0" the result is the minimax value of the node. Otherwise, for alpha < beta, it meets the window contract for that value |
| Engine.Logic.SearchNode | Game/Logic.h:211-278 | the same once the node's moves are known in any order: chain end, no moves, or the search over the children |
| Engine.Logic.SearchChildren | Game/Logic.h:230-277 | the children loop returns the maximum or minimum of the children's values, within the window contract under cut-offs |
| Engine.Logic.SearchStep | Game/Logic.h:236-271 | one pass of that loop keeps its state, or reports a cut-off whose return value meets the window contract |
| Engine.Logic.SearchChild | Game/Logic.h:238-249 | a child's score is its value, exact with "O0" and within the window contract otherwise |
| Engine.Logic.FindFirstBestTurn | Game/Logic.h:128-181 | the arena grows from entry `state` and keeps its older entries. From the start of the turn, the result is the best top-level value and the arena encodes the selected chain. Inside a chain it encodes the continuation, and the result is the chain position's value (exact with "O0", within the window from alpha otherwise) |
| Engine.Logic.FirstBestLoop | Game/Logic.h:153-180 | the loop returns the best top-level value, and entry `state` encodes the selected chain |
| Engine.Logic.FirstBestStep | Game/Logic.h:155-177 | one pass keeps the first strictly best move and the link to the state holding its continuation |
| Engine.Logic.FirstBestChild | Game/Logic.h:155-167 | a move's score compares with best_score as its value does, and equals it when greater. After a capture the new arena state holds the continuation after it |
| Engine.Logic.FindBestTurns | Game/Logic.h:28-51 | the returned list is exactly the chain the top level selects from the moves in `turns`, or the single placeholder move when there are none. The arena encodes that chain from state 0 |

## Left out

- Game/Game.h, Game/Hand.h and Game/Config.h are not part of this model: the game loop, rendering, input, logging and JSON configuration. The configuration values `Max_depth`, "BotScoringType" and "Optimization" are constructor parameters. The source instead sets `logic.Max_depth` anew before each bot turn (Game/Game.h:59); the model fixes it for the life of the object. The constructor also starts `have_beats` as false, where the source constructor (Game/Logic.h:16-23) leaves it uninitialised; nothing reads it before a find_turns call sets it.
- Engine.Logic.Shuffle: the random engine is an arbitrary function `draw`, and only "a permutation" is promised. The engine, its time-based seed and `std::shuffle`'s exact order are not modelled.
- Engine.Logic.FindTurnsColor: promises a permutation of the move list, not its order, and only that the number of random draws does not decrease.
- Scores are exact `real`s, not `double`s: INF is the real 1e9, the 0.05 potential bonus is exact, and double rounding is not modelled.
- Models/Move.h and Board.h are not part of this model. Coordinates are unbounded `int`s, so the width of `POS_T` is not modelled.
- The public wrappers `find_turns(color)` and `find_turns(x, y)` (Game/Logic.h:285-295) are left out: they only fetch the live board, which is not modelled. The board is passed explicitly instead.
- Engine.Logic.FindTurnsAt: requires an occupied square. The source sends code 0 into the king branch, and no caller asks about an empty square.
- Engine.Logic.FindBestTurns: requires that `turns` hold moves that fit the board and, when `have_beats` is set, rule-shaped captures. The source relies on its caller having run `find_turns(color)` just before (`FindTurnsColor`, with `Moves.ColorTurnsShape`).
- Engine.Logic.FindBestTurnsRec: for optimization other than "O0" and an empty window (alpha >= beta on entry) nothing is promised about the result. The search never makes such a call.
- Engine.Logic.FindBestTurnsRec: the values left in `turns`, `haveBeats` and `drawCount` are not specified. The source leaves the last searched node's moves there, and every caller recomputes them with find_turns before reading them (Game/Game.h:52).
- Engine.Logic.FindFirstBestTurn: the values left in `turns`, `haveBeats` and `drawCount` are not specified, as for FindBestTurnsRec. What the arena holds is stated.
- Engine.Logic.FindBestTurns: the values left in `turns`, `haveBeats` and `drawCount` are not specified, as for FindBestTurnsRec. The arena's contents are stated: it encodes the returned chain from state 0.
- Engine.Logic.FindFirstBestTurn: inside a chain, with optimization other than "O0", only the window contract from alpha is promised, not the exact value.
- `Max_depth` is a `nat`: a negative depth limit (an `int` in the source, compared with an unsigned depth) is not modelled.
- calc_score and find_best_turns_rec compare the mode strings once per call instead of once per cell or move. The strings are constant, so the result is the same.
- When the bot has no move, find_best_turns returns a one-element list holding the placeholder move (-1, -1, -1, -1), not an empty list, because its do-while loop reads entry 0 before it tests anything. The model follows the code.
