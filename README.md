# Chess rules engine (package `chess`) in Dafny

This project models the rules engine of a small Java chess program and proves
properties of it. The engine has three parts:

- an 8×8 board of spots with an optional occupant each;
- a piece hierarchy whose eight kinds generate the spots a piece may move to:
  Pawn, Rook, Bishop, Queen, King, Knight, and two variants, the MegaRook and
  the FlipFlopper;
- the `Game` controller. It owns the side to move and one list of in-play
  pieces per colour. It starts a game from the fixed layout, executes moves
  and captures, and decides availability, check, checkmate and stalemate.

A move is filtered for King safety by a "simulate, test, restore" probe. The
probe moves the piece on the live board, asks whether its King is now in
check, and moves everything back.

The model has two layers.

- **Specification (`Rules`, `GameRules`).** `Rules.State` is the whole game as
  a value: occupant per spot, the fields of every piece, the two piece lists
  and the turn. Every query is a function on it. A filtered query runs probes,
  and a probe really changes the game: a Pawn's `hasMoved` flag becomes true
  and a displaced piece returns at the end of its list. So a query returns
  the state it leaves behind together with its answer.
- **Implementation (`Boards.Board`, `Pieces.Piece`, `Games.Game`).** These are
  classes whose methods update fields in place, with the loops of the Java
  code. Each method is proved against the specification through
  `Game.Model()`. Each generator's `while`/`for` loops carry invariants that
  tie the list built so far to the specification function.

On top of the two layers sit the proofs (`Restoring`, `GameInvariant`,
`Setup`, `Shapes`, `Availability`, `Queries`, `Independence`):

- the probe restores the game;
- every operation preserves the bidirectional board/piece/list invariant
  `Rules.Consistent`;
- the starting position is right;
- each generator has its geometric shape and its size bound;
- every spot a generator offers is stored and not held by the mover's side, and a
  Pawn's diagonal holds an enemy piece. The King and Knight are offered exactly
  their available offsets, and a sliding scan stops only where the Java loop does;
- check is characterised exactly;
- the filtered moves are among the unfiltered ones;
- a Queen's moves are the union of the Rook and Bishop scans, filtered or not;
- the lone-King test case holds;
- within one checkmate, stalemate, new-turn or threatening-pieces query, the
  traces the earlier probes leave do not change the answer for a later piece.
  Those traces are a Pawn marked as moved and a displaced piece back at the
  end of its list. The query answers as if every piece were asked of the game
  as it was before the query;
- the Pawn mark does change answers in one place: a filtered query never
  offers a Pawn's two-step, because the one-step's probe has just marked the
  Pawn as moved. The mark persists, so the Pawn keeps no two-step in every
  later query too.

Files, in dependency order:

- `wrappers.dfy`: Option and Result.
- `chess.dfy`: colours, piece kinds, starting layout.
- `board.dfy`: spots and the board.
- `piece.dfy`: piece fields, `moveTo`, `removeFromPlay`, `formatString`.
- `rules.dfy`: the specification state and every query.
- `scans.dfy`: one-step unfoldings the loops use.
- `game_rules.dfy`: turn, checkmate, stalemate, move, capture, add.
- `restoring.dfy`: the probe and the queries restore the game.
- `invariant.dfy`: the operations preserve `Consistent`.
- `setup.dfy`: the starting position.
- `game.dfy`: the `Game` class.
- `shapes.dfy`: move shapes and bounds.
- `availability.dfy`: what the generators promise about availability.
- `queries.dfy`: check, filtered vs unfiltered moves, Queen union, the lone King.
- `independence.dfy`: probes do not change answers; availability, checkmate,
  stalemate, the new turn's outcome and the threatening pieces exactly.

Java `null` is `None`. A thrown `Chess.ChessError` and the null-King
dereference in `isInCheck` are the `Err` values of `Chess.Fault`. A spot is
its coordinate pair, because `Spot.equals` compares only row and column.

## Model

| member | source | states |
|---|---|---|
| Chess.OpponentColor | chess/Chess.java:41-44 | the opponent of a colour is never that colour |
| Chess.OpponentInvolution | chess/Chess.java:41-44 | taking the opponent twice gives back the original colour |
| Chess.BackRowHasOneKing | chess/Chess.java:58-64 | both starting rows have 8 entries; the back row has its only King at column 4; the front row is all Pawns |
| Chess.StartingLayout | chess/Chess.java:87-94 | four configurations on four distinct rows 0, 1, 6, 7; White exactly on rows 0 and 1; back rows exactly on 0 and 7; 16 pieces per colour; a King exactly at column 4 of rows 0 and 7 |
| Boards.Spot.Shade | chess/Board.java:40-43 | a spot is Black exactly when row + col is even |
| Boards.ShadesAlternate | chess/Board.java:40-43 | (0,0) is Black, and moving one row or one column flips the shade |
| Boards.Place | chess/Board.java:31 | setting the occupant of a stored spot changes that spot only; on a dummy off-board spot it changes nothing |
| Boards.Board.constructor | chess/Board.java:80-86 | a new board is an 8×8 grid of stored spots, all unoccupied |
| Boards.Board.GetSpot | chess/Board.java:92-97 | the spot has the requested row and column, and is a stored spot exactly when the coordinates are valid |
| Boards.Board.GetPieceAt | chess/Board.java:110-113 | no piece off the board; otherwise the stored spot's occupant |
| Boards.Board.IsOccupied | chess/Board.java:118-120 | true exactly when the spot has an occupant, which implies the coordinates are valid |
| Boards.Board.SetPiece | chess/Board.java:31 | the board's contents become `Place(old contents, s, x)` |
| Pieces.Moved | chess/Piece.java:69-75 | a move sets the spot and keeps kind, colour and in-play; it marks a Pawn as moved and flips a FlipFlopper's parity between 0 and 1 |
| Pieces.Removed | chess/Piece.java:44-49 | a removed piece is out of play with no spot, and its other fields are kept |
| Pieces.MovedThereAndBack | chess/FlipFlopper.java:62-65 | moving away and back restores every field except a Pawn's `hasMoved`, which becomes true |
| Pieces.ParityStaysBinary | chess/FlipFlopper.java:62-65 | along any sequence of moves the parity stays in {0, 1}, and `hasMoved` ends true exactly when a Pawn moved at least once or it was already true |
| Pieces.Piece.constructor | chess/Piece.java:28-35 | a new piece is in play on its spot, with `hasMoved` false and parity 0, and the spot names it |
| Pieces.Piece.RemoveFromPlay | chess/Piece.java:44-49 | the piece's fields become `Removed`; its spot is cleared only when that spot still names the piece |
| Pieces.Piece.GetSpotWithOffset | chess/Piece.java:62-64 | the result is offset by exactly (rowOffset, colOffset) from the piece's spot, on or off the board |
| Pieces.Piece.MoveTo | chess/Piece.java:69-75 | the fields become `Moved`; the old spot is cleared and the new spot names the piece |
| Pieces.FormatString | chess/Piece.java:140-149 | the result starts with `s` and is padded with spaces to length 14; a string of length 14 or more comes back unchanged |
| Rules.RemoveFirst | chess/Game.java:290 | `List.remove` drops exactly one occurrence of a member (as multisets) and leaves a list without it unchanged |
| Rules.PieceMoveTo | chess/Piece.java:69-75 | on the game state: the piece's fields become `Moved`, the lists and turn are kept, and a stored destination is occupied by the piece |
| Rules.FirstKing | chess/Game.java:259-265 | the result is a King of the list, and there is none exactly when the list holds no King |
| Rules.GetKing | chess/Game.java:259-265 | a King found is in the side's list and stands on the board |
| Rules.IsAvailable | chess/Game.java:170-179 | an accepted spot is on the board and not held by the mover's side; unfiltered, a spot is accepted exactly then and nothing changes; filtered, nothing changes beyond what the probe touches (the filtered iff is `Independence.AvailableIff`) |
| Rules.MoveWouldPutKingInCheck | chess/Game.java:215-224 | the probe leaves every piece's spot, kind, colour, in-play flag and parity as they were, and keeps the list of one side |
| Rules.ProbeMove | chess/Game.java:232-236 | the set-up moves the piece to the spot and takes the displaced occupant out of its list |
| Rules.ProbeRestore | chess/Game.java:246-251 | the clean-up moves the piece back and reinstates the displaced occupant |
| Rules.MoveBack | chess/Game.java:247 | moving back restores every field of the piece except a Pawn's `hasMoved`, which becomes true |
| Rules.ParityBinary | chess/FlipFlopper.java:64 | in a well-formed game a FlipFlopper's parity is 0 or 1 |
| Rules.Moves | chess/Piece.java:112 | reference definition of a move query, dispatching on the kind; its ensures give the frame: unfiltered it changes nothing, filtered it changes only what probes touch. The moves' properties are in `Shapes`, `Availability.MovesOpen`, `Availability.FilteredMovesOpen` and `Queries.FilteredWithin` |
| Rules.PawnMoves | chess/Pawn.java:18-46 | reference definition of the Pawn generator (forward steps, then diagonal attacks); its ensures give the frame. Its properties are `Shapes.PawnShape`, `Availability.MovesOpen` and `Independence.FilteredPawnNoTwoStep` |
| Rules.PawnAdvance | chess/Pawn.java:24-35 | reference definition of a Pawn's forward steps; its ensures give the frame. Its properties are `Availability.PawnAdvanceOpen` and `Shapes.PawnShape` |
| Rules.PawnAttacks | chess/Pawn.java:37-43 | reference definition of a Pawn's diagonal attacks; its ensures give the frame. Its property is `Availability.PawnAttacksOpen` |
| Rules.Rays | chess/Rook.java:26-46 | reference definition of the sliding scans over a list of directions; its ensures give the frame. Its properties are `Availability.RaysOpen` and the Rook, Bishop and Queen lemmas of `Shapes` |
| Rules.Ray | chess/Rook.java:29-44 | reference definition of one sliding scan; its ensures give the frame. Where it stops is `Availability.RayOpen`, `Availability.RayEnds` and `Shapes.RayConsecutive` |
| Rules.RayFrom | chess/FlipFlopper.java:37-52 | reference definition of the step after a tested spot (stop on parity 1 or an occupied spot, otherwise go one further); its ensures give the frame. Its properties are `Availability.RayFromOpen` and `Availability.RayFromEnds` |
| Rules.Steps | chess/King.java:21-32 | reference definition of the single-offset loop of the King and Knight; its ensures give the frame. Its properties are `Availability.StepsOpen`, `Availability.StepsAccepted` and `Shapes.KingShape` |
| Rules.MegaRays | chess/MegaRook.java:28-44 | reference definition of the MegaRook's scans over its four directions; its ensures give the frame. Its properties are `Availability.MegaRaysOpen` and `Shapes.MegaRaysAlong` |
| Rules.MegaRay | chess/MegaRook.java:34-42 | reference definition of one MegaRook scan; its ensures give the frame. Its properties are `Availability.MegaRayOpen` and `Shapes.MegaRayComplete` |
| Scans.AdvanceOne | chess/Pawn.java:25-27 | the one-step spot is kept exactly when it is available and unoccupied; if it is not kept, or the Pawn has moved, the forward steps end there |
| Scans.AdvanceTwo | chess/Pawn.java:29-33 | with the one-step kept and the Pawn unmoved, the two-step is kept exactly when it is available and unoccupied |
| GameRules.NoneCanMove | chess/Game.java:118-120 | the loop over a side's pieces touches only what probes touch (its answer is `Independence.NoneCanMoveIff`) |
| GameRules.IsInCheckmate | chess/Game.java:114-124 | checkmate implies check; a fault from the missing King propagates (the iff is `Independence.CheckmateIff`) |
| GameRules.IsInStalemate | chess/Game.java:129-142 | stalemate implies no check; with a single piece on each side and no check it is stalemate without any probe; a fault propagates (the iff is `Independence.StalemateIff`) |
| GameRules.NextTurn | chess/Game.java:91-96 | the first turn is White's, and afterwards the turn alternates |
| GameRules.StartNewTurn | chess/Game.java:90-100 | the turn passes to the next side; a declared winner is never the side to move (the outcome is `Independence.TurnOutcome`) |
| GameRules.ConcludeTurn | chess/Game.java:98-99 | the turn is kept and a declared winner is never the side to move (the outcome is `Independence.ConcludeAlike`) |
| GameRules.Endings | chess/Game.java:105-109 | the listener hears at most one ending, and one exactly when the game ended |
| GameRules.PiecesThreatening | chess/Game.java:187-194 | every threatening piece is in the opponent's list; unfiltered, nothing changes (the iff and the order are `Independence.ThreateningIff`) |
| GameRules.Threats | chess/Game.java:189-192 | the loop keeps only pieces of the list it walks, touching only what probes touch |
| GameRules.RemovePieceFromPlay | chess/Game.java:288-291 | the piece is removed from play and from its own list only, and the turn is kept |
| GameRules.TakeOff | chess/Piece.java:44-49 | on the game state: the piece is out of play, the lists are kept, and its old spot no longer names it |
| GameRules.MovePieceTo | chess/Game.java:151-164 | ChessError exactly when the piece is out of play, the spot is off the board or it is not that side's turn, and then nothing changes; otherwise the previous occupant is returned |
| GameRules.AddPiece | chess/Game.java:273-283 | a new piece stands on the spot and is appended to its side's list; the other side's list and every other spot are kept |
| GameRules.PutOn | chess/Piece.java:28-35 | on the game state: the new piece is in play and the spot names it; the lists are kept |
| Restoring.ProbeRestores | chess/Game.java:230-254 | from a consistent game the probe restores occupants, turn and pieces; lists come back as multisets; a Pawn may now be marked as moved |
| Restoring.RestoredLists | chess/Game.java:249 | after a probe each side's list has its old length |
| Restoring.KeepsConsistent | chess/Game.java:246-251 | a restored game is consistent again |
| Restoring.MovesRestore | chess/Piece.java:96-98 | every move query, filtered or not, restores a consistent game |
| GameInvariant.NoneCanMoveRestores | chess/Game.java:118-120 | the loop over a side's move lists restores the game |
| GameInvariant.CheckmateRestores | chess/Game.java:114-124 | deciding checkmate restores the game |
| GameInvariant.StalemateRestores | chess/Game.java:129-142 | deciding stalemate restores the game |
| GameInvariant.ThreateningRestores | chess/Game.java:187-194 | listing the threatening pieces restores the game |
| GameInvariant.TurnConsistent | chess/Game.java:93-95 | setting the turn keeps the game consistent |
| GameInvariant.NewTurnRestores | chess/Game.java:90-100 | a new turn leaves a consistent game, restored except for the turn |
| GameInvariant.MoveConsistent | chess/Game.java:151-164 | a move keeps the game consistent. If accepted: the mover stands on the spot with the fields `moveTo` gives it, its old spot is empty and every other spot is kept; the turn is kept; every piece but the mover and the captured one keeps its fields; a captured piece is out of play and its first occurrence leaves its side's list, the other list being kept; with no capture both lists are kept |
| GameInvariant.MoveKeepsConsistent | chess/Piece.java:69-75 | moving an in-play piece to an empty stored spot keeps the game consistent |
| GameInvariant.RemoveConsistent | chess/Game.java:288-291 | removing a piece from play keeps the game consistent, clears its spot and drops it from its list |
| GameInvariant.AddConsistent | chess/Game.java:273-283 | adding a new piece on an empty stored spot keeps the game consistent |
| Setup.RowLayout | chess/Game.java:82-84 | the placements of one row configuration, column by column |
| Setup.Layout | chess/Game.java:77-85 | the placements of all configurations, configuration k column col at index 8k + col |
| Setup.StartingPosition | chess/Game.java:77-85 | the layout gives a consistent game with 16 pieces a side, the configured piece on every configured spot, and occupied rows only 0, 1, 6 and 7 |
| Setup.StartingConsistent | chess/Game.java:77-85 | the starting position is consistent |
| Setup.StartingCounts | chess/Chess.java:87-94 | the starting position has 16 White and 16 Black pieces |
| Setup.StartingSpots | chess/Chess.java:87-94 | configuration k column col holds a new piece of the configured kind and colour |
| Setup.StartingRows | chess/Chess.java:87-94 | only rows 0, 1, 6 and 7 are occupied at the start |
| Setup.Populated | chess/Game.java:77-85 | the populated game is consistent with both lists well formed |
| Setup.StartedGame | chess/Game.java:75-88 | after `startGame`: consistent, White to move when no turn was set, 16 pieces a side, every configured piece on its spot in play, occupied rows only 0, 1, 6 and 7 |
| Games.Listener.OnGameEnded | chess/Game.java:27-29 | the listener records each winner it hears, `None` for a draw |
| Games.Game.constructor | chess/Game.java:46-51 | a new game has an empty board, empty lists, no turn and no listener |
| Games.Game.SetGameEventListener | chess/Game.java:56-58 | registers the listener and changes nothing else |
| Games.Game.EndGame | chess/Game.java:105-109 | a registered listener hears the winner |
| Games.Game.StartGame | chess/Game.java:75-88 | creates 32 distinct fresh pieces, gives the state `StartedGame` describes, and reports its ending to the listener |
| Games.Game.AddRow | chess/Game.java:82-84 | one row of the layout: the column loop adds eight fresh pieces and keeps the game consistent |
| Games.Game.StartNewTurn | chess/Game.java:90-100 | equals `GameRules.StartNewTurn`, including the listener's endings and the missing-King fault |
| Games.Game.ConcludeTurn | chess/Game.java:98-99 | equals `GameRules.ConcludeTurn` and keeps the game consistent |
| Games.Game.SetTurn | chess/Game.java:91-96 | changes only the turn and keeps the game consistent |
| Games.Game.IsInCheckmate | chess/Game.java:114-124 | answer and state equal `GameRules.IsInCheckmate`; the game stays consistent |
| Games.Game.IsInStalemate | chess/Game.java:129-142 | answer and state equal `GameRules.IsInStalemate`; the game stays consistent |
| Games.Game.NoPieceCanMove | chess/Game.java:118-120 | the piece loop computes `GameRules.NoneCanMove` |
| Games.Game.MovePieceTo | chess/Game.java:151-164 | answer and state equal `GameRules.MovePieceTo`; the game stays consistent |
| Games.Game.Capture | chess/Game.java:157-159 | returns the occupant of the spot and removes it from play if there is one; the mover is untouched |
| Games.Game.RemovePieceFromPlay | chess/Game.java:288-291 | the state becomes `GameRules.RemovePieceFromPlay`; the game stays consistent |
| Games.Game.TakeOffPiece | chess/Piece.java:44-49 | `removeFromPlay` on the game gives `GameRules.TakeOff` |
| Games.Game.AddPiece | chess/Game.java:273-283 | a fresh piece is added as `GameRules.AddPiece` says; the game stays consistent |
| Games.Game.NewPiece | chess/Piece.java:28-35 | the piece constructor on the game gives `GameRules.PutOn` |
| Games.Game.GetPiecesThreatening | chess/Game.java:187-194 | answer and state equal `GameRules.PiecesThreatening`; the game stays consistent |
| Games.Game.ThreatenStep | chess/Game.java:189-192 | one iteration of the threat loop keeps its invariant |
| Games.Game.MovePiece | chess/Piece.java:69-75 | `moveTo` on the game gives `Rules.PieceMoveTo` |
| Games.Game.IsAvailableSpotForPiece | chess/Game.java:170-179 | answer and state equal `Rules.IsAvailable` |
| Games.Game.MoveWouldPutKingInCheck | chess/Game.java:215-254 | the in-place probe computes `Rules.MoveWouldPutKingInCheck`, answer and restored state |
| Games.Game.ProbeSetUp | chess/Game.java:232-236 | saves the occupant and the mover's spot, and gives `Rules.ProbeMove` |
| Games.Game.ProbeCleanUp | chess/Game.java:246-251 | moves the piece back and reinstates the saved occupant |
| Games.Game.PutPiece | chess/Board.java:31 | `setPiece` on the game changes only that spot's occupant |
| Games.Game.IsInCheck | chess/Game.java:199-209 | returns `Rules.InCheck` and changes nothing |
| Games.Game.KingHit | chess/Game.java:203-206 | the inner loop fires exactly when a move exists and the King is absent or on one of the moves; an absent King is the fault |
| Games.Game.GetKing | chess/Game.java:259-265 | returns the first King of the side's list |
| Games.Game.GetPossibleMovesRegardlessOfKing | chess/Piece.java:104-106 | equals the unfiltered `Rules.Moves` and changes nothing |
| Games.Game.GetPossibleMoves | chess/Piece.java:96-98 | equals the filtered `Rules.Moves` |
| Games.Game.PossibleMoves | chess/Piece.java:112 | dispatches to the kind's generator and equals `Rules.Moves` |
| Games.Game.IsAvailableSpot | chess/Piece.java:80-90 | delegates to the game's availability test |
| Games.Game.PawnMoves | chess/Pawn.java:18-46 | the Pawn generator equals `Rules.PawnMoves` |
| Games.Game.PawnAttacks | chess/Pawn.java:37-43 | the loop over the column offsets 1 and -1 equals `Rules.PawnAttacks` |
| Games.Game.PawnAdvance | chess/Pawn.java:24-35 | the forward steps equal `Rules.PawnAdvance` |
| Games.Game.RookMoves | chess/Rook.java:15-49 | scans the four orthogonal directions in the source's order |
| Games.Game.BishopMoves | chess/Bishop.java:15-46 | scans the four diagonal directions in the source's order |
| Games.Game.QueenMoves | chess/Queen.java:15-49 | scans the eight directions in the source's nested-loop order, skipping (0,0) |
| Games.Game.FlipFlopperMoves | chess/FlipFlopper.java:21-59 | scans the eight directions, with the scan step obeying the parity |
| Games.Game.KingMoves | chess/King.java:15-35 | tries the eight adjacent offsets in order |
| Games.Game.KnightMoves | chess/Knight.java:15-40 | tries the eight L-offsets in the source's nested-loop order |
| Games.Game.MegaRookMoves | chess/MegaRook.java:17-47 | runs the unblocked scan in the four orthogonal directions |
| Games.Game.Slides | chess/Rook.java:26-46 | the direction loop equals `Rules.Rays` |
| Games.Game.Slide | chess/Rook.java:29-44 | the `while` loop of one direction equals `Rules.Ray` |
| Games.Game.Jumps | chess/Knight.java:27-37 | the offset loop equals `Rules.Steps` |
| Games.Game.MegaSlides | chess/MegaRook.java:28-44 | the direction loop equals `Rules.MegaRays` |
| Games.Game.MegaSlide | chess/MegaRook.java:31-42 | the `while` loop over stored spots equals `Rules.MegaRay` |
| Games.Game.MegaStep | chess/MegaRook.java:36-40 | one iteration tests one spot and advances the distance by one |
| Shapes.PawnShape | chess/Pawn.java:25-43 | at most 4 moves; each is on the board, one row forward within one column, or two rows straight forward; the two-step only follows the one-step |
| Shapes.RookShape | chess/Rook.java:18-41 | every Rook or MegaRook move is on the board, not the own spot, and on the piece's row or column |
| Shapes.BishopShape | chess/Bishop.java:18-40 | every Bishop move is on the board, not the own spot, and on a diagonal through the piece |
| Shapes.QueenShape | chess/Queen.java:18-43 | every Queen or FlipFlopper move is on the board, not the own spot, and on a row, column or diagonal through the piece |
| Shapes.KingShape | chess/King.java:18-31 | at most 8 King moves, each on the board at Chebyshev distance exactly 1 |
| Shapes.KnightShape | chess/Knight.java:19-33 | at most 8 Knight moves, each on the board at an L-offset (1,2) or (2,1) in absolute value |
| Shapes.RookBound | chess/Rook.java:26-44 | at most 14 Rook or MegaRook moves |
| Shapes.BishopBound | chess/Bishop.java:22-43 | at most 13 Bishop moves |
| Shapes.QueenBound | chess/Queen.java:22-46 | at most 27 Queen or FlipFlopper moves |
| Shapes.FlipFlopperShape | chess/FlipFlopper.java:41-43 | with parity 1 a FlipFlopper moves like a King: at most 8 moves, each at distance exactly 1 |
| Shapes.RayConsecutive | chess/Rook.java:32-44 | a scan yields the consecutive spots of its direction from the start distance, and every spot but the last is empty |
| Shapes.MegaRayComplete | chess/MegaRook.java:34-42 | unfiltered, every stored spot further along that is available is in the scan, beyond occupied spots too |
| Shapes.MegaRaysAlong | chess/MegaRook.java:20-44 | every MegaRook move is on the board along one of the scanned directions |
| Availability.RayOpen | chess/Rook.java:32-44 | unfiltered, every spot a sliding scan keeps is stored and not held by the mover's side |
| Availability.RayFromOpen | chess/FlipFlopper.java:37-52 | unfiltered, every spot the rest of a scan keeps after a tested spot is available |
| Availability.RayEnds | chess/Rook.java:32-44 | unfiltered, a scan ends only for a reason the loop has: the spot after its last is unavailable, or its last spot is occupied, or the piece is a FlipFlopper with parity 1 |
| Availability.RayFromEnds | chess/FlipFlopper.java:37-52 | the same stopping rule for the rest of a scan after a tested spot, including the parity-1 single step |
| Availability.RaysOpen | chess/Rook.java:26-46 | unfiltered, every spot the sliding scans over a direction list keep is available |
| Availability.MegaRayOpen | chess/MegaRook.java:34-42 | unfiltered, every spot a MegaRook scan keeps is available (the converse is `Shapes.MegaRayComplete`) |
| Availability.MegaRaysOpen | chess/MegaRook.java:28-44 | unfiltered, every spot the MegaRook's scans keep is available |
| Availability.StepsOpen | chess/King.java:21-32 | unfiltered, a spot is kept exactly when it is one of the offsets from the piece and available |
| Availability.StepsAccepted | chess/Knight.java:27-37 | filtered, on a game paired with the one asked, a spot is kept exactly when it is one of the offsets and the filtered test accepts it in the game asked |
| Availability.KingKnightMoves | chess/King.java:21-32 | a King's or Knight's move is exactly an offset of its kind that the availability test accepts, filtered in a consistent game or unfiltered |
| Availability.PawnAttacksOpen | chess/Pawn.java:37-43 | unfiltered, a diagonal is kept exactly when it is one row forward and one column over, available and occupied; its occupant is then an enemy |
| Availability.PawnAdvanceOpen | chess/Pawn.java:24-35 | unfiltered, every forward step kept is available and empty |
| Availability.MovesOpen | chess/Piece.java:104-106 | unfiltered, every move of every kind is stored and not held by the mover's side; a Pawn's move off its column lands on an enemy piece |
| Availability.FilteredMovesOpen | chess/Piece.java:96-98 | in a consistent game the filtered moves keep both promises of `Availability.MovesOpen` |
| Queries.ThreatenedIff | chess/Game.java:202-208 | with a King, the loops answer true exactly when some listed piece reaches the King's spot unfiltered; without one, they fault exactly when some listed piece has a move |
| Queries.InCheckIff | chess/Game.java:199-209 | a side is in check exactly when an opponent piece reaches its King's spot with an unfiltered move; a side without a King faults exactly when an opponent piece can move |
| Queries.QueenUnion | chess/Queen.java:18-43 | unfiltered, a Queen's or FlipFlopper's move set is the union of the Rook-shaped and Bishop-shaped scans from its spot |
| Queries.FilteredWithin | chess/Game.java:170-179 | in a consistent game every filtered move is also an unfiltered move |
| Queries.ProbeWithin | chess/Game.java:176 | a spot a probe accepts passes the unfiltered test on the game before any probe |
| Queries.ProbeAlone | chess/Game.java:170-179 | when the opponent has no pieces, the filtered test agrees with the unfiltered one |
| Queries.LoneKingMoves | chess/tests/PieceTests.java:33-42 | a lone White King on (0,1) has exactly the moves (1,2), (1,1), (1,0), (0,2), (0,0) |
| Independence.ProbeMarks | chess/Game.java:230-254 | the probe gives back every piece's fields unchanged, except that the probed piece is marked as moved when it is a Pawn |
| Independence.ProbeMeaning | chess/Game.java:215-254 | the probe answers true exactly when, with the piece moved there and the occupant off its list, the side has a King that some opponent piece reaches with an unfiltered move |
| Independence.AvailableIff | chess/Game.java:170-179 | filtered, a spot is accepted exactly when it is on the board, not held by the mover's side, and the probe finds the King unattacked after the move |
| Independence.FilteredPawnNoTwoStep | chess/Pawn.java:24-35 | filtered, a Pawn is never offered its two-step, because the one-step's probe (chess/Game.java:236) marks it as moved before hasMoved is read; a Pawn offered its one-step leaves the query marked as moved |
| Independence.OpenPawnTwoStep | chess/Pawn.java:29-33 | unfiltered, an unmoved Pawn with both forward spots stored and empty is offered the two-step |
| Independence.MovesAlike | chess/Game.java:199-209 | unfiltered, in two games whose boards differ only in moved flags, a piece has moves in both or in neither and reaches the same occupied spots, so the King's spot in particular |
| Independence.InCheckSame | chess/Game.java:199-209 | check of a side is the same in two consistent games that differ only in moved flags and the order of the opponent's list |
| Independence.MovesSame | chess/Piece.java:96-98 | filtered moves of a piece are the same in two such consistent games, and the games they leave are again such a pair |
| Independence.NoneCanMoveIff | chess/Game.java:118-120 | the piece loop answers true exactly when no piece of the list has a filtered move in the game the loop started from |
| Independence.NoneCanMoveAlike | chess/Game.java:118-120 | run on any later game the probes left, the loop still answers about the starting game |
| Independence.CheckmateIff | chess/Game.java:114-124 | checkmate exactly when in check and no own piece has a filtered move; not checkmate exactly when not in check or some piece can move; a fault exactly when check faults |
| Independence.CheckmateAlike | chess/Game.java:114-124 | asked of a game the probes left, checkmate answers about the starting game |
| Independence.StalemateIff | chess/Game.java:129-142 | stalemate exactly when not in check and either both sides have one piece or no own piece has a filtered move; the other answers and the fault exactly in the remaining cases |
| Independence.StalemateAlike | chess/Game.java:129-142 | asked of a game the probes left, stalemate answers about the starting game |
| Independence.ConcludeAlike | chess/Game.java:97-99 | the opponent wins exactly on checkmate, the game is drawn exactly on stalemate, it goes on otherwise, and it faults exactly when check faults |
| Independence.TurnOutcome | chess/Game.java:90-100 | a new turn goes to the next side, and then wins, draws, continues or faults exactly as `ConcludeAlike` says of the game before the turn |
| Independence.ThreatsUnfiltered | chess/Game.java:189-192 | unfiltered, the loop keeps in list order exactly the pieces whose moves contain the spot |
| Independence.ThreatsFiltered | chess/Game.java:189-192 | filtered, the loop keeps in list order exactly the pieces whose filtered moves in the starting game contain the spot |
| Independence.ThreateningIff | chess/Game.java:187-194 | the threatening pieces are a subsequence of the opponent's list and hold exactly those opponent pieces whose moves reach the target's spot; none when the target has no spot |
| Independence.QueenUnionFiltered | chess/Queen.java:18-43 | filtered, in a consistent game, a Queen's or FlipFlopper's move set is the union of the Rook-shaped and Bishop-shaped scans from its spot |

## Left out

- The Swing GUI, the random-move drivers and the older default-package `Game.java` are not part of this model. Text rendering is also out: ANSI board strings, `toString`, `displayString`, `getIconFile`, `Color.toString`.
- Reflection in `Game.addPiece` is replaced by a factory keyed on `Chess.Kind`. Its catch-and-return-null path cannot occur there, and the `stderr` messages are not modelled.
- The `Callable` handed to `resultIfPieceMovedToSpot` is specialised to its only use, `isInCheck`. An exception in the condition is modelled as the missing-King fault, which the probe turns into `false`.
- Spot identity: a spot is its coordinates. The dummy off-board spot is a coordinate pair outside the board, whose occupant is never stored.
- A piece's back-reference to its game is replaced by a reference to the board it stands on.
- `Games.Game.MovePieceTo`, `GameRules.MovePieceTo` and `GameInvariant.MoveConsistent` exclude one case: an in-play piece sent to its own spot on its side's turn. There the Java code captures the mover and then dereferences its null spot at `Piece.moveTo`. The same move on the other side's turn, or by a piece out of play, is modelled: it is the `ChessError` that changes nothing.
- `Games.Game.AddPiece` requires a stored, unoccupied spot. Java would silently overwrite an occupant's spot link.
- `Games.Game.StartGame` requires an empty board.
- Java's 32-bit `int` is modelled as unbounded. All coordinates stay within a few steps of the 8×8 board, so no overflow can occur.
- The nested direction loops of the Bishop, Queen, King, Knight and FlipFlopper are one loop over the direction list, in the same order. Long method bodies are split into helper methods (`Slide`, `MegaStep`, `ProbeSetUp`, `ProbeCleanUp`, `Capture`, `AddRow`).
- Restoring.ProbeRestores: piece-list order is restored only as a multiset, because the Java code re-adds a displaced piece at the end of its list.
- Independence.CheckmateIff, Independence.StalemateIff, Independence.TurnOutcome, Independence.ThreateningIff and Independence.QueenUnionFiltered hold of a consistent game (`Rules.Consistent`); every game the operations build is one.
- Rules.Ray: where a scan stops (`Availability.RayEnds`) is proved unfiltered only; filtered, the availability test runs on the game the earlier probes left, and `Independence` relates that game to the one asked.
- Shapes.MegaRayComplete: the contrast with the Rook, whose scan has every spot but its last empty (`Shapes.RayConsecutive`), is shown by these two lemmas, not by a concrete board.
- Listener plumbing beyond `onGameEnded` does not exist in `chess/Game.java`. The listener records the winners it hears.
