/** The game controller of chess/Game.java, with the move generators of the
    piece classes (chess/Pawn.java ... chess/FlipFlopper.java) and the
    delegating wrappers of chess/Piece.java. A generator takes the piece as a
    parameter and dispatches on its kind, because a piece reaches the game
    only through these calls. Every method is proved to produce the result
    and the new state that the functions of Rules and GameRules compute. */
module Games {
  import opened Wrappers
  import opened Chess
  import opened Boards
  import opened Pieces
  import opened Rules
  import opened GameRules
  import opened Scans
  import opened Restoring
  import opened GameInvariant
  import opened Setup

  /** Game.GameEventListener: it records every onGameEnded notification. */
  class Listener {
    var endings: seq<Option<Color>>

    constructor ()
      ensures endings == []
    {
      endings := [];
    }

    /** onGameEnded(winner); None stands for a draw. */
    method OnGameEnded(winner: Option<Color>)
      modifies this
      ensures endings == old(endings) + [winner]
    {
      endings := endings + [winner];
    }
  }

  class Game {
    const board: Board<Piece>
    var whitePieces: seq<Piece>
    var blackPieces: seq<Piece>
    var turnColor: Option<Color>
    var eventListener: Option<Listener>
    /** Every piece ever created for this game. */
    ghost var all: set<Piece>

    /** Game(): an empty board, empty piece lists, no turn yet, no listener. */
    constructor ()
      ensures Consistent() && fresh(board) && fresh(board.cells)
      ensures Model() == State(map[], map[], [], [], None) && eventListener.None? && all == {}
    {
      board := new Board();
      whitePieces := [];
      blackPieces := [];
      turnColor := None;
      eventListener := None;
      all := {};
    }

    /** The game as a Rules.State. */
    ghost function Model(): State
      reads this, board, all
    {
      State(board.contents, map q | q in all :: q.Rec(), whitePieces, blackPieces, turnColor)
    }

    /** What the model says about one piece, for proofs that hide Model's body. */
    lemma ModelRec(p: Piece)
      requires p in all
      ensures p in Model().recs && Model().recs[p] == p.Rec()
    {
    }

    /** What the model says about the board, the piece lists and the turn,
        for proofs that hide Model's body. */
    lemma ModelShape()
      ensures Model().occ == board.contents && Model().recs.Keys == all
      ensures Model().white == whitePieces && Model().black == blackPieces && Model().turn == turnColor
    {
    }

    /** Consistent() in terms of the model, for proofs that hide its body. */
    lemma ModelConsistent()
      requires Consistent()
      ensures Valid() && Rules.Consistent(Model())
    {
    }

    /** What Valid() says about the model, for proofs that hide its body. */
    lemma ValidPlaced()
      requires Valid()
      ensures Placed(Model())
    {
    }

    lemma ValidParts()
      requires Valid()
      ensures board.Valid() && (forall q | q in all :: q.board == board) && Placed(Model())
    {
    }

    lemma ValidIntro()
      requires board.Valid() && (forall q | q in all :: q.board == board) && Placed(Model())
      ensures Valid()
    {
    }

    lemma ConsistentIntro()
      requires Valid() && Rules.Consistent(Model())
      ensures Consistent()
    {
    }

    /** The representation invariant every method keeps, even in the middle
        of a probe. */
    ghost predicate Valid()
      reads this, board, board.cells, all
    {
      board.Valid() && (forall q | q in all :: q.board == board) && Placed(Model())
    }

    /** The invariant between the public operations. */
    ghost predicate Consistent()
      reads this, board, board.cells, all
    {
      Valid() && Rules.Consistent(Model())
    }

    /** What no move query touches: the set of pieces and the listener. */
    twostate predicate Kept()
      reads this
    {
      all == old(all) && eventListener == old(eventListener)
    }

    /** Game.setGameEventListener. */
    method SetGameEventListener(listener: Listener)
      modifies this
      ensures eventListener == Some(listener) && all == old(all) && Model() == old(Model())
      ensures old(Consistent()) ==> Consistent()
    {
      eventListener := Some(listener);
    }

    /** Game.endGame: the listener, if there is one, is told the winner
        (None for a draw); nothing else happens. */
    method EndGame(winner: Option<Color>)
      modifies if eventListener.Some? then {eventListener.value} else {}
      ensures eventListener.Some? ==> eventListener.value.endings == old(eventListener.value.endings) + [winner]
    {
      if eventListener.Some? {
        eventListener.value.OnGameEnded(winner);
      }
    }

    /** Game.startGame: for each row configuration in order and each column
        from 0 to 7, addPiece puts a new piece of the configured kind and side
        on that spot; then the first turn starts. The pieces made are
        `created`, in the order they were made. */
    method StartGame() returns (r: Result<(), Fault>, ghost created: seq<Piece>)
      requires Consistent() && Model().occ == map[]
      modifies this, board, board.cells, all, if eventListener.Some? then {eventListener.value} else {}
      ensures Consistent() && eventListener == old(eventListener)
      ensures |created| == 32 && (forall i, j | 0 <= i < j < 32 :: created[i] != created[j])
      ensures (forall q | q in created :: fresh(q) && q !in old(all)) && all == old(all) + set q | q in created
      ensures Model() == GameRules.StartNewTurn(Populated(old(Model()), created)).1
      ensures r.Err? <==> GameRules.StartNewTurn(Populated(old(Model()), created)).0.Err?
      ensures eventListener.Some? ==>
                eventListener.value.endings ==
                old(eventListener.value.endings) + Endings(GameRules.StartNewTurn(Populated(old(Model()), created)).0)
    {
      hide Model, Consistent, AddAll, Layout, RowLayout, Calls, Rules.Consistent, Placed, GameRules.AddPiece, GameRules.StartNewTurn;
      ghost var st := Model();
      ModelConsistent();
      ModelShape();
      StartingShape();
      RowsDescend();
      created := [];
      NoCalls(st, RowConfigurations, RowConfigurations[0]);
      CallsEnds();
      for k := 0 to |RowConfigurations|
        invariant Consistent() && eventListener == old(eventListener)
        invariant eventListener.Some? ==> eventListener.value.endings == old(eventListener.value.endings)
        invariant |created| == NumCols * k && (forall i, j | 0 <= i < j < |created| :: created[i] != created[j])
        invariant (forall q | q in created :: fresh(q) && q !in st.recs) && all == old(all) + set q | q in created
        invariant Model() == AddAll(st, created, Calls(k))
        invariant forall t | t in Model().occ :: k < |RowConfigurations| ==> t.row > RowConfigurations[k].row
      {
        ghost var row := AddRow(st, k, created);
        created := created + row;
      }
      assert Model() == Populated(st, created);
      assert st == old(Model());
      ghost var built := Model();
      r := StartNewTurn();
      assert Model() == GameRules.StartNewTurn(built).1;
    }

    /** One pass of the outer loop of Game.startGame: addPiece for the
        columns 0 to 7 of row configuration k, after the pieces `before` of
        the configurations above it. The pieces made are `row`. */
    method AddRow(ghost st: State, k: nat, ghost before: seq<Piece>) returns (ghost row: seq<Piece>)
      requires k < |RowConfigurations| && Consistent()
      requires |before| == NumCols * k && (forall i, j | 0 <= i < j < |before| :: before[i] != before[j])
      requires forall q | q in before :: q !in st.recs
      requires Model() == AddAll(st, before, Calls(k))
      requires forall t | t in Model().occ :: t.row > RowConfigurations[k].row
      modifies this, board, board.cells
      ensures Consistent() && eventListener == old(eventListener)
      ensures var created := before + row;
              |created| == NumCols * (k + 1) && (forall i, j | 0 <= i < j < |created| :: created[i] != created[j])
      ensures (forall q | q in row :: fresh(q) && q !in st.recs) && all == old(all) + set q | q in row
      ensures Model() == AddAll(st, before + row, Calls(k + 1))
      ensures forall t | t in Model().occ :: t.row >= RowConfigurations[k].row
    {
      hide *;
      StartingLayout();
      var cfg := RowConfigurations[k];
      NoCalls(st, RowConfigurations, cfg);
      assert Calls(k) + RowLayout(cfg, 0) == Calls(k);
      row := [];
      assert before + row == before;
      for col := 0 to NumCols
        invariant Consistent() && eventListener == old(eventListener)
        invariant |row| == col && (forall i, j | 0 <= i < j < |before + row| :: (before + row)[i] != (before + row)[j])
        invariant (forall q | q in row :: fresh(q) && q !in st.recs) && all == old(all) + set q | q in row
        invariant Model() == AddAll(st, before + row, Calls(k) + RowLayout(cfg, col))
        invariant forall t | t in Model().occ :: t.row > cfg.row || (t.row == cfg.row && t.col < col)
      {
        ghost var ps := Calls(k) + RowLayout(cfg, col);
        ghost var p := Placement(cfg.pieces[col], cfg.sideColor, Spot(cfg.row, col));
        ColumnFree(Model(), k, col);
        var q := AddPiece(cfg.pieces[col], cfg.sideColor, board.GetSpot(cfg.row, col));
        AddStep(st, before + row, ps, q, p);
        RowStep(cfg, col);
        assert ps + [p] == Calls(k) + RowLayout(cfg, col + 1);
        assert before + (row + [q]) == (before + row) + [q];
        row := row + [q];
      }
      CallsStep(k);
    }

    /** Game.startNewTurn: the turn passes to the other side (White first);
        the game ends with the other side winning if the side to move is
        checkmated, or drawn if it is stalemated. A fault of isInCheck escapes. */
    method StartNewTurn() returns (r: Result<(), Fault>)
      requires Consistent()
      modifies this, board, board.cells, all, if eventListener.Some? then {eventListener.value} else {}
      ensures Consistent() && Kept()
      ensures Model() == GameRules.StartNewTurn(old(Model())).1
      ensures r.Err? <==> GameRules.StartNewTurn(old(Model())).0.Err?
      ensures r.Err? ==> r.error == GameRules.StartNewTurn(old(Model())).0.error
      ensures eventListener.Some? ==>
                eventListener.value.endings == old(eventListener.value.endings) + Endings(GameRules.StartNewTurn(old(Model())).0)
    {
      hide Model, GameRules.ConcludeTurn, Rules.Consistent, Placed;
      ghost var st := Model();
      ModelShape();
      ConsistentListed(st);
      var c := NextTurn(turnColor);
      SetTurn(c);
      r := ConcludeTurn(c);
    }

    /** The checkmate and stalemate tests of Game.startNewTurn once side c is
        to move, and the announcement of the game's end. */
    method ConcludeTurn(c: Color) returns (r: Result<(), Fault>)
      requires Consistent()
      modifies this, board, board.cells, all, if eventListener.Some? then {eventListener.value} else {}
      ensures Consistent() && Kept()
      ensures Model() == GameRules.ConcludeTurn(old(Model()), c).1
      ensures r.Err? <==> GameRules.ConcludeTurn(old(Model()), c).0.Err?
      ensures r.Err? ==> r.error == GameRules.ConcludeTurn(old(Model()), c).0.error
      ensures eventListener.Some? ==>
                eventListener.value.endings == old(eventListener.value.endings) + Endings(GameRules.ConcludeTurn(old(Model()), c).0)
    {
      hide Model, Consistent, Valid, GameRules.IsInCheckmate, GameRules.IsInStalemate, Rules.Consistent, Placed;
      ghost var st := Model();
      ModelConsistent();
      ConsistentListed(st);
      var mate := IsInCheckmate(c);
      if mate.Err? {
        return Err(mate.error);
      }
      if mate.value {
        EndGame(Some(OpponentColor(c)));
        return Ok(());
      }
      var stale := IsInStalemate(c);
      if stale.Err? {
        return Err(stale.error);
      }
      if stale.value {
        EndGame(None);
      }
      return Ok(());
    }

    /** The assignment of the side to move. */
    method SetTurn(c: Color)
      requires Consistent()
      modifies this
      ensures Consistent() && Kept() && Model() == old(Model()).(turn := Some(c))
    {
      hide Rules.Consistent, Placed;
      ghost var st := Model();
      TurnConsistent(st, Some(c));
      ConsistentListed(st.(turn := Some(c)));
      turnColor := Some(c);
      assert Model().recs == st.recs;
    }

    /** Game.isInCheckmate. */
    method IsInCheckmate(c: Color) returns (r: Result<bool, Fault>)
      requires Consistent()
      modifies this, board, board.cells, all
      ensures Consistent() && Kept()
      ensures Yields(GameRules.IsInCheckmate(old(Model()), c), r, Model())
    {
      ghost var st := Model();
      CheckmateRestores(st, c);
      ConsistentListed(st);
      var check := IsInCheck(c);
      if check.Err? {
        return Err(check.error);
      }
      if !check.value {
        return Ok(false);
      }
      var stuck := NoPieceCanMove(c);
      r := Ok(stuck);
      KeepsConsistent(st, Model());
    }

    /** Game.isInStalemate. */
    method IsInStalemate(c: Color) returns (r: Result<bool, Fault>)
      requires Consistent()
      modifies this, board, board.cells, all
      ensures Consistent() && Kept()
      ensures Yields(GameRules.IsInStalemate(old(Model()), c), r, Model())
    {
      ghost var st := Model();
      StalemateRestores(st, c);
      ConsistentListed(st);
      var check := IsInCheck(c);
      if check.Err? {
        return Err(check.error);
      }
      if check.value {
        return Ok(false);
      }
      if |blackPieces| == 1 && |whitePieces| == 1 {
        return Ok(true);
      }
      var stuck := NoPieceCanMove(c);
      r := Ok(stuck);
      KeepsConsistent(st, Model());
    }

    /** The loop shared by Game.isInCheckmate and Game.isInStalemate: false
        as soon as a piece of side c has a filtered move, else true. */
    method NoPieceCanMove(c: Color) returns (b: bool)
      requires Valid() && forall q | q in GetPieces(c) :: q in Model().recs && OnBoard(Model().recs[q]) && Model().recs[q].color == c
      modifies this, board, board.cells, all
      ensures Valid() && Kept()
      ensures Yields(NoneCanMove(old(Model()), c, PiecesOf(old(Model()), c)), b, Model())
    {
      hide NoneCanMove, Moves, Placed, Frame;
      ghost var st := Model();
      var ps := GetPieces(c);
      assert ps[0..] == ps;
      for i := 0 to |ps|
        invariant Valid() && Kept()
        invariant forall q | q in ps[i..] :: q in Model().recs && OnBoard(Model().recs[q]) && Model().recs[q].color == c
        invariant NoneCanMove(st, c, ps) == NoneCanMove(Model(), c, ps[i..])
      {
        ghost var m := Model();
        ModelShape();
        assert ps[i] in ps[i..];
        var moves := GetPossibleMoves(ps[i]);
        NoneStep(m, c, ps, i, moves, Model());
        if |moves| != 0 {
          return false;
        }
      }
      NoneEnd(Model(), c, ps);
      return true;
    }

    /** Game.movePieceTo: rejected with ChessError unless the piece is in
        play, the spot is on the board and it is the piece's side's turn;
        otherwise the occupant of the spot is taken out of play, the piece
        moves there, and the captured occupant is returned. */
    method MovePieceTo(p: Piece, s: Spot) returns (r: Result<Option<Piece>, Fault>)
      requires Consistent() && p in all
      requires p.spot == Some(s) ==> !(p.inPlay && ValidSpot(s) && turnColor == Some(p.color))
      modifies this, board, board.cells, all
      ensures Consistent() && Kept()
      ensures Yields(GameRules.MovePieceTo(old(Model()), p, s), r, Model())
    {
      hide Model, Consistent, Valid, Rules.Consistent, Placed, GameRules.RemovePieceFromPlay, GameRules.MovePieceTo;
      ghost var st := Model();
      ModelConsistent();
      ModelRec(p);
      ModelShape();
      ConsistentListed(st);
      if !(p.inPlay && IsValidSpot(s.row, s.col) && turnColor == Some(p.color)) {
        return Err(ChessError);
      }
      ListedOnce(st, p);
      ghost var rec := p.Rec();
      assert OnBoard(rec) && ValidSpot(s);
      var captured := Capture(p, s);
      if captured.Some? {
        OccupantInPlay(st, s);
      }
      ModelConsistent();
      ModelRec(p);
      ghost var st1 := Model();
      MovePiece(p, s);
      MovePieceToStages(st, p, s, st1);
      MoveConsistent(st, p, s);
      ConsistentListed(Model());
      ConsistentIntro();
      return Ok(captured);
    }

    /** The capture step of Game.movePieceTo: the occupant of `s`, if any,
        is removed from play; p stays as it was. */
    method Capture(p: Piece, s: Spot) returns (captured: Option<Piece>)
      requires Consistent() && p in all && ValidSpot(s) && p.spot != Some(s)
      modifies this, board, board.cells, all
      ensures Consistent() && Kept() && p.Rec() == old(p.Rec())
      ensures captured == Occupant(old(Model()), s)
      ensures Model() == if captured.Some? then GameRules.RemovePieceFromPlay(old(Model()), captured.value) else old(Model())
    {
      hide Model, Consistent, Valid, Rules.Consistent, Placed, GameRules.RemovePieceFromPlay;
      ghost var st := Model();
      ModelConsistent();
      ModelRec(p);
      ModelShape();
      captured := board.GetPieceAt(s.row, s.col);
      if captured.Some? {
        OccupantInPlay(st, s);
        ModelRec(captured.value);
        RemovePieceFromPlay(captured.value);
      }
    }

    /** Game.removePieceFromPlay: Piece.removeFromPlay, then the piece leaves
        its side's list. */
    method RemovePieceFromPlay(q: Piece)
      requires Consistent() && q in all && q.inPlay
      modifies this, board, board.cells, q
      ensures Consistent() && Kept()
      ensures Model() == GameRules.RemovePieceFromPlay(old(Model()), q)
    {
      hide Model, Consistent, Valid, Rules.Consistent, Placed;
      ghost var st := Model();
      ModelConsistent();
      ModelRec(q);
      ModelShape();
      RemoveConsistent(st, q);
      ConsistentListed(st);
      ListedOnce(st, q);
      TakeOffPiece(q);
      SetPieces(q.color, RemoveFirst(GetPieces(q.color), q));
      ConsistentListed(Model());
      ValidIntro();
      ConsistentIntro();
    }

    /** Piece.removeFromPlay on piece q, seen on the model. */
    method TakeOffPiece(q: Piece)
      requires Valid() && q in all && q.spot.Some?
      modifies board, board.cells, q
      ensures board.Valid() && (forall p | p in all :: p.board == board)
      ensures Model() == TakeOff(old(Model()), q)
    {
      ghost var st := Model();
      q.RemoveFromPlay();
      assert Model().recs == st.recs[q := Removed(st.recs[q])];
    }

    /** Game.addPiece, with a factory on the kind in place of the reflective
        constructor call: a new piece of that kind stands on `s` and is
        appended to its side's list. */
    method AddPiece(kind: Kind, color: Color, s: Spot) returns (q: Piece)
      requires Consistent() && ValidSpot(s) && !Occupied(Model(), s)
      modifies this, board, board.cells
      ensures fresh(q) && all == old(all) + {q} && eventListener == old(eventListener)
      ensures Consistent() && Model() == GameRules.AddPiece(old(Model()), q, kind, color, s)
    {
      hide Model, Rules.Consistent, Placed;
      ghost var st := Model();
      ModelShape();
      q := NewPiece(kind, color, s);
      AddConsistent(st, q, kind, color, s);
      SetPieces(color, GetPieces(color) + [q]);
      ConsistentListed(Model());
    }

    /** The Piece constructor on a fresh piece, seen on the model. */
    method NewPiece(kind: Kind, color: Color, s: Spot) returns (q: Piece)
      requires Valid()
      modifies this, board, board.cells
      ensures fresh(q) && all == old(all) + {q} && eventListener == old(eventListener)
      ensures whitePieces == old(whitePieces) && blackPieces == old(blackPieces)
      ensures board.Valid() && (forall p | p in all :: p.board == board)
      ensures q !in old(Model()).recs && Model() == PutOn(old(Model()), q, kind, color, s)
    {
      ghost var st := Model();
      q := new Piece(kind, board, color, s);
      all := all + {q};
      assert Model().recs == st.recs[q := NewRec(kind, color, s)];
    }

    /** Game.getPiecesThreatening: the pieces of the target's opponent whose
        moves (filtered or not) include the target's spot, in list order. */
    method GetPiecesThreatening(target: Piece, regardless: bool) returns (threatening: seq<Piece>)
      requires Consistent() && target in all
      modifies this, board, board.cells, all
      ensures Consistent() && Kept()
      ensures Yields(PiecesThreatening(old(Model()), target, regardless), threatening, Model())
    {
      hide Threats, Moves, Placed, Frame, Consistent, Valid;
      ghost var st := Model();
      ModelConsistent();
      ValidPlaced();
      ThreateningRestores(st, target, regardless);
      ConsistentListed(st);
      var c := OpponentColor(target.color);
      var at := target.spot;
      var opponents := GetPieces(c);
      ghost var whole := Threats(st, at, c, opponents, regardless);
      threatening := [];
      Begin(whole);
      assert opponents[0..] == opponents;
      for i := 0 to |opponents|
        invariant Valid() && Kept() && Placed(Model())
        invariant forall q | q in opponents[i..] :: q in Model().recs && OnBoard(Model().recs[q]) && Model().recs[q].color == c
        invariant Continues(whole, threatening, Threats(Model(), at, c, opponents[i..], regardless))
      {
        threatening := ThreatenStep(whole, threatening, at, c, opponents, i, regardless);
      }
      ThreatsEnd(whole, threatening, Model(), at, c, opponents, regardless);
      KeepsConsistent(st, Model());
      ConsistentIntro();
    }

    /** One pass of Game.getPiecesThreatening's loop: opponents[i] is kept
        when its moves contain `at`. */
    method ThreatenStep(ghost whole: (seq<Piece>, State), threatening: seq<Piece>, at: Option<Spot>, c: Color,
                        opponents: seq<Piece>, i: int, regardless: bool) returns (threatening': seq<Piece>)
      requires Valid() && Placed(Model()) && 0 <= i < |opponents|
      requires forall q | q in opponents[i..] :: q in Model().recs && OnBoard(Model().recs[q]) && Model().recs[q].color == c
      requires Continues(whole, threatening, Threats(Model(), at, c, opponents[i..], regardless))
      modifies this, board, board.cells, all
      ensures Valid() && Kept() && Placed(Model())
      ensures forall q | q in opponents[i + 1..] :: q in Model().recs && OnBoard(Model().recs[q]) && Model().recs[q].color == c
      ensures Continues(whole, threatening', Threats(Model(), at, c, opponents[i + 1..], regardless))
    {
      hide Threats, Moves, Placed, Frame, Valid;
      ghost var m := Model();
      ModelShape();
      assert opponents[i] in opponents[i..];
      var moves := PossibleMoves(opponents[i], regardless);
      ValidPlaced();
      ThreatsStep(whole, threatening, m, at, c, opponents, i, regardless, moves, Model());
      threatening' := threatening;
      if at.Some? && at.value in moves {
        threatening' := threatening + [opponents[i]];
      }
    }

    /** Game.getPieces. */
    function GetPieces(c: Color): (ps: seq<Piece>)
      reads this
    {
      if c == White then whitePieces else blackPieces
    }

    /** Piece.moveTo on piece p, seen on the model. */
    method MovePiece(p: Piece, s: Spot)
      requires Valid() && p in all && OnBoard(p.Rec()) && ValidSpot(s)
      modifies board, board.cells, p
      ensures Valid() && Model() == PieceMoveTo(old(Model()), p, s)
      ensures unchanged(this)
    {
      ghost var st := Model();
      p.MoveTo(s);
      PieceMoveToPlaced(st, p, s);
      assert Model().recs == st.recs[p := Moved(st.recs[p], s)];
    }

    /** Replace the list of side c. */
    method SetPieces(c: Color, ps: seq<Piece>)
      modifies this
      ensures Model() == WithPieces(old(Model()), c, ps) && Kept()
    {
      if c == White { whitePieces := ps; } else { blackPieces := ps; }
    }

    /** Game.isAvailableSpotForPiece. */
    method IsAvailableSpotForPiece(p: Piece, row: int, col: int, regardless: bool) returns (b: bool)
      requires Valid() && p in all && OnBoard(p.Rec())
      modifies this, board, board.cells, all
      ensures Valid() && Kept()
      ensures Yields(IsAvailable(old(Model()), p, Spot(row, col), regardless), b, Model())
      decreases if regardless then 0 else 1, 2
    {
      hide Rules.MoveWouldPutKingInCheck, Frame;
      if !IsValidSpot(row, col) {
        return false;
      }
      if board.IsOccupied(row, col) && board.GetPieceAt(row, col).value.color == p.color {
        return false;
      }
      if !regardless {
        var check := MoveWouldPutKingInCheck(p, board.GetSpot(row, col));
        if check {
          return false;
        }
      }
      return true;
    }

    /** Game.moveWouldPutKingInCheck, with the probe of
        Game.resultIfPieceMovedToSpot: save, move, test, restore. A fault while
        testing counts as false. */
    method MoveWouldPutKingInCheck(p: Piece, s: Spot) returns (b: bool)
      requires Valid() && p in all && OnBoard(p.Rec()) && ValidSpot(s)
      modifies this, board, board.cells, all
      ensures Valid() && Kept()
      ensures Yields(Rules.MoveWouldPutKingInCheck(old(Model()), p, s), b, Model())
      decreases 1, 1
    {
      hide Rules.MoveWouldPutKingInCheck, InCheck, ProbeMove, ProbeRestore, Placed, Frame, Model;
      ghost var st := Model();
      ModelShape();
      ModelRec(p);
      if Occupied(st, s) {
        OccupantPlaced(st, s);
      }
      var displaced, home := ProbeSetUp(p, s);
      ghost var moved := Model();
      ModelRec(p);
      var check := IsInCheck(p.color);
      match check {
        case Ok(inCheck) => b := inCheck;
        case Err(_) => b := false;
      }
      assert b == (InCheck(moved, moved.recs[p].color) == Ok(true));
      ghost var back := ProbeCleanUp(st, p, s, displaced, home);
      ProbeOutcome(st, p, s, moved, b, back, Model());
      FramePlaced(st, Model(), UntouchedSide(st, p, s));
    }

    /** The first half of Game.resultIfPieceMovedToSpot: the occupant of `s`
        leaves its list and p moves to `s`. */
    method ProbeSetUp(p: Piece, s: Spot) returns (displaced: Option<Piece>, home: Spot)
      requires Valid() && p in all && OnBoard(p.Rec()) && ValidSpot(s)
      modifies this, board, board.cells, p
      ensures Valid() && Kept() && p in all
      ensures displaced == Occupant(old(Model()), s) && home == Origin(old(Model()), p)
      ensures Model() == ProbeMove(old(Model()), p, s)
    {
      hide Placed, Frame, Model, Valid;
      ghost var st := Model();
      ModelShape();
      ModelRec(p);
      ValidParts();
      displaced := board.GetPieceAt(s.row, s.col);
      home := p.spot.value;
      if displaced.Some? {
        var q := displaced.value;
        OccupantPlaced(st, s);
        ModelRec(q);
        SetPieces(q.color, RemoveFirst(GetPieces(q.color), q));
        DisplacePlaced(st, q);
        ValidIntro();
      }
      MovePiece(p, s);
    }

    /** The second half of Game.resultIfPieceMovedToSpot: p moves back home,
        and the displaced occupant returns to its list and to `s`. The state
        reached by moving back is `back`. */
    method ProbeCleanUp(ghost st: State, p: Piece, s: Spot, displaced: Option<Piece>, home: Spot)
      returns (ghost back: State)
      requires Valid() && p in all && ValidSpot(s) && p in st.recs && ValidSpot(home)
      requires Model().recs == st.recs[p := Moved(st.recs[p], s)]
      requires displaced.Some? ==> displaced.value in all
      modifies this, board, board.cells, p
      ensures Kept() && board.Valid() && (forall q | q in all :: q.board == board)
      ensures back == PieceMoveTo(old(Model()), p, home)
      ensures Model() == if displaced.Some? then Reinstate(back, displaced.value, s) else back
    {
      hide Placed, Frame, Model;
      ModelRec(p);
      MovePiece(p, home);
      back := Model();
      if displaced.Some? {
        var q := displaced.value;
        ModelShape();
        ModelRec(q);
        SetPieces(q.color, GetPieces(q.color) + [q]);
        PutPiece(s, displaced);
      }
    }

    /** Spot.setPiece on the board, seen on the model. */
    method PutPiece(s: Spot, x: Option<Piece>)
      requires board.Valid()
      modifies board, board.cells
      ensures board.Valid() && Model() == old(Model()).(occ := Place(old(Model()).occ, s, x))
    {
      board.SetPiece(s, x);
    }

    /** Game.isInCheck: Err(MissingKing) stands for the null King dereference. */
    method IsInCheck(c: Color) returns (r: Result<bool, Fault>)
      requires Valid()
      modifies this, board, board.cells, all
      ensures Valid() && Kept() && Model() == old(Model())
      ensures r == InCheck(old(Model()), c)
      decreases 0, 10
    {
      hide InCheck, Threatened, Moves, Placed, Frame, Model, Valid;
      ghost var st := Model();
      ModelShape();
      ValidPlaced();
      var king := GetKing(c);
      var opponents := GetPieces(OpponentColor(c));
      ThreatStart(st, c);
      for i := 0 to |opponents|
        invariant Valid() && Kept() && Model() == st
        invariant InCheck(st, c) == Threatened(st, king, opponents[i..])
      {
        ModelRec(opponents[i]);
        var moves := GetPossibleMovesRegardlessOfKing(opponents[i]);
        ThreatStep(st, king, opponents, i, moves);
        if king.Some? {
          ModelRec(king.value);
        }
        var hit := KingHit(king, moves);
        if hit.Some? {
          return hit.value;
        }
      }
      ThreatEnd(st, king, opponents);
      return Ok(false);
    }

    /** The inner loop of Game.isInCheck over one opponent's moves: the first
        move asks for the King's spot, which fails when there is no King. */
    method KingHit(king: Option<Piece>, moves: seq<Spot>) returns (hit: Option<Result<bool, Fault>>)
      requires king.Some? ==> king.value.spot.Some?
      ensures hit.None? <==> moves == [] || (king.Some? && king.value.spot.value !in moves)
      ensures hit.Some? ==> hit.value == if king.None? then Err(MissingKing) else Ok(true)
    {
      for j := 0 to |moves|
        invariant king.None? ==> j == 0
        invariant king.Some? ==> king.value.spot.value !in moves[..j]
      {
        if king.None? {
          return Some(Err(MissingKing));
        }
        if king.value.spot.value == moves[j] {
          return Some(Ok(true));
        }
      }
      assert moves[..|moves|] == moves;
      return None;
    }

    /** Game.getKing: the first King in the side's list, or null. */
    method GetKing(c: Color) returns (king: Option<Piece>)
      requires Valid()
      ensures king == Rules.GetKing(Model(), c)
    {
      var ps := GetPieces(c);
      for i := 0 to |ps|
        invariant FirstKing(Model().recs, ps) == FirstKing(Model().recs, ps[i..])
      {
        assert ps[i..][1..] == ps[i + 1..];
        if ps[i].kind == King {
          return Some(ps[i]);
        }
      }
      return None;
    }

    /** Piece.getPossibleMovesRegardlessOfKing: getPossibleMoves(true). */
    method GetPossibleMovesRegardlessOfKing(p: Piece) returns (moves: seq<Spot>)
      requires Valid() && p in all && OnBoard(p.Rec())
      modifies this, board, board.cells, all
      ensures Valid() && Kept() && Model() == old(Model())
      ensures moves == Moves(old(Model()), p, true).0
      decreases 0, 9
    {
      moves := PossibleMoves(p, true);
    }

    /** Piece.getPossibleMoves(): getPossibleMoves(false). */
    method GetPossibleMoves(p: Piece) returns (moves: seq<Spot>)
      requires Valid() && p in all && OnBoard(p.Rec())
      modifies this, board, board.cells, all
      ensures Valid() && Kept()
      ensures Yields(Moves(old(Model()), p, false), moves, Model())
      decreases 1, 9
    {
      moves := PossibleMoves(p, false);
    }

    /** Piece.getPossibleMoves(regardlessOfKing), dispatched on the kind. */
    method PossibleMoves(p: Piece, regardless: bool) returns (moves: seq<Spot>)
      requires Valid() && p in all && OnBoard(p.Rec())
      modifies this, board, board.cells, all
      ensures Valid() && Kept()
      ensures Yields(Moves(old(Model()), p, regardless), moves, Model())
      decreases if regardless then 0 else 1, 8
    {
      hide Rules.PawnMoves, Rays, Steps, MegaRays, Placed, Frame;
      match p.kind
      case Pawn => moves := PawnMoves(p, regardless);
      case Rook => moves := RookMoves(p, regardless);
      case Bishop => moves := BishopMoves(p, regardless);
      case Queen => moves := QueenMoves(p, regardless);
      case King => moves := KingMoves(p, regardless);
      case Knight => moves := KnightMoves(p, regardless);
      case MegaRook => moves := MegaRookMoves(p, regardless);
      case FlipFlopper => moves := FlipFlopperMoves(p, regardless);
    }

    /** Piece.isAvailableSpot(spot, regardlessOfKing), which delegates to
        Game.isAvailableSpotForPiece with the spot's coordinates. */
    method IsAvailableSpot(p: Piece, s: Spot, regardless: bool) returns (b: bool)
      requires Valid() && p in all && OnBoard(p.Rec())
      modifies this, board, board.cells, all
      ensures Valid() && Kept()
      ensures Yields(IsAvailable(old(Model()), p, s, regardless), b, Model())
      decreases if regardless then 0 else 1, 3
    {
      b := IsAvailableSpotForPiece(p, s.row, s.col, regardless);
    }

    /** Pawn.getPossibleMoves: the forward steps, then the diagonal attacks. */
    method PawnMoves(p: Piece, regardless: bool) returns (moves: seq<Spot>)
      requires Valid() && p in all && OnBoard(p.Rec())
      modifies this, board, board.cells, all
      ensures Valid() && Kept()
      ensures Yields(Rules.PawnMoves(old(Model()), p, regardless), moves, Model())
      decreases if regardless then 0 else 1, 7
    {
      hide Rules.PawnMoves, Rules.PawnAdvance, Rules.PawnAttacks, Placed, Frame, Model;
      ModelRec(p);
      ghost var st := Model();
      var straight := PawnAdvance(p, regardless);
      ghost var st1 := Model();
      PawnStart(st, p, regardless, straight, st1);
      ModelRec(p);
      var attacks := PawnAttacks(p, regardless);
      moves := straight + attacks;
    }

    /** The diagonal attacks of Pawn.getPossibleMoves, for the column offsets
        1 and -1: each kept when available and occupied. */
    method PawnAttacks(p: Piece, regardless: bool) returns (attacks: seq<Spot>)
      requires Valid() && p in all && OnBoard(p.Rec())
      modifies this, board, board.cells, all
      ensures Valid() && Kept()
      ensures Yields(Rules.PawnAttacks(old(Model()), p, [1, -1], regardless), attacks, Model())
      decreases if regardless then 0 else 1, 6
    {
      hide Rules.PawnAttacks, IsAvailable, Placed, Frame, Model;
      ModelRec(p);
      ghost var whole := Rules.PawnAttacks(Model(), p, [1, -1], regardless);
      var forward := if p.color == White then 1 else -1;
      var horizontalDirections := [1, -1];
      attacks := [];
      Begin(whole);
      assert horizontalDirections[0..] == horizontalDirections;
      for i := 0 to 2
        invariant Valid() && Kept() && OnBoard(p.Rec())
        invariant p in Model().recs && Model().recs[p] == p.Rec()
        invariant Continues(whole, attacks, Rules.PawnAttacks(Model(), p, horizontalDirections[i..], regardless))
      {
        ghost var m := Model();
        var attackSpot := p.GetSpotWithOffset(forward, horizontalDirections[i]);
        var available := IsAvailableSpot(p, attackSpot, regardless);
        AttacksStep(whole, attacks, m, p, horizontalDirections, i, regardless, attackSpot, available, Model());
        ModelRec(p);
        ModelShape();
        if available && board.IsOccupied(attackSpot.row, attackSpot.col) {
          attacks := attacks + [attackSpot];
        }
      }
      AttacksEnd(whole, attacks, Model(), p, horizontalDirections, regardless);
    }

    /** The forward steps of Pawn.getPossibleMoves. The two-step is tried
        only after the one-step was kept, and only if the pawn has not moved
        by then (the probe of the one-step marks it as moved). */
    method PawnAdvance(p: Piece, regardless: bool) returns (straight: seq<Spot>)
      requires Valid() && p in all && OnBoard(p.Rec())
      modifies this, board, board.cells, all
      ensures Valid() && Kept()
      ensures Yields(Rules.PawnAdvance(old(Model()), p, regardless), straight, Model())
      decreases if regardless then 0 else 1, 5
    {
      hide IsAvailable, Rules.PawnAdvance, Placed, Frame;
      ghost var st := Model();
      var forward := if p.color == White then 1 else -1;
      straight := [];
      var oneForward := p.GetSpotWithOffset(forward, 0);
      var ok := IsAvailableSpot(p, oneForward, regardless);
      ghost var st1 := Model();
      AdvanceOne(st, p, regardless, oneForward, ok, st1);
      if ok && !board.IsOccupied(oneForward.row, oneForward.col) {
        straight := straight + [oneForward];
        assert straight == [oneForward];
        var twoForward := p.GetSpotWithOffset(2 * forward, 0);
        if !p.hasMoved {
          var ok2 := IsAvailableSpot(p, twoForward, regardless);
          AdvanceTwo(st, p, regardless, oneForward, st1, twoForward, ok2, Model());
          if ok2 && !board.IsOccupied(twoForward.row, twoForward.col) {
            straight := straight + [twoForward];
            assert straight == [oneForward, twoForward];
          }
        }
      }
    }

    /** Rook.getPossibleMoves. */
    method RookMoves(p: Piece, regardless: bool) returns (moves: seq<Spot>)
      requires Valid() && p in all && OnBoard(p.Rec())
      modifies this, board, board.cells, all
      ensures Valid() && Kept()
      ensures Yields(Rays(old(Model()), p, RookDirections, regardless), moves, Model())
      decreases if regardless then 0 else 1, 6
    {
      moves := Slides(p, RookDirections, regardless);
    }

    /** Bishop.getPossibleMoves. */
    method BishopMoves(p: Piece, regardless: bool) returns (moves: seq<Spot>)
      requires Valid() && p in all && OnBoard(p.Rec())
      modifies this, board, board.cells, all
      ensures Valid() && Kept()
      ensures Yields(Rays(old(Model()), p, BishopDirections, regardless), moves, Model())
      decreases if regardless then 0 else 1, 6
    {
      moves := Slides(p, BishopDirections, regardless);
    }

    /** Queen.getPossibleMoves. */
    method QueenMoves(p: Piece, regardless: bool) returns (moves: seq<Spot>)
      requires Valid() && p in all && OnBoard(p.Rec())
      modifies this, board, board.cells, all
      ensures Valid() && Kept()
      ensures Yields(Rays(old(Model()), p, EightDirections, regardless), moves, Model())
      decreases if regardless then 0 else 1, 6
    {
      moves := Slides(p, EightDirections, regardless);
    }

    /** FlipFlopper.getPossibleMoves: the Queen scan, cut to one square per
        direction while the parity is 1 (Slide reads the parity afresh). */
    method FlipFlopperMoves(p: Piece, regardless: bool) returns (moves: seq<Spot>)
      requires Valid() && p in all && OnBoard(p.Rec())
      modifies this, board, board.cells, all
      ensures Valid() && Kept()
      ensures Yields(Rays(old(Model()), p, EightDirections, regardless), moves, Model())
      decreases if regardless then 0 else 1, 6
    {
      moves := Slides(p, EightDirections, regardless);
    }

    /** King.getPossibleMoves. */
    method KingMoves(p: Piece, regardless: bool) returns (moves: seq<Spot>)
      requires Valid() && p in all && OnBoard(p.Rec())
      modifies this, board, board.cells, all
      ensures Valid() && Kept()
      ensures Yields(Steps(old(Model()), p, EightDirections, regardless), moves, Model())
      decreases if regardless then 0 else 1, 6
    {
      moves := Jumps(p, EightDirections, regardless);
    }

    /** Knight.getPossibleMoves. */
    method KnightMoves(p: Piece, regardless: bool) returns (moves: seq<Spot>)
      requires Valid() && p in all && OnBoard(p.Rec())
      modifies this, board, board.cells, all
      ensures Valid() && Kept()
      ensures Yields(Steps(old(Model()), p, KnightOffsets, regardless), moves, Model())
      decreases if regardless then 0 else 1, 6
    {
      moves := Jumps(p, KnightOffsets, regardless);
    }

    /** MegaRook.getPossibleMoves. */
    method MegaRookMoves(p: Piece, regardless: bool) returns (moves: seq<Spot>)
      requires Valid() && p in all && OnBoard(p.Rec())
      modifies this, board, board.cells, all
      ensures Valid() && Kept()
      ensures Yields(MegaRays(old(Model()), p, RookDirections, regardless), moves, Model())
      decreases if regardless then 0 else 1, 6
    {
      moves := MegaSlides(p, RookDirections, regardless);
    }

    /** The direction loop of the sliding generators. */
    method Slides(p: Piece, dirs: seq<Vec>, regardless: bool) returns (moves: seq<Spot>)
      requires Valid() && p in all && OnBoard(p.Rec())
      requires forall d | d in dirs :: Unit(d)
      modifies this, board, board.cells, all
      ensures Valid() && Kept()
      ensures Yields(Rays(old(Model()), p, dirs, regardless), moves, Model())
      decreases if regardless then 0 else 1, 5
    {
      hide Rays, Ray, Placed, Frame, Model;
      ModelRec(p);
      ghost var whole := Rays(Model(), p, dirs, regardless);
      moves := [];
      Begin(whole);
      assert dirs[0..] == dirs;
      for i := 0 to |dirs|
        invariant Valid() && Kept() && OnBoard(p.Rec())
        invariant p in Model().recs && Model().recs[p] == p.Rec()
        invariant Continues(whole, moves, Rays(Model(), p, dirs[i..], regardless))
      {
        ghost var m := Model();
        var ray := Slide(p, dirs[i], regardless);
        RaysStep(whole, moves, m, p, dirs, i, regardless, ray, Model());
        ModelRec(p);
        moves := moves + ray;
      }
      RaysEnd(whole, moves, Model(), p, dirs, regardless);
    }

    /** The `while` loop of a sliding generator along d: add available spots
        until one is occupied (or, for a FlipFlopper of parity 1, after the
        first). */
    method Slide(p: Piece, d: Vec, regardless: bool) returns (ray: seq<Spot>)
      requires Valid() && p in all && OnBoard(p.Rec()) && Unit(d)
      modifies this, board, board.cells, all
      ensures Valid() && Kept()
      ensures Yields(Ray(old(Model()), p, d, 1, regardless), ray, Model())
      decreases if regardless then 0 else 1, 4
    {
      hide Ray, RayFrom, IsAvailable, Placed, Frame, Model;
      ModelRec(p);
      ghost var whole := Ray(Model(), p, d, 1, regardless);
      ghost var st := Model();
      var distance := 1;
      var target := p.GetSpotWithOffset(distance * d.dr, distance * d.dc);
      var available := IsAvailableSpot(p, target, regardless);
      RayStart(st, p, d, regardless, target, available, Model());
      ModelRec(p);
      ray := [];
      while available
        invariant Valid() && Kept() && OnBoard(p.Rec())
        invariant p in Model().recs && Model().recs[p] == p.Rec()
        invariant 1 <= distance && target == Target(Origin(Model(), p), d, distance)
        invariant available ==> ValidSpot(target)
        invariant Continues(whole, ray, RayFrom(Model(), p, d, distance, available, regardless))
        decreases 8 - distance
      {
        ghost var m := Model();
        ModelRec(p);
        ModelShape();
        RayBound(Origin(m, p), d, distance);
        ghost var before := ray;
        ray := ray + [target];
        if (p.kind == FlipFlopper && p.moveParity == 1) || board.IsOccupied(target.row, target.col) {
          RayStop(whole, before, m, p, d, distance, regardless);
          break;
        }
        ghost var dist := distance;
        distance := distance + 1;
        target := p.GetSpotWithOffset(distance * d.dr, distance * d.dc);
        TargetAt(Origin(Model(), p), d, distance, target);
        available := IsAvailableSpot(p, target, regardless);
        RayStep(whole, before, ray, m, p, d, dist, distance, regardless, target, available, Model());
        ModelRec(p);
      }
      if !available {
        RayEnd(whole, ray, Model(), p, d, distance, regardless);
      }
    }

    /** The offset loops of King and Knight: each offset in order, kept when
        available. */
    method Jumps(p: Piece, offsets: seq<Vec>, regardless: bool) returns (moves: seq<Spot>)
      requires Valid() && p in all && OnBoard(p.Rec())
      modifies this, board, board.cells, all
      ensures Valid() && Kept()
      ensures Yields(Steps(old(Model()), p, offsets, regardless), moves, Model())
      decreases if regardless then 0 else 1, 5
    {
      hide Steps, IsAvailable, Placed, Frame, Model;
      ModelRec(p);
      ghost var whole := Steps(Model(), p, offsets, regardless);
      moves := [];
      Begin(whole);
      assert offsets[0..] == offsets;
      for i := 0 to |offsets|
        invariant Valid() && Kept() && OnBoard(p.Rec())
        invariant p in Model().recs && Model().recs[p] == p.Rec()
        invariant Continues(whole, moves, Steps(Model(), p, offsets[i..], regardless))
      {
        ghost var m := Model();
        var target := p.GetSpotWithOffset(offsets[i].dr, offsets[i].dc);
        var available := IsAvailableSpot(p, target, regardless);
        StepsStep(whole, moves, m, p, offsets, i, regardless, target, available, Model());
        ModelRec(p);
        if available {
          moves := moves + [target];
        }
      }
      StepsEnd(whole, moves, Model(), p, offsets, regardless);
    }

    /** The direction loop of the MegaRook. */
    method MegaSlides(p: Piece, dirs: seq<Vec>, regardless: bool) returns (moves: seq<Spot>)
      requires Valid() && p in all && OnBoard(p.Rec())
      requires forall d | d in dirs :: Unit(d)
      modifies this, board, board.cells, all
      ensures Valid() && Kept()
      ensures Yields(MegaRays(old(Model()), p, dirs, regardless), moves, Model())
      decreases if regardless then 0 else 1, 5
    {
      hide MegaRays, MegaRay, Placed, Frame, Model;
      ModelRec(p);
      ghost var whole := MegaRays(Model(), p, dirs, regardless);
      moves := [];
      Begin(whole);
      assert dirs[0..] == dirs;
      for i := 0 to |dirs|
        invariant Valid() && Kept() && OnBoard(p.Rec())
        invariant p in Model().recs && Model().recs[p] == p.Rec()
        invariant Continues(whole, moves, MegaRays(Model(), p, dirs[i..], regardless))
      {
        ghost var m := Model();
        var ray := MegaSlide(p, dirs[i], regardless);
        MegaRaysStep(whole, moves, m, p, dirs, i, regardless, ray, Model());
        ModelRec(p);
        moves := moves + ray;
      }
      MegaRaysEnd(whole, moves, Model(), p, dirs, regardless);
    }

    /** The MegaRook's `while` loop along d: every stored spot is visited and
        kept when available; occupancy neither stops nor blocks the scan. */
    method MegaSlide(p: Piece, d: Vec, regardless: bool) returns (ray: seq<Spot>)
      requires Valid() && p in all && OnBoard(p.Rec()) && Unit(d)
      modifies this, board, board.cells, all
      ensures Valid() && Kept()
      ensures Yields(MegaRay(old(Model()), p, d, 1, regardless), ray, Model())
      decreases if regardless then 0 else 1, 4, 1
    {
      hide MegaRay, IsAvailable, Placed, Frame, Model, Continues, Valid;
      ModelRec(p);
      ValidPlaced();
      ghost var whole := MegaRay(Model(), p, d, 1, regardless);
      var distance := 1;
      var target := p.GetSpotWithOffset(distance * d.dr, distance * d.dc);
      ray := [];
      Begin(whole);
      while IsValidSpot(target.row, target.col)
        invariant Valid() && Kept() && OnBoard(p.Rec())
        invariant p in Model().recs && Model().recs[p] == p.Rec()
        invariant 1 <= distance && target == Target(Origin(Model(), p), d, distance)
        invariant Placed(Model()) && Continues(whole, ray, MegaRay(Model(), p, d, distance, regardless))
        decreases 8 - distance
      {
        RayBound(Origin(Model(), p), d, distance);
        ray, distance, target := MegaStep(p, d, regardless, whole, ray, distance, target);
      }
      MegaRayEnd(whole, ray, Model(), p, d, distance, regardless);
    }

    /** One pass of the MegaRook's loop: the spot `distance` steps along d is
        kept when available, and the scan moves one step further. */
    method MegaStep(p: Piece, d: Vec, regardless: bool, ghost whole: (seq<Spot>, State), ray: seq<Spot>, distance: int, target: Spot)
      returns (ray': seq<Spot>, distance': int, target': Spot)
      requires Valid() && p in all && OnBoard(p.Rec()) && Unit(d) && ValidSpot(target) && distance < 8
      requires p in Model().recs && Model().recs[p] == p.Rec()
      requires 1 <= distance && target == Target(Origin(Model(), p), d, distance)
      requires Placed(Model()) && Continues(whole, ray, MegaRay(Model(), p, d, distance, regardless))
      modifies this, board, board.cells, all
      ensures Valid() && Kept() && OnBoard(p.Rec())
      ensures p in Model().recs && Model().recs[p] == p.Rec()
      ensures distance' == distance + 1 && target' == Target(Origin(Model(), p), d, distance')
      ensures Placed(Model()) && Continues(whole, ray', MegaRay(Model(), p, d, distance', regardless))
      decreases if regardless then 0 else 1, 4, 0
    {
      hide MegaRay, IsAvailable, Placed, Frame, Model, Continues, Valid;
      ghost var m := Model();
      var available := IsAvailableSpot(p, target, regardless);
      ValidPlaced();
      ray' := ray;
      if available {
        ray' := ray + [target];
      }
      MegaRayStep(whole, ray, ray', m, p, d, distance, regardless, target, available, Model());
      ModelRec(p);
      distance' := distance + 1;
      target' := p.GetSpotWithOffset(distance' * d.dr, distance' * d.dc);
      TargetAt(Origin(Model(), p), d, distance', target');
    }
  }
}
