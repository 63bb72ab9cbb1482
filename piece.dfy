/** The state every piece carries and its primitives: chess/Piece.java, with
    the field overrides of chess/Pawn.java and chess/FlipFlopper.java. */
module Pieces {
  import opened Wrappers
  import opened Chess
  import opened Boards

  /** A snapshot of a piece's fields. `hasMoved` is meaningful for a Pawn and
      `moveParity` for a FlipFlopper; the other kinds carry them unchanged. */
  datatype PieceRec = PieceRec(kind: Kind, color: Color, inPlay: bool, spot: Option<Spot>,
                               hasMoved: bool, moveParity: int)

  /** The piece stands on a stored spot of the grid. */
  predicate OnBoard(r: PieceRec)
  {
    r.spot.Some? && ValidSpot(r.spot.value)
  }

  /** The fields of a piece just built on `s` (Piece constructor, Pawn.hasMoved
      initialiser, FlipFlopper constructor). */
  function NewRec(kind: Kind, color: Color, s: Spot): PieceRec
  {
    PieceRec(kind, color, true, Some(s), false, 0)
  }

  /** The fields after Piece.moveTo(s), including the Pawn override (which
      records the move) and the FlipFlopper override (which toggles the parity
      modulo 2; the parity is never negative, so Java's remainder agrees with
      Dafny's). */
  function Moved(r: PieceRec, s: Spot): (r': PieceRec)
    ensures r'.spot == Some(s)
    ensures r'.kind == r.kind && r'.color == r.color && r'.inPlay == r.inPlay
    ensures r'.hasMoved == (r.hasMoved || r.kind == Pawn)
    ensures r.kind != FlipFlopper ==> r'.moveParity == r.moveParity
    ensures r.kind == FlipFlopper && r.moveParity in {0, 1} ==> r'.moveParity == 1 - r.moveParity
  {
    r.(spot := Some(s),
       hasMoved := if r.kind == Pawn then true else r.hasMoved,
       moveParity := if r.kind == FlipFlopper then (r.moveParity + 1) % 2 else r.moveParity)
  }

  /** The fields after Piece.removeFromPlay. */
  function Removed(r: PieceRec): (r': PieceRec)
    ensures !r'.inPlay && r'.spot.None?
    ensures r'.kind == r.kind && r'.color == r.color && r'.hasMoved == r.hasMoved && r'.moveParity == r.moveParity
  {
    r.(spot := None, inPlay := false)
  }

  /** Moving away and back again, as the probe of Game.resultIfPieceMovedToSpot
      does, restores every field except that a Pawn is now marked as moved; a
      FlipFlopper's parity is toggled twice and so survives. */
  lemma MovedThereAndBack(r: PieceRec, s: Spot)
    requires r.spot.Some? && r.moveParity in {0, 1}
    ensures Moved(Moved(r, s), r.spot.value) == r.(hasMoved := r.hasMoved || r.kind == Pawn)
  {
  }

  /** The parity of a FlipFlopper stays 0 or 1 through any number of moves. */
  lemma {:induction false} ParityStaysBinary(r: PieceRec, moves: seq<Spot>)
    requires r.moveParity in {0, 1}
    ensures MovedAlong(r, moves).moveParity in {0, 1}
    ensures MovedAlong(r, moves).hasMoved == (r.hasMoved || (r.kind == Pawn && moves != []))
    decreases |moves|
  {
    if moves != [] {
      ParityStaysBinary(Moved(r, moves[0]), moves[1..]);
    }
  }

  /** The fields after a sequence of moves. */
  function MovedAlong(r: PieceRec, moves: seq<Spot>): PieceRec
    decreases |moves|
  {
    if moves == [] then r else MovedAlong(Moved(r, moves[0]), moves[1..])
  }

  /** Piece: a chess piece of some kind, bound to a board. The constant fields
      never change; `inPlay`, `spot`, `hasMoved` and `moveParity` are updated in
      place. */
  class Piece {
    const kind: Kind
    const color: Color
    const board: Board<Piece>
    var inPlay: bool
    var spot: Option<Spot>
    var hasMoved: bool
    var moveParity: int

    /** The current field values. */
    function Rec(): PieceRec
      reads this
    {
      PieceRec(kind, color, inPlay, spot, hasMoved, moveParity)
    }

    /** Piece(game, color, spot): the new piece is in play on `s`, and `s`
        names it as its occupant. */
    constructor (kind: Kind, board: Board<Piece>, color: Color, s: Spot)
      requires board.Valid()
      modifies board, board.cells
      ensures this.board == board && board.Valid()
      ensures Rec() == NewRec(kind, color, s)
      ensures board.contents == Place(old(board.contents), s, Some(this))
    {
      this.kind := kind;
      this.color := color;
      this.board := board;
      this.spot := Some(s);
      this.inPlay := true;
      this.hasMoved := false;
      this.moveParity := 0;
      new;
      board.SetPiece(s, Some(this));
    }

    /** Piece.removeFromPlay: the spot forgets the piece only if it still names
        it; the piece leaves play and loses its spot. */
    method RemoveFromPlay()
      requires board.Valid() && spot.Some?
      modifies this, board, board.cells
      ensures board.Valid() && Rec() == Removed(old(Rec()))
      ensures board.contents ==
                if Lookup(old(board.contents), old(spot).value) == Some(this)
                then Place(old(board.contents), old(spot).value, None)
                else old(board.contents)
    {
      if board.GetPieceAt(spot.value.row, spot.value.col) == Some(this) {
        board.SetPiece(spot.value, None);
      }
      spot := None;
      inPlay := false;
    }

    /** Piece.getSpotWithOffset: the spot at the given offset from the piece,
        possibly an off-board dummy. */
    function GetSpotWithOffset(rowOffset: int, colOffset: int): (s: Spot)
      requires spot.Some?
      reads this
      ensures s.row - spot.value.row == rowOffset && s.col - spot.value.col == colOffset
    {
      board.GetSpot(spot.value.row + rowOffset, spot.value.col + colOffset)
    }

    /** Piece.moveTo with the Pawn and FlipFlopper overrides: the old spot is
        cleared, `s` names the piece, and no legality or capture check is made. */
    method MoveTo(s: Spot)
      requires board.Valid() && spot.Some?
      modifies this, board, board.cells
      ensures board.Valid() && Rec() == Moved(old(Rec()), s)
      ensures board.contents == Place(Place(old(board.contents), old(spot).value, None), s, Some(this))
    {
      board.SetPiece(spot.value, None);
      spot := Some(s);
      board.SetPiece(s, Some(this));
      if kind == Pawn {
        hasMoved := true;
      } else if kind == FlipFlopper {
        moveParity := (moveParity + 1) % 2;
      }
    }
  }

  /** The width display strings are padded to. */
  const StringLength: int := 14

  /** Piece.formatString: `s` followed by spaces up to StringLength characters;
      a string that is already that long is returned unchanged. */
  method FormatString(s: string) returns (r: string)
    ensures |s| >= StringLength ==> r == s
    ensures |s| < StringLength ==> |r| == StringLength
    ensures r[..|s|] == s
    ensures forall i | |s| <= i < |r| :: r[i] == ' '
  {
    r := s;
    var i := |r|;
    while i < StringLength
      invariant |s| <= i && |r| == i
      invariant i <= StringLength || r == s
      invariant r[..|s|] == s
      invariant forall k | |s| <= k < |r| :: r[k] == ' '
      decreases StringLength - i
    {
      r := r + " ";
      i := i + 1;
    }
  }
}
