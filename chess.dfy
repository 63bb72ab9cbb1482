/** Constants and small utilities of the rules engine: chess/Chess.java. */
module Chess {

  /** Chess.Color: the two sides (also the two shades of a square). */
  datatype Color = White | Black

  /** Chess.opponentColor. With only two colours, never returning the argument
      determines the result, so the function is an involution. */
  function OpponentColor(c: Color): (r: Color)
    ensures r != c
  {
    if c == White then Black else White
  }

  /** Taking the opponent twice gives back the original side. */
  lemma OpponentInvolution(c: Color)
    ensures OpponentColor(OpponentColor(c)) == c
  {
  }

  /** The dimensions of the board. */
  const NumRows: int := 8
  const NumCols: int := 8

  /** The piece classes of the Java program as a variant tag. It replaces the
      Class objects of the starting layout and the reflective construction in
      Game.addPiece. */
  datatype Kind = Pawn | Rook | Knight | Bishop | Queen | King | MegaRook | FlipFlopper

  /** What a Game operation can throw: ChessError for a rejected movePieceTo, and
      MissingKing for the null King that Game.isInCheck dereferences. */
  datatype Fault = ChessError | MissingKing

  /** Starting back row, from column 0 to column 7. */
  const BackRow: seq<Kind> := [Rook, Knight, Bishop, Queen, King, Bishop, Knight, Rook]

  /** Starting front row: eight pawns. */
  const FrontRow: seq<Kind> := [Pawn, Pawn, Pawn, Pawn, Pawn, Pawn, Pawn, Pawn]

  /** Chess.RowConfiguration: the pieces of one side that fill one row. */
  datatype RowConfiguration = RowConfiguration(sideColor: Color, row: int, pieces: seq<Kind>)

  /** Chess.ROW_CONFIGURATIONS, in the order Game.startGame walks them. */
  const RowConfigurations: seq<RowConfiguration> := [
    RowConfiguration(Black, 7, BackRow),
    RowConfiguration(Black, 6, FrontRow),
    RowConfiguration(White, 1, FrontRow),
    RowConfiguration(White, 0, BackRow)
  ]

  /** The number of pieces side c receives from a list of row configurations. */
  function SideCount(configs: seq<RowConfiguration>, c: Color): nat
  {
    if configs == [] then 0
    else (if configs[0].sideColor == c then |configs[0].pieces| else 0) + SideCount(configs[1..], c)
  }

  /** The back row holds exactly one King, in column 4; the front row is all pawns. */
  lemma BackRowHasOneKing()
    ensures |BackRow| == NumCols && |FrontRow| == NumCols
    ensures forall i | 0 <= i < |BackRow| :: BackRow[i] == King <==> i == 4
    ensures forall i | 0 <= i < |FrontRow| :: FrontRow[i] == Pawn
  {
  }

  /** The starting layout fills four distinct rows: Black on 7 (back row) and
      6 (pawns), White on 1 (pawns) and 0 (back row); every row is full, each
      side gets 16 pieces, and a King stands exactly in column 4 of rows 0 and 7. */
  lemma StartingLayout()
    ensures |RowConfigurations| == 4
    ensures forall k | 0 <= k < 4 :: |RowConfigurations[k].pieces| == NumCols
    ensures forall j, k | 0 <= j < k < 4 :: RowConfigurations[j].row != RowConfigurations[k].row
    ensures forall k | 0 <= k < 4 ::
              RowConfigurations[k].row in {0, 1, 6, 7} &&
              (RowConfigurations[k].sideColor == White <==> RowConfigurations[k].row in {0, 1}) &&
              (RowConfigurations[k].pieces == BackRow <==> RowConfigurations[k].row in {0, 7})
    ensures SideCount(RowConfigurations, White) == 16 && SideCount(RowConfigurations, Black) == 16
    ensures forall k, col | 0 <= k < 4 && 0 <= col < NumCols ::
              RowConfigurations[k].pieces[col] == King <==> (RowConfigurations[k].row in {0, 7} && col == 4)
  {
    var cs := RowConfigurations;
    forall c: Color ensures SideCount(cs, c) == 16 {
      assert SideCount(cs[4..], c) == 0;
      assert SideCount(cs[3..], c) == (if c == White then 8 else 0) by { assert cs[3..][1..] == cs[4..]; }
      assert SideCount(cs[2..], c) == (if c == White then 16 else 0) by { assert cs[2..][1..] == cs[3..]; }
      assert SideCount(cs[1..], c) == (if c == White then 16 else 8) by { assert cs[1..][1..] == cs[2..]; }
    }
  }
}
