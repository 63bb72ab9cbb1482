/** The 8x8 grid of spots: chess/Board.java. */
module Boards {
  import opened Wrappers
  import opened Chess

  /** Board.Spot seen by its coordinates. Spot.equals compares only row and
      column, so a spot is identified with its coordinate pair; the occupant a
      stored spot carries is held by the Board. */
  datatype Spot = Spot(row: int, col: int)
  {
    /** Spot.getColor: the shade of the square. */
    function Shade(): (c: Color)
      ensures c == Black <==> (row + col) % 2 == 0
    {
      if (row + col) % 2 == 0 then Black else White
    }
  }

  /** Board.isValidSpot. */
  predicate IsValidSpot(row: int, col: int)
  {
    0 <= row < NumRows && 0 <= col < NumCols
  }

  /** A spot that is stored in the grid (as opposed to a throw-away dummy). */
  predicate ValidSpot(s: Spot)
  {
    IsValidSpot(s.row, s.col)
  }

  /** The occupant recorded for a spot, if any. */
  function Lookup<P>(m: map<Spot, P>, s: Spot): Option<P>
  {
    if s in m then Some(m[s]) else None
  }

  /** Spot.setPiece on the spot addressed by `s`: on a stored spot the
      occupant is replaced; a dummy spot is not part of the grid, so setting
      its occupant leaves the board's contents as they were. */
  function Place<P>(m: map<Spot, P>, s: Spot, x: Option<P>): (m': map<Spot, P>)
    ensures ValidSpot(s) ==> Lookup(m', s) == x
    ensures !ValidSpot(s) ==> m' == m
    ensures forall t | t != s :: Lookup(m', t) == Lookup(m, t)
    ensures forall t | t in m' :: (t == s && x == Some(m'[t])) || (t in m && m'[t] == m[t])
  {
    if !ValidSpot(s) then m
    else if x.Some? then m[s := x.value]
    else m - {s}
  }

  /** Square shades alternate along rows and columns, starting from a Black
      corner at (0, 0). */
  lemma ShadesAlternate(s: Spot)
    ensures Spot(0, 0).Shade() == Black
    ensures Spot(s.row + 1, s.col).Shade() != s.Shade()
    ensures Spot(s.row, s.col + 1).Shade() != s.Shade()
  {
  }

  /** Board: the grid of stored spots. `cells[r, c]` is the occupant of the
      stored spot (r, c); `contents` is its abstract view, the occupant of
      every occupied stored spot. */
  class Board<P> {
    const cells: array2<Option<P>>
    ghost var contents: map<Spot, P>

    ghost predicate Valid()
      reads this, cells
    {
      cells.Length0 == NumRows && cells.Length1 == NumCols &&
      (forall s | s in contents :: ValidSpot(s)) &&
      (forall r, c | 0 <= r < NumRows && 0 <= c < NumCols ::
         cells[r, c] == Lookup(contents, Spot(r, c)))
    }

    /** Board(): every stored spot of the fresh grid is unoccupied. */
    constructor ()
      ensures Valid() && fresh(cells)
      ensures contents == map[]
    {
      var a := new Option<P>[NumRows, NumCols];
      cells := a;
      contents := map[];
      new;
      for r := 0 to NumRows
        invariant cells == a && contents == map[]
        invariant forall i, j | 0 <= i < r && 0 <= j < NumCols :: a[i, j] == None
      {
        for c := 0 to NumCols
          invariant cells == a && contents == map[]
          invariant forall i, j | 0 <= i < r && 0 <= j < NumCols :: a[i, j] == None
          invariant forall j | 0 <= j < c :: a[r, j] == None
        {
          a[r, c] := None;
        }
      }
    }

    /** Board.getSpot: the spot with the requested coordinates, the stored one
        when they are valid and a fresh dummy otherwise; either way it reports
        the coordinates it was asked for. */
    function GetSpot(row: int, col: int): (s: Spot)
      ensures s.row == row && s.col == col
      ensures ValidSpot(s) <==> IsValidSpot(row, col)
    {
      Spot(row, col)
    }

    /** Board.getPieceAt: null off the board, otherwise the stored spot's occupant. */
    function GetPieceAt(row: int, col: int): (r: Option<P>)
      requires Valid()
      reads this, cells
      ensures !IsValidSpot(row, col) ==> r.None?
      ensures r == Lookup(contents, Spot(row, col))
    {
      if IsValidSpot(row, col) then cells[row, col] else None
    }

    /** Board.isOccupied(row, col), that is getSpot(row, col).isOccupied(): a
        dummy spot is never occupied. */
    function IsOccupied(row: int, col: int): (b: bool)
      requires Valid()
      reads this, cells
      ensures b <==> Spot(row, col) in contents
      ensures b ==> IsValidSpot(row, col)
    {
      IsValidSpot(row, col) && cells[row, col].Some?
    }

    /** Spot.setPiece, applied to the spot with the coordinates of `s`. */
    method SetPiece(s: Spot, x: Option<P>)
      requires Valid()
      modifies this, cells
      ensures Valid()
      ensures contents == Place(old(contents), s, x)
    {
      if ValidSpot(s) {
        cells[s.row, s.col] := x;
        contents := Place(contents, s, x);
      }
    }
  }
}
