/** The shapes of the move generators of chess/Rook.java, chess/Bishop.java,
    chess/Queen.java, chess/King.java, chess/Knight.java, chess/MegaRook.java,
    chess/FlipFlopper.java and chess/Pawn.java: where the spots each returns
    lie relative to the piece, and how many there can be. They hold for the
    filtered and the unfiltered queries alike, whatever the probes do to the
    state on the way, because a probe never moves the piece being asked. */
module Shapes {
  import opened Wrappers
  import opened Chess
  import opened Boards
  import opened Pieces
  import opened Rules
  import opened Restoring

  /** The distance a King needs to go from o to t. */
  function Dist(o: Spot, t: Spot): nat
  {
    var dr := if t.row >= o.row then t.row - o.row else o.row - t.row;
    var dc := if t.col >= o.col then t.col - o.col else o.col - t.col;
    if dr >= dc then dr else dc
  }

  /** t lies on the ray from o along d, at least one step away. */
  predicate Along(o: Spot, d: Vec, t: Spot)
  {
    Dist(o, t) >= 1 && t == Target(o, d, Dist(o, t))
  }

  /** t lies on the ray from o along one of `dirs`. */
  predicate AlongSome(o: Spot, dirs: seq<Vec>, t: Spot)
  {
    exists d | d in dirs :: Along(o, d, t)
  }

  /** t is one of the offsets from o. */
  predicate OffsetOf(o: Spot, offsets: seq<Vec>, t: Spot)
  {
    exists d | d in offsets :: t == Offset(o, d.dr, d.dc)
  }

  /** The k-th spot along a unit direction is k King steps away, on the ray. */
  lemma TargetAlong(o: Spot, d: Vec, k: int)
    requires Unit(d) && 1 <= k
    ensures Dist(o, Target(o, d, k)) == k && Along(o, d, Target(o, d, k))
  {
    if d.dr == 1 { assert k * d.dr == k; } else if d.dr == -1 { assert k * d.dr == -k; } else { assert k * d.dr == 0; }
    if d.dc == 1 { assert k * d.dc == k; } else if d.dc == -1 { assert k * d.dc == -k; } else { assert k * d.dc == 0; }
  }

  /** The sliding `while` loop (Rook, Bishop, Queen, FlipFlopper): every spot
      of the ray from `dist` steps on is a stored spot on the ray from the
      piece along d, at least `dist` steps away. */
  lemma {:induction false} RayAlong(st: State, p: Piece, d: Vec, dist: int, regardless: bool)
    requires Placed(st) && p in st.recs && OnBoard(st.recs[p]) && Unit(d) && 1 <= dist
    ensures forall t | t in Ray(st, p, d, dist, regardless).0 ::
              ValidSpot(t) && Along(Origin(st, p), d, t) && Dist(Origin(st, p), t) >= dist
    decreases 8 - dist, 1
  {
    hide Frame, Placed, RayFrom;
    var (ok, st1) := IsAvailable(st, p, Target(Origin(st, p), d, dist), regardless);
    FrameKeepsPiece(st, st1, p);
    RayFromAlong(st1, p, d, dist, ok, regardless);
  }

  lemma {:induction false} RayFromAlong(st: State, p: Piece, d: Vec, dist: int, ok: bool, regardless: bool)
    requires Placed(st) && p in st.recs && OnBoard(st.recs[p]) && Unit(d) && 1 <= dist
    requires ok ==> ValidSpot(Target(Origin(st, p), d, dist))
    ensures forall t | t in RayFrom(st, p, d, dist, ok, regardless).0 ::
              ValidSpot(t) && Along(Origin(st, p), d, t) && Dist(Origin(st, p), t) >= dist
    decreases 8 - dist, 0
  {
    hide Frame, Placed, Ray;
    var t := Target(Origin(st, p), d, dist);
    if ok {
      TargetAlong(Origin(st, p), d, dist);
      if !(st.recs[p].kind == FlipFlopper && st.recs[p].moveParity == 1) && !Occupied(st, t) {
        RayBound(Origin(st, p), d, dist);
        RayAlong(st, p, d, dist + 1, regardless);
      }
    }
  }

  /** The direction loop of the sliding pieces: every spot lies on the ray
      from the piece along one of the directions. */
  lemma {:induction false} RaysAlong(st: State, p: Piece, dirs: seq<Vec>, regardless: bool)
    requires Placed(st) && p in st.recs && OnBoard(st.recs[p]) && forall d | d in dirs :: Unit(d)
    ensures forall t | t in Rays(st, p, dirs, regardless).0 :: ValidSpot(t) && AlongSome(Origin(st, p), dirs, t)
    decreases |dirs|
  {
    hide Frame, Placed, Ray;
    if dirs != [] {
      var (ray, st1) := Ray(st, p, dirs[0], 1, regardless);
      RayAlong(st, p, dirs[0], 1, regardless);
      FrameKeepsPiece(st, st1, p);
      RaysAlong(st1, p, dirs[1..], regardless);
      assert forall d | d in dirs[1..] :: d in dirs;
    }
  }

  /** The MegaRook's `while` loop: every kept spot is a stored spot on the
      ray from the piece along d, at least `dist` steps away. */
  lemma {:induction false} MegaRayAlong(st: State, p: Piece, d: Vec, dist: int, regardless: bool)
    requires Placed(st) && p in st.recs && OnBoard(st.recs[p]) && Unit(d) && 1 <= dist
    ensures forall t | t in MegaRay(st, p, d, dist, regardless).0 ::
              ValidSpot(t) && Along(Origin(st, p), d, t) && Dist(Origin(st, p), t) >= dist
    decreases 8 - dist
  {
    hide Frame, Placed, IsAvailable;
    var t := Target(Origin(st, p), d, dist);
    if ValidSpot(t) {
      RayBound(Origin(st, p), d, dist);
      TargetAlong(Origin(st, p), d, dist);
      var (ok, st1) := IsAvailable(st, p, t, regardless);
      FrameKeepsPiece(st, st1, p);
      MegaRayAlong(st1, p, d, dist + 1, regardless);
    }
  }

  /** The direction loop of the MegaRook. */
  lemma {:induction false} MegaRaysAlong(st: State, p: Piece, dirs: seq<Vec>, regardless: bool)
    requires Placed(st) && p in st.recs && OnBoard(st.recs[p]) && forall d | d in dirs :: Unit(d)
    ensures forall t | t in MegaRays(st, p, dirs, regardless).0 :: ValidSpot(t) && AlongSome(Origin(st, p), dirs, t)
    decreases |dirs|
  {
    hide Frame, Placed, MegaRay;
    if dirs != [] {
      var (ray, st1) := MegaRay(st, p, dirs[0], 1, regardless);
      MegaRayAlong(st, p, dirs[0], 1, regardless);
      FrameKeepsPiece(st, st1, p);
      MegaRaysAlong(st1, p, dirs[1..], regardless);
      assert forall d | d in dirs[1..] :: d in dirs;
    }
  }

  /** The offset loops of King and Knight: every spot is a stored spot at one
      of the offsets from the piece. */
  lemma {:induction false} StepsAt(st: State, p: Piece, offsets: seq<Vec>, regardless: bool)
    requires Placed(st) && p in st.recs && OnBoard(st.recs[p])
    ensures |Steps(st, p, offsets, regardless).0| <= |offsets|
    ensures forall t | t in Steps(st, p, offsets, regardless).0 :: ValidSpot(t) && OffsetOf(Origin(st, p), offsets, t)
    decreases |offsets|
  {
    hide Frame, Placed, IsAvailable;
    if offsets != [] {
      var t := Offset(Origin(st, p), offsets[0].dr, offsets[0].dc);
      var (ok, st1) := IsAvailable(st, p, t, regardless);
      FrameKeepsPiece(st, st1, p);
      StepsAt(st1, p, offsets[1..], regardless);
      assert forall d | d in offsets[1..] :: d in offsets;
    }
  }

  /** Pawn attacks: each kept spot is one row forward, at one of the column
      offsets, and there are at most as many as offsets. */
  lemma {:induction false} PawnAttacksAt(st: State, p: Piece, hs: seq<int>, regardless: bool)
    requires Placed(st) && p in st.recs && OnBoard(st.recs[p])
    ensures |PawnAttacks(st, p, hs, regardless).0| <= |hs|
    ensures forall t | t in PawnAttacks(st, p, hs, regardless).0 ::
              ValidSpot(t) && exists h | h in hs :: t == Offset(Origin(st, p), Forward(st.recs[p].color), h)
    decreases |hs|
  {
    hide Frame, Placed, IsAvailable;
    if hs != [] {
      var t := Offset(Origin(st, p), Forward(st.recs[p].color), hs[0]);
      var (ok, st1) := IsAvailable(st, p, t, regardless);
      FrameKeepsPiece(st, st1, p);
      PawnAttacksAt(st1, p, hs[1..], regardless);
      assert forall h | h in hs[1..] :: h in hs;
    }
  }

  /** Pawn advance: nothing, the one-row step, or the one-row and the
      two-row steps, all stored spots. */
  lemma PawnAdvanceAt(st: State, p: Piece, regardless: bool)
    requires Placed(st) && p in st.recs && OnBoard(st.recs[p])
    ensures var o, f, ms := Origin(st, p), Forward(st.recs[p].color), PawnAdvance(st, p, regardless).0;
      (ms == [] || ms == [Offset(o, f, 0)] || ms == [Offset(o, f, 0), Offset(o, 2 * f, 0)]) &&
      forall t | t in ms :: ValidSpot(t)
  {
    hide Frame, Placed;
    var (ok1, st1) := IsAvailable(st, p, Offset(Origin(st, p), Forward(st.recs[p].color), 0), regardless);
    FrameKeepsPiece(st, st1, p);
  }

  /** Pawn.getPossibleMoves: at most four spots, all stored; each is one row
      forward and at most one column aside, or two rows straight forward, and
      the two-row step is offered only together with the one-row step. */
  lemma PawnShape(st: State, p: Piece, regardless: bool)
    requires Placed(st) && p in st.recs && OnBoard(st.recs[p]) && st.recs[p].kind == Pawn
    ensures var o, f, ms := Origin(st, p), Forward(st.recs[p].color), Moves(st, p, regardless).0;
      |ms| <= 4 &&
      (forall t | t in ms ::
         ValidSpot(t) &&
         ((t.row == o.row + f && -1 <= t.col - o.col <= 1) || t == Offset(o, 2 * f, 0))) &&
      (Offset(o, 2 * f, 0) in ms ==> Offset(o, f, 0) in ms)
  {
    hide Frame, Placed, IsAvailable, PawnAttacks, PawnAdvance;
    var o, f := Origin(st, p), Forward(st.recs[p].color);
    var (straight, st1) := PawnAdvance(st, p, regardless);
    PawnAdvanceAt(st, p, regardless);
    FrameKeepsPiece(st, st1, p);
    PawnAttacksAt(st1, p, [1, -1], regardless);
    var attacks := PawnAttacks(st1, p, [1, -1], regardless).0;
    assert Moves(st, p, regardless).0 == straight + attacks;
    assert forall t | t in attacks :: t.row == o.row + f && -1 <= t.col - o.col <= 1 && t != Offset(o, 2 * f, 0);
  }

  /** Rook.getPossibleMoves and MegaRook.getPossibleMoves: every spot is a
      stored spot other than the piece's own, on its row or its column. */
  lemma RookShape(st: State, p: Piece, regardless: bool)
    requires Placed(st) && p in st.recs && OnBoard(st.recs[p])
    requires st.recs[p].kind == Rook || st.recs[p].kind == MegaRook
    ensures var o := Origin(st, p);
      forall t | t in Moves(st, p, regardless).0 ::
        ValidSpot(t) && t != o && (t.row == o.row || t.col == o.col)
  {
    hide Frame, Placed, Rays, MegaRays, PawnMoves, Steps, AlongSome;
    var o := Origin(st, p);
    if st.recs[p].kind == Rook {
      RaysAlong(st, p, RookDirections, regardless);
    } else {
      MegaRaysAlong(st, p, RookDirections, regardless);
    }
    forall t | t in Moves(st, p, regardless).0
      ensures t != o && (t.row == o.row || t.col == o.col)
    {
      RookLines(o, t);
    }
  }

  /** Bishop.getPossibleMoves: every spot is a stored spot other than the
      Bishop's own, as many rows away as columns. */
  lemma BishopShape(st: State, p: Piece, regardless: bool)
    requires Placed(st) && p in st.recs && OnBoard(st.recs[p]) && st.recs[p].kind == Bishop
    ensures var o := Origin(st, p);
      forall t | t in Moves(st, p, regardless).0 ::
        ValidSpot(t) && t != o && Diagonal(o, t)
  {
    hide Frame, Placed, Rays, MegaRays, PawnMoves, Steps, AlongSome;
    var o := Origin(st, p);
    RaysAlong(st, p, BishopDirections, regardless);
    forall t | t in Moves(st, p, regardless).0
      ensures t != o && Diagonal(o, t)
    {
      BishopLines(o, t);
    }
  }

  /** Queen.getPossibleMoves and FlipFlopper.getPossibleMoves: every spot is
      a stored spot other than the piece's own, on its row, its column or one
      of its diagonals. */
  lemma QueenShape(st: State, p: Piece, regardless: bool)
    requires Placed(st) && p in st.recs && OnBoard(st.recs[p])
    requires st.recs[p].kind == Queen || st.recs[p].kind == FlipFlopper
    ensures var o := Origin(st, p);
      forall t | t in Moves(st, p, regardless).0 ::
        ValidSpot(t) && t != o && (t.row == o.row || t.col == o.col || Diagonal(o, t))
  {
    hide Frame, Placed, Rays, MegaRays, PawnMoves, Steps, AlongSome;
    var o := Origin(st, p);
    RaysAlong(st, p, EightDirections, regardless);
    forall t | t in Moves(st, p, regardless).0
      ensures t != o && (t.row == o.row || t.col == o.col || Diagonal(o, t))
    {
      QueenLines(o, t);
    }
  }

  /** King.getPossibleMoves: at most eight spots, each a stored spot one King
      step away. */
  lemma KingShape(st: State, p: Piece, regardless: bool)
    requires Placed(st) && p in st.recs && OnBoard(st.recs[p]) && st.recs[p].kind == King
    ensures |Moves(st, p, regardless).0| <= 8
    ensures forall t | t in Moves(st, p, regardless).0 :: ValidSpot(t) && Dist(Origin(st, p), t) == 1
  {
    hide Frame, Placed, Rays, MegaRays, PawnMoves, Steps, OffsetOf, Dist;
    var o := Origin(st, p);
    StepsAt(st, p, EightDirections, regardless);
    forall t | t in Moves(st, p, regardless).0
      ensures Dist(o, t) == 1
    {
      KingStep(o, t);
    }
  }

  /** Knight.getPossibleMoves: at most eight spots, each a stored spot two
      rows and one column away, or one row and two columns. */
  lemma KnightShape(st: State, p: Piece, regardless: bool)
    requires Placed(st) && p in st.recs && OnBoard(st.recs[p]) && st.recs[p].kind == Knight
    ensures |Moves(st, p, regardless).0| <= 8
    ensures forall t | t in Moves(st, p, regardless).0 :: ValidSpot(t) && KnightJump(Origin(st, p), t)
  {
    hide Frame, Placed, Rays, MegaRays, PawnMoves, Steps, OffsetOf, KnightJump;
    var o := Origin(st, p);
    StepsAt(st, p, KnightOffsets, regardless);
    forall t | t in Moves(st, p, regardless).0
      ensures KnightJump(o, t)
    {
      KnightStep(o, t);
    }
  }

  /** t is as many rows from o as columns. */
  predicate Diagonal(o: Spot, t: Spot)
  {
    t.row - o.row == t.col - o.col || t.row - o.row == o.col - t.col
  }

  /** t is a Knight's jump from o. */
  predicate KnightJump(o: Spot, t: Spot)
  {
    var dr, dc := t.row - o.row, t.col - o.col;
    (dr * dr == 1 && dc * dc == 4) || (dr * dr == 4 && dc * dc == 1)
  }

  /** A spot on a ray is not the origin; it shares the origin's row when the
      direction is horizontal, its column when vertical, and a diagonal
      otherwise. */
  lemma AlongStraight(o: Spot, d: Vec, t: Spot)
    requires Unit(d) && Along(o, d, t)
    ensures t != o
    ensures d.dr == 0 ==> t.row == o.row
    ensures d.dc == 0 ==> t.col == o.col
    ensures d.dr != 0 && d.dc != 0 ==> Diagonal(o, t)
  {
    var k := Dist(o, t);
    TargetAlong(o, d, k);
    if d.dr == 1 { assert k * d.dr == k; } else if d.dr == -1 { assert k * d.dr == -k; } else { assert k * d.dr == 0; }
    if d.dc == 1 { assert k * d.dc == k; } else if d.dc == -1 { assert k * d.dc == -k; } else { assert k * d.dc == 0; }
  }

  /** The Rook directions reach the origin's row and column only. */
  lemma RookLines(o: Spot, t: Spot)
    requires AlongSome(o, RookDirections, t)
    ensures t != o && (t.row == o.row || t.col == o.col)
  {
    var d :| d in RookDirections && Along(o, d, t);
    AlongStraight(o, d, t);
  }

  /** The Bishop directions reach the origin's diagonals only. */
  lemma BishopLines(o: Spot, t: Spot)
    requires AlongSome(o, BishopDirections, t)
    ensures t != o && Diagonal(o, t)
  {
    var d :| d in BishopDirections && Along(o, d, t);
    AlongStraight(o, d, t);
  }

  /** The eight directions reach the origin's row, column and diagonals. */
  lemma QueenLines(o: Spot, t: Spot)
    requires AlongSome(o, EightDirections, t)
    ensures t != o && (t.row == o.row || t.col == o.col || Diagonal(o, t))
  {
    var d :| d in EightDirections && Along(o, d, t);
    AlongStraight(o, d, t);
  }

  /** The eight directions as offsets are the eight King steps. */
  lemma KingStep(o: Spot, t: Spot)
    requires OffsetOf(o, EightDirections, t)
    ensures Dist(o, t) == 1
  {
    var d :| d in EightDirections && t == Offset(o, d.dr, d.dc);
  }

  /** The Knight offsets are the eight Knight jumps. */
  lemma KnightStep(o: Spot, t: Spot)
    requires OffsetOf(o, KnightOffsets, t)
    ensures KnightJump(o, t)
  {
    var d :| d in KnightOffsets && t == Offset(o, d.dr, d.dc);
  }

  /** How many steps a scan from coordinate x can take with step s along a
      row or column of eight stored spots before it leaves the board; an
      axis the step does not move along never stops it. */
  function AxisRoom(x: int, s: int): int
  {
    if s == 1 then 7 - x else if s == -1 then x else 7
  }

  /** How many stored spots lie along d from o. */
  function Room(o: Spot, d: Vec): int
  {
    var a, b := AxisRoom(o.row, d.dr), AxisRoom(o.col, d.dc);
    if a <= b then a else b
  }

  /** The room summed over a list of directions. */
  function RoomSum(o: Spot, dirs: seq<Vec>): int
  {
    if dirs == [] then 0 else Room(o, dirs[0]) + RoomSum(o, dirs[1..])
  }

  /** From a stored spot, the k-th spot along d is stored exactly when k is
      within the room along d. */
  lemma TargetInside(o: Spot, d: Vec, k: int)
    requires ValidSpot(o) && Unit(d) && 1 <= k
    ensures ValidSpot(Target(o, d, k)) <==> k <= Room(o, d)
  {
    if d.dr == 1 { assert k * d.dr == k; } else if d.dr == -1 { assert k * d.dr == -k; } else { assert k * d.dr == 0; }
    if d.dc == 1 { assert k * d.dc == k; } else if d.dc == -1 { assert k * d.dc == -k; } else { assert k * d.dc == 0; }
  }

  /** The sliding `while` loop keeps at most one spot per step of room left. */
  lemma {:induction false} RayLength(st: State, p: Piece, d: Vec, dist: int, regardless: bool)
    requires Placed(st) && p in st.recs && OnBoard(st.recs[p]) && Unit(d)
    requires 1 <= dist <= Room(Origin(st, p), d) + 1
    ensures |Ray(st, p, d, dist, regardless).0| <= Room(Origin(st, p), d) + 1 - dist
    decreases 8 - dist, 1
  {
    hide Frame, Placed, RayFrom;
    var (ok, st1) := IsAvailable(st, p, Target(Origin(st, p), d, dist), regardless);
    FrameKeepsPiece(st, st1, p);
    RayFromLength(st1, p, d, dist, ok, regardless);
  }

  lemma {:induction false} RayFromLength(st: State, p: Piece, d: Vec, dist: int, ok: bool, regardless: bool)
    requires Placed(st) && p in st.recs && OnBoard(st.recs[p]) && Unit(d)
    requires 1 <= dist <= Room(Origin(st, p), d) + 1
    requires ok ==> ValidSpot(Target(Origin(st, p), d, dist))
    ensures |RayFrom(st, p, d, dist, ok, regardless).0| <= Room(Origin(st, p), d) + 1 - dist
    decreases 8 - dist, 0
  {
    hide Frame, Placed, Ray;
    var t := Target(Origin(st, p), d, dist);
    if ok {
      TargetInside(Origin(st, p), d, dist);
      if !(st.recs[p].kind == FlipFlopper && st.recs[p].moveParity == 1) && !Occupied(st, t) {
        RayBound(Origin(st, p), d, dist);
        RayLength(st, p, d, dist + 1, regardless);
      }
    }
  }

  /** The direction loop of the sliding pieces keeps at most the room summed
      over the directions. */
  lemma {:induction false} RaysLength(st: State, p: Piece, dirs: seq<Vec>, regardless: bool)
    requires Placed(st) && p in st.recs && OnBoard(st.recs[p]) && forall d | d in dirs :: Unit(d)
    ensures |Rays(st, p, dirs, regardless).0| <= RoomSum(Origin(st, p), dirs)
    decreases |dirs|
  {
    hide Frame, Placed, Ray;
    if dirs != [] {
      var (ray, st1) := Ray(st, p, dirs[0], 1, regardless);
      RayLength(st, p, dirs[0], 1, regardless);
      FrameKeepsPiece(st, st1, p);
      RaysLength(st1, p, dirs[1..], regardless);
    }
  }

  /** The MegaRook's `while` loop keeps at most one spot per step of room left. */
  lemma {:induction false} MegaRayLength(st: State, p: Piece, d: Vec, dist: int, regardless: bool)
    requires Placed(st) && p in st.recs && OnBoard(st.recs[p]) && Unit(d)
    requires 1 <= dist <= Room(Origin(st, p), d) + 1
    ensures |MegaRay(st, p, d, dist, regardless).0| <= Room(Origin(st, p), d) + 1 - dist
    decreases 8 - dist
  {
    hide Frame, Placed, IsAvailable;
    var t := Target(Origin(st, p), d, dist);
    if ValidSpot(t) {
      RayBound(Origin(st, p), d, dist);
      TargetInside(Origin(st, p), d, dist);
      var (ok, st1) := IsAvailable(st, p, t, regardless);
      FrameKeepsPiece(st, st1, p);
      MegaRayLength(st1, p, d, dist + 1, regardless);
    }
  }

  /** The direction loop of the MegaRook keeps at most the room summed over
      the directions. */
  lemma {:induction false} MegaRaysLength(st: State, p: Piece, dirs: seq<Vec>, regardless: bool)
    requires Placed(st) && p in st.recs && OnBoard(st.recs[p]) && forall d | d in dirs :: Unit(d)
    ensures |MegaRays(st, p, dirs, regardless).0| <= RoomSum(Origin(st, p), dirs)
    decreases |dirs|
  {
    hide Frame, Placed, MegaRay;
    if dirs != [] {
      var (ray, st1) := MegaRay(st, p, dirs[0], 1, regardless);
      MegaRayLength(st, p, dirs[0], 1, regardless);
      FrameKeepsPiece(st, st1, p);
      MegaRaysLength(st1, p, dirs[1..], regardless);
    }
  }

  /** The room over four directions, written out. */
  lemma RoomSum4(o: Spot, a: Vec, b: Vec, c: Vec, d: Vec)
    ensures RoomSum(o, [a, b, c, d]) == Room(o, a) + Room(o, b) + Room(o, c) + Room(o, d)
  {
    assert [d][1..] == [];
    assert RoomSum(o, [d]) == Room(o, d);
    assert [c, d][1..] == [d];
    assert RoomSum(o, [c, d]) == Room(o, c) + Room(o, d);
    assert [b, c, d][1..] == [c, d];
    assert RoomSum(o, [b, c, d]) == Room(o, b) + Room(o, c) + Room(o, d);
    assert [a, b, c, d][1..] == [b, c, d];
  }

  /** The room over two lists of directions adds up. */
  lemma {:induction false} RoomSumAppend(o: Spot, xs: seq<Vec>, ys: seq<Vec>)
    ensures RoomSum(o, xs + ys) == RoomSum(o, xs) + RoomSum(o, ys)
    decreases |xs|
  {
    if xs == [] {
      assert xs + ys == ys;
    } else {
      assert (xs + ys)[0] == xs[0];
      assert (xs + ys)[1..] == xs[1..] + ys;
      RoomSumAppend(o, xs[1..], ys);
    }
  }

  /** Along a row and a column there are fourteen other stored spots. */
  lemma RookRoom(o: Spot)
    requires ValidSpot(o)
    ensures RoomSum(o, RookDirections) == 14
  {
    RoomSum4(o, Vec(1, 0), Vec(-1, 0), Vec(0, 1), Vec(0, -1));
  }

  /** Along the two diagonals there are at most thirteen other stored spots:
      the distances to the edges along opposite diagonal directions add up to
      seven for at most one of the two diagonals. */
  lemma BishopRoom(o: Spot)
    requires ValidSpot(o)
    ensures RoomSum(o, BishopDirections) <= 13
  {
    RoomSum4(o, Vec(1, 1), Vec(1, -1), Vec(-1, 1), Vec(-1, -1));
  }

  /** Along the eight directions there are at most twenty-seven other stored
      spots. */
  lemma QueenRoom(o: Spot)
    requires ValidSpot(o)
    ensures RoomSum(o, EightDirections) <= 27
  {
    hide Room, RoomSum;
    assert EightDirections == [Vec(1, 1), Vec(1, 0), Vec(1, -1), Vec(0, 1)] + [Vec(0, -1), Vec(-1, 1), Vec(-1, 0), Vec(-1, -1)];
    RoomSumAppend(o, [Vec(1, 1), Vec(1, 0), Vec(1, -1), Vec(0, 1)], [Vec(0, -1), Vec(-1, 1), Vec(-1, 0), Vec(-1, -1)]);
    RoomSum4(o, Vec(1, 1), Vec(1, 0), Vec(1, -1), Vec(0, 1));
    RoomSum4(o, Vec(0, -1), Vec(-1, 1), Vec(-1, 0), Vec(-1, -1));
    RookRoom(o);
    RoomSum4(o, Vec(1, 0), Vec(-1, 0), Vec(0, 1), Vec(0, -1));
    BishopRoom(o);
    RoomSum4(o, Vec(1, 1), Vec(1, -1), Vec(-1, 1), Vec(-1, -1));
  }

  /** Rook.getPossibleMoves and MegaRook.getPossibleMoves return at most
      fourteen spots. */
  lemma RookBound(st: State, p: Piece, regardless: bool)
    requires Placed(st) && p in st.recs && OnBoard(st.recs[p])
    requires st.recs[p].kind == Rook || st.recs[p].kind == MegaRook
    ensures |Moves(st, p, regardless).0| <= 14
  {
    hide Frame, Placed, Rays, MegaRays, PawnMoves, Steps, RoomSum;
    RookRoom(Origin(st, p));
    if st.recs[p].kind == Rook {
      RaysLength(st, p, RookDirections, regardless);
    } else {
      MegaRaysLength(st, p, RookDirections, regardless);
    }
  }

  /** Bishop.getPossibleMoves returns at most thirteen spots. */
  lemma BishopBound(st: State, p: Piece, regardless: bool)
    requires Placed(st) && p in st.recs && OnBoard(st.recs[p]) && st.recs[p].kind == Bishop
    ensures |Moves(st, p, regardless).0| <= 13
  {
    hide Frame, Placed, Rays, MegaRays, PawnMoves, Steps, RoomSum;
    BishopRoom(Origin(st, p));
    RaysLength(st, p, BishopDirections, regardless);
  }

  /** Queen.getPossibleMoves and FlipFlopper.getPossibleMoves return at most
      twenty-seven spots. */
  lemma QueenBound(st: State, p: Piece, regardless: bool)
    requires Placed(st) && p in st.recs && OnBoard(st.recs[p])
    requires st.recs[p].kind == Queen || st.recs[p].kind == FlipFlopper
    ensures |Moves(st, p, regardless).0| <= 27
  {
    hide Frame, Placed, Rays, MegaRays, PawnMoves, Steps, RoomSum;
    QueenRoom(Origin(st, p));
    RaysLength(st, p, EightDirections, regardless);
  }

  /** On its odd moves the FlipFlopper's rays stop after the first spot. */
  lemma {:induction false} FlipRays(st: State, p: Piece, dirs: seq<Vec>, regardless: bool)
    requires Placed(st) && p in st.recs && OnBoard(st.recs[p]) && forall d | d in dirs :: Unit(d)
    requires st.recs[p].kind == FlipFlopper && st.recs[p].moveParity == 1
    ensures |Rays(st, p, dirs, regardless).0| <= |dirs|
    ensures forall t | t in Rays(st, p, dirs, regardless).0 :: Dist(Origin(st, p), t) == 1
    decreases |dirs|
  {
    hide Frame, Placed, IsAvailable;
    if dirs != [] {
      var o := Origin(st, p);
      var (ok, st1) := IsAvailable(st, p, Target(o, dirs[0], 1), regardless);
      FrameKeepsPiece(st, st1, p);
      TargetAlong(o, dirs[0], 1);
      var (ray, st2) := Ray(st, p, dirs[0], 1, regardless);
      assert ray == RayFrom(st1, p, dirs[0], 1, ok, regardless).0;
      FrameKeepsPiece(st, st2, p);
      FlipRays(st2, p, dirs[1..], regardless);
    }
  }

  /** FlipFlopper.getPossibleMoves on odd moves: it moves like a King, at
      most eight spots, each a stored spot one King step away. */
  lemma FlipFlopperShape(st: State, p: Piece, regardless: bool)
    requires Placed(st) && p in st.recs && OnBoard(st.recs[p])
    requires st.recs[p].kind == FlipFlopper && st.recs[p].moveParity == 1
    ensures |Moves(st, p, regardless).0| <= 8
    ensures forall t | t in Moves(st, p, regardless).0 :: ValidSpot(t) && Dist(Origin(st, p), t) == 1
  {
    hide Frame, Placed, Rays, MegaRays, PawnMoves, Steps, Dist;
    FlipRays(st, p, EightDirections, regardless);
    RaysAlong(st, p, EightDirections, regardless);
  }

  /** r holds the spots dist, dist + 1, ... steps along d from o, in order. */
  predicate Consecutive(o: Spot, d: Vec, dist: int, r: seq<Spot>)
  {
    forall i | 0 <= i < |r| :: r[i] == Target(o, d, dist + i)
  }

  /** Every spot of r but the last is empty. */
  predicate EmptyButLast(st: State, r: seq<Spot>)
  {
    forall i | 0 <= i < |r| - 1 :: !Occupied(st, r[i])
  }

  /** Putting the spot `dist` steps along d in front of a consecutive run
      from dist + 1, and an empty spot in front of a run empty but for its
      last spot. */
  lemma ConsecutiveCons(st: State, o: Spot, d: Vec, dist: int, rest: seq<Spot>)
    requires Consecutive(o, d, dist + 1, rest) && EmptyButLast(st, rest)
    requires !Occupied(st, Target(o, d, dist))
    ensures Consecutive(o, d, dist, [Target(o, d, dist)] + rest)
    ensures EmptyButLast(st, [Target(o, d, dist)] + rest)
  {
    var r := [Target(o, d, dist)] + rest;
    forall i | 0 <= i < |r|
      ensures r[i] == Target(o, d, dist + i)
    {
      if i > 0 {
        assert r[i] == rest[i - 1] == Target(o, d, dist + 1 + (i - 1));
      }
    }
    forall i | 0 <= i < |r| - 1
      ensures !Occupied(st, r[i])
    {
      if i > 0 {
        assert r[i] == rest[i - 1];
      }
    }
  }

  /** The blocking rule of the sliding `while` loop (Rook, Bishop, Queen,
      FlipFlopper), filtered or not: the ray holds the spots dist, dist + 1,
      ... steps along d in order, and every spot of it but the last is empty,
      so the scan stops right after the first occupied spot. */
  lemma {:induction false} RayConsecutive(st: State, p: Piece, d: Vec, dist: int, regardless: bool)
    requires Consistent(st) && p in st.recs && OnBoard(st.recs[p]) && Unit(d) && 1 <= dist
    ensures Consecutive(Origin(st, p), d, dist, Ray(st, p, d, dist, regardless).0)
    ensures EmptyButLast(st, Ray(st, p, d, dist, regardless).0)
    decreases 8 - dist, 1
  {
    hide Consistent, Frame, Placed, IsAvailable, RayFrom, Consecutive;
    ConsistentPlaced(st);
    var t := Target(Origin(st, p), d, dist);
    var (ok, st1) := IsAvailable(st, p, t, regardless);
    AvailableRestores(st, p, t, regardless);
    RestoredConsistent(st, st1, p);
    assert st1.occ == st.occ && Origin(st1, p) == Origin(st, p);
    RayFromConsecutive(st1, p, d, dist, ok, regardless);
  }

  lemma {:induction false} RayFromConsecutive(st: State, p: Piece, d: Vec, dist: int, ok: bool, regardless: bool)
    requires Consistent(st) && p in st.recs && OnBoard(st.recs[p]) && Unit(d) && 1 <= dist
    requires ok ==> ValidSpot(Target(Origin(st, p), d, dist))
    ensures Consecutive(Origin(st, p), d, dist, RayFrom(st, p, d, dist, ok, regardless).0)
    ensures EmptyButLast(st, RayFrom(st, p, d, dist, ok, regardless).0)
    decreases 8 - dist, 0
  {
    hide Consistent, Restored, Frame, Placed, Ray;
    ConsistentPlaced(st);
    var t := Target(Origin(st, p), d, dist);
    if ok && !(st.recs[p].kind == FlipFlopper && st.recs[p].moveParity == 1) && !Occupied(st, t) {
      RayBound(Origin(st, p), d, dist);
      RayConsecutive(st, p, d, dist + 1, regardless);
      ConsecutiveCons(st, Origin(st, p), d, dist, Ray(st, p, d, dist + 1, regardless).0);
    }
  }

  /** Leaving the board along a ray is for good: a spot nearer the origin
      than a stored spot on the ray is stored too. */
  lemma NearerInside(o: Spot, d: Vec, j: int, k: int)
    requires ValidSpot(o) && Unit(d) && 1 <= j <= k && ValidSpot(Target(o, d, k))
    ensures ValidSpot(Target(o, d, j))
  {
    TargetInside(o, d, k);
    TargetInside(o, d, j);
  }

  /** MegaRook.getPossibleMoves, unfiltered: occupied spots neither stop nor
      block the scan, so every stored spot along d from `dist` steps on that
      the availability test accepts is kept. */
  lemma {:induction false} MegaRayComplete(st: State, p: Piece, d: Vec, dist: int)
    requires Placed(st) && p in st.recs && OnBoard(st.recs[p]) && Unit(d) && 1 <= dist
    ensures forall k | dist <= k && ValidSpot(Target(Origin(st, p), d, k)) &&
                       IsAvailable(st, p, Target(Origin(st, p), d, k), true).0 ::
              Target(Origin(st, p), d, k) in MegaRay(st, p, d, dist, true).0
    decreases 8 - dist
  {
    hide Frame, Placed, IsAvailable;
    var o := Origin(st, p);
    if ValidSpot(Target(o, d, dist)) {
      RayBound(o, d, dist);
      MegaRayComplete(st, p, d, dist + 1);
    } else {
      forall k | dist <= k && ValidSpot(Target(o, d, k))
        ensures false
      {
        NearerInside(o, d, dist, k);
      }
    }
  }
}
