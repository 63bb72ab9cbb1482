/** What the move generators promise about availability, stated for the game
    a query starts from. Every spot a generator returns passes the unfiltered
    test of Game.isAvailableSpotForPiece, so no piece is ever offered a square
    of its own side; a Pawn's diagonal lands on an enemy piece; the King and
    the Knight are offered exactly their available candidates; and a sliding
    scan ends only before an unavailable spot, after an occupied one, or after
    the single step of a FlipFlopper with parity 1. */
module Availability {
  import opened Chess
  import opened Boards
  import opened Pieces
  import opened Rules
  import opened Restoring
  import opened Shapes
  import opened Queries
  import opened Independence

  /** The Java generators' "available" for the piece's own side: stored, and
      not held by a piece of that side. */
  predicate Open(st: State, p: Piece, t: Spot)
    requires Placed(st) && p in st.recs && OnBoard(st.recs[p])
  {
    IsAvailable(st, p, t, true).0
  }

  /** An open spot is stored and not held by the piece's own side. */
  lemma OpenMeaning(st: State, p: Piece, t: Spot)
    requires Placed(st) && p in st.recs && OnBoard(st.recs[p])
    ensures Open(st, p, t) <==> ValidSpot(t) && !(Occupied(st, t) && st.recs[st.occ[t]].color == st.recs[p].color)
  {
  }

  /** Rook.java:32-44, unfiltered: every spot a sliding scan keeps is open. */
  lemma {:induction false} RayOpen(st: State, p: Piece, d: Vec, dist: int)
    requires Placed(st) && p in st.recs && OnBoard(st.recs[p]) && Unit(d) && 1 <= dist
    ensures forall t | t in Ray(st, p, d, dist, true).0 :: Open(st, p, t)
    decreases 8 - dist, 1
  {
    hide Frame, Placed, RayFrom;
    RayFromOpen(st, p, d, dist, Open(st, p, Target(Origin(st, p), d, dist)));
  }

  lemma {:induction false} RayFromOpen(st: State, p: Piece, d: Vec, dist: int, ok: bool)
    requires Placed(st) && p in st.recs && OnBoard(st.recs[p]) && Unit(d) && 1 <= dist
    requires ok == Open(st, p, Target(Origin(st, p), d, dist))
    ensures forall t | t in RayFrom(st, p, d, dist, ok, true).0 :: Open(st, p, t)
    decreases 8 - dist, 0
  {
    hide Frame, Placed, Ray, IsAvailable;
    var t := Target(Origin(st, p), d, dist);
    if ok && !(st.recs[p].kind == FlipFlopper && st.recs[p].moveParity == 1) && !Occupied(st, t) {
      RayBound(Origin(st, p), d, dist);
      RayOpen(st, p, d, dist + 1);
    }
  }

  /** Rook.java:32-44, unfiltered: a sliding scan of n spots from `dist`
      stops for one of the reasons the loop has. The spot after the last is
      not open, or the last spot is occupied, or the piece is a FlipFlopper
      with parity 1, which takes a single step. */
  lemma {:induction false} RayEnds(st: State, p: Piece, d: Vec, dist: int)
    requires Placed(st) && p in st.recs && OnBoard(st.recs[p]) && Unit(d) && 1 <= dist
    ensures var n, o := |Ray(st, p, d, dist, true).0|, Origin(st, p);
      !Open(st, p, Target(o, d, dist + n)) ||
      (n > 0 && (Occupied(st, Target(o, d, dist + n - 1)) ||
                 (st.recs[p].kind == FlipFlopper && st.recs[p].moveParity == 1)))
    decreases 8 - dist, 1
  {
    hide Frame, Placed, RayFrom, IsAvailable;
    RayFromEnds(st, p, d, dist, Open(st, p, Target(Origin(st, p), d, dist)));
  }

  lemma {:induction false} RayFromEnds(st: State, p: Piece, d: Vec, dist: int, ok: bool)
    requires Placed(st) && p in st.recs && OnBoard(st.recs[p]) && Unit(d) && 1 <= dist
    requires ok == Open(st, p, Target(Origin(st, p), d, dist))
    ensures var n, o := |RayFrom(st, p, d, dist, ok, true).0|, Origin(st, p);
      !Open(st, p, Target(o, d, dist + n)) ||
      (n > 0 && (Occupied(st, Target(o, d, dist + n - 1)) ||
                 (st.recs[p].kind == FlipFlopper && st.recs[p].moveParity == 1)))
    decreases 8 - dist, 0
  {
    hide Frame, Placed, Ray, IsAvailable;
    var t := Target(Origin(st, p), d, dist);
    if ok && !(st.recs[p].kind == FlipFlopper && st.recs[p].moveParity == 1) && !Occupied(st, t) {
      RayBound(Origin(st, p), d, dist);
      RayEnds(st, p, d, dist + 1);
    }
  }

  /** The direction loop of the sliding pieces, unfiltered: every spot kept is open. */
  lemma {:induction false} RaysOpen(st: State, p: Piece, dirs: seq<Vec>)
    requires Placed(st) && p in st.recs && OnBoard(st.recs[p]) && forall d | d in dirs :: Unit(d)
    ensures forall t | t in Rays(st, p, dirs, true).0 :: Open(st, p, t)
    decreases |dirs|
  {
    hide Frame, Placed, Ray, Open;
    if dirs != [] {
      RayOpen(st, p, dirs[0], 1);
      RaysOpen(st, p, dirs[1..]);
    }
  }

  /** MegaRook.java:34-42, unfiltered: every spot the unblocked scan keeps
      is open (the converse is Shapes.MegaRayComplete). */
  lemma {:induction false} MegaRayOpen(st: State, p: Piece, d: Vec, dist: int)
    requires Placed(st) && p in st.recs && OnBoard(st.recs[p]) && Unit(d) && 1 <= dist
    ensures forall t | t in MegaRay(st, p, d, dist, true).0 :: Open(st, p, t)
    decreases 8 - dist
  {
    hide Frame, Placed, IsAvailable;
    if ValidSpot(Target(Origin(st, p), d, dist)) {
      RayBound(Origin(st, p), d, dist);
      MegaRayOpen(st, p, d, dist + 1);
    }
  }

  lemma {:induction false} MegaRaysOpen(st: State, p: Piece, dirs: seq<Vec>)
    requires Placed(st) && p in st.recs && OnBoard(st.recs[p]) && forall d | d in dirs :: Unit(d)
    ensures forall t | t in MegaRays(st, p, dirs, true).0 :: Open(st, p, t)
    decreases |dirs|
  {
    hide Frame, Placed, MegaRay, Open;
    if dirs != [] {
      MegaRayOpen(st, p, dirs[0], 1);
      MegaRaysOpen(st, p, dirs[1..]);
    }
  }

  /** King.java:27-29 and Knight.java:31-33, unfiltered: a spot is kept
      exactly when it is one of the offsets from the piece and open. */
  lemma {:induction false} StepsOpen(st: State, p: Piece, offsets: seq<Vec>, t: Spot)
    requires Placed(st) && p in st.recs && OnBoard(st.recs[p])
    ensures t in Steps(st, p, offsets, true).0 <==>
              (exists d | d in offsets :: t == Offset(Origin(st, p), d.dr, d.dc)) && Open(st, p, t)
    decreases |offsets|
  {
    hide Frame, Placed, IsAvailable;
    if offsets != [] {
      StepsOpen(st, p, offsets[1..], t);
      assert forall d :: d in offsets <==> d == offsets[0] || d in offsets[1..] by {
        assert offsets == [offsets[0]] + offsets[1..];
      }
    }
  }

  /** Filtered, the King's and Knight's offset loop, run on a game paired
      with st, keeps a spot exactly when it is one of the offsets and the
      filtered test accepts it in st. */
  lemma {:induction false} StepsAccepted(st: State, m: State, p: Piece, offsets: seq<Vec>, t: Spot)
    requires Paired(st, m, p)
    ensures Placed(st) && p in st.recs && OnBoard(st.recs[p]) && Placed(m) && p in m.recs && OnBoard(m.recs[p])
    ensures t in Steps(m, p, offsets, false).0 <==>
              (exists d | d in offsets :: t == Offset(Origin(st, p), d.dr, d.dc)) && IsAvailable(st, p, t, false).0
    decreases |offsets|
  {
    hide Consistent, Restored, Frame, MoveWouldPutKingInCheck, Paired, Placed, Alike, IsAvailable;
    PairedFacts(st, m, p);
    if offsets != [] {
      var c := st.recs[p].color;
      var s := Offset(Origin(m, p), offsets[0].dr, offsets[0].dc);
      AvailableSame(st, m, p, s);
      var m1 := IsAvailable(m, p, s, false).1;
      AvailableRestores(m, p, s, false);
      KeepsConsistent(m, m1);
      RestoredAlike(m, m1, c);
      AlikeRefl(st, c);
      AlikeStep(st, st, m, m1, c);
      AlikePaired(st, m1, c, p);
      StepsAccepted(st, m1, p, offsets[1..], t);
      assert forall d :: d in offsets <==> d == offsets[0] || d in offsets[1..] by {
        assert offsets == [offsets[0]] + offsets[1..];
      }
    }
  }

  /** King.getPossibleMoves and Knight.getPossibleMoves: a spot is a move
      exactly when it is one of the piece's offsets and the availability test
      accepts it in the game asked; filtered, this holds of a consistent game. */
  lemma KingKnightMoves(st: State, p: Piece, regardless: bool, t: Spot)
    requires Placed(st) && p in st.recs && OnBoard(st.recs[p])
    requires st.recs[p].kind == King || st.recs[p].kind == Knight
    requires !regardless ==> Consistent(st)
    ensures var offsets := if st.recs[p].kind == King then EightDirections else KnightOffsets;
      t in Moves(st, p, regardless).0 <==>
        (exists d | d in offsets :: t == Offset(Origin(st, p), d.dr, d.dc)) && IsAvailable(st, p, t, regardless).0
  {
    hide Steps, Consistent, Placed, IsAvailable, Frame;
    var offsets := if st.recs[p].kind == King then EightDirections else KnightOffsets;
    if regardless {
      StepsOpen(st, p, offsets, t);
    } else {
      AlikeRefl(st, st.recs[p].color);
      AlikePaired(st, st, st.recs[p].color, p);
      StepsAccepted(st, st, p, offsets, t);
    }
  }

  /** Pawn.java:38-43, unfiltered: a diagonal is kept exactly when it is one
      of the column offsets one row forward, open and occupied, which makes
      its occupant an enemy. */
  lemma {:induction false} PawnAttacksOpen(st: State, p: Piece, hs: seq<int>, t: Spot)
    requires Placed(st) && p in st.recs && OnBoard(st.recs[p])
    ensures t in PawnAttacks(st, p, hs, true).0 <==>
              (exists h | h in hs :: t == Offset(Origin(st, p), Forward(st.recs[p].color), h)) &&
              Open(st, p, t) && Occupied(st, t)
    ensures t in PawnAttacks(st, p, hs, true).0 ==> st.recs[st.occ[t]].color != st.recs[p].color
    decreases |hs|
  {
    hide Frame, Placed, IsAvailable;
    if hs != [] {
      PawnAttacksOpen(st, p, hs[1..], t);
      assert forall h :: h in hs <==> h == hs[0] || h in hs[1..] by {
        assert hs == [hs[0]] + hs[1..];
      }
    }
  }

  /** Pawn.java:24-35, unfiltered: every forward step kept is open and empty. */
  lemma PawnAdvanceOpen(st: State, p: Piece)
    requires Placed(st) && p in st.recs && OnBoard(st.recs[p])
    ensures forall t | t in PawnAdvance(st, p, true).0 :: Open(st, p, t) && !Occupied(st, t)
  {
    hide Frame, Placed;
  }

  /** Piece.getPossibleMovesRegardlessOfKing, for every kind: each spot
      returned is stored and not held by the piece's own side, and a Pawn's
      diagonal holds an enemy piece. */
  lemma MovesOpen(st: State, p: Piece, t: Spot)
    requires Placed(st) && p in st.recs && OnBoard(st.recs[p])
    ensures t in Moves(st, p, true).0 ==>
              ValidSpot(t) && !(Occupied(st, t) && st.recs[st.occ[t]].color == st.recs[p].color)
    ensures st.recs[p].kind == Pawn && t in Moves(st, p, true).0 && t.col != Origin(st, p).col ==>
              Occupied(st, t) && st.recs[st.occ[t]].color != st.recs[p].color
  {
    hide Frame, Placed, IsAvailable, Open, PawnAdvance, PawnAttacks, Rays, Steps, MegaRays;
    OpenMeaning(st, p, t);
    match st.recs[p].kind
    case Pawn =>
      PawnAdvanceOpen(st, p);
      PawnAdvanceAt(st, p, true);
      PawnAttacksOpen(st, p, [1, -1], t);
    case Rook => RaysOpen(st, p, RookDirections);
    case Bishop => RaysOpen(st, p, BishopDirections);
    case Queen => RaysOpen(st, p, EightDirections);
    case King => StepsOpen(st, p, EightDirections, t);
    case Knight => StepsOpen(st, p, KnightOffsets, t);
    case MegaRook => MegaRaysOpen(st, p, RookDirections);
    case FlipFlopper => RaysOpen(st, p, EightDirections);
  }

  /** Piece.getPossibleMoves in a consistent game: the filtered moves keep
      the same promises, since every one of them is an unfiltered move. */
  lemma FilteredMovesOpen(st: State, p: Piece, t: Spot)
    requires Placed(st) && Consistent(st) && p in st.recs && OnBoard(st.recs[p])
    ensures t in Moves(st, p, false).0 ==>
              ValidSpot(t) && !(Occupied(st, t) && st.recs[st.occ[t]].color == st.recs[p].color)
    ensures st.recs[p].kind == Pawn && t in Moves(st, p, false).0 && t.col != Origin(st, p).col ==>
              Occupied(st, t) && st.recs[st.occ[t]].color != st.recs[p].color
  {
    hide Frame, Placed, Consistent, Moves;
    FilteredWithin(st, p);
    MovesOpen(st, p, t);
  }
}
