/** The move queries of chess/Game.java thread the game through their probes,
    and a probe leaves traces behind: the probed piece may now be marked as
    moved, and a displaced opponent piece is back at the end of its list.
    Within one query these traces do not change the answer for a later
    piece. So Game.isAvailableSpotForPiece answers what its probe finds, and
    Game.isInCheckmate, Game.isInStalemate, Game.startNewTurn and
    Game.getPiecesThreatening answer as if every piece were asked of the game
    as it was before the query; a Queen's filtered moves are the union of its
    filtered Rook and Bishop scans. The mark does change one answer: a
    filtered query never offers a Pawn's two-step (FilteredPawnNoTwoStep),
    and the mark stays for every later query. */
module Independence {
  import opened Wrappers
  import opened Chess
  import opened Boards
  import opened Pieces
  import opened Rules
  import opened Restoring
  import opened GameRules
  import opened GameInvariant
  import opened Queries
  import opened Shapes

  /** The probe of Game.resultIfPieceMovedToSpot leaves every other piece as
      it was, and p as it was except that a Pawn is now marked as moved. */
  lemma ProbeMarks(st: State, p: Piece, s: Spot)
    requires Placed(st) && p in st.recs && OnBoard(st.recs[p]) && ValidSpot(s)
    ensures MoveWouldPutKingInCheck(st, p, s).1.recs ==
              st.recs[p := st.recs[p].(hasMoved := st.recs[p].hasMoved || st.recs[p].kind == Pawn)]
  {
    hide InCheck, Frame, Placed;
  }

  /** With p moved to `s` (and the occupant of `s` off its list), p's side
      has a King and some opponent piece reaches the King's spot with an
      unfiltered move. */
  predicate Exposed(st: State, p: Piece, s: Spot)
    requires Placed(st) && p in st.recs && OnBoard(st.recs[p]) && ValidSpot(s)
  {
    var m, c := ProbeMove(st, p, s), st.recs[p].color;
    GetKing(m, c).Some? &&
    exists q | q in PiecesOf(m, OpponentColor(c)) :: Origin(m, GetKing(m, c).value) in Moves(m, q, true).0
  }

  /** Game.moveWouldPutKingInCheck answers true exactly when the move
      exposes the King; a side without a King is never in check here, since
      the fault of isInCheck counts as no. */
  lemma ProbeMeaning(st: State, p: Piece, s: Spot)
    requires Placed(st) && p in st.recs && OnBoard(st.recs[p]) && ValidSpot(s)
    ensures MoveWouldPutKingInCheck(st, p, s).0 <==> Exposed(st, p, s)
  {
    hide Moves, Placed, Frame, ProbeRestore;
    InCheckIff(ProbeMove(st, p, s), st.recs[p].color);
  }

  /** Game.isAvailableSpotForPiece with the check filter: a spot is accepted
      exactly when it is on the board, not held by the piece's own side, and
      the probe finds that the move leaves the side's King unattacked. */
  lemma AvailableIff(st: State, p: Piece, s: Spot)
    requires Placed(st) && p in st.recs && OnBoard(st.recs[p])
    ensures IsAvailable(st, p, s, false).0 <==>
              ValidSpot(s) && !(Occupied(st, s) && st.recs[st.occ[s]].color == st.recs[p].color) &&
              !MoveWouldPutKingInCheck(st, p, s).0
    ensures IsAvailable(st, p, s, false).0 <==>
              ValidSpot(s) && !(Occupied(st, s) && st.recs[st.occ[s]].color == st.recs[p].color) &&
              !Exposed(st, p, s)
  {
    hide MoveWouldPutKingInCheck, Exposed;
    if ValidSpot(s) {
      ProbeMeaning(st, p, s);
    }
  }

  /** Two games with the same occupants and the same pieces, whose fields
      differ at most in the moved flags. */
  predicate SameBoard(a: State, b: State)
  {
    a.occ == b.occ && a.recs.Keys == b.recs.Keys &&
    forall q | q in a.recs :: b.recs[q] == a.recs[q].(hasMoved := b.recs[q].hasMoved)
  }

  /** Two games alike for side c: the same board up to moved flags, the same
      list for side c, and the same pieces, in any order, for the other side. */
  predicate Alike(a: State, b: State, c: Color)
  {
    SameBoard(a, b) && PiecesOf(a, c) == PiecesOf(b, c) &&
    multiset(PiecesOf(a, OpponentColor(c))) == multiset(PiecesOf(b, OpponentColor(c)))
  }

  /** A piece of one of two games with the same board. */
  lemma SameBoardPiece(a: State, b: State, q: Piece)
    requires SameBoard(a, b) && q in a.recs
    ensures a.occ == b.occ && a.recs.Keys == b.recs.Keys && q in b.recs
    ensures b.recs[q].spot == a.recs[q].spot && b.recs[q].kind == a.recs[q].kind &&
            b.recs[q].color == a.recs[q].color && b.recs[q].inPlay == a.recs[q].inPlay &&
            b.recs[q].moveParity == a.recs[q].moveParity
  {
  }

  /** A game is alike itself. */
  lemma AlikeRefl(st: State, c: Color)
    ensures Alike(st, st, c)
  {
  }

  /** A query framed for side c that restores the game leaves it alike for c. */
  lemma RestoredAlike(a: State, a1: State, c: Color)
    requires Restored(a, a1) && Frame(a, a1, c)
    ensures Alike(a, a1, c)
  {
    assert multiset(PiecesOf(a1, OpponentColor(c))) == multiset(PiecesOf(a, OpponentColor(c)));
  }

  /** Two alike games stay alike when each moves on to a game alike it. */
  lemma AlikeStep(a: State, a1: State, b: State, b1: State, c: Color)
    requires Alike(a, b, c) && Alike(a, a1, c) && Alike(b, b1, c)
    ensures Alike(a1, b1, c)
  {
    forall q | q in a1.recs
      ensures b1.recs[q] == a1.recs[q].(hasMoved := b1.recs[q].hasMoved)
    {
      SameBoardPiece(a, b, q);
      SameBoardPiece(a, a1, q);
      SameBoardPiece(b, b1, q);
    }
  }

  /** In a consistent game the King that Game.getKing finds stands on its spot. */
  lemma KingStands(st: State, c: Color)
    requires Consistent(st)
    ensures GetKing(st, c).Some? ==> Occupied(st, Origin(st, GetKing(st, c).value))
  {
    if GetKing(st, c).Some? {
      var k := GetKing(st, c).value;
      assert k in st.recs && st.recs[k].inPlay;
      assert Occupant(st, Origin(st, k)) == Some(k);
    }
  }

  /** Game.getKing reads only the list and the kinds of the pieces. */
  lemma {:induction false} FirstKingAlike(ra: map<Piece, PieceRec>, rb: map<Piece, PieceRec>, ps: seq<Piece>)
    requires forall q | q in ps :: q in ra && q in rb && ra[q].kind == rb[q].kind
    ensures FirstKing(ra, ps) == FirstKing(rb, ps)
    decreases |ps|
  {
    if ps != [] {
      assert forall q | q in ps[1..] :: q in ps;
      FirstKingAlike(ra, rb, ps[1..]);
    }
  }

  /** Game.getKing finds the same King in two games with the same board and
      the same list for side c. */
  lemma KingAlike(a: State, b: State, c: Color)
    requires Placed(a) && Placed(b) && SameBoard(a, b) && PiecesOf(a, c) == PiecesOf(b, c)
    ensures GetKing(a, c) == GetKing(b, c)
  {
    forall q | q in PiecesOf(a, c)
      ensures q in a.recs && q in b.recs && a.recs[q].kind == b.recs[q].kind
    {
      SameBoardPiece(a, b, q);
    }
    FirstKingAlike(a.recs, b.recs, PiecesOf(a, c));
  }

  /** The unfiltered availability test reads only the occupants and their
      colours. */
  lemma AvailableSameBoard(a: State, b: State, q: Piece, s: Spot)
    requires Placed(a) && Placed(b) && SameBoard(a, b)
    requires q in a.recs && OnBoard(a.recs[q]) && q in b.recs && OnBoard(b.recs[q])
    ensures IsAvailable(a, q, s, true).0 == IsAvailable(b, q, s, true).0
  {
    hide Frame, MoveWouldPutKingInCheck, SameBoard;
    SameBoardPiece(a, b, q);
    if Occupied(a, s) {
      SameBoardPiece(a, b, a.occ[s]);
    }
  }

  /** Unfiltered, the sliding loop gives the same spots in two games with
      the same board. */
  lemma {:induction false} RayAlike(a: State, b: State, q: Piece, d: Vec, dist: int)
    requires Placed(a) && Placed(b) && SameBoard(a, b) && Unit(d) && 1 <= dist
    requires q in a.recs && OnBoard(a.recs[q]) && q in b.recs && OnBoard(b.recs[q])
    ensures Ray(a, q, d, dist, true).0 == Ray(b, q, d, dist, true).0
    decreases 8 - dist, 1
  {
    hide Placed, Frame, IsAvailable, RayFrom, SameBoard;
    SameBoardPiece(a, b, q);
    var t := Target(Origin(a, q), d, dist);
    AvailableSameBoard(a, b, q, t);
    RayFromAlike(a, b, q, d, dist, IsAvailable(a, q, t, true).0);
  }

  lemma {:induction false} RayFromAlike(a: State, b: State, q: Piece, d: Vec, dist: int, ok: bool)
    requires Placed(a) && Placed(b) && SameBoard(a, b) && Unit(d) && 1 <= dist
    requires q in a.recs && OnBoard(a.recs[q]) && q in b.recs && OnBoard(b.recs[q])
    requires ok ==> ValidSpot(Target(Origin(a, q), d, dist))
    ensures RayFrom(a, q, d, dist, ok, true).0 == RayFrom(b, q, d, dist, ok, true).0
    decreases 8 - dist, 0
  {
    hide Placed, Frame, Ray, SameBoard;
    SameBoardPiece(a, b, q);
    var t := Target(Origin(a, q), d, dist);
    if ok && !(a.recs[q].kind == FlipFlopper && a.recs[q].moveParity == 1) && !Occupied(a, t) {
      RayBound(Origin(a, q), d, dist);
      RayAlike(a, b, q, d, dist + 1);
    }
  }

  /** Unfiltered, the direction loop of the sliding pieces. */
  lemma {:induction false} RaysAlike(a: State, b: State, q: Piece, dirs: seq<Vec>)
    requires Placed(a) && Placed(b) && SameBoard(a, b) && forall d | d in dirs :: Unit(d)
    requires q in a.recs && OnBoard(a.recs[q]) && q in b.recs && OnBoard(b.recs[q])
    ensures Rays(a, q, dirs, true).0 == Rays(b, q, dirs, true).0
    decreases |dirs|
  {
    hide Placed, Frame, Ray, SameBoard;
    if dirs != [] {
      RayAlike(a, b, q, dirs[0], 1);
      RaysAlike(a, b, q, dirs[1..]);
    }
  }

  /** Unfiltered, the offset loops of King and Knight. */
  lemma {:induction false} StepsAlike(a: State, b: State, q: Piece, offsets: seq<Vec>)
    requires Placed(a) && Placed(b) && SameBoard(a, b)
    requires q in a.recs && OnBoard(a.recs[q]) && q in b.recs && OnBoard(b.recs[q])
    ensures Steps(a, q, offsets, true).0 == Steps(b, q, offsets, true).0
    decreases |offsets|
  {
    hide Placed, Frame, IsAvailable, SameBoard;
    if offsets != [] {
      SameBoardPiece(a, b, q);
      AvailableSameBoard(a, b, q, Offset(Origin(a, q), offsets[0].dr, offsets[0].dc));
      StepsAlike(a, b, q, offsets[1..]);
    }
  }

  /** Unfiltered, the MegaRook's loop along one direction. */
  lemma {:induction false} MegaRayAlike(a: State, b: State, q: Piece, d: Vec, dist: int)
    requires Placed(a) && Placed(b) && SameBoard(a, b) && Unit(d) && 1 <= dist
    requires q in a.recs && OnBoard(a.recs[q]) && q in b.recs && OnBoard(b.recs[q])
    ensures MegaRay(a, q, d, dist, true).0 == MegaRay(b, q, d, dist, true).0
    decreases 8 - dist
  {
    hide Placed, Frame, IsAvailable, SameBoard;
    SameBoardPiece(a, b, q);
    var t := Target(Origin(a, q), d, dist);
    if ValidSpot(t) {
      RayBound(Origin(a, q), d, dist);
      AvailableSameBoard(a, b, q, t);
      MegaRayAlike(a, b, q, d, dist + 1);
    }
  }

  /** Unfiltered, the direction loop of the MegaRook. */
  lemma {:induction false} MegaRaysAlike(a: State, b: State, q: Piece, dirs: seq<Vec>)
    requires Placed(a) && Placed(b) && SameBoard(a, b) && forall d | d in dirs :: Unit(d)
    requires q in a.recs && OnBoard(a.recs[q]) && q in b.recs && OnBoard(b.recs[q])
    ensures MegaRays(a, q, dirs, true).0 == MegaRays(b, q, dirs, true).0
    decreases |dirs|
  {
    hide Placed, Frame, MegaRay, SameBoard;
    if dirs != [] {
      MegaRayAlike(a, b, q, dirs[0], 1);
      MegaRaysAlike(a, b, q, dirs[1..]);
    }
  }

  /** Unfiltered, the Pawn's diagonal attacks. */
  lemma {:induction false} PawnAttacksAlike(a: State, b: State, q: Piece, hs: seq<int>)
    requires Placed(a) && Placed(b) && SameBoard(a, b)
    requires q in a.recs && OnBoard(a.recs[q]) && q in b.recs && OnBoard(b.recs[q])
    ensures PawnAttacks(a, q, hs, true).0 == PawnAttacks(b, q, hs, true).0
    decreases |hs|
  {
    hide Placed, Frame, IsAvailable, SameBoard;
    if hs != [] {
      SameBoardPiece(a, b, q);
      AvailableSameBoard(a, b, q, Offset(Origin(a, q), Forward(a.recs[q].color), hs[0]));
      PawnAttacksAlike(a, b, q, hs[1..]);
    }
  }

  /** Unfiltered, the Pawn's forward steps: both empty or both not, and
      never onto an occupied spot, whatever the moved flags say. */
  lemma PawnAdvanceAlike(a: State, b: State, q: Piece)
    requires Placed(a) && Placed(b) && SameBoard(a, b)
    requires q in a.recs && OnBoard(a.recs[q]) && q in b.recs && OnBoard(b.recs[q])
    ensures PawnAdvance(a, q, true).0 == [] <==> PawnAdvance(b, q, true).0 == []
    ensures forall t | t in PawnAdvance(a, q, true).0 :: !Occupied(a, t)
    ensures forall t | t in PawnAdvance(b, q, true).0 :: !Occupied(a, t)
  {
    hide Placed, Frame, IsAvailable, SameBoard;
    SameBoardPiece(a, b, q);
    AvailableSameBoard(a, b, q, Offset(Origin(a, q), Forward(a.recs[q].color), 0));
  }

  /** Unfiltered, Piece.getPossibleMoves in two games with the same board:
      one piece has moves exactly when it has them in the other, and reaches
      an occupied spot exactly when it does in the other. */
  lemma MovesAlike(a: State, b: State, q: Piece, t: Spot)
    requires Placed(a) && Placed(b) && SameBoard(a, b)
    requires q in a.recs && OnBoard(a.recs[q]) && q in b.recs && OnBoard(b.recs[q])
    ensures Moves(a, q, true).0 == [] <==> Moves(b, q, true).0 == []
    ensures Occupied(a, t) ==> (t in Moves(a, q, true).0 <==> t in Moves(b, q, true).0)
  {
    hide Placed, Frame, PawnAdvance, PawnAttacks, Rays, Steps, MegaRays, SameBoard;
    SameBoardPiece(a, b, q);
    match a.recs[q].kind
    case Pawn =>
      PawnAdvanceAlike(a, b, q);
      PawnAttacksAlike(a, b, q, [1, -1]);
    case Rook => RaysAlike(a, b, q, RookDirections);
    case Bishop => RaysAlike(a, b, q, BishopDirections);
    case Queen => RaysAlike(a, b, q, EightDirections);
    case King => StepsAlike(a, b, q, EightDirections);
    case Knight => StepsAlike(a, b, q, KnightOffsets);
    case MegaRook => MegaRaysAlike(a, b, q, RookDirections);
    case FlipFlopper => RaysAlike(a, b, q, EightDirections);
  }

  /** Game.isInCheck gives the same answer in two games with the same board,
      the same list for side c and the same opponent pieces, when side c's
      King stands on its spot. */
  lemma InCheckAlike(a: State, b: State, c: Color)
    requires Placed(a) && Placed(b) && SameBoard(a, b) && PiecesOf(a, c) == PiecesOf(b, c)
    requires forall q :: q in PiecesOf(a, OpponentColor(c)) <==> q in PiecesOf(b, OpponentColor(c))
    requires GetKing(a, c).Some? ==> Occupied(a, Origin(a, GetKing(a, c).value))
    ensures InCheck(a, c) == InCheck(b, c)
  {
    hide Moves, InCheck, GetKing, SameBoard;
    KingAlike(a, b, c);
    var king := GetKing(a, c);
    var opps := PiecesOf(a, OpponentColor(c));
    forall q | q in opps
      ensures q in b.recs && OnBoard(b.recs[q])
      ensures Moves(a, q, true).0 == [] <==> Moves(b, q, true).0 == []
      ensures king.Some? ==>
                (Origin(a, king.value) in Moves(a, q, true).0 <==> Origin(a, king.value) in Moves(b, q, true).0)
    {
      SameBoardPiece(a, b, q);
      MovesAlike(a, b, q, if king.Some? then Origin(a, king.value) else Origin(a, q));
    }
    InCheckIff(a, c);
    InCheckIff(b, c);
    if king.Some? {
      SameBoardPiece(a, b, king.value);
    }
  }

  /** The occupants after the probe's move: p's spot is cleared and `s`
      names p. */
  lemma ProbeOcc(st: State, p: Piece, s: Spot)
    requires Placed(st) && p in st.recs && OnBoard(st.recs[p]) && ValidSpot(s)
    ensures ProbeMove(st, p, s).occ == Place(Place(st.occ, Origin(st, p), None), s, Some(p))
  {
    hide Placed;
    if Occupied(st, s) {
      OccupantPlaced(st, s);
    }
    var st1 := if Occupied(st, s) then Displace(st, st.occ[s]) else st;
    assert ProbeMove(st, p, s) == PieceMoveTo(st1, p, s);
    assert st1.occ == st.occ && st1.recs == st.recs;
  }

  /** The lists after the probe's move onto a spot not held by p's own side:
      p's list is kept, and an opponent occupant leaves the other list. */
  lemma ProbeLists(st: State, p: Piece, s: Spot)
    requires Placed(st) && p in st.recs && OnBoard(st.recs[p]) && ValidSpot(s)
    requires !(Occupied(st, s) && st.recs[st.occ[s]].color == st.recs[p].color)
    ensures var m, c := ProbeMove(st, p, s), st.recs[p].color;
      PiecesOf(m, c) == PiecesOf(st, c) &&
      PiecesOf(m, OpponentColor(c)) ==
        if Occupied(st, s) then RemoveFirst(PiecesOf(st, OpponentColor(c)), st.occ[s])
        else PiecesOf(st, OpponentColor(c))
  {
    hide Placed;
    var c := st.recs[p].color;
    if Occupied(st, s) {
      OccupantPlaced(st, s);
      var q := st.occ[s];
      assert st.recs[q].color == OpponentColor(c);
      assert ProbeMove(st, p, s) == PieceMoveTo(Displace(st, q), p, s);
    } else {
      assert ProbeMove(st, p, s) == PieceMoveTo(st, p, s);
    }
  }

  /** Moving p to `s` for the probe keeps the boards of two games the same. */
  lemma ProbeMoveBoard(a: State, b: State, p: Piece, s: Spot)
    requires Placed(a) && Placed(b) && SameBoard(a, b) && p in a.recs && OnBoard(a.recs[p]) && ValidSpot(s)
    requires p in b.recs && OnBoard(b.recs[p])
    ensures SameBoard(ProbeMove(a, p, s), ProbeMove(b, p, s))
  {
    hide Placed, ProbeMove;
    SameBoardPiece(a, b, p);
    var ma, mb := ProbeMove(a, p, s), ProbeMove(b, p, s);
    ProbeOcc(a, p, s);
    ProbeOcc(b, p, s);
    forall q | q in ma.recs
      ensures q in mb.recs && mb.recs[q] == ma.recs[q].(hasMoved := mb.recs[q].hasMoved)
    {
      SameBoardPiece(a, b, q);
    }
  }

  /** Moving p to `s` for the probe keeps two alike games alike, when `s` is
      not held by p's own side. */
  lemma ProbeMoveAlike(a: State, b: State, p: Piece, s: Spot)
    requires Placed(a) && Placed(b) && p in a.recs && OnBoard(a.recs[p]) && ValidSpot(s)
    requires Alike(a, b, a.recs[p].color)
    requires !(Occupied(a, s) && a.recs[a.occ[s]].color == a.recs[p].color)
    ensures p in b.recs && OnBoard(b.recs[p])
    ensures var c, ma, mb := a.recs[p].color, ProbeMove(a, p, s), ProbeMove(b, p, s);
      SameBoard(ma, mb) && PiecesOf(ma, c) == PiecesOf(a, c) && PiecesOf(mb, c) == PiecesOf(b, c) &&
      forall q :: q in PiecesOf(ma, OpponentColor(c)) <==> q in PiecesOf(mb, OpponentColor(c))
  {
    hide Placed, ProbeMove, SameBoard;
    var c := a.recs[p].color;
    SameBoardPiece(a, b, p);
    ProbeMoveBoard(a, b, p, s);
    var xs, ys := PiecesOf(a, OpponentColor(c)), PiecesOf(b, OpponentColor(c));
    if Occupied(a, s) {
      OccupantPlaced(a, s);
      SameBoardPiece(a, b, a.occ[s]);
    }
    ProbeLists(a, p, s);
    ProbeLists(b, p, s);
    SameMembers(xs, ys);
    if Occupied(a, s) {
      var q := a.occ[s];
      if q in xs {
        assert multiset(RemoveFirst(xs, q)) == multiset(xs) - multiset{q};
        assert multiset(RemoveFirst(ys, q)) == multiset(ys) - multiset{q};
      }
      SameMembers(RemoveFirst(xs, q), RemoveFirst(ys, q));
    }
  }

  /** In a consistent game, with p moved to a spot not held by its own side,
      the King of p's side still stands on its spot. */
  lemma ProbeKingStands(a: State, p: Piece, s: Spot)
    requires Consistent(a) && p in a.recs && OnBoard(a.recs[p]) && ValidSpot(s)
    requires !(Occupied(a, s) && a.recs[a.occ[s]].color == a.recs[p].color)
    ensures var m, c := ProbeMove(a, p, s), a.recs[p].color;
      GetKing(m, c).Some? ==> Occupied(m, Origin(m, GetKing(m, c).value))
  {
    hide ProbeMove, Placed;
    ConsistentPlaced(a);
    var m, c := ProbeMove(a, p, s), a.recs[p].color;
    ProbeOcc(a, p, s);
    ProbeLists(a, p, s);
    if GetKing(m, c).Some? {
      var k := GetKing(m, c).value;
      assert k in PiecesOf(a, c);
      assert ListedInPlay(a) && InPlayOccupy(a);
      assert k in a.recs && a.recs[k].inPlay;
      assert Occupant(a, Origin(a, k)) == Some(k);
      assert Occupant(a, Origin(a, p)) == Some(p);
      if k != p {
        assert Origin(m, k) == Origin(a, k) != s;
        assert Lookup(m.occ, Origin(a, k)) == Some(k);
      }
    }
  }

  /** Piece p of side c, in two consistent games alike for c. */
  predicate Paired(a: State, b: State, p: Piece)
  {
    Consistent(a) && Consistent(b) && p in a.recs && OnBoard(a.recs[p]) && Alike(a, b, a.recs[p].color)
  }

  /** What Paired says about the two games and the piece. */
  lemma PairedFacts(a: State, b: State, p: Piece)
    requires Paired(a, b, p)
    ensures Consistent(a) && Consistent(b) && p in a.recs && OnBoard(a.recs[p]) && Alike(a, b, a.recs[p].color)
    ensures Placed(a) && Placed(b) && a.occ == b.occ && p in b.recs && OnBoard(b.recs[p])
    ensures b.recs[p].spot == a.recs[p].spot && b.recs[p].kind == a.recs[p].kind &&
            b.recs[p].color == a.recs[p].color && b.recs[p].moveParity == a.recs[p].moveParity
  {
    ConsistentPlaced(a);
    ConsistentPlaced(b);
    SameBoardPiece(a, b, p);
  }

  /** Two paired games stay paired when each is restored by a query framed
      for p's side. */
  lemma PairedAfter(a: State, a1: State, b: State, b1: State, p: Piece)
    requires Paired(a, b, p) && Restored(a, a1) && Restored(b, b1)
    requires Frame(a, a1, a.recs[p].color) && Frame(b, b1, a.recs[p].color)
    ensures Paired(a1, b1, p) && StillPlaced(a, a1, p) && StillPlaced(b, b1, p)
  {
    hide Consistent, Restored, Frame;
    var c := a.recs[p].color;
    PairedFacts(a, b, p);
    RestoredConsistent(a, a1, p);
    RestoredConsistent(b, b1, p);
    RestoredAlike(a, a1, c);
    RestoredAlike(b, b1, c);
    AlikeStep(a, a1, b, b1, c);
  }

  /** The probe of Game.moveWouldPutKingInCheck gives the same answer in two
      paired games. */
  lemma ProbeSame(a: State, b: State, p: Piece, s: Spot)
    requires Paired(a, b, p) && ValidSpot(s)
    requires !(Occupied(a, s) && a.recs[a.occ[s]].color == a.recs[p].color)
    ensures p in b.recs && OnBoard(b.recs[p])
    ensures MoveWouldPutKingInCheck(a, p, s).0 == MoveWouldPutKingInCheck(b, p, s).0
  {
    hide InCheck, ProbeRestore, ProbeMove, Consistent, Alike, Paired, Placed;
    PairedFacts(a, b, p);
    var c := a.recs[p].color;
    var ma, mb := ProbeMove(a, p, s), ProbeMove(b, p, s);
    ProbeMoveAlike(a, b, p, s);
    ProbeKingStands(a, p, s);
    InCheckAlike(ma, mb, c);
  }

  /** One availability test of a filtered scan, asked of two paired games:
      the same answer, paired games after it, and an accepted spot marks a
      Pawn as moved in both. */
  lemma AvailableSame(a: State, b: State, p: Piece, s: Spot)
    requires Paired(a, b, p)
    ensures p in b.recs && OnBoard(b.recs[p])
    ensures var (okA, a1) := IsAvailable(a, p, s, false);
      var (okB, b1) := IsAvailable(b, p, s, false);
      okA == okB && Paired(a1, b1, p) && StillPlaced(a, a1, p) && StillPlaced(b, b1, p) &&
      (okA && a.recs[p].kind == Pawn ==> a1.recs[p].hasMoved && b1.recs[p].hasMoved)
  {
    hide Consistent, Restored, Frame, MoveWouldPutKingInCheck, Paired, Placed, Alike;
    PairedFacts(a, b, p);
    var c := a.recs[p].color;
    var (okA, a1) := IsAvailable(a, p, s, false);
    var (okB, b1) := IsAvailable(b, p, s, false);
    if Occupied(a, s) {
      OccupantPlaced(a, s);
      SameBoardPiece(a, b, a.occ[s]);
    }
    if ValidSpot(s) && !(Occupied(a, s) && a.recs[a.occ[s]].color == c) {
      ProbeSame(a, b, p, s);
      ProbeMarks(a, p, s);
      ProbeMarks(b, p, s);
    }
    AvailableRestores(a, p, s, false);
    AvailableRestores(b, p, s, false);
    PairedAfter(a, a1, b, b1, p);
  }

  /** The answers of one query asked of two paired games: the same result,
      the games handed back paired again, and p still where it stood. */
  predicate Agree<T(==)>(ra: (T, State), rb: (T, State), a: State, b: State, p: Piece)
  {
    ra.0 == rb.0 && Paired(ra.1, rb.1, p) && StillPlaced(a, ra.1, p) && StillPlaced(b, rb.1, p)
  }

  /** Filtered, one step of the sliding loop agrees in two paired games. */
  lemma {:induction false} RaySame(a: State, b: State, p: Piece, d: Vec, dist: int)
    requires Paired(a, b, p) && Unit(d) && 1 <= dist
    ensures p in b.recs && OnBoard(b.recs[p])
    ensures Agree(Ray(a, p, d, dist, false), Ray(b, p, d, dist, false), a, b, p)
    decreases 8 - dist, 1
  {
    hide Consistent, Restored, Frame, MoveWouldPutKingInCheck, Paired, Placed, Alike, RayFrom, IsAvailable;
    PairedFacts(a, b, p);
    var t := Target(Origin(a, p), d, dist);
    AvailableSame(a, b, p, t);
    var (okA, a1) := IsAvailable(a, p, t, false);
    var (okB, b1) := IsAvailable(b, p, t, false);
    RayFromSame(a1, b1, p, d, dist, okA);
  }

  /** Filtered, the rest of the sliding loop agrees in two paired games. */
  lemma {:induction false} RayFromSame(a: State, b: State, p: Piece, d: Vec, dist: int, ok: bool)
    requires Paired(a, b, p) && Unit(d) && 1 <= dist
    requires ok ==> ValidSpot(Target(Origin(a, p), d, dist))
    ensures p in b.recs && OnBoard(b.recs[p]) && b.recs[p].spot == a.recs[p].spot
    ensures Agree(RayFrom(a, p, d, dist, ok, false), RayFrom(b, p, d, dist, ok, false), a, b, p)
    decreases 8 - dist, 0
  {
    hide Consistent, Restored, Frame, MoveWouldPutKingInCheck, Paired, Placed, Alike, Ray;
    PairedFacts(a, b, p);
    var t := Target(Origin(a, p), d, dist);
    if ok && !(a.recs[p].kind == FlipFlopper && a.recs[p].moveParity == 1) && !Occupied(a, t) {
      RayBound(Origin(a, p), d, dist);
      RaySame(a, b, p, d, dist + 1);
    }
  }

  /** Filtered, the direction loop of the sliding pieces agrees in two paired
      games. */
  lemma {:induction false} RaysSame(a: State, b: State, p: Piece, dirs: seq<Vec>)
    requires Paired(a, b, p) && forall d | d in dirs :: Unit(d)
    ensures p in b.recs && OnBoard(b.recs[p])
    ensures Agree(Rays(a, p, dirs, false), Rays(b, p, dirs, false), a, b, p)
    decreases |dirs|
  {
    hide Consistent, Restored, Frame, MoveWouldPutKingInCheck, Paired, Placed, Alike, Ray;
    PairedFacts(a, b, p);
    if dirs != [] {
      RaySame(a, b, p, dirs[0], 1);
      var (ra, a1) := Ray(a, p, dirs[0], 1, false);
      var (rb, b1) := Ray(b, p, dirs[0], 1, false);
      RaysSame(a1, b1, p, dirs[1..]);
    }
  }

  /** Filtered, the offset loop of King and Knight agrees in two paired games. */
  lemma {:induction false} StepsSame(a: State, b: State, p: Piece, offsets: seq<Vec>)
    requires Paired(a, b, p)
    ensures p in b.recs && OnBoard(b.recs[p])
    ensures Agree(Steps(a, p, offsets, false), Steps(b, p, offsets, false), a, b, p)
    decreases |offsets|
  {
    hide Consistent, Restored, Frame, MoveWouldPutKingInCheck, Paired, Placed, Alike, IsAvailable;
    PairedFacts(a, b, p);
    if offsets != [] {
      var t := Offset(Origin(a, p), offsets[0].dr, offsets[0].dc);
      AvailableSame(a, b, p, t);
      var (okA, a1) := IsAvailable(a, p, t, false);
      var (okB, b1) := IsAvailable(b, p, t, false);
      StepsSame(a1, b1, p, offsets[1..]);
    }
  }

  /** Filtered, the MegaRook's loop along one direction agrees in two paired
      games. */
  lemma {:induction false} MegaRaySame(a: State, b: State, p: Piece, d: Vec, dist: int)
    requires Paired(a, b, p) && Unit(d) && 1 <= dist
    ensures p in b.recs && OnBoard(b.recs[p])
    ensures Agree(MegaRay(a, p, d, dist, false), MegaRay(b, p, d, dist, false), a, b, p)
    decreases 8 - dist
  {
    hide Consistent, Restored, Frame, MoveWouldPutKingInCheck, Paired, Placed, Alike, IsAvailable;
    PairedFacts(a, b, p);
    var t := Target(Origin(a, p), d, dist);
    if ValidSpot(t) {
      RayBound(Origin(a, p), d, dist);
      AvailableSame(a, b, p, t);
      var (okA, a1) := IsAvailable(a, p, t, false);
      var (okB, b1) := IsAvailable(b, p, t, false);
      MegaRaySame(a1, b1, p, d, dist + 1);
    }
  }

  /** Filtered, the direction loop of the MegaRook agrees in two paired games. */
  lemma {:induction false} MegaRaysSame(a: State, b: State, p: Piece, dirs: seq<Vec>)
    requires Paired(a, b, p) && forall d | d in dirs :: Unit(d)
    ensures p in b.recs && OnBoard(b.recs[p])
    ensures Agree(MegaRays(a, p, dirs, false), MegaRays(b, p, dirs, false), a, b, p)
    decreases |dirs|
  {
    hide Consistent, Restored, Frame, MoveWouldPutKingInCheck, Paired, Placed, Alike, MegaRay;
    PairedFacts(a, b, p);
    if dirs != [] {
      MegaRaySame(a, b, p, dirs[0], 1);
      var (ra, a1) := MegaRay(a, p, dirs[0], 1, false);
      var (rb, b1) := MegaRay(b, p, dirs[0], 1, false);
      MegaRaysSame(a1, b1, p, dirs[1..]);
    }
  }

  /** Filtered, the Pawn's diagonal attacks agree in two paired games. */
  lemma {:induction false} PawnAttacksSame(a: State, b: State, p: Piece, hs: seq<int>)
    requires Paired(a, b, p)
    ensures p in b.recs && OnBoard(b.recs[p])
    ensures Agree(PawnAttacks(a, p, hs, false), PawnAttacks(b, p, hs, false), a, b, p)
    decreases |hs|
  {
    hide Consistent, Restored, Frame, MoveWouldPutKingInCheck, Paired, Placed, Alike, IsAvailable;
    PairedFacts(a, b, p);
    if hs != [] {
      var t := Offset(Origin(a, p), Forward(a.recs[p].color), hs[0]);
      AvailableSame(a, b, p, t);
      var (okA, a1) := IsAvailable(a, p, t, false);
      var (okB, b1) := IsAvailable(b, p, t, false);
      PairedFacts(a1, b1, p);
      PawnAttacksSame(a1, b1, p, hs[1..]);
    }
  }

  /** The one trace that does change answers. Pawn.getPossibleMoves reads
      hasMoved again after the one-step's probe, and that probe has just
      marked the Pawn as moved. So a filtered query never offers a Pawn's
      two-step, even from an open starting row where the unfiltered query
      offers it; and a Pawn whose one-step is offered leaves the query marked
      as moved, which every later query sees. */
  lemma FilteredPawnNoTwoStep(st: State, p: Piece)
    requires Placed(st) && p in st.recs && OnBoard(st.recs[p]) && st.recs[p].kind == Pawn
    ensures var o, f := Origin(st, p), Forward(st.recs[p].color);
      Offset(o, 2 * f, 0) !in Moves(st, p, false).0 &&
      (Offset(o, f, 0) in Moves(st, p, false).0 ==> Moves(st, p, false).1.recs[p].hasMoved)
  {
    hide Placed, PawnAttacks, MoveWouldPutKingInCheck;
    var o, f := Origin(st, p), Forward(st.recs[p].color);
    var one := Offset(o, f, 0);
    var (ok1, st1) := IsAvailable(st, p, one, false);
    FrameKeepsPiece(st, st1, p);
    if ok1 {
      ProbeMarks(st, p, one);
      assert st1.recs[p].hasMoved;
    }
    var adv := PawnAdvance(st, p, false);
    if ok1 && !Occupied(st1, one) {
      assert adv == ([one], st1);
    } else {
      assert adv.0 == [];
    }
    FrameKeepsPiece(st, adv.1, p);
    var att := PawnAttacks(adv.1, p, [1, -1], false);
    assert Moves(st, p, false) == (adv.0 + att.0, att.1);
    PawnAttacksAt(adv.1, p, [1, -1], false);
  }

  /** Unfiltered, an unmoved Pawn whose two forward spots are stored and
      empty is offered the two-step: the spot FilteredPawnNoTwoStep takes
      away. */
  lemma OpenPawnTwoStep(st: State, p: Piece)
    requires Placed(st) && p in st.recs && OnBoard(st.recs[p]) && st.recs[p].kind == Pawn
    requires !st.recs[p].hasMoved
    requires var o, f := Origin(st, p), Forward(st.recs[p].color);
      ValidSpot(Offset(o, f, 0)) && !Occupied(st, Offset(o, f, 0)) &&
      ValidSpot(Offset(o, 2 * f, 0)) && !Occupied(st, Offset(o, 2 * f, 0))
    ensures Offset(Origin(st, p), 2 * Forward(st.recs[p].color), 0) in Moves(st, p, true).0
  {
    hide Placed, PawnAttacks, MoveWouldPutKingInCheck;
  }

  /** Filtered, the Pawn's forward steps agree in two paired games: a
      one-step the probe accepts marks the Pawn as moved in both, so neither
      offers the two-step. */
  lemma PawnAdvanceSame(a: State, b: State, p: Piece)
    requires Paired(a, b, p) && a.recs[p].kind == Pawn
    ensures p in b.recs && OnBoard(b.recs[p])
    ensures Agree(PawnAdvance(a, p, false), PawnAdvance(b, p, false), a, b, p)
  {
    hide Consistent, Restored, Frame, MoveWouldPutKingInCheck, Paired, Placed, Alike, IsAvailable;
    PairedFacts(a, b, p);
    var one := Offset(Origin(a, p), Forward(a.recs[p].color), 0);
    AvailableSame(a, b, p, one);
    var (okA, a1) := IsAvailable(a, p, one, false);
    var (okB, b1) := IsAvailable(b, p, one, false);
    PairedFacts(a1, b1, p);
    if okA && !Occupied(a1, one) {
      assert a1.recs[p].hasMoved && b1.recs[p].hasMoved;
      assert PawnAdvance(a, p, false) == ([one], a1);
      assert PawnAdvance(b, p, false) == ([one], b1);
    } else {
      assert PawnAdvance(a, p, false) == ([], a1);
      assert PawnAdvance(b, p, false) == ([], b1);
    }
  }

  /** Filtered, Pawn.getPossibleMoves agrees in two paired games. */
  lemma PawnMovesSame(a: State, b: State, p: Piece)
    requires Paired(a, b, p) && a.recs[p].kind == Pawn
    ensures p in b.recs && OnBoard(b.recs[p])
    ensures Agree(PawnMoves(a, p, false), PawnMoves(b, p, false), a, b, p)
  {
    hide Consistent, Restored, Frame, MoveWouldPutKingInCheck, Paired, Placed, Alike, PawnAdvance, PawnAttacks;
    PairedFacts(a, b, p);
    PawnAdvanceSame(a, b, p);
    var (ra, a1) := PawnAdvance(a, p, false);
    var (rb, b1) := PawnAdvance(b, p, false);
    PawnAttacksSame(a1, b1, p, [1, -1]);
  }

  /** Filtered, Piece.getPossibleMoves gives the same spots in two paired
      games and hands back paired games. */
  lemma MovesSame(a: State, b: State, p: Piece)
    requires Paired(a, b, p)
    ensures p in b.recs && OnBoard(b.recs[p])
    ensures Agree(Moves(a, p, false), Moves(b, p, false), a, b, p)
  {
    hide Consistent, Restored, Frame, MoveWouldPutKingInCheck, Paired, Placed, Alike,
         PawnMoves, Rays, Steps, MegaRays;
    PairedFacts(a, b, p);
    match a.recs[p].kind
    case Pawn => PawnMovesSame(a, b, p);
    case Rook => RaysSame(a, b, p, RookDirections);
    case Bishop => RaysSame(a, b, p, BishopDirections);
    case Queen => RaysSame(a, b, p, EightDirections);
    case King => StepsSame(a, b, p, EightDirections);
    case Knight => StepsSame(a, b, p, KnightOffsets);
    case MegaRook => MegaRaysSame(a, b, p, RookDirections);
    case FlipFlopper => RaysSame(a, b, p, EightDirections);
  }

  /** No piece of ps has a filtered move, each asked of the game st itself. */
  predicate AllStuck(st: State, ps: seq<Piece>)
    requires Placed(st)
  {
    forall q | q in ps && q in st.recs && OnBoard(st.recs[q]) :: Moves(st, q, false).0 == []
  }

  /** A piece of side c, in two consistent games alike for c, makes the
      two games paired. */
  lemma AlikePaired(a: State, b: State, c: Color, q: Piece)
    requires Consistent(a) && Consistent(b) && Alike(a, b, c)
    requires q in a.recs && OnBoard(a.recs[q]) && a.recs[q].color == c
    ensures Paired(a, b, q) && q in b.recs && OnBoard(b.recs[q]) && b.recs[q].color == c
  {
    SameBoardPiece(a, b, q);
  }

  /** A filtered move query of a piece of side c, asked of a consistent game
      m alike st for c, leaves a consistent game that is still alike st. */
  lemma MovesStayAlike(st: State, m: State, c: Color, q: Piece)
    requires Consistent(st) && Consistent(m) && Alike(st, m, c)
    requires q in m.recs && OnBoard(m.recs[q]) && m.recs[q].color == c
    ensures Consistent(Moves(m, q, false).1) && Alike(st, Moves(m, q, false).1, c)
  {
    hide Consistent, Restored, Frame, Moves, Alike, Placed;
    ConsistentPlaced(m);
    var m1 := Moves(m, q, false).1;
    MovesRestore(m, q, false);
    KeepsConsistent(m, m1);
    RestoredAlike(m, m1, c);
    AlikeRefl(st, c);
    AlikeStep(st, st, m, m1, c);
  }

  /** The loop of Game.isInCheckmate and Game.isInStalemate, run on a game
      alike st: it answers true exactly when no piece of ps has a filtered
      move in st. */
  lemma {:induction false} NoneCanMoveAlike(st: State, m: State, c: Color, ps: seq<Piece>)
    requires Consistent(st) && Consistent(m) && Alike(st, m, c)
    requires forall q | q in ps :: q in st.recs && OnBoard(st.recs[q]) && st.recs[q].color == c
    ensures Placed(st) && Placed(m)
    ensures forall q | q in ps :: q in m.recs && OnBoard(m.recs[q]) && m.recs[q].color == c
    ensures NoneCanMove(m, c, ps).0 <==> AllStuck(st, ps)
    decreases |ps|
  {
    hide Consistent, Restored, Frame, Moves, Alike, Paired, Placed;
    ConsistentPlaced(st);
    ConsistentPlaced(m);
    forall q | q in ps
      ensures q in m.recs && OnBoard(m.recs[q]) && m.recs[q].color == c
    {
      AlikePaired(st, m, c, q);
    }
    if ps != [] {
      var q := ps[0];
      AlikePaired(st, m, c, q);
      MovesSame(st, m, q);
      MovesStayAlike(st, m, c, q);
      assert forall x | x in ps[1..] :: x in ps;
      NoneCanMoveAlike(st, Moves(m, q, false).1, c, ps[1..]);
    }
  }

  /** The loop of Game.isInCheckmate and Game.isInStalemate answers true
      exactly when no piece of ps has a filtered move. */
  lemma NoneCanMoveIff(st: State, c: Color, ps: seq<Piece>)
    requires Consistent(st)
    requires forall q | q in ps :: q in st.recs && OnBoard(st.recs[q]) && st.recs[q].color == c
    ensures NoneCanMove(st, c, ps).0 <==> AllStuck(st, ps)
  {
    AlikeRefl(st, c);
    NoneCanMoveAlike(st, st, c, ps);
  }

  /** Both sides are down to a single piece (the lone-King rule of
      Game.isInStalemate). */
  predicate LonePieces(st: State)
  {
    |st.white| == 1 && |st.black| == 1
  }

  /** Game.isInCheck of side c answers the same in two consistent games
      alike for c. */
  lemma InCheckSame(st: State, m: State, c: Color)
    requires Consistent(st) && Consistent(m) && Alike(st, m, c)
    ensures Placed(st) && Placed(m)
    ensures InCheck(m, c) == InCheck(st, c)
  {
    hide InCheck, Consistent, Moves;
    ConsistentPlaced(st);
    ConsistentPlaced(m);
    KingStands(st, c);
    SameMembers(PiecesOf(st, OpponentColor(c)), PiecesOf(m, OpponentColor(c)));
    InCheckAlike(st, m, c);
  }

  /** Game.isInCheckmate, asked of a game alike st for side c: checkmate
      exactly when side c is in check in st and none of its pieces has a
      filtered move there; a missing King's fault is passed on. */
  lemma CheckmateAlike(st: State, m: State, c: Color)
    requires Consistent(st) && Consistent(m) && Alike(st, m, c)
    ensures Placed(st) && Placed(m) && SideListed(m, c)
    ensures IsInCheckmate(m, c).0 == Ok(true) <==> InCheck(st, c) == Ok(true) && AllStuck(st, PiecesOf(st, c))
    ensures IsInCheckmate(m, c).0 == Ok(false) <==>
              InCheck(st, c) == Ok(false) || (InCheck(st, c) == Ok(true) && !AllStuck(st, PiecesOf(st, c)))
    ensures IsInCheckmate(m, c).0.Err? <==> InCheck(st, c).Err?
  {
    hide InCheck, Consistent, Moves, NoneCanMove, AllStuck;
    ConsistentListed(st);
    ConsistentListed(m);
    InCheckSame(st, m, c);
    NoneCanMoveAlike(st, m, c, PiecesOf(m, c));
  }

  /** Game.isInCheckmate: side c is checkmated exactly when it is in check
      and none of its pieces has a filtered move. */
  lemma CheckmateIff(st: State, c: Color)
    requires Consistent(st)
    ensures Placed(st) && SideListed(st, c)
    ensures IsInCheckmate(st, c).0 == Ok(true) <==> InCheck(st, c) == Ok(true) && AllStuck(st, PiecesOf(st, c))
    ensures IsInCheckmate(st, c).0 == Ok(false) <==>
              InCheck(st, c) == Ok(false) || (InCheck(st, c) == Ok(true) && !AllStuck(st, PiecesOf(st, c)))
    ensures IsInCheckmate(st, c).0.Err? <==> InCheck(st, c).Err?
  {
    AlikeRefl(st, c);
    CheckmateAlike(st, st, c);
  }

  /** Game.isInStalemate, asked of a game alike st for side c: stalemate
      exactly when side c is not in check in st and either both sides are
      down to one piece or none of side c's pieces has a filtered move. */
  lemma StalemateAlike(st: State, m: State, c: Color)
    requires Consistent(st) && Consistent(m) && Alike(st, m, c)
    ensures Placed(st) && Placed(m) && SideListed(m, c)
    ensures IsInStalemate(m, c).0 == Ok(true) <==>
              InCheck(st, c) == Ok(false) && (LonePieces(st) || AllStuck(st, PiecesOf(st, c)))
    ensures IsInStalemate(m, c).0 == Ok(false) <==>
              InCheck(st, c) == Ok(true) ||
              (InCheck(st, c) == Ok(false) && !LonePieces(st) && !AllStuck(st, PiecesOf(st, c)))
    ensures IsInStalemate(m, c).0.Err? <==> InCheck(st, c).Err?
  {
    hide InCheck, Consistent, Moves, NoneCanMove, AllStuck;
    ConsistentListed(st);
    ConsistentListed(m);
    InCheckSame(st, m, c);
    assert |PiecesOf(m, OpponentColor(c))| == |PiecesOf(st, OpponentColor(c))| by {
      assert |multiset(PiecesOf(m, OpponentColor(c)))| == |multiset(PiecesOf(st, OpponentColor(c)))|;
    }
    assert LonePieces(m) == LonePieces(st);
    NoneCanMoveAlike(st, m, c, PiecesOf(m, c));
  }

  /** Game.isInStalemate: side c is stalemated exactly when it is not in
      check and either both sides are down to one piece or none of its
      pieces has a filtered move. */
  lemma StalemateIff(st: State, c: Color)
    requires Consistent(st)
    ensures Placed(st) && SideListed(st, c)
    ensures IsInStalemate(st, c).0 == Ok(true) <==>
              InCheck(st, c) == Ok(false) && (LonePieces(st) || AllStuck(st, PiecesOf(st, c)))
    ensures IsInStalemate(st, c).0 == Ok(false) <==>
              InCheck(st, c) == Ok(true) ||
              (InCheck(st, c) == Ok(false) && !LonePieces(st) && !AllStuck(st, PiecesOf(st, c)))
    ensures IsInStalemate(st, c).0.Err? <==> InCheck(st, c).Err?
  {
    AlikeRefl(st, c);
    StalemateAlike(st, st, c);
  }

  /** The second half of Game.startNewTurn, run on a game alike st for the
      side c to move: the opponent wins exactly when c is checkmated in st,
      the game is drawn exactly when c is stalemated there, it goes on
      otherwise, and a missing King's fault is passed on. */
  lemma ConcludeAlike(st: State, st1: State, c: Color)
    requires Consistent(st) && Consistent(st1) && Alike(st, st1, c)
    ensures Placed(st) && Placed(st1) && SideListed(st1, White) && SideListed(st1, Black)
    ensures var r, stuck := ConcludeTurn(st1, c).0, AllStuck(st, PiecesOf(st, c));
      (r == Ok(Some(Some(OpponentColor(c)))) <==> InCheck(st, c) == Ok(true) && stuck) &&
      (r == Ok(Some(None)) <==> InCheck(st, c) == Ok(false) && (LonePieces(st) || stuck)) &&
      (r == Ok(None) <==>
         (InCheck(st, c) == Ok(true) && !stuck) || (InCheck(st, c) == Ok(false) && !LonePieces(st) && !stuck)) &&
      (r.Err? <==> InCheck(st, c).Err?)
  {
    hide InCheck, Consistent, Moves, NoneCanMove, AllStuck, Restored, IsInStalemate, Frame;
    ConsistentListed(st1);
    CheckmateAlike(st, st1, c);
    var st2 := IsInCheckmate(st1, c).1;
    CheckmateRestores(st1, c);
    KeepsConsistent(st1, st2);
    RestoredAlike(st1, st2, c);
    AlikeStep(st, st, st1, st2, c);
    StalemateAlike(st, st2, c);
  }

  /** Game.startNewTurn from a consistent game: the turn passes to side c,
      the other side wins exactly when c is checkmated, the game is drawn
      exactly when c is stalemated, and otherwise it goes on. */
  lemma TurnOutcome(st: State)
    requires Consistent(st)
    ensures Placed(st) && SideListed(st, White) && SideListed(st, Black)
    ensures var c, r, stuck := NextTurn(st.turn), StartNewTurn(st).0, AllStuck(st, PiecesOf(st, NextTurn(st.turn)));
      StartNewTurn(st).1.turn == Some(c) &&
      (r == Ok(Some(Some(OpponentColor(c)))) <==> InCheck(st, c) == Ok(true) && stuck) &&
      (r == Ok(Some(None)) <==> InCheck(st, c) == Ok(false) && (LonePieces(st) || stuck)) &&
      (r == Ok(None) <==>
         (InCheck(st, c) == Ok(true) && !stuck) || (InCheck(st, c) == Ok(false) && !LonePieces(st) && !stuck)) &&
      (r.Err? <==> InCheck(st, c).Err?)
  {
    hide InCheck, Consistent, Moves, AllStuck, ConcludeTurn;
    ConsistentListed(st);
    var c := NextTurn(st.turn);
    TurnConsistent(st, Some(c));
    ConcludeAlike(st, st.(turn := Some(c)), c);
  }

  /** xs is ys with some elements left out and the rest kept in order. */
  predicate Subsequence<T(==)>(xs: seq<T>, ys: seq<T>)
    decreases |ys|
  {
    xs == [] || (ys != [] && ((xs[0] == ys[0] && Subsequence(xs[1..], ys[1..])) || Subsequence(xs, ys[1..])))
  }

  /** Unfiltered, the loop of Game.getPiecesThreatening keeps, in list
      order, exactly the pieces of ps whose moves contain `at`. */
  lemma {:induction false} ThreatsUnfiltered(st: State, at: Option<Spot>, c: Color, ps: seq<Piece>)
    requires Placed(st)
    requires forall q | q in ps :: q in st.recs && OnBoard(st.recs[q]) && st.recs[q].color == c
    ensures Subsequence(Threats(st, at, c, ps, true).0, ps)
    ensures forall q :: q in Threats(st, at, c, ps, true).0 <==>
              q in ps && at.Some? && at.value in Moves(st, q, true).0
    decreases |ps|
  {
    hide Moves, Placed, Frame;
    if ps != [] {
      assert forall x | x in ps[1..] :: x in ps;
      ThreatsUnfiltered(st, at, c, ps[1..]);
      assert forall x :: x in ps <==> x == ps[0] || x in ps[1..] by {
        assert ps == [ps[0]] + ps[1..];
      }
    }
  }

  /** Filtered, the loop of Game.getPiecesThreatening, run on a game alike
      st for side c, keeps in list order exactly the pieces of ps whose
      filtered moves in st contain `at`. */
  lemma {:induction false} ThreatsFiltered(st: State, m: State, at: Option<Spot>, c: Color, ps: seq<Piece>)
    requires Consistent(st) && Consistent(m) && Alike(st, m, c)
    requires forall q | q in ps :: q in st.recs && OnBoard(st.recs[q]) && st.recs[q].color == c
    ensures Placed(st) && Placed(m)
    ensures forall q | q in ps :: q in m.recs && OnBoard(m.recs[q]) && m.recs[q].color == c
    ensures Subsequence(Threats(m, at, c, ps, false).0, ps)
    ensures forall q :: q in Threats(m, at, c, ps, false).0 <==>
              q in ps && at.Some? && at.value in Moves(st, q, false).0
    decreases |ps|
  {
    hide Consistent, Restored, Frame, Moves, Alike, Paired, Placed;
    ConsistentPlaced(st);
    ConsistentPlaced(m);
    forall q | q in ps
      ensures q in m.recs && OnBoard(m.recs[q]) && m.recs[q].color == c
    {
      AlikePaired(st, m, c, q);
    }
    if ps != [] {
      var q := ps[0];
      AlikePaired(st, m, c, q);
      MovesSame(st, m, q);
      MovesStayAlike(st, m, c, q);
      assert forall x | x in ps[1..] :: x in ps;
      ThreatsFiltered(st, Moves(m, q, false).1, at, c, ps[1..]);
      assert forall x :: x in ps <==> x == ps[0] || x in ps[1..] by {
        assert ps == [ps[0]] + ps[1..];
      }
    }
  }

  /** Game.getPiecesThreatening: the result lists, in the order of the
      opposing side's list, exactly the opposing pieces whose moves contain
      the target's spot (none when the target has no spot). Filtered, this
      holds of a consistent game. */
  lemma ThreateningIff(st: State, target: Piece, regardless: bool)
    requires Placed(st) && target in st.recs && SideListed(st, OpponentColor(st.recs[target].color))
    requires !regardless ==> Consistent(st)
    ensures var c := OpponentColor(st.recs[target].color);
      forall q | q in PiecesOf(st, c) :: q in st.recs && OnBoard(st.recs[q])
    ensures var c, r := OpponentColor(st.recs[target].color), PiecesThreatening(st, target, regardless).0;
      Subsequence(r, PiecesOf(st, c)) &&
      forall q :: q in r <==>
        q in PiecesOf(st, c) && st.recs[target].spot.Some? && st.recs[target].spot.value in Moves(st, q, regardless).0
  {
    hide Moves, Threats;
    var c := OpponentColor(st.recs[target].color);
    if regardless {
      ThreatsUnfiltered(st, st.recs[target].spot, c, PiecesOf(st, c));
    } else {
      AlikeRefl(st, c);
      ThreatsFiltered(st, st, st.recs[target].spot, c, PiecesOf(st, c));
    }
  }

  /** Filtered, the sliding scans over several directions, run on a game
      paired with st, return exactly the spots of the single rays asked of
      st itself. */
  lemma {:induction false} RaysUnionFiltered(st: State, m: State, p: Piece, dirs: seq<Vec>, t: Spot)
    requires Paired(st, m, p) && forall d | d in dirs :: Unit(d)
    ensures Placed(st) && p in st.recs && OnBoard(st.recs[p]) && Placed(m) && p in m.recs && OnBoard(m.recs[p])
    ensures t in Rays(m, p, dirs, false).0 <==> exists d | d in dirs :: t in Ray(st, p, d, 1, false).0
    decreases |dirs|
  {
    hide Consistent, Restored, Frame, MoveWouldPutKingInCheck, Paired, Placed, Alike, Ray;
    PairedFacts(st, m, p);
    if dirs != [] {
      var c := st.recs[p].color;
      RaySame(st, m, p, dirs[0], 1);
      var m1 := Ray(m, p, dirs[0], 1, false).1;
      RayRestores(m, p, dirs[0], 1, false);
      KeepsConsistent(m, m1);
      RestoredAlike(m, m1, c);
      AlikeRefl(st, c);
      AlikeStep(st, st, m, m1, c);
      AlikePaired(st, m1, c, p);
      RaysUnionFiltered(st, m1, p, dirs[1..], t);
      assert forall d | d in dirs :: d == dirs[0] || d in dirs[1..];
      assert dirs[0] in dirs;
    }
  }

  /** Queen.getPossibleMoves (and FlipFlopper.getPossibleMoves), filtered:
      in a consistent game a spot is among the piece's moves exactly when
      the filtered scans along the Rook directions or along the Bishop
      directions from its spot give it. */
  lemma QueenUnionFiltered(st: State, p: Piece, t: Spot)
    requires Placed(st) && Consistent(st) && p in st.recs && OnBoard(st.recs[p])
    requires st.recs[p].kind == Queen || st.recs[p].kind == FlipFlopper
    ensures t in Moves(st, p, false).0 <==> t in RookRays(st, p, false) || t in BishopRays(st, p, false)
  {
    hide Consistent, Restored, Frame, MoveWouldPutKingInCheck, Paired, Placed, Alike, Ray, Rays;
    AlikeRefl(st, st.recs[p].color);
    AlikePaired(st, st, st.recs[p].color, p);
    RaysUnionFiltered(st, st, p, EightDirections, t);
    RaysUnionFiltered(st, st, p, RookDirections, t);
    RaysUnionFiltered(st, st, p, BishopDirections, t);
    assert forall d :: d in EightDirections <==> d in RookDirections || d in BishopDirections;
  }
}
