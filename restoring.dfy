/** The probe of Game.resultIfPieceMovedToSpot puts the game back as it found
    it, up to the order of one piece list and the moved flag of a Pawn; so
    every move query started between two public operations ends in a
    consistent game with the same occupants. */
module Restoring {
  import opened Wrappers
  import opened Chess
  import opened Boards
  import opened Pieces
  import opened Rules

  /** What a query started from a consistent game leaves behind: the same
      occupants, the same turn, the same pieces with the same fields except
      that a Pawn may now be marked as moved, and the same piece lists up to
      order. */
  predicate Restored(st: State, st': State)
  {
    st'.occ == st.occ && st'.turn == st.turn && st'.recs.Keys == st.recs.Keys &&
    (forall q | q in st.recs :: Unmoved(st.recs[q], st'.recs[q])) &&
    multiset(st'.white) == multiset(st.white) && multiset(st'.black) == multiset(st.black)
  }

  /** Restoring keeps the length of each side's list. */
  lemma RestoredLists(st: State, st': State)
    requires Restored(st, st')
    ensures |st'.white| == |st.white| && |st'.black| == |st.black|
  {
    assert |multiset(st'.white)| == |multiset(st.white)|;
    assert |multiset(st'.black)| == |multiset(st.black)|;
  }

  lemma RestoredRefl(st: State)
    ensures Restored(st, st)
  {
  }

  lemma RestoredTransitive(st: State, st': State, st'': State)
    requires Restored(st, st') && Restored(st', st'')
    ensures Restored(st, st'')
  {
  }

  /** A consistent game is well formed. */
  lemma ConsistentPlaced(st: State)
    requires Consistent(st)
    ensures Placed(st)
  {
  }

  /** Restoring keeps a game consistent, and keeps a piece on its spot. */
  lemma RestoredConsistent(st: State, st': State, p: Piece)
    requires Consistent(st) && Restored(st, st') && p in st.recs && OnBoard(st.recs[p])
    ensures Consistent(st') && Placed(st') && StillPlaced(st, st', p)
  {
    KeepsConsistent(st, st');
  }

  /** Restoring keeps a game consistent. */
  lemma KeepsConsistent(st: State, st': State)
    requires Consistent(st) && Restored(st, st')
    ensures Consistent(st')
  {
    KeepsBoard(st, st');
    KeepsLists(st, st');
  }

  /** The board half of KeepsConsistent. */
  lemma KeepsBoard(st: State, st': State)
    requires Consistent(st) && Restored(st, st')
    ensures Placed(st') && SpotIffInPlay(st') && OccupantsAgree(st') && InPlayOccupy(st')
  {
    hide InPlayListed, ListedInPlay, NoDuplicates;
    SameMembers(st.white, st'.white);
    SameMembers(st.black, st'.black);
    assert Placed(st');
    assert forall q | q in st'.recs :: st'.recs[q].inPlay == st'.recs[q].spot.Some?;
    assert forall s | s in st'.occ :: st'.recs[st'.occ[s]].spot == Some(s) && st'.recs[st'.occ[s]].inPlay;
    assert forall q | q in st'.recs && st'.recs[q].inPlay ::
             OnBoard(st'.recs[q]) && Occupant(st', st'.recs[q].spot.value) == Some(q);
  }

  /** The list half of KeepsConsistent. */
  lemma KeepsLists(st: State, st': State)
    requires Consistent(st) && Restored(st, st')
    ensures InPlayListed(st') && ListedInPlay(st') && NoDuplicates(st'.white) && NoDuplicates(st'.black)
  {
    hide Placed, SpotIffInPlay, OccupantsAgree, InPlayOccupy;
    SameMembers(st.white, st'.white);
    SameMembers(st.black, st'.black);
    assert forall q | q in st'.recs && st'.recs[q].inPlay :: q in PiecesOf(st', st'.recs[q].color);
  }

  /** Lists with the same multiset have the same members, and one without
      duplicates has a permutation without duplicates. */
  lemma SameMembers(xs: seq<Piece>, ys: seq<Piece>)
    requires multiset(xs) == multiset(ys)
    ensures forall q :: q in xs <==> q in ys
    ensures NoDuplicates(xs) ==> NoDuplicates(ys)
  {
    assert forall q :: q in xs <==> q in multiset(xs);
    assert forall q :: q in ys <==> q in multiset(ys);
  }

  /** Two maps that agree on every lookup are equal. */
  lemma LookupEqual<P>(m: map<Spot, P>, m': map<Spot, P>)
    requires forall t :: Lookup(m, t) == Lookup(m', t)
    ensures m == m'
  {
    assert forall t | t in m :: Lookup(m, t).Some?;
    assert forall t | t in m' :: Lookup(m', t).Some?;
  }

  /** The occupants after the probe's four board updates: p leaves home for s
      and comes back, and the old occupant of s is set back. */
  lemma ProbeBoard(occ: map<Spot, Piece>, p: Piece, home: Spot, s: Spot)
    requires ValidSpot(home) && ValidSpot(s) && home != s && Lookup(occ, home) == Some(p)
    ensures Place(Place(Place(Place(occ, home, None), s, Some(p)), s, None), home, Some(p)) ==
            Place(occ, s, None)
    ensures Lookup(occ, s).Some? ==>
              Place(Place(Place(Place(Place(occ, home, None), s, Some(p)), s, None), home, Some(p)), s, Lookup(occ, s)) == occ
  {
    var m1 := Place(Place(Place(Place(occ, home, None), s, Some(p)), s, None), home, Some(p));
    LookupEqual(m1, Place(occ, s, None));
    if Lookup(occ, s).Some? {
      LookupEqual(Place(m1, s, Lookup(occ, s)), occ);
    }
  }

  /** Game.resultIfPieceMovedToSpot, started from a consistent game for a
      piece in play and another stored spot, restores the occupants of both
      spots, the mover's spot and fields (except the Pawn's moved flag), and
      the displaced occupant's list membership. */
  lemma ProbeRestores(st: State, p: Piece, s: Spot)
    requires Consistent(st) && p in st.recs && OnBoard(st.recs[p]) && ValidSpot(s) && s != Origin(st, p)
    ensures Restored(st, MoveWouldPutKingInCheck(st, p, s).1)
  {
    hide InCheck, MoveWouldPutKingInCheck, Restored, Consistent;
    if Occupied(st, s) {
      ProbeRestoresTaken(st, p, s);
    } else {
      ProbeRestoresEmpty(st, p, s);
    }
  }

  /** The probe onto an empty spot: p goes there and comes back. */
  lemma ProbeRestoresEmpty(st: State, p: Piece, s: Spot)
    requires Consistent(st) && p in st.recs && OnBoard(st.recs[p]) && ValidSpot(s) && s != Origin(st, p)
    requires !Occupied(st, s)
    ensures Restored(st, MoveWouldPutKingInCheck(st, p, s).1)
  {
    hide InCheck, Frame, Placed;
    var home := Origin(st, p);
    var moved := ProbeMove(st, p, s);
    var st3 := MoveBack(st, moved, p, s);
    var st' := MoveWouldPutKingInCheck(st, p, s).1;
    assert st' == st3;
    assert Lookup(st.occ, home) == Some(p);
    assert moved == PieceMoveTo(st, p, s);
    assert moved.occ == Place(Place(st.occ, home, None), s, Some(p));
    assert st3 == PieceMoveTo(moved, p, home);
    ProbeBoard(st.occ, p, home, s);
    MarkUnmoved(st.recs, p, st3.recs);
    assert st'.occ == Place(st.occ, s, None);
    LookupEqual(st'.occ, st.occ);
  }

  /** The probe onto a spot held by q: q leaves its list, p goes there and
      comes back, and q is re-appended to its list and set back on the spot. */
  lemma ProbeRestoresTaken(st: State, p: Piece, s: Spot)
    requires Consistent(st) && p in st.recs && OnBoard(st.recs[p]) && ValidSpot(s) && s != Origin(st, p)
    requires Occupied(st, s)
    ensures Restored(st, MoveWouldPutKingInCheck(st, p, s).1)
  {
    TakenFacts(st, p, s);
    hide InCheck, Frame, Placed, MoveWouldPutKingInCheck, MoveBack, ProbeMove, Consistent, Restored, Reinstate;
    ProbeTakenStages(st, p, s);
    ReinstateRestores(st, p, st.occ[s], s, MoveBack(st, ProbeMove(st, p, s), p, s));
  }

  /** What a consistent game says about the two pieces of a probe onto a
      spot held by q. */
  lemma TakenFacts(st: State, p: Piece, s: Spot)
    requires Consistent(st) && p in st.recs && OnBoard(st.recs[p]) && ValidSpot(s) && s != Origin(st, p)
    requires Occupied(st, s)
    ensures var q := st.occ[s];
            q in st.recs && st.recs[q].spot == Some(s) && q != p && q in PiecesOf(st, st.recs[q].color) &&
            ValidSpot(Origin(st, p)) && Lookup(st.occ, Origin(st, p)) == Some(p)
  {
  }

  /** Putting p back home and q back on s, re-appended to its list, restores
      the game up to the order of q's list. */
  lemma ReinstateRestores(st: State, p: Piece, q: Piece, s: Spot, st3: State)
    requires p in st.recs && st.recs[p].spot.Some? && ValidSpot(Origin(st, p)) && ValidSpot(s) && s != Origin(st, p)
    requires Lookup(st.occ, Origin(st, p)) == Some(p)
    requires Lookup(st.occ, s) == Some(q)
    requires q in st.recs && q != p && q in PiecesOf(st, st.recs[q].color)
    requires st3.recs == st.recs[p := st.recs[p].(hasMoved := st.recs[p].hasMoved || st.recs[p].kind == Pawn)]
    requires st3.occ == Place(Place(Place(Place(st.occ, Origin(st, p), None), s, Some(p)), s, None), Origin(st, p), Some(p))
    requires st3.white == Displace(st, q).white && st3.black == Displace(st, q).black && st3.turn == st.turn
    ensures Restored(st, Reinstate(st3, q, s))
  {
    var st' := Reinstate(st3, q, s);
    var home := Origin(st, p);
    ProbeBoard(st.occ, p, home, s);
    MarkUnmoved(st.recs, p, st3.recs);
    var c := st.recs[q].color;
    assert PiecesOf(st', c) == RemoveFirst(PiecesOf(st, c), q) + [q];
    assert PiecesOf(st', OpponentColor(c)) == PiecesOf(st, OpponentColor(c));
    assert multiset(PiecesOf(st', c)) == multiset(PiecesOf(st, c));
    assert st'.occ == st.occ;
  }

  /** The stages of the probe onto a spot held by q, as ProbeRestoresTaken
      uses them. */
  lemma ProbeTakenStages(st: State, p: Piece, s: Spot)
    requires Consistent(st) && p in st.recs && OnBoard(st.recs[p]) && ValidSpot(s) && s != Origin(st, p)
    requires Occupied(st, s)
    ensures var q := st.occ[s];
            var st3 := MoveBack(st, ProbeMove(st, p, s), p, s);
            q in st.recs && st3.recs == st.recs[p := st.recs[p].(hasMoved := st.recs[p].hasMoved || st.recs[p].kind == Pawn)] &&
            st3.occ == Place(Place(Place(Place(st.occ, Origin(st, p), None), s, Some(p)), s, None), Origin(st, p), Some(p)) &&
            st3.white == Displace(st, q).white && st3.black == Displace(st, q).black && st3.turn == st.turn &&
            MoveWouldPutKingInCheck(st, p, s).1 == Reinstate(st3, q, s)
  {
    hide InCheck, Frame;
    var home := Origin(st, p);
    var moved := ProbeMove(st, p, s);
    var q := st.occ[s];
    var st1 := Displace(st, q);
    assert moved == PieceMoveTo(st1, p, s);
    assert st1.occ == st.occ;
    assert Lookup(st.occ, home) == Some(p);
    assert moved.occ == Place(Place(st.occ, home, None), s, Some(p));
  }

  /** Marking a Pawn as moved leaves every piece Unmoved. */
  lemma MarkUnmoved(recs: map<Piece, PieceRec>, p: Piece, recs': map<Piece, PieceRec>)
    requires p in recs && recs' == recs[p := recs[p].(hasMoved := recs[p].hasMoved || recs[p].kind == Pawn)]
    ensures recs'.Keys == recs.Keys && forall q | q in recs :: Unmoved(recs[q], recs'[q])
  {
  }

  /** Game.isAvailableSpotForPiece restores a consistent game: it runs the
      probe only for a stored spot not held by the piece's own side, which is
      never the piece's own spot. */
  lemma AvailableRestores(st: State, p: Piece, s: Spot, regardless: bool)
    requires Consistent(st) && p in st.recs && OnBoard(st.recs[p])
    ensures Restored(st, IsAvailable(st, p, s, regardless).1)
  {
    hide MoveWouldPutKingInCheck, Restored, Frame;
    if ValidSpot(s) && !(Occupied(st, s) && st.recs[st.occ[s]].color == st.recs[p].color) && !regardless {
      assert Occupant(st, Origin(st, p)) == Some(p);
      ProbeRestores(st, p, s);
    } else {
      RestoredRefl(st);
    }
  }

  lemma {:induction false} RayRestores(st: State, p: Piece, d: Vec, dist: int, regardless: bool)
    requires Consistent(st) && p in st.recs && OnBoard(st.recs[p]) && Unit(d) && 1 <= dist
    ensures Restored(st, Ray(st, p, d, dist, regardless).1)
    decreases 8 - dist, 1
  {
    hide Consistent, Restored, Frame, Placed, IsAvailable, RayFrom;
    ConsistentPlaced(st);
    var (ok, st1) := IsAvailable(st, p, Target(Origin(st, p), d, dist), regardless);
    AvailableRestores(st, p, Target(Origin(st, p), d, dist), regardless);
    RestoredConsistent(st, st1, p);
    RayFromRestores(st1, p, d, dist, ok, regardless);
    RestoredTransitive(st, st1, RayFrom(st1, p, d, dist, ok, regardless).1);
  }

  lemma {:induction false} RayFromRestores(st: State, p: Piece, d: Vec, dist: int, ok: bool, regardless: bool)
    requires Consistent(st) && p in st.recs && OnBoard(st.recs[p]) && Unit(d) && 1 <= dist
    requires ok ==> ValidSpot(Target(Origin(st, p), d, dist))
    ensures Restored(st, RayFrom(st, p, d, dist, ok, regardless).1)
    decreases 8 - dist, 0
  {
    hide Consistent, Restored, Frame, Placed, Ray;
    ConsistentPlaced(st);
    RestoredRefl(st);
    var t := Target(Origin(st, p), d, dist);
    if ok && !(st.recs[p].kind == FlipFlopper && st.recs[p].moveParity == 1) && !Occupied(st, t) {
      RayBound(Origin(st, p), d, dist);
      RayRestores(st, p, d, dist + 1, regardless);
    }
  }

  lemma {:induction false} RaysRestore(st: State, p: Piece, dirs: seq<Vec>, regardless: bool)
    requires Consistent(st) && p in st.recs && OnBoard(st.recs[p]) && forall d | d in dirs :: Unit(d)
    ensures Restored(st, Rays(st, p, dirs, regardless).1)
    decreases |dirs|
  {
    hide Consistent, Restored, Frame, Placed, Ray;
    ConsistentPlaced(st);
    if dirs == [] {
      RestoredRefl(st);
    } else {
      var (ray, st1) := Ray(st, p, dirs[0], 1, regardless);
      RayRestores(st, p, dirs[0], 1, regardless);
      RestoredConsistent(st, st1, p);
      RaysRestore(st1, p, dirs[1..], regardless);
      RestoredTransitive(st, st1, Rays(st1, p, dirs[1..], regardless).1);
    }
  }

  lemma {:induction false} StepsRestore(st: State, p: Piece, offsets: seq<Vec>, regardless: bool)
    requires Consistent(st) && p in st.recs && OnBoard(st.recs[p])
    ensures Restored(st, Steps(st, p, offsets, regardless).1)
    decreases |offsets|
  {
    hide Consistent, Restored, Frame, Placed, IsAvailable;
    ConsistentPlaced(st);
    if offsets == [] {
      RestoredRefl(st);
    } else {
      var t := Offset(Origin(st, p), offsets[0].dr, offsets[0].dc);
      var (ok, st1) := IsAvailable(st, p, t, regardless);
      AvailableRestores(st, p, t, regardless);
      RestoredConsistent(st, st1, p);
      StepsRestore(st1, p, offsets[1..], regardless);
      RestoredTransitive(st, st1, Steps(st1, p, offsets[1..], regardless).1);
    }
  }

  lemma {:induction false} MegaRayRestores(st: State, p: Piece, d: Vec, dist: int, regardless: bool)
    requires Consistent(st) && p in st.recs && OnBoard(st.recs[p]) && Unit(d) && 1 <= dist
    ensures Restored(st, MegaRay(st, p, d, dist, regardless).1)
    decreases 8 - dist
  {
    hide Consistent, Restored, Frame, Placed, IsAvailable;
    ConsistentPlaced(st);
    var t := Target(Origin(st, p), d, dist);
    if !ValidSpot(t) {
      RestoredRefl(st);
    } else {
      RayBound(Origin(st, p), d, dist);
      var (ok, st1) := IsAvailable(st, p, t, regardless);
      AvailableRestores(st, p, t, regardless);
      RestoredConsistent(st, st1, p);
      MegaRayRestores(st1, p, d, dist + 1, regardless);
      RestoredTransitive(st, st1, MegaRay(st1, p, d, dist + 1, regardless).1);
    }
  }

  lemma {:induction false} MegaRaysRestore(st: State, p: Piece, dirs: seq<Vec>, regardless: bool)
    requires Consistent(st) && p in st.recs && OnBoard(st.recs[p]) && forall d | d in dirs :: Unit(d)
    ensures Restored(st, MegaRays(st, p, dirs, regardless).1)
    decreases |dirs|
  {
    hide Consistent, Restored, Frame, Placed, MegaRay;
    ConsistentPlaced(st);
    if dirs == [] {
      RestoredRefl(st);
    } else {
      var (ray, st1) := MegaRay(st, p, dirs[0], 1, regardless);
      MegaRayRestores(st, p, dirs[0], 1, regardless);
      RestoredConsistent(st, st1, p);
      MegaRaysRestore(st1, p, dirs[1..], regardless);
      RestoredTransitive(st, st1, MegaRays(st1, p, dirs[1..], regardless).1);
    }
  }

  lemma {:induction false} PawnAttacksRestore(st: State, p: Piece, hs: seq<int>, regardless: bool)
    requires Consistent(st) && p in st.recs && OnBoard(st.recs[p])
    ensures Restored(st, PawnAttacks(st, p, hs, regardless).1)
    decreases |hs|
  {
    hide Consistent, Restored, Frame, Placed, IsAvailable;
    ConsistentPlaced(st);
    if hs == [] {
      RestoredRefl(st);
    } else {
      var t := Offset(Origin(st, p), Forward(st.recs[p].color), hs[0]);
      var (ok, st1) := IsAvailable(st, p, t, regardless);
      AvailableRestores(st, p, t, regardless);
      RestoredConsistent(st, st1, p);
      PawnAttacksRestore(st1, p, hs[1..], regardless);
      RestoredTransitive(st, st1, PawnAttacks(st1, p, hs[1..], regardless).1);
    }
  }

  lemma PawnAdvanceRestores(st: State, p: Piece, regardless: bool)
    requires Consistent(st) && p in st.recs && OnBoard(st.recs[p])
    ensures Restored(st, PawnAdvance(st, p, regardless).1)
  {
    hide Consistent, Restored, Frame, Placed, IsAvailable;
    ConsistentPlaced(st);
    var forward := Forward(st.recs[p].color);
    var one := Offset(Origin(st, p), forward, 0);
    var (ok1, st1) := IsAvailable(st, p, one, regardless);
    AvailableRestores(st, p, one, regardless);
    RestoredConsistent(st, st1, p);
    if ok1 && !Occupied(st1, one) && !st1.recs[p].hasMoved {
      var two := Offset(Origin(st1, p), 2 * forward, 0);
      AvailableRestores(st1, p, two, regardless);
      RestoredTransitive(st, st1, IsAvailable(st1, p, two, regardless).1);
    }
  }

  lemma PawnMovesRestore(st: State, p: Piece, regardless: bool)
    requires Consistent(st) && p in st.recs && OnBoard(st.recs[p])
    ensures Restored(st, PawnMoves(st, p, regardless).1)
  {
    hide Consistent, Restored, Frame, Placed, PawnAdvance, PawnAttacks;
    ConsistentPlaced(st);
    var (straight, st1) := PawnAdvance(st, p, regardless);
    PawnAdvanceRestores(st, p, regardless);
    RestoredConsistent(st, st1, p);
    PawnAttacksRestore(st1, p, [1, -1], regardless);
    RestoredTransitive(st, st1, PawnAttacks(st1, p, [1, -1], regardless).1);
  }

  /** Every move query of a piece on the board of a consistent game restores
      the game. */
  lemma MovesRestore(st: State, p: Piece, regardless: bool)
    requires Consistent(st) && p in st.recs && OnBoard(st.recs[p])
    ensures Restored(st, Moves(st, p, regardless).1)
  {
    hide Consistent, Restored, Frame, Placed, PawnMoves, Rays, Steps, MegaRays;
    match st.recs[p].kind
    case Pawn => PawnMovesRestore(st, p, regardless);
    case Rook => RaysRestore(st, p, RookDirections, regardless);
    case Bishop => RaysRestore(st, p, BishopDirections, regardless);
    case Queen => RaysRestore(st, p, EightDirections, regardless);
    case King => StepsRestore(st, p, EightDirections, regardless);
    case Knight => StepsRestore(st, p, KnightOffsets, regardless);
    case MegaRook => MegaRaysRestore(st, p, RookDirections, regardless);
    case FlipFlopper => RaysRestore(st, p, EightDirections, regardless);
  }
}
