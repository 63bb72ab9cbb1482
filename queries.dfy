/** What the move queries of chess/Game.java and chess/Piece.java answer:
    Game.isInCheck as a statement about the opponent's unfiltered moves, the
    Queen as the Rook and the Bishop together, the filtered moves of
    Piece.getPossibleMoves as a selection of the unfiltered ones, and the
    moves of a lone King in the corner. */
module Queries {
  import opened Wrappers
  import opened Chess
  import opened Boards
  import opened Pieces
  import opened Rules
  import opened Restoring
  import opened Shapes
  import opened Scans
  import opened GameRules
  import opened GameInvariant

  /** The loops of Game.isInCheck: with a King the answer is never a fault,
      and it is true exactly when one of the pieces scanned reaches the King's
      spot, ignoring the check rule; with no King the answer is the fault
      exactly when one of them has any move at all, and false otherwise. */
  lemma {:induction false} ThreatenedIff(st: State, king: Option<Piece>, opps: seq<Piece>)
    requires Placed(st)
    requires forall q | q in opps :: q in st.recs && OnBoard(st.recs[q])
    requires king.Some? ==> king.value in st.recs && OnBoard(st.recs[king.value])
    ensures king.Some? ==>
      Threatened(st, king, opps) == Ok(exists q | q in opps :: Origin(st, king.value) in Moves(st, q, true).0)
    ensures king.None? ==>
      Threatened(st, king, opps) ==
        if exists q | q in opps :: Moves(st, q, true).0 != [] then Err(MissingKing) else Ok(false)
    decreases |opps|
  {
    hide Moves, Placed;
    if opps != [] {
      ThreatenedIff(st, king, opps[1..]);
      assert forall q | q in opps :: q == opps[0] || q in opps[1..];
      assert opps[0] in opps;
    }
  }

  /** Game.isInCheck: side c is in check exactly when its King stands on a
      spot that some opponent piece reaches with its unfiltered moves; a side
      without a King faults exactly when some opponent piece can move. */
  lemma InCheckIff(st: State, c: Color)
    requires Placed(st)
    ensures var king, opps := GetKing(st, c), PiecesOf(st, OpponentColor(c));
      (king.Some? ==>
         InCheck(st, c) == Ok(exists q | q in opps :: Origin(st, king.value) in Moves(st, q, true).0)) &&
      (king.None? ==>
         InCheck(st, c) == if exists q | q in opps :: Moves(st, q, true).0 != [] then Err(MissingKing) else Ok(false))
  {
    hide Moves, Placed, Threatened;
    ThreatStart(st, c);
    ThreatenedIff(st, GetKing(st, c), PiecesOf(st, OpponentColor(c)));
  }

  /** Unfiltered, the sliding scans over several directions return exactly
      the spots of the single rays. */
  lemma {:induction false} RaysUnion(st: State, p: Piece, dirs: seq<Vec>, t: Spot)
    requires Placed(st) && p in st.recs && OnBoard(st.recs[p]) && forall d | d in dirs :: Unit(d)
    ensures t in Rays(st, p, dirs, true).0 <==> exists d | d in dirs :: t in Ray(st, p, d, 1, true).0
    decreases |dirs|
  {
    hide Ray, Placed, Frame;
    if dirs != [] {
      RaysUnion(st, p, dirs[1..], t);
      assert forall d | d in dirs :: d == dirs[0] || d in dirs[1..];
      assert dirs[0] in dirs;
    }
  }

  /** The spots along the Rook directions from p's spot. */
  function RookRays(st: State, p: Piece, regardless: bool): seq<Spot>
    requires Placed(st) && p in st.recs && OnBoard(st.recs[p])
  {
    Rays(st, p, RookDirections, regardless).0
  }

  /** The spots along the Bishop directions from p's spot. */
  function BishopRays(st: State, p: Piece, regardless: bool): seq<Spot>
    requires Placed(st) && p in st.recs && OnBoard(st.recs[p])
  {
    Rays(st, p, BishopDirections, regardless).0
  }

  /** Queen.getPossibleMoves (and FlipFlopper.getPossibleMoves), unfiltered:
      a spot is among the piece's moves exactly when it is among the moves
      the Rook directions or the Bishop directions give from its spot. */
  lemma QueenUnion(st: State, p: Piece, t: Spot)
    requires Placed(st) && p in st.recs && OnBoard(st.recs[p])
    requires st.recs[p].kind == Queen || st.recs[p].kind == FlipFlopper
    ensures t in Moves(st, p, true).0 <==>
              t in RookRays(st, p, true) || t in BishopRays(st, p, true)
  {
    hide Ray, Rays, Placed, Frame;
    RaysUnion(st, p, EightDirections, t);
    RaysUnion(st, p, RookDirections, t);
    RaysUnion(st, p, BishopDirections, t);
    assert forall d :: d in EightDirections <==> d in RookDirections || d in BishopDirections;
  }

  /** State a is state b after some probes: the same occupants and pieces,
      with the same fields except that a Pawn may have been marked as moved. */
  predicate Behind(b: State, a: State)
  {
    a.occ == b.occ && a.recs.Keys == b.recs.Keys &&
    forall q | q in b.recs :: Unmoved(b.recs[q], a.recs[q])
  }

  /** Restoring keeps a state behind the one the scan started from. */
  lemma BehindRestored(b: State, a: State, a1: State)
    requires Behind(b, a) && Restored(a, a1)
    ensures Behind(b, a1)
  {
  }

  /** One probe of Game.isAvailableSpotForPiece during a filtered scan: it
      restores the game, and a spot it accepts is one the unfiltered test on
      the starting state accepts. */
  lemma ProbeWithin(a: State, b: State, p: Piece, s: Spot)
    requires Consistent(a) && Placed(b) && Behind(b, a)
    requires p in a.recs && OnBoard(a.recs[p]) && p in b.recs && OnBoard(b.recs[p])
    ensures var (ok, a1) := IsAvailable(a, p, s, false);
      Consistent(a1) && StillPlaced(a, a1, p) && Behind(b, a1) &&
      (ok ==> IsAvailable(b, p, s, true).0)
  {
    hide Consistent, Restored, Frame, MoveWouldPutKingInCheck;
    ConsistentPlaced(a);
    var (ok, a1) := IsAvailable(a, p, s, false);
    AvailableRestores(a, p, s, false);
    RestoredConsistent(a, a1, p);
    BehindRestored(b, a, a1);
  }

  /** A piece of a probed state stands where it stood, as the same kind,
      colour and parity, and is marked as moved if it was. */
  lemma BehindPiece(b: State, a: State, p: Piece)
    requires Behind(b, a) && p in b.recs
    ensures a.occ == b.occ && p in a.recs
    ensures a.recs[p].spot == b.recs[p].spot && a.recs[p].kind == b.recs[p].kind
    ensures a.recs[p].color == b.recs[p].color && a.recs[p].moveParity == b.recs[p].moveParity
    ensures b.recs[p].hasMoved ==> a.recs[p].hasMoved
  {
  }

  /** The sliding `while` loop (Rook, Bishop, Queen, FlipFlopper): filtered
      from a probed state, it keeps only spots the unfiltered loop keeps
      from the starting state. */
  lemma {:induction false} RayWithin(a: State, b: State, p: Piece, d: Vec, dist: int)
    requires Consistent(a) && Placed(b) && Behind(b, a)
    requires p in a.recs && OnBoard(a.recs[p]) && p in b.recs && OnBoard(b.recs[p]) && Unit(d) && 1 <= dist
    ensures forall t | t in Ray(a, p, d, dist, false).0 :: t in Ray(b, p, d, dist, true).0
    decreases 8 - dist, 1
  {
    hide Consistent, Restored, Frame, Placed, IsAvailable, RayFrom, Behind;
    ConsistentPlaced(a);
    BehindPiece(b, a, p);
    var t := Target(Origin(a, p), d, dist);
    var (ok, a1) := IsAvailable(a, p, t, false);
    ProbeWithin(a, b, p, t);
    RayFromWithin(a1, b, p, d, dist, ok, IsAvailable(b, p, t, true).0);
  }

  lemma {:induction false} RayFromWithin(a: State, b: State, p: Piece, d: Vec, dist: int, okA: bool, okB: bool)
    requires Consistent(a) && Placed(b) && Behind(b, a)
    requires p in a.recs && OnBoard(a.recs[p]) && p in b.recs && OnBoard(b.recs[p]) && Unit(d) && 1 <= dist
    requires okA ==> ValidSpot(Target(Origin(a, p), d, dist))
    requires okB ==> ValidSpot(Target(Origin(b, p), d, dist))
    requires okA ==> okB
    ensures forall t | t in RayFrom(a, p, d, dist, okA, false).0 :: t in RayFrom(b, p, d, dist, okB, true).0
    decreases 8 - dist, 0
  {
    hide Consistent, Restored, Frame, Placed, Ray, Behind;
    ConsistentPlaced(a);
    BehindPiece(b, a, p);
    var t := Target(Origin(a, p), d, dist);
    if okA && !(a.recs[p].kind == FlipFlopper && a.recs[p].moveParity == 1) && !Occupied(a, t) {
      RayBound(Origin(a, p), d, dist);
      RayWithin(a, b, p, d, dist + 1);
    }
  }

  /** The direction loop of the sliding pieces, filtered from a probed state. */
  lemma {:induction false} RaysWithin(a: State, b: State, p: Piece, dirs: seq<Vec>)
    requires Consistent(a) && Placed(b) && Behind(b, a)
    requires p in a.recs && OnBoard(a.recs[p]) && p in b.recs && OnBoard(b.recs[p]) && forall d | d in dirs :: Unit(d)
    ensures forall t | t in Rays(a, p, dirs, false).0 :: t in Rays(b, p, dirs, true).0
    decreases |dirs|
  {
    hide Consistent, Restored, Frame, Placed, Ray, Behind;
    ConsistentPlaced(a);
    if dirs != [] {
      var (ray, a1) := Ray(a, p, dirs[0], 1, false);
      RayWithin(a, b, p, dirs[0], 1);
      RayRestores(a, p, dirs[0], 1, false);
      RestoredConsistent(a, a1, p);
      BehindRestored(b, a, a1);
      RaysWithin(a1, b, p, dirs[1..]);
    }
  }

  /** The MegaRook's `while` loop, filtered from a probed state. */
  lemma {:induction false} MegaRayWithin(a: State, b: State, p: Piece, d: Vec, dist: int)
    requires Consistent(a) && Placed(b) && Behind(b, a)
    requires p in a.recs && OnBoard(a.recs[p]) && p in b.recs && OnBoard(b.recs[p]) && Unit(d) && 1 <= dist
    ensures forall t | t in MegaRay(a, p, d, dist, false).0 :: t in MegaRay(b, p, d, dist, true).0
    decreases 8 - dist
  {
    hide Consistent, Restored, Frame, Placed, IsAvailable, Behind;
    ConsistentPlaced(a);
    BehindPiece(b, a, p);
    var t := Target(Origin(a, p), d, dist);
    if ValidSpot(t) {
      RayBound(Origin(a, p), d, dist);
      var (ok, a1) := IsAvailable(a, p, t, false);
      ProbeWithin(a, b, p, t);
      MegaRayWithin(a1, b, p, d, dist + 1);
    }
  }

  /** The direction loop of the MegaRook, filtered from a probed state. */
  lemma {:induction false} MegaRaysWithin(a: State, b: State, p: Piece, dirs: seq<Vec>)
    requires Consistent(a) && Placed(b) && Behind(b, a)
    requires p in a.recs && OnBoard(a.recs[p]) && p in b.recs && OnBoard(b.recs[p]) && forall d | d in dirs :: Unit(d)
    ensures forall t | t in MegaRays(a, p, dirs, false).0 :: t in MegaRays(b, p, dirs, true).0
    decreases |dirs|
  {
    hide Consistent, Restored, Frame, Placed, MegaRay, Behind;
    ConsistentPlaced(a);
    if dirs != [] {
      var (ray, a1) := MegaRay(a, p, dirs[0], 1, false);
      MegaRayWithin(a, b, p, dirs[0], 1);
      MegaRayRestores(a, p, dirs[0], 1, false);
      RestoredConsistent(a, a1, p);
      BehindRestored(b, a, a1);
      MegaRaysWithin(a1, b, p, dirs[1..]);
    }
  }

  /** The offset loops of King and Knight, filtered from a probed state. */
  lemma {:induction false} StepsWithin(a: State, b: State, p: Piece, offsets: seq<Vec>)
    requires Consistent(a) && Placed(b) && Behind(b, a)
    requires p in a.recs && OnBoard(a.recs[p]) && p in b.recs && OnBoard(b.recs[p])
    ensures forall t | t in Steps(a, p, offsets, false).0 :: t in Steps(b, p, offsets, true).0
    decreases |offsets|
  {
    hide Consistent, Restored, Frame, Placed, IsAvailable, Behind;
    ConsistentPlaced(a);
    BehindPiece(b, a, p);
    if offsets != [] {
      var t := Offset(Origin(a, p), offsets[0].dr, offsets[0].dc);
      var (ok, a1) := IsAvailable(a, p, t, false);
      ProbeWithin(a, b, p, t);
      StepsWithin(a1, b, p, offsets[1..]);
    }
  }

  /** The Pawn's diagonal attacks, filtered from a probed state. */
  lemma {:induction false} PawnAttacksWithin(a: State, b: State, p: Piece, hs: seq<int>)
    requires Consistent(a) && Placed(b) && Behind(b, a)
    requires p in a.recs && OnBoard(a.recs[p]) && p in b.recs && OnBoard(b.recs[p])
    ensures forall t | t in PawnAttacks(a, p, hs, false).0 :: t in PawnAttacks(b, p, hs, true).0
    decreases |hs|
  {
    hide Consistent, Restored, Frame, Placed, IsAvailable, Behind;
    ConsistentPlaced(a);
    BehindPiece(b, a, p);
    if hs != [] {
      var t := Offset(Origin(a, p), Forward(a.recs[p].color), hs[0]);
      var (ok, a1) := IsAvailable(a, p, t, false);
      ProbeWithin(a, b, p, t);
      BehindPiece(b, a1, p);
      PawnAttacksWithin(a1, b, p, hs[1..]);
    }
  }

  /** The Pawn's forward steps, filtered from a probed state: a step the
      filter keeps is one the unfiltered scan keeps, and a Pawn not yet
      marked as moved after the first probe was not marked before it. */
  lemma PawnAdvanceWithin(a: State, b: State, p: Piece)
    requires Consistent(a) && Placed(b) && Behind(b, a)
    requires p in a.recs && OnBoard(a.recs[p]) && p in b.recs && OnBoard(b.recs[p])
    ensures forall t | t in PawnAdvance(a, p, false).0 :: t in PawnAdvance(b, p, true).0
  {
    hide Consistent, Restored, Frame, Placed, IsAvailable, Behind;
    ConsistentPlaced(a);
    BehindPiece(b, a, p);
    var one := Offset(Origin(a, p), Forward(a.recs[p].color), 0);
    var (ok1, a1) := IsAvailable(a, p, one, false);
    ProbeWithin(a, b, p, one);
    BehindPiece(b, a1, p);
    if ok1 && !Occupied(a1, one) && !a1.recs[p].hasMoved {
      var two := Offset(Origin(a1, p), 2 * Forward(a.recs[p].color), 0);
      ProbeWithin(a1, b, p, two);
      BehindPiece(b, IsAvailable(a1, p, two, false).1, p);
    }
  }

  /** Pawn.getPossibleMoves, filtered from a probed state. */
  lemma PawnMovesWithin(a: State, b: State, p: Piece)
    requires Consistent(a) && Placed(b) && Behind(b, a)
    requires p in a.recs && OnBoard(a.recs[p]) && p in b.recs && OnBoard(b.recs[p])
    ensures forall t | t in PawnMoves(a, p, false).0 :: t in PawnMoves(b, p, true).0
  {
    hide Consistent, Restored, Frame, Placed, PawnAdvance, PawnAttacks, Behind;
    ConsistentPlaced(a);
    var (straight, a1) := PawnAdvance(a, p, false);
    PawnAdvanceWithin(a, b, p);
    PawnAdvanceRestores(a, p, false);
    RestoredConsistent(a, a1, p);
    BehindRestored(b, a, a1);
    PawnAttacksWithin(a1, b, p, [1, -1]);
  }

  /** Piece.getPossibleMoves, filtered from a probed state. */
  lemma MovesWithin(a: State, b: State, p: Piece)
    requires Consistent(a) && Placed(b) && Behind(b, a)
    requires p in a.recs && OnBoard(a.recs[p]) && p in b.recs && OnBoard(b.recs[p])
    ensures forall t | t in Moves(a, p, false).0 :: t in Moves(b, p, true).0
  {
    hide Consistent, Restored, Frame, Placed, PawnMoves, Rays, Steps, MegaRays, Behind;
    BehindPiece(b, a, p);
    match a.recs[p].kind
    case Pawn => PawnMovesWithin(a, b, p);
    case Rook => RaysWithin(a, b, p, RookDirections);
    case Bishop => RaysWithin(a, b, p, BishopDirections);
    case Queen => RaysWithin(a, b, p, EightDirections);
    case King => StepsWithin(a, b, p, EightDirections);
    case Knight => StepsWithin(a, b, p, KnightOffsets);
    case MegaRook => MegaRaysWithin(a, b, p, RookDirections);
    case FlipFlopper => RaysWithin(a, b, p, EightDirections);
  }

  /** Piece.getPossibleMoves(false) in a consistent game returns only spots
      that Piece.getPossibleMoves(true) returns: the check filter only ever
      removes moves. */
  lemma FilteredWithin(st: State, p: Piece)
    requires Consistent(st) && p in st.recs && OnBoard(st.recs[p])
    ensures forall t | t in Moves(st, p, false).0 :: t in Moves(st, p, true).0
  {
    ConsistentPlaced(st);
    MovesWithin(st, st, p);
  }

  /** The unfiltered availability test reads only the occupants and the
      colours, which a probed state shares with the starting one. */
  lemma AvailableAlike(a: State, b: State, p: Piece, s: Spot)
    requires Placed(a) && Placed(b) && Behind(b, a)
    requires p in a.recs && OnBoard(a.recs[p]) && p in b.recs && OnBoard(b.recs[p])
    ensures IsAvailable(a, p, s, true).0 == IsAvailable(b, p, s, true).0
  {
  }

  /** When the opponent has no pieces, every occupant of a consistent game
      is of side c: each occupant is listed under its own colour. */
  lemma OccupantsOwn(a: State, c: Color)
    requires Consistent(a) && PiecesOf(a, OpponentColor(c)) == []
    ensures forall t | t in a.occ :: a.recs[a.occ[t]].color == c
  {
    forall t | t in a.occ
      ensures a.recs[a.occ[t]].color == c
    {
      var q := a.occ[t];
      assert q in PiecesOf(a, a.recs[q].color);
      OpponentInvolution(c);
    }
  }

  /** A side whose opponent has no pieces is never in check, so in a
      consistent game the probe never rejects a spot. */
  lemma ProbeAlone(a: State, p: Piece, s: Spot)
    requires Consistent(a) && p in a.recs && OnBoard(a.recs[p])
    requires PiecesOf(a, OpponentColor(a.recs[p].color)) == []
    ensures IsAvailable(a, p, s, false).0 == IsAvailable(a, p, s, true).0
  {
    var c := a.recs[p].color;
    OccupantsOwn(a, c);
    if ValidSpot(s) && !(Occupied(a, s) && a.recs[a.occ[s]].color == c) {
      assert !Occupied(a, s);
      var moved := ProbeMove(a, p, s);
      assert moved == PieceMoveTo(a, p, s);
      assert PiecesOf(moved, OpponentColor(c)) == [];
      assert InCheck(moved, moved.recs[p].color) == Ok(false);
    }
  }

  /** The offset loops of King and Knight when the opponent has no pieces:
      filtered from a probed state they keep exactly what the unfiltered loop
      keeps from the starting state. */
  lemma {:induction false} StepsAlone(a: State, b: State, p: Piece, offsets: seq<Vec>)
    requires Consistent(a) && Placed(b) && Behind(b, a)
    requires p in a.recs && OnBoard(a.recs[p]) && p in b.recs && OnBoard(b.recs[p])
    requires PiecesOf(a, OpponentColor(a.recs[p].color)) == []
    ensures Steps(a, p, offsets, false).0 == Steps(b, p, offsets, true).0
    decreases |offsets|
  {
    hide Consistent, Restored, Frame, Placed, IsAvailable, Behind;
    ConsistentPlaced(a);
    BehindPiece(b, a, p);
    if offsets != [] {
      var t := Offset(Origin(a, p), offsets[0].dr, offsets[0].dc);
      var (ok, a1) := IsAvailable(a, p, t, false);
      ProbeWithin(a, b, p, t);
      ProbeAlone(a, p, t);
      AvailableAlike(a, b, p, t);
      AvailableRestores(a, p, t, false);
      RestoredLists(a, a1);
      StepsAlone(a1, b, p, offsets[1..]);
    }
  }

  /** The game of chess/tests/PieceTests.java, Movement: a new Game with a
      White King added on (0,1). */
  function LoneKingGame(k: Piece): State
  {
    AddPiece(State(map[], map[], [], [], None), k, King, White, Spot(0, 1))
  }

  /** The lone King's game: the King alone on (0,1), consistent. */
  lemma LoneKingFacts(k: Piece)
    ensures var st := LoneKingGame(k);
      Consistent(st) && st.occ == map[Spot(0, 1) := k] &&
      st.recs == map[k := NewRec(King, White, Spot(0, 1))] && st.black == []
  {
    var empty := State(map[], map[], [], [], None);
    AddConsistent(empty, k, King, White, Spot(0, 1));
  }

  /** Unfiltered, a step loop from a state it leaves unchanged. */
  lemma StepsOnce(st: State, p: Piece, offsets: seq<Vec>)
    requires Placed(st) && p in st.recs && OnBoard(st.recs[p]) && offsets != []
    ensures var t := Offset(Origin(st, p), offsets[0].dr, offsets[0].dc);
      Steps(st, p, offsets, true).0 ==
        (if IsAvailable(st, p, t, true).0 then [t] else []) + Steps(st, p, offsets[1..], true).0
  {
  }

  /** King.getPossibleMoves for the lone White King on (0,1): exactly the
      spots (1,2), (1,1), (1,0), (0,2) and (0,0), in the order the offsets
      are tried; the probe rejects none of them. */
  lemma LoneKingMoves(k: Piece)
    ensures Consistent(LoneKingGame(k))
    ensures Moves(LoneKingGame(k), k, false).0 == [Spot(1, 2), Spot(1, 1), Spot(1, 0), Spot(0, 2), Spot(0, 0)]
  {
    hide Consistent, Steps, IsAvailable, Placed, Frame, LoneKingGame;
    var st := LoneKingGame(k);
    LoneKingFacts(k);
    ConsistentPlaced(st);
    StepsAlone(st, st, k, EightDirections);
    var ds := EightDirections;
    LoneKingStep(k, ds, 0);
    LoneKingStep(k, ds, 1);
    LoneKingStep(k, ds, 2);
    LoneKingStep(k, ds, 3);
    LoneKingStep(k, ds, 4);
    LoneKingStep(k, ds, 5);
    LoneKingStep(k, ds, 6);
    LoneKingStep(k, ds, 7);
    assert ds[8..] == [];
    StepsNone(st, k);
  }

  /** Unfiltered, the step loop over no offsets keeps nothing. */
  lemma StepsNone(st: State, p: Piece)
    requires Placed(st) && p in st.recs && OnBoard(st.recs[p])
    ensures Steps(st, p, [], true).0 == []
  {
  }

  /** One offset of the lone King's unfiltered step loop: the spot is kept
      exactly when it is stored and is not the King's own. */
  lemma LoneKingStep(k: Piece, ds: seq<Vec>, i: int)
    requires 0 <= i < |ds|
    ensures var st, t := LoneKingGame(k), Offset(Spot(0, 1), ds[i].dr, ds[i].dc);
      Placed(st) && k in st.recs && OnBoard(st.recs[k]) &&
      Steps(st, k, ds[i..], true).0 ==
        (if ValidSpot(t) && t != Spot(0, 1) then [t] else []) + Steps(st, k, ds[i + 1..], true).0
  {
    hide Steps, LoneKingGame, Consistent;
    var st := LoneKingGame(k);
    LoneKingFacts(k);
    ConsistentPlaced(st);
    StepsOnce(st, k, ds[i..]);
    assert ds[i..][0] == ds[i] && ds[i..][1..] == ds[i + 1..];
  }
}
