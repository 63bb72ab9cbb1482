/** The rules engine as functions on a snapshot of the whole game. Every move
    query threads the snapshot through, because a filtered query runs the
    probe of Game.resultIfPieceMovedToSpot, which moves pieces and reorders
    piece lists. The imperative classes are proved against these functions. */
module Rules {
  import opened Wrappers
  import opened Chess
  import opened Boards
  import opened Pieces

  /** The state of a Game: the occupant of every occupied stored spot, the
      fields of every piece, the two in-play piece lists and the turn colour
      (None before the first turn). */
  datatype State = State(occ: map<Spot, Piece>, recs: map<Piece, PieceRec>,
                         white: seq<Piece>, black: seq<Piece>, turn: Option<Color>)

  /** Game.getPieces. */
  function PiecesOf(st: State, c: Color): seq<Piece>
  {
    if c == White then st.white else st.black
  }

  /** The state with the list of side c replaced. */
  function WithPieces(st: State, c: Color, ps: seq<Piece>): (st': State)
    ensures PiecesOf(st', c) == ps && PiecesOf(st', OpponentColor(c)) == PiecesOf(st, OpponentColor(c))
    ensures st'.occ == st.occ && st'.recs == st.recs && st'.turn == st.turn
  {
    if c == White then st.(white := ps) else st.(black := ps)
  }

  /** Spot.getPiece of a stored spot. */
  function Occupant(st: State, s: Spot): Option<Piece>
  {
    Lookup(st.occ, s)
  }

  /** Spot.isOccupied of a stored spot (a dummy spot is never occupied). */
  predicate Occupied(st: State, s: Spot)
  {
    s in st.occ
  }

  /** The well-formedness every query needs, and which every query keeps even
      in the middle of a probe: occupants sit on stored spots and are known
      pieces on the board, listed pieces are known and on the board, and
      parities are 0 or 1. */
  predicate Placed(st: State)
  {
    (forall s | s in st.occ :: ValidSpot(s) && st.occ[s] in st.recs && OnBoard(st.recs[st.occ[s]])) &&
    (forall q | q in st.white :: q in st.recs && OnBoard(st.recs[q])) &&
    (forall q | q in st.black :: q in st.recs && OnBoard(st.recs[q])) &&
    (forall q | q in st.recs :: st.recs[q].moveParity in {0, 1})
  }

  /** The invariant that holds between the public operations of a Game: spot
      and piece name each other, a piece has a spot exactly when it is in
      play, and it is listed exactly when it is in play, in the list of its
      own colour, once. */
  predicate Consistent(st: State)
  {
    Placed(st) && SpotIffInPlay(st) && OccupantsAgree(st) && InPlayOccupy(st) &&
    InPlayListed(st) && ListedInPlay(st) && NoDuplicates(st.white) && NoDuplicates(st.black)
  }

  /** A piece has a spot exactly when it is in play. */
  predicate SpotIffInPlay(st: State)
  {
    forall q | q in st.recs :: st.recs[q].inPlay == st.recs[q].spot.Some?
  }

  /** The occupant of a spot is in play and has that spot. */
  predicate OccupantsAgree(st: State)
  {
    forall s | s in st.occ :: st.occ[s] in st.recs && st.recs[st.occ[s]].spot == Some(s) && st.recs[st.occ[s]].inPlay
  }

  /** A piece in play stands on a stored spot that names it. */
  predicate InPlayOccupy(st: State)
  {
    forall q | q in st.recs && st.recs[q].inPlay :: OnBoard(st.recs[q]) && Occupant(st, st.recs[q].spot.value) == Some(q)
  }

  /** A piece in play is in the list of its colour. */
  predicate InPlayListed(st: State)
  {
    forall q | q in st.recs && st.recs[q].inPlay :: q in PiecesOf(st, st.recs[q].color)
  }

  /** A listed piece is a known piece in play, of the list's colour. */
  predicate ListedInPlay(st: State)
  {
    (forall q | q in st.white :: q in st.recs && st.recs[q].color == White && st.recs[q].inPlay) &&
    (forall q | q in st.black :: q in st.recs && st.recs[q].color == Black && st.recs[q].inPlay)
  }

  /** Every element of xs occurs in it once. */
  predicate NoDuplicates<T(==)>(xs: seq<T>)
  {
    forall x | x in xs :: multiset(xs)[x] == 1
  }

  /** The fields of b are those of a, except that a Pawn may have been marked
      as moved. This is all a probe leaves behind on a piece. */
  predicate Unmoved(a: PieceRec, b: PieceRec)
  {
    b == a.(hasMoved := b.hasMoved) && (a.hasMoved ==> b.hasMoved) && (a.kind != Pawn ==> b.hasMoved == a.hasMoved)
  }

  /** What every move query guarantees about the state it hands back: it is
      still well formed, no piece was created, relocated or taken out of play,
      the turn is the same, and the list of side c is untouched. */
  predicate Frame(st: State, st': State, c: Color)
  {
    Placed(st') && st'.turn == st.turn && st'.recs.Keys == st.recs.Keys &&
    (forall q | q in st.recs :: Unmoved(st.recs[q], st'.recs[q])) &&
    PiecesOf(st', c) == PiecesOf(st, c)
  }

  /** The fields a Frame preserves, spelt out piece by piece. */
  lemma FrameFields(st: State, st': State, c: Color)
    requires Frame(st, st', c)
    ensures forall q | q in st.recs ::
              q in st'.recs && st'.recs[q].spot == st.recs[q].spot && st'.recs[q].color == st.recs[q].color &&
              st'.recs[q].kind == st.recs[q].kind && st'.recs[q].inPlay == st.recs[q].inPlay &&
              st'.recs[q].moveParity == st.recs[q].moveParity
  {
  }

  /** After a query, p is still on the same spot of a well formed board. */
  predicate StillPlaced(m: State, m': State, p: Piece)
  {
    Placed(m') && p in m.recs && p in m'.recs && OnBoard(m'.recs[p]) &&
    m'.recs[p].spot == m.recs[p].spot && m'.recs[p].kind == m.recs[p].kind &&
    m'.recs[p].color == m.recs[p].color && m'.recs[p].moveParity == m.recs[p].moveParity
  }

  /** A query framed for p's side leaves p where it stood. */
  lemma FrameKeepsPiece(m: State, m': State, p: Piece)
    requires Placed(m) && p in m.recs && OnBoard(m.recs[p])
    requires Frame(m, m', m.recs[p].color)
    ensures StillPlaced(m, m', p)
  {
    FrameFields(m, m', m.recs[p].color);
  }

  /** A well formed state frames itself. */
  lemma FrameRefl(st: State, c: Color)
    requires Placed(st)
    ensures Frame(st, st, c)
  {
  }

  /** Pieces on the board before a Frame are on the board after it. */
  lemma FrameKeepsOnBoard(st: State, st': State, c: Color, ps: seq<Piece>)
    requires Frame(st, st', c)
    requires forall q | q in ps :: q in st.recs && OnBoard(st.recs[q])
    ensures forall q | q in ps :: q in st'.recs && OnBoard(st'.recs[q]) && st'.recs[q].color == st.recs[q].color
  {
    FrameFields(st, st', c);
  }

  /** Frames compose. */
  lemma FrameTransitive(st: State, st': State, st'': State, c: Color)
    requires Placed(st) && Frame(st, st', c) && Frame(st', st'', c)
    ensures Frame(st, st'', c)
  {
  }

  /** java.util.List.remove(Object): drop the first occurrence, if any. */
  function RemoveFirst<T(==)>(xs: seq<T>, x: T): (r: seq<T>)
    ensures x in xs ==> multiset(r) + multiset{x} == multiset(xs) && |r| == |xs| - 1
    ensures x !in xs ==> r == xs
    ensures forall y | y in r :: y in xs
  {
    if xs == [] then []
    else if xs[0] == x then
      assert xs == [xs[0]] + xs[1..];
      xs[1..]
    else
      assert xs == [xs[0]] + xs[1..];
      [xs[0]] + RemoveFirst(xs[1..], x)
  }

  /** A row and column offset. */
  datatype Vec = Vec(dr: int, dc: int)

  /** A direction a sliding scan may take: a non-zero vector in {-1, 0, 1}². */
  predicate Unit(d: Vec)
  {
    -1 <= d.dr <= 1 && -1 <= d.dc <= 1 && d != Vec(0, 0)
  }

  /** The Rook and MegaRook directions, in their scan order. */
  const RookDirections: seq<Vec> := [Vec(1, 0), Vec(-1, 0), Vec(0, 1), Vec(0, -1)]

  /** The Bishop directions, in its scan order. */
  const BishopDirections: seq<Vec> := [Vec(1, 1), Vec(1, -1), Vec(-1, 1), Vec(-1, -1)]

  /** The eight non-zero vectors of {1, 0, -1}², in the nested-loop order the
      Queen, King and FlipFlopper use. */
  const EightDirections: seq<Vec> :=
    [Vec(1, 1), Vec(1, 0), Vec(1, -1), Vec(0, 1), Vec(0, -1), Vec(-1, 1), Vec(-1, 0), Vec(-1, -1)]

  /** The Knight offsets, in its nested-loop order. */
  const KnightOffsets: seq<Vec> :=
    [Vec(1, 2), Vec(2, 1), Vec(1, -2), Vec(2, -1), Vec(-1, 2), Vec(-2, 1), Vec(-1, -2), Vec(-2, -1)]

  /** The spot of a piece on the board. */
  function Origin(st: State, p: Piece): Spot
    requires p in st.recs && st.recs[p].spot.Some?
  {
    st.recs[p].spot.value
  }

  /** Piece.getSpotWithOffset from spot o. */
  function Offset(o: Spot, dr: int, dc: int): Spot
  {
    Spot(o.row + dr, o.col + dc)
  }

  /** The spot `dist` steps from o along d. */
  function Target(o: Spot, d: Vec, dist: int): Spot
  {
    Offset(o, dist * d.dr, dist * d.dc)
  }

  /** Pawn's forward row direction. */
  function Forward(c: Color): int
  {
    if c == White then 1 else -1
  }

  /** A spot at offset dist * d from o is the dist-th target along d. */
  lemma TargetAt(o: Spot, d: Vec, dist: int, s: Spot)
    requires s.row - o.row == dist * d.dr && s.col - o.col == dist * d.dc
    ensures s == Target(o, d, dist)
  {
  }

  /** From a stored spot, a unit direction reaches a stored spot within 7 steps. */
  lemma RayBound(o: Spot, d: Vec, dist: int)
    requires ValidSpot(o) && Unit(d) && 1 <= dist && ValidSpot(Target(o, d, dist))
    ensures dist <= 7
  {
    if d.dr == 1 { assert dist * d.dr == dist; }
    else if d.dr == -1 { assert dist * d.dr == -dist; }
    else if d.dc == 1 { assert dist * d.dc == dist; }
    else { assert dist * d.dc == -dist; }
  }

  /** Piece.moveTo on the snapshot: the piece's old spot is cleared and `s`
      names it. */
  function PieceMoveTo(st: State, p: Piece, s: Spot): (st': State)
    requires p in st.recs && st.recs[p].spot.Some?
    ensures st'.recs == st.recs[p := Moved(st.recs[p], s)]
    ensures st'.white == st.white && st'.black == st.black && st'.turn == st.turn
    ensures Occupant(st', s) == if ValidSpot(s) then Some(p) else Occupant(st, s)
  {
    st.(occ := Place(Place(st.occ, Origin(st, p), None), s, Some(p)),
        recs := st.recs[p := Moved(st.recs[p], s)])
  }

  /** The side's King that Game.getKing finds: the first King in the list. */
  function FirstKing(recs: map<Piece, PieceRec>, ps: seq<Piece>): (r: Option<Piece>)
    requires forall q | q in ps :: q in recs
    ensures r.Some? ==> r.value in ps && recs[r.value].kind == King
    ensures r.None? <==> forall q | q in ps :: recs[q].kind != King
  {
    if ps == [] then None
    else if recs[ps[0]].kind == King then Some(ps[0])
    else FirstKing(recs, ps[1..])
  }

  /** Game.getKing. */
  function GetKing(st: State, c: Color): (r: Option<Piece>)
    requires Placed(st)
    ensures r.Some? ==> r.value in PiecesOf(st, c) && r.value in st.recs && OnBoard(st.recs[r.value])
  {
    FirstKing(st.recs, PiecesOf(st, c))
  }

  /** Game.isAvailableSpotForPiece: false off the board, false on a spot held by
      the piece's own side, and otherwise (when filtering) false if the probe
      finds that the move would leave the piece's own King in check. */
  function IsAvailable(st: State, p: Piece, s: Spot, regardless: bool): (r: (bool, State))
    requires Placed(st) && p in st.recs && OnBoard(st.recs[p])
    ensures Frame(st, r.1, st.recs[p].color)
    ensures regardless ==> r.1 == st
    ensures r.0 ==> ValidSpot(s) && !(Occupied(st, s) && st.recs[st.occ[s]].color == st.recs[p].color)
    ensures regardless ==> (r.0 <==> ValidSpot(s) && !(Occupied(st, s) && st.recs[st.occ[s]].color == st.recs[p].color))
    decreases if regardless then 0 else 1, 2, 0, 0
  {
    if !ValidSpot(s) then (false, st)
    else if Occupied(st, s) && st.recs[st.occ[s]].color == st.recs[p].color then (false, st)
    else if regardless then (true, st)
    else
      var (check, st') := MoveWouldPutKingInCheck(st, p, s);
      (!check, st')
  }

  /** The colour whose list the probe on `s` leaves untouched. */
  function UntouchedSide(st: State, p: Piece, s: Spot): Color
    requires p in st.recs && (Occupied(st, s) ==> st.occ[s] in st.recs)
  {
    if Occupied(st, s) then OpponentColor(st.recs[st.occ[s]].color) else st.recs[p].color
  }

  /** Game.moveWouldPutKingInCheck, with the probe of
      Game.resultIfPieceMovedToSpot: take the occupant of `s` out of its list,
      move p to `s`, ask whether p's side is in check (a fault counts as no),
      move p back, and re-append the displaced occupant to its list and to `s`. */
  function MoveWouldPutKingInCheck(st: State, p: Piece, s: Spot): (r: (bool, State))
    requires Placed(st) && p in st.recs && OnBoard(st.recs[p]) && ValidSpot(s)
    ensures Frame(st, r.1, UntouchedSide(st, p, s))
    decreases 1, 1, 0, 0
  {
    var moved := ProbeMove(st, p, s);
    var check := InCheck(moved, moved.recs[p].color);
    (check == Ok(true), ProbeRestore(st, moved, p, s))
  }

  /** The outcome of the probe, from its stages: the move, the test, the
      move back home and the reinstatement of the displaced occupant. */
  lemma ProbeOutcome(st: State, p: Piece, s: Spot, moved: State, b: bool, back: State, st': State)
    requires Placed(st) && p in st.recs && OnBoard(st.recs[p]) && ValidSpot(s)
    requires moved == ProbeMove(st, p, s)
    requires b == (InCheck(moved, moved.recs[p].color) == Ok(true))
    requires back == PieceMoveTo(moved, p, Origin(st, p))
    requires st' == if Occupied(st, s) then Reinstate(back, st.occ[s], s) else back
    ensures MoveWouldPutKingInCheck(st, p, s) == (b, st')
  {
  }

  /** The probe's set-up: the occupant of `s` leaves its list and p moves to `s`. */
  function ProbeMove(st: State, p: Piece, s: Spot): (st': State)
    requires Placed(st) && p in st.recs && OnBoard(st.recs[p]) && ValidSpot(s)
    ensures Placed(st') && st'.turn == st.turn
    ensures st'.recs == st.recs[p := Moved(st.recs[p], s)]
    ensures PiecesOf(st', UntouchedSide(st, p, s)) == PiecesOf(st, UntouchedSide(st, p, s))
  {
    var displaced := Occupant(st, s);
    var st1 := if displaced.Some? then Displace(st, displaced.value) else st;
    assert Placed(st1) by {
      if displaced.Some? { DisplacePlaced(st, displaced.value); }
    }
    PieceMoveToPlaced(st1, p, s);
    PieceMoveTo(st1, p, s)
  }

  /** The probe's clean-up, given the state `moved` that ProbeMove produced: p
      moves back home, and the displaced occupant is re-appended to its list
      and set back on `s`. */
  function ProbeRestore(st: State, moved: State, p: Piece, s: Spot): (st': State)
    requires Placed(st) && p in st.recs && OnBoard(st.recs[p]) && ValidSpot(s)
    requires Placed(moved) && moved.turn == st.turn
    requires moved.recs == st.recs[p := Moved(st.recs[p], s)]
    requires PiecesOf(moved, UntouchedSide(st, p, s)) == PiecesOf(st, UntouchedSide(st, p, s))
    ensures Frame(st, st', UntouchedSide(st, p, s))
  {
    hide Frame, Placed;
    var displaced := Occupant(st, s);
    var st3 := MoveBack(st, moved, p, s);
    if displaced.Some? then
      OccupantPlaced(st, s);
      ReinstatePlaced(st3, displaced.value, s);
      var st4 := Reinstate(st3, displaced.value, s);
      MarkFrame(st, st4, p, UntouchedSide(st, p, s));
      st4
    else
      MarkFrame(st, st3, p, UntouchedSide(st, p, s));
      st3
  }

  /** The probe moves p back home: every field of p is restored, except that
      a Pawn is now marked as moved. */
  function MoveBack(st: State, moved: State, p: Piece, s: Spot): (st3: State)
    requires Placed(st) && p in st.recs && OnBoard(st.recs[p]) && ValidSpot(s)
    requires Placed(moved) && moved.recs == st.recs[p := Moved(st.recs[p], s)]
    ensures Placed(st3) && st3.turn == moved.turn && st3.white == moved.white && st3.black == moved.black
    ensures st3.recs == st.recs[p := st.recs[p].(hasMoved := st.recs[p].hasMoved || st.recs[p].kind == Pawn)]
  {
    var home := Origin(st, p);
    PieceMoveToPlaced(moved, p, home);
    ParityBinary(st, p);
    MovedThereAndBack(st.recs[p], s);
    PieceMoveTo(moved, p, home)
  }

  /** A FlipFlopper's parity in a well formed state is 0 or 1. */
  lemma ParityBinary(st: State, p: Piece)
    requires Placed(st) && p in st.recs
    ensures st.recs[p].moveParity in {0, 1}
  {
  }

  /** A state that differs from st only in that p may now be marked as moved,
      and in lists other than that of side c, is framed by st for c. */
  lemma MarkFrame(st: State, st': State, p: Piece, c: Color)
    requires p in st.recs && Placed(st') && st'.turn == st.turn
    requires st'.recs == st.recs[p := st.recs[p].(hasMoved := st.recs[p].hasMoved || st.recs[p].kind == Pawn)]
    requires PiecesOf(st', c) == PiecesOf(st, c)
    ensures Frame(st, st', c)
  {
  }

  /** Moving a piece on the board to a stored spot keeps the state well formed. */
  lemma PieceMoveToPlaced(st: State, p: Piece, s: Spot)
    requires Placed(st) && p in st.recs && OnBoard(st.recs[p]) && ValidSpot(s)
    ensures Placed(PieceMoveTo(st, p, s))
  {
    var st' := PieceMoveTo(st, p, s);
    forall q | q in st'.recs
      ensures OnBoard(st'.recs[q]) == OnBoard(st.recs[q]) || q == p
    {
    }
  }

  /** Taking a piece out of its side's list keeps the state well formed. */
  lemma DisplacePlaced(st: State, q: Piece)
    requires Placed(st) && q in st.recs
    ensures Placed(Displace(st, q))
  {
    var st' := Displace(st, q);
    assert forall x | x in st'.white :: x in st.white;
    assert forall x | x in st'.black :: x in st.black;
  }

  /** The occupant of a spot of a well formed state is a known piece on the board. */
  lemma OccupantPlaced(st: State, s: Spot)
    requires Placed(st) && Occupied(st, s)
    ensures ValidSpot(s) && st.occ[s] in st.recs && OnBoard(st.recs[st.occ[s]])
  {
  }

  /** The state a query hands back is well formed. */
  lemma FramePlaced(st: State, st': State, c: Color)
    requires Frame(st, st', c)
    ensures Placed(st')
  {
  }

  /** Setting a piece that is on the board back on a stored spot, and
      appending it to its list, keeps the state well formed. */
  lemma ReinstatePlaced(st: State, q: Piece, s: Spot)
    requires Placed(st) && q in st.recs && OnBoard(st.recs[q]) && ValidSpot(s)
    ensures Placed(Reinstate(st, q, s))
  {
    var st' := Reinstate(st, q, s);
    assert forall x | x in st'.white :: x in st.white || x == q;
    assert forall x | x in st'.black :: x in st.black || x == q;
  }

  /** The first step of the probe: the occupant leaves its side's list. */
  function Displace(st: State, q: Piece): State
    requires q in st.recs
  {
    WithPieces(st, st.recs[q].color, RemoveFirst(PiecesOf(st, st.recs[q].color), q))
  }

  /** The last step of the probe: the occupant is appended to its side's list
      and set back on `s`. */
  function Reinstate(st: State, q: Piece, s: Spot): State
    requires q in st.recs
  {
    WithPieces(st, st.recs[q].color, PiecesOf(st, st.recs[q].color) + [q]).(occ := Place(st.occ, s, Some(q)))
  }

  /** Game.isInCheck: scan the opponent's pieces in list order and each one's
      unfiltered moves; Ok(true) as soon as one is the King's spot. With no
      King the first move scanned dereferences null: Err(MissingKing). */
  function InCheck(st: State, c: Color): Result<bool, Fault>
    requires Placed(st)
    decreases 0, 9, 0, 0
  {
    Threatened(st, GetKing(st, c), PiecesOf(st, OpponentColor(c)))
  }

  /** The loops of Game.isInCheck over the pieces `opps`. */
  function Threatened(st: State, king: Option<Piece>, opps: seq<Piece>): Result<bool, Fault>
    requires Placed(st)
    requires forall q | q in opps :: q in st.recs && OnBoard(st.recs[q])
    requires king.Some? ==> king.value in st.recs && OnBoard(st.recs[king.value])
    decreases 0, 8, |opps|, 0
  {
    if opps == [] then Ok(false)
    else
      var moves := Moves(st, opps[0], true).0;
      if moves == [] then Threatened(st, king, opps[1..])
      else if king.None? then Err(MissingKing)
      else if Origin(st, king.value) in moves then Ok(true)
      else Threatened(st, king, opps[1..])
  }

  /** Piece.getPossibleMoves(regardlessOfKing), dispatched on the kind. */
  function Moves(st: State, p: Piece, regardless: bool): (r: (seq<Spot>, State))
    requires Placed(st) && p in st.recs && OnBoard(st.recs[p])
    ensures Frame(st, r.1, st.recs[p].color)
    ensures regardless ==> r.1 == st
    decreases if regardless then 0 else 1, 5, 0, 0
  {
    match st.recs[p].kind
    case Pawn => PawnMoves(st, p, regardless)
    case Rook => Rays(st, p, RookDirections, regardless)
    case Bishop => Rays(st, p, BishopDirections, regardless)
    case Queen => Rays(st, p, EightDirections, regardless)
    case King => Steps(st, p, EightDirections, regardless)
    case Knight => Steps(st, p, KnightOffsets, regardless)
    case MegaRook => MegaRays(st, p, RookDirections, regardless)
    case FlipFlopper => Rays(st, p, EightDirections, regardless)
  }

  /** Pawn.getPossibleMoves: the forward steps, then the two forward
      diagonals. */
  function PawnMoves(st: State, p: Piece, regardless: bool): (r: (seq<Spot>, State))
    requires Placed(st) && p in st.recs && OnBoard(st.recs[p])
    ensures Frame(st, r.1, st.recs[p].color)
    ensures regardless ==> r.1 == st
    decreases if regardless then 0 else 1, 4, 1, 0
  {
    hide Frame, Placed;
    var (straight, st1) := PawnAdvance(st, p, regardless);
    FrameKeepsPiece(st, st1, p);
    var (attacks, st2) := PawnAttacks(st1, p, [1, -1], regardless);
    FrameTransitive(st, st1, st2, st.recs[p].color);
    (straight + attacks, st2)
  }

  /** The forward steps of Pawn.getPossibleMoves: one step forward if
      available and empty; then, if the pawn has still not moved, two steps
      forward if available and empty. The fields are read afresh after every
      availability test. */
  function PawnAdvance(st: State, p: Piece, regardless: bool): (r: (seq<Spot>, State))
    requires Placed(st) && p in st.recs && OnBoard(st.recs[p])
    ensures Frame(st, r.1, st.recs[p].color)
    ensures regardless ==> r.1 == st
    decreases if regardless then 0 else 1, 4, 0, 0
  {
    hide Frame, Placed;
    var forward := Forward(st.recs[p].color);
    var one := Offset(Origin(st, p), forward, 0);
    var (ok1, st1) := IsAvailable(st, p, one, regardless);
    FrameKeepsPiece(st, st1, p);
    if ok1 && !Occupied(st1, one) then
      var two := Offset(Origin(st1, p), 2 * forward, 0);
      if !st1.recs[p].hasMoved then
        var (ok2, st2) := IsAvailable(st1, p, two, regardless);
        FrameTransitive(st, st1, st2, st.recs[p].color);
        (if ok2 && !Occupied(st2, two) then [one, two] else [one], st2)
      else ([one], st1)
    else ([], st1)
  }

  /** The diagonal attacks of Pawn.getPossibleMoves, for the column offsets `hs`. */
  function PawnAttacks(st: State, p: Piece, hs: seq<int>, regardless: bool): (r: (seq<Spot>, State))
    requires Placed(st) && p in st.recs && OnBoard(st.recs[p])
    ensures Frame(st, r.1, st.recs[p].color)
    ensures regardless ==> r.1 == st
    decreases if regardless then 0 else 1, 3, |hs|, 0
  {
    hide Frame, Placed;
    if hs == [] then FrameRefl(st, st.recs[p].color); ([], st)
    else
      var t := Offset(Origin(st, p), Forward(st.recs[p].color), hs[0]);
      var (ok, st1) := IsAvailable(st, p, t, regardless);
      FrameKeepsPiece(st, st1, p);
      var (rest, st2) := PawnAttacks(st1, p, hs[1..], regardless);
      FrameTransitive(st, st1, st2, st.recs[p].color);
      (if ok && Occupied(st1, t) then [t] + rest else rest, st2)
  }

  /** The sliding scans of Rook, Bishop, Queen and FlipFlopper: one ray per
      direction, concatenated in direction order. */
  function Rays(st: State, p: Piece, dirs: seq<Vec>, regardless: bool): (r: (seq<Spot>, State))
    requires Placed(st) && p in st.recs && OnBoard(st.recs[p])
    requires forall d | d in dirs :: Unit(d)
    ensures Frame(st, r.1, st.recs[p].color)
    ensures regardless ==> r.1 == st
    decreases if regardless then 0 else 1, 4, |dirs|, 0
  {
    hide Frame, Placed;
    if dirs == [] then FrameRefl(st, st.recs[p].color); ([], st)
    else
      var (ray, st1) := Ray(st, p, dirs[0], 1, regardless);
      FrameKeepsPiece(st, st1, p);
      var (rest, st2) := Rays(st1, p, dirs[1..], regardless);
      FrameTransitive(st, st1, st2, st.recs[p].color);
      (ray + rest, st2)
  }

  /** One iteration of the sliding `while` loop: test the spot `dist` steps
      along d. */
  function Ray(st: State, p: Piece, d: Vec, dist: int, regardless: bool): (r: (seq<Spot>, State))
    requires Placed(st) && p in st.recs && OnBoard(st.recs[p]) && Unit(d) && 1 <= dist
    ensures Frame(st, r.1, st.recs[p].color)
    ensures regardless ==> r.1 == st
    decreases if regardless then 0 else 1, 3, 8 - dist, 1
  {
    hide Frame, Placed;
    var (ok, st1) := IsAvailable(st, p, Target(Origin(st, p), d, dist), regardless);
    FrameKeepsPiece(st, st1, p);
    var r := RayFrom(st1, p, d, dist, ok, regardless);
    FrameTransitive(st, st1, r.1, st.recs[p].color);
    r
  }

  /** The rest of the sliding loop once the spot `dist` steps along d was
      found available (`ok`) or not: an unavailable spot ends the ray; an
      available one is added and ends the ray when the piece is a FlipFlopper
      with parity 1 or when the spot is occupied; otherwise the scan goes on. */
  function RayFrom(st: State, p: Piece, d: Vec, dist: int, ok: bool, regardless: bool): (r: (seq<Spot>, State))
    requires Placed(st) && p in st.recs && OnBoard(st.recs[p]) && Unit(d) && 1 <= dist
    requires ok ==> ValidSpot(Target(Origin(st, p), d, dist))
    ensures Frame(st, r.1, st.recs[p].color)
    ensures regardless ==> r.1 == st
    decreases if regardless then 0 else 1, 3, 8 - dist, 0
  {
    hide Frame, Placed;
    var t := Target(Origin(st, p), d, dist);
    FrameRefl(st, st.recs[p].color);
    if !ok then ([], st)
    else if st.recs[p].kind == FlipFlopper && st.recs[p].moveParity == 1 then ([t], st)
    else if Occupied(st, t) then ([t], st)
    else
      RayBound(Origin(st, p), d, dist);
      var (rest, st1) := Ray(st, p, d, dist + 1, regardless);
      ([t] + rest, st1)
  }

  /** The single-step generators of King and Knight: each offset in order,
      kept if available. */
  function Steps(st: State, p: Piece, offsets: seq<Vec>, regardless: bool): (r: (seq<Spot>, State))
    requires Placed(st) && p in st.recs && OnBoard(st.recs[p])
    ensures Frame(st, r.1, st.recs[p].color)
    ensures regardless ==> r.1 == st
    decreases if regardless then 0 else 1, 4, |offsets|, 0
  {
    hide Frame, Placed;
    if offsets == [] then FrameRefl(st, st.recs[p].color); ([], st)
    else
      var t := Offset(Origin(st, p), offsets[0].dr, offsets[0].dc);
      var (ok, st1) := IsAvailable(st, p, t, regardless);
      FrameKeepsPiece(st, st1, p);
      var (rest, st2) := Steps(st1, p, offsets[1..], regardless);
      FrameTransitive(st, st1, st2, st.recs[p].color);
      (if ok then [t] + rest else rest, st2)
  }

  /** MegaRook.getPossibleMoves: one unblocked scan per direction. */
  function MegaRays(st: State, p: Piece, dirs: seq<Vec>, regardless: bool): (r: (seq<Spot>, State))
    requires Placed(st) && p in st.recs && OnBoard(st.recs[p])
    requires forall d | d in dirs :: Unit(d)
    ensures Frame(st, r.1, st.recs[p].color)
    ensures regardless ==> r.1 == st
    decreases if regardless then 0 else 1, 4, |dirs|, 0
  {
    hide Frame, Placed;
    if dirs == [] then FrameRefl(st, st.recs[p].color); ([], st)
    else
      var (ray, st1) := MegaRay(st, p, dirs[0], 1, regardless);
      FrameKeepsPiece(st, st1, p);
      var (rest, st2) := MegaRays(st1, p, dirs[1..], regardless);
      FrameTransitive(st, st1, st2, st.recs[p].color);
      (ray + rest, st2)
  }

  /** The MegaRook's `while` loop from `dist` steps along d: every stored
      spot is visited until the scan leaves the board, and kept if available. */
  function MegaRay(st: State, p: Piece, d: Vec, dist: int, regardless: bool): (r: (seq<Spot>, State))
    requires Placed(st) && p in st.recs && OnBoard(st.recs[p]) && Unit(d) && 1 <= dist
    ensures Frame(st, r.1, st.recs[p].color)
    ensures regardless ==> r.1 == st
    decreases if regardless then 0 else 1, 3, 8 - dist, 0
  {
    hide Frame, Placed;
    var t := Target(Origin(st, p), d, dist);
    if !ValidSpot(t) then FrameRefl(st, st.recs[p].color); ([], st)
    else
      RayBound(Origin(st, p), d, dist);
      var (ok, st1) := IsAvailable(st, p, t, regardless);
      FrameKeepsPiece(st, st1, p);
      var (rest, st2) := MegaRay(st1, p, d, dist + 1, regardless);
      FrameTransitive(st, st1, st2, st.recs[p].color);
      (if ok then [t] + rest else rest, st2)
  }
}
