/** The public operations of chess/Game.java as functions on the game
    snapshot: turns, check queries, moves, captures and piece creation. */
module GameRules {
  import opened Wrappers
  import opened Chess
  import opened Boards
  import opened Pieces
  import opened Rules
  import opened Scans

  /** Every piece in side c's list is a known piece of colour c. */
  predicate SideListed(st: State, c: Color)
  {
    forall q | q in PiecesOf(st, c) :: q in st.recs && st.recs[q].color == c
  }

  /** The loop shared by Game.isInCheckmate and Game.isInStalemate over the
      pieces `ps` of side c: true when none of them has a filtered move; it
      stops at the first piece that has one. */
  function NoneCanMove(st: State, c: Color, ps: seq<Piece>): (r: (bool, State))
    requires Placed(st)
    requires forall q | q in ps :: q in st.recs && OnBoard(st.recs[q]) && st.recs[q].color == c
    ensures Frame(st, r.1, c)
    decreases |ps|
  {
    hide Frame, Placed;
    if ps == [] then FrameRefl(st, c); (true, st)
    else
      var step := Moves(st, ps[0], false);
      var moves, st1 := step.0, step.1;
      assert forall q | q in ps[1..] :: q in ps;
      FrameKeepsOnBoard(st, st1, c, ps[1..]);
      if moves != [] then (false, st1)
      else
        var r := NoneCanMove(st1, c, ps[1..]);
        FrameTransitive(st, st1, r.1, c);
        r
  }

  /** One piece of the loop of NoneCanMove, whose filtered moves are `moves`
      and leave the game in state m'. */
  lemma NoneStep(m: State, c: Color, ps: seq<Piece>, i: int, moves: seq<Spot>, m': State)
    requires Placed(m) && 0 <= i < |ps|
    requires forall q | q in ps[i..] :: q in m.recs && OnBoard(m.recs[q]) && m.recs[q].color == c
    requires Yields(Moves(m, ps[i], false), moves, m')
    ensures Placed(m') && forall q | q in ps[i + 1..] :: q in m'.recs && OnBoard(m'.recs[q]) && m'.recs[q].color == c
    ensures moves != [] ==> NoneCanMove(m, c, ps[i..]) == (false, m')
    ensures moves == [] ==> NoneCanMove(m, c, ps[i..]) == NoneCanMove(m', c, ps[i + 1..])
  {
    hide Moves, Placed, Frame;
    assert ps[i..][1..] == ps[i + 1..];
    assert forall q | q in ps[i + 1..] :: q in ps[i..];
    FramePlaced(m, m', c);
    FrameKeepsOnBoard(m, m', c, ps[i + 1..]);
  }

  /** The end of the loop of NoneCanMove. */
  lemma NoneEnd(m: State, c: Color, ps: seq<Piece>)
    requires Placed(m)
    ensures NoneCanMove(m, c, ps[|ps|..]) == (true, m)
  {
  }

  /** Game.isInCheckmate: in check, and no piece of the side has a filtered
      move. A fault of isInCheck propagates. */
  function IsInCheckmate(st: State, c: Color): (r: (Result<bool, Fault>, State))
    requires Placed(st) && SideListed(st, c)
    ensures Frame(st, r.1, c)
    ensures r.0.Ok? && r.0.value ==> InCheck(st, c) == Ok(true)
    ensures InCheck(st, c).Err? ==> r.0 == InCheck(st, c)
  {
    match InCheck(st, c)
    case Err(f) => (Err(f), st)
    case Ok(check) =>
      if !check then (Ok(false), st)
      else
        var (stuck, st1) := NoneCanMove(st, c, PiecesOf(st, c));
        (Ok(stuck), st1)
  }

  /** Game.isInStalemate: not in check, and either both lists hold exactly
      one piece or no piece of the side has a filtered move. */
  function IsInStalemate(st: State, c: Color): (r: (Result<bool, Fault>, State))
    requires Placed(st) && SideListed(st, c)
    ensures Frame(st, r.1, c)
    ensures r.0.Ok? && r.0.value ==> InCheck(st, c) == Ok(false)
    ensures InCheck(st, c) == Ok(false) && |st.white| == 1 && |st.black| == 1 ==> r == (Ok(true), st)
    ensures InCheck(st, c).Err? ==> r.0 == InCheck(st, c)
  {
    match InCheck(st, c)
    case Err(f) => (Err(f), st)
    case Ok(check) =>
      if check then (Ok(false), st)
      else if |st.black| == 1 && |st.white| == 1 then (Ok(true), st)
      else
        var (stuck, st1) := NoneCanMove(st, c, PiecesOf(st, c));
        (Ok(stuck), st1)
  }

  /** The side to move next: White first, then alternating. */
  function NextTurn(turn: Option<Color>): (c: Color)
    ensures turn.Some? ==> c != turn.value
    ensures turn.None? ==> c == White
  {
    if turn.None? then White else OpponentColor(turn.value)
  }

  /** Game.startNewTurn: the turn passes to the next side; if that side is
      checkmated the game ends with the other side winning (Some(Some(w))),
      else if it is stalemated the game ends drawn (Some(None)), else the game
      goes on (None). A fault of isInCheck propagates with the state reached. */
  function StartNewTurn(st: State): (r: (Result<Option<Option<Color>>, Fault>, State))
    requires Placed(st) && SideListed(st, White) && SideListed(st, Black)
    ensures r.1.turn == Some(NextTurn(st.turn))
    ensures r.0.Ok? && r.0.value.Some? && r.0.value.value.Some? ==> r.0.value.value.value != NextTurn(st.turn)
  {
    var c := NextTurn(st.turn);
    ConcludeTurn(st.(turn := Some(c)), c)
  }

  /** The second half of Game.startNewTurn, once side c is to move: the
      checkmate test, then the stalemate test. */
  function ConcludeTurn(st1: State, c: Color): (r: (Result<Option<Option<Color>>, Fault>, State))
    requires Placed(st1) && SideListed(st1, White) && SideListed(st1, Black)
    ensures r.1.turn == st1.turn
    ensures r.0.Ok? && r.0.value.Some? && r.0.value.value.Some? ==> r.0.value.value.value != c
  {
    var (mate, st2) := IsInCheckmate(st1, c);
    if mate.Err? then (Err(mate.error), st2)
    else if mate.value then (Ok(Some(Some(OpponentColor(c)))), st2)
    else
      var (stale, st3) := IsInStalemate(st2, c);
      if stale.Err? then (Err(stale.error), st3)
      else if stale.value then (Ok(Some(None)), st3)
      else (Ok(None), st3)
  }

  /** The notifications Game.startNewTurn sends through Game.endGame for
      its outcome: one winner (None for a draw) when the game ended. */
  function Endings(outcome: Result<Option<Option<Color>>, Fault>): (r: seq<Option<Color>>)
    ensures |r| <= 1
    ensures r != [] <==> outcome.Ok? && outcome.value.Some?
  {
    if outcome.Ok? && outcome.value.Some? then [outcome.value.value] else []
  }

  /** Game.getPiecesThreatening: the pieces of the other side, in list order,
      whose (possibly filtered) moves include the target's spot. */
  function PiecesThreatening(st: State, target: Piece, regardless: bool): (r: (seq<Piece>, State))
    requires Placed(st) && target in st.recs && SideListed(st, OpponentColor(st.recs[target].color))
    ensures forall q | q in r.0 :: q in PiecesOf(st, OpponentColor(st.recs[target].color))
    ensures Frame(st, r.1, OpponentColor(st.recs[target].color))
    ensures regardless ==> r.1 == st
  {
    var c := OpponentColor(st.recs[target].color);
    Threats(st, st.recs[target].spot, c, PiecesOf(st, c), regardless)
  }

  /** The loop of Game.getPiecesThreatening over `ps`: keep a piece when its
      moves contain `at` (never, when `at` is null). */
  function Threats(st: State, at: Option<Spot>, c: Color, ps: seq<Piece>, regardless: bool): (r: (seq<Piece>, State))
    requires Placed(st)
    requires forall q | q in ps :: q in st.recs && OnBoard(st.recs[q]) && st.recs[q].color == c
    ensures forall q | q in r.0 :: q in ps
    ensures regardless ==> r.1 == st
    ensures Frame(st, r.1, c)
    decreases |ps|
  {
    hide Frame, Placed;
    if ps == [] then FrameRefl(st, c); ([], st)
    else
      var step := Moves(st, ps[0], regardless);
      var st1 := step.1;
      assert forall q | q in ps[1..] :: q in ps;
      FrameKeepsOnBoard(st, st1, c, ps[1..]);
      var moves := step.0;
      var (rest, st2) := Threats(st1, at, c, ps[1..], regardless);
      FrameTransitive(st, st1, st2, c);
      (if at.Some? && at.value in moves then [ps[0]] + rest else rest, st2)
  }

  /** One piece of the loop of Threats, whose moves are `moves` and leave
      the game in state m'. */
  lemma ThreatsStep(whole: (seq<Piece>, State), done: seq<Piece>, m: State, at: Option<Spot>, c: Color,
                    ps: seq<Piece>, i: int, regardless: bool, moves: seq<Spot>, m': State)
    requires Placed(m) && 0 <= i < |ps|
    requires forall q | q in ps[i..] :: q in m.recs && OnBoard(m.recs[q]) && m.recs[q].color == c
    requires Continues(whole, done, Threats(m, at, c, ps[i..], regardless))
    requires Yields(Moves(m, ps[i], regardless), moves, m')
    ensures Placed(m') && forall q | q in ps[i + 1..] :: q in m'.recs && OnBoard(m'.recs[q]) && m'.recs[q].color == c
    ensures Continues(whole, if at.Some? && at.value in moves then done + [ps[i]] else done,
                      Threats(m', at, c, ps[i + 1..], regardless))
  {
    hide Moves, Placed, Frame;
    assert ps[i..][1..] == ps[i + 1..];
    assert forall q | q in ps[i + 1..] :: q in ps[i..];
    FramePlaced(m, m', c);
    FrameKeepsOnBoard(m, m', c, ps[i + 1..]);
    var rest := Threats(m', at, c, ps[i + 1..], regardless).0;
    assert done + ([ps[i]] + rest) == done + [ps[i]] + rest;
  }

  /** The end of the loop of Threats. */
  lemma ThreatsEnd(whole: (seq<Piece>, State), done: seq<Piece>, m: State, at: Option<Spot>, c: Color,
                   ps: seq<Piece>, regardless: bool)
    requires Placed(m)
    requires Continues(whole, done, Threats(m, at, c, ps[|ps|..], regardless))
    ensures Yields(whole, done, m)
  {
    assert done + [] == done;
  }

  /** Piece.removeFromPlay followed by the removal from the side's list
      (Game.removePieceFromPlay). */
  function RemovePieceFromPlay(st: State, q: Piece): (st': State)
    requires q in st.recs && st.recs[q].spot.Some?
    ensures st'.recs == st.recs[q := Removed(st.recs[q])]
    ensures PiecesOf(st', st.recs[q].color) == RemoveFirst(PiecesOf(st, st.recs[q].color), q)
    ensures PiecesOf(st', OpponentColor(st.recs[q].color)) == PiecesOf(st, OpponentColor(st.recs[q].color))
    ensures st'.turn == st.turn
  {
    var st1 := TakeOff(st, q);
    WithPieces(st1, st.recs[q].color, RemoveFirst(PiecesOf(st1, st.recs[q].color), q))
  }

  /** Piece.removeFromPlay on the state: the piece leaves its spot (when the
      spot still names it) and goes out of play; the lists are untouched. */
  function TakeOff(st: State, q: Piece): (st': State)
    requires q in st.recs && st.recs[q].spot.Some?
    ensures st'.recs == st.recs[q := Removed(st.recs[q])] && !st'.recs[q].inPlay
    ensures st'.white == st.white && st'.black == st.black && st'.turn == st.turn
    ensures ValidSpot(Origin(st, q)) ==> Occupant(st', Origin(st, q)) != Some(q)
  {
    var home := Origin(st, q);
    var occ := if Occupant(st, home) == Some(q) then Place(st.occ, home, None) else st.occ;
    st.(occ := occ, recs := st.recs[q := Removed(st.recs[q])])
  }

  /** Game.movePieceTo: rejected with ChessError, changing nothing, unless
      the piece is in play, the spot is on the board and it is the piece's
      side's turn; otherwise the occupant of the spot (if any) is taken out of
      play, the piece moves there, and the captured occupant is returned. */
  function MovePieceTo(st: State, p: Piece, s: Spot): (r: (Result<Option<Piece>, Fault>, State))
    requires Consistent(st) && p in st.recs
    requires st.recs[p].spot == Some(s) ==> !(st.recs[p].inPlay && ValidSpot(s) && st.turn == Some(st.recs[p].color))
    ensures r.0.Err? <==> !(st.recs[p].inPlay && ValidSpot(s) && st.turn == Some(st.recs[p].color))
    ensures r.0.Err? ==> r.0.error == ChessError && r.1 == st
    ensures r.0.Ok? ==> r.0.value == Occupant(st, s)
  {
    if !(st.recs[p].inPlay && ValidSpot(s) && st.turn == Some(st.recs[p].color)) then (Err(ChessError), st)
    else
      var captured := Occupant(st, s);
      var st1 := if captured.Some? then RemovePieceFromPlay(st, captured.value) else st;
      (Ok(captured), PieceMoveTo(st1, p, s))
  }

  /** A proof step for Games.Game.MovePieceTo: the outcome of an accepted
      Game.movePieceTo, from its stages. */
  lemma MovePieceToStages(st: State, p: Piece, s: Spot, st1: State)
    requires Consistent(st) && p in st.recs && st.recs[p].spot != Some(s)
    requires st.recs[p].inPlay && ValidSpot(s) && st.turn == Some(st.recs[p].color)
    requires Occupant(st, s).Some? ==> Occupant(st, s).value in st.recs && st.recs[Occupant(st, s).value].spot.Some?
    requires st1 == if Occupant(st, s).Some? then RemovePieceFromPlay(st, Occupant(st, s).value) else st
    requires p in st1.recs && st1.recs[p].spot.Some?
    ensures MovePieceTo(st, p, s) == (Ok(Occupant(st, s)), PieceMoveTo(st1, p, s))
  {
  }

  /** Game.addPiece with the piece `q` the factory has just built: it stands
      on `s` and is appended to its side's list. */
  function AddPiece(st: State, q: Piece, kind: Kind, color: Color, s: Spot): (st': State)
    ensures st'.recs == st.recs[q := NewRec(kind, color, s)]
    ensures PiecesOf(st', color) == PiecesOf(st, color) + [q]
    ensures PiecesOf(st', OpponentColor(color)) == PiecesOf(st, OpponentColor(color))
    ensures ValidSpot(s) ==> Occupant(st', s) == Some(q)
    ensures forall t | t != s :: Occupant(st', t) == Occupant(st, t)
    ensures forall t | t in st'.occ :: t == s || t in st.occ
    ensures st'.turn == st.turn
  {
    var st1 := PutOn(st, q, kind, color, s);
    WithPieces(st1, color, PiecesOf(st1, color) + [q])
  }

  /** The Piece constructor on the state: a new piece in play on `s`; the
      lists are untouched. */
  function PutOn(st: State, q: Piece, kind: Kind, color: Color, s: Spot): (st': State)
    ensures st'.recs == st.recs[q := NewRec(kind, color, s)] && st'.recs[q].inPlay
    ensures st'.white == st.white && st'.black == st.black && st'.turn == st.turn
    ensures ValidSpot(s) ==> Occupant(st', s) == Some(q)
    ensures forall t | t != s :: Occupant(st', t) == Occupant(st, t)
    ensures forall t | t in st'.occ :: t == s || t in st.occ
  {
    st.(occ := Place(st.occ, s, Some(q)), recs := st.recs[q := NewRec(kind, color, s)])
  }
}
