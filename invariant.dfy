/** The public operations of chess/Game.java keep a game consistent: the
    queries restore it, and moves, captures and piece creation keep spots,
    pieces and lists naming each other. */
module GameInvariant {
  import opened Wrappers
  import opened Chess
  import opened Boards
  import opened Pieces
  import opened Rules
  import opened GameRules
  import opened Restoring

  /** In a consistent game both lists hold known pieces of their own colour. */
  lemma ConsistentListed(st: State)
    requires Consistent(st)
    ensures Placed(st) && SideListed(st, White) && SideListed(st, Black)
    ensures forall c: Color, q | q in PiecesOf(st, c) :: q in st.recs && OnBoard(st.recs[q]) && st.recs[q].color == c
  {
  }

  lemma {:induction false} NoneCanMoveRestores(st: State, c: Color, ps: seq<Piece>)
    requires Consistent(st)
    requires forall q | q in ps :: q in st.recs && OnBoard(st.recs[q]) && st.recs[q].color == c
    ensures Restored(st, NoneCanMove(st, c, ps).1)
    decreases |ps|
  {
    hide Consistent, Restored, Frame, Placed, Moves;
    ConsistentPlaced(st);
    if ps == [] {
      RestoredRefl(st);
    } else {
      var (moves, st1) := Moves(st, ps[0], false);
      MovesRestore(st, ps[0], false);
      RestoredConsistent(st, st1, ps[0]);
      assert forall q | q in ps[1..] :: q in ps;
      FrameKeepsOnBoard(st, st1, c, ps[1..]);
      if moves == [] {
        NoneCanMoveRestores(st1, c, ps[1..]);
        RestoredTransitive(st, st1, NoneCanMove(st1, c, ps[1..]).1);
      }
    }
  }

  lemma {:induction false} ThreatsRestore(st: State, at: Option<Spot>, c: Color, ps: seq<Piece>, regardless: bool)
    requires Consistent(st)
    requires forall q | q in ps :: q in st.recs && OnBoard(st.recs[q]) && st.recs[q].color == c
    ensures Restored(st, Threats(st, at, c, ps, regardless).1)
    decreases |ps|
  {
    hide Consistent, Restored, Frame, Placed, Moves;
    ConsistentPlaced(st);
    if ps == [] {
      RestoredRefl(st);
    } else {
      var (moves, st1) := Moves(st, ps[0], regardless);
      MovesRestore(st, ps[0], regardless);
      RestoredConsistent(st, st1, ps[0]);
      assert forall q | q in ps[1..] :: q in ps;
      FrameKeepsOnBoard(st, st1, c, ps[1..]);
      ThreatsRestore(st1, at, c, ps[1..], regardless);
      RestoredTransitive(st, st1, Threats(st1, at, c, ps[1..], regardless).1);
    }
  }

  /** Game.getPiecesThreatening restores a consistent game. */
  lemma ThreateningRestores(st: State, target: Piece, regardless: bool)
    requires Consistent(st) && target in st.recs
    ensures Restored(st, PiecesThreatening(st, target, regardless).1)
  {
    ConsistentListed(st);
    var c := OpponentColor(st.recs[target].color);
    ThreatsRestore(st, st.recs[target].spot, c, PiecesOf(st, c), regardless);
  }

  /** Game.isInCheckmate restores a consistent game. */
  lemma CheckmateRestores(st: State, c: Color)
    requires Consistent(st)
    ensures Restored(st, IsInCheckmate(st, c).1)
  {
    hide Restored, Frame, NoneCanMove;
    ConsistentListed(st);
    RestoredRefl(st);
    NoneCanMoveRestores(st, c, PiecesOf(st, c));
  }

  /** Game.isInStalemate restores a consistent game. */
  lemma StalemateRestores(st: State, c: Color)
    requires Consistent(st)
    ensures Restored(st, IsInStalemate(st, c).1)
  {
    hide Restored, Frame, NoneCanMove;
    ConsistentListed(st);
    RestoredRefl(st);
    NoneCanMoveRestores(st, c, PiecesOf(st, c));
  }

  /** Changing the turn keeps a game consistent. */
  lemma TurnConsistent(st: State, t: Option<Color>)
    requires Consistent(st)
    ensures Consistent(st.(turn := t))
  {
  }

  /** Game.startNewTurn keeps a consistent game consistent: apart from the
      turn, it restores the game. */
  lemma NewTurnRestores(st: State)
    requires Consistent(st)
    ensures Restored(st.(turn := Some(NextTurn(st.turn))), StartNewTurn(st).1)
    ensures Consistent(StartNewTurn(st).1)
  {
    hide Consistent, Restored, Frame, IsInCheckmate, IsInStalemate;
    var c := NextTurn(st.turn);
    var st1 := st.(turn := Some(c));
    TurnConsistent(st, Some(c));
    ConsistentListed(st1);
    var (mate, st2) := IsInCheckmate(st1, c);
    CheckmateRestores(st1, c);
    KeepsConsistent(st1, st2);
    if mate.Ok? && !mate.value {
      ConsistentListed(st2);
      var st3 := IsInStalemate(st2, c).1;
      StalemateRestores(st2, c);
      KeepsConsistent(st2, st3);
      RestoredTransitive(st1, st2, st3);
    }
  }

  /** Dropping the first occurrence of q from a list that holds it once
      leaves a list without q and without duplicates. */
  lemma RemoveOnly(xs: seq<Piece>, q: Piece)
    requires NoDuplicates(xs) && q in xs
    ensures q !in RemoveFirst(xs, q) && NoDuplicates(RemoveFirst(xs, q))
    ensures forall x | x in xs && x != q :: x in RemoveFirst(xs, q)
  {
    var r: seq<Piece> := RemoveFirst<Piece>(xs, q);
    var mr: multiset<Piece> := multiset(r);
    var mx: multiset<Piece> := multiset(xs);
    assert mr[q] + 1 == mx[q];
    assert mr[q] == 0;
    forall x | x in xs && x != q
      ensures x in r
    {
      assert x in mx;
    }
  }

  /** Game.removePieceFromPlay keeps a consistent game consistent: the piece
      leaves its spot, its list and play. */
  lemma RemoveConsistent(st: State, q: Piece)
    requires Consistent(st) && q in st.recs && st.recs[q].inPlay
    ensures Consistent(RemovePieceFromPlay(st, q))
    ensures RemovePieceFromPlay(st, q).occ == Place(st.occ, Origin(st, q), None)
    ensures q !in PiecesOf(RemovePieceFromPlay(st, q), st.recs[q].color)
  {
    hide Placed, SpotIffInPlay, OccupantsAgree, InPlayOccupy, InPlayListed, ListedInPlay, NoDuplicates;
    RemoveBoard(st, q);
    RemoveLists(st, q);
  }

  /** A piece in play in a consistent game stands on a spot that names it
      and is listed once, in the list of its colour. */
  lemma ListedOnce(st: State, q: Piece)
    requires Consistent(st) && q in st.recs && st.recs[q].inPlay
    ensures OnBoard(st.recs[q]) && Occupant(st, Origin(st, q)) == Some(q)
    ensures q in PiecesOf(st, st.recs[q].color) && NoDuplicates(PiecesOf(st, st.recs[q].color))
    ensures q !in PiecesOf(st, OpponentColor(st.recs[q].color))
  {
  }

  /** The occupant of a spot in a consistent game is in play on that spot. */
  lemma OccupantInPlay(st: State, s: Spot)
    requires Consistent(st) && Occupied(st, s)
    ensures st.occ[s] in st.recs && st.recs[st.occ[s]].inPlay && st.recs[st.occ[s]].spot == Some(s)
  {
  }

  lemma RemoveBoard(st: State, q: Piece)
    requires Consistent(st) && q in st.recs && st.recs[q].inPlay
    ensures var st' := RemovePieceFromPlay(st, q);
      st'.occ == Place(st.occ, Origin(st, q), None) &&
      Placed(st') && SpotIffInPlay(st') && OccupantsAgree(st') && InPlayOccupy(st')
  {
    hide Placed, SpotIffInPlay, OccupantsAgree, InPlayOccupy, InPlayListed, ListedInPlay, NoDuplicates;
    RemovePlaced(st, q);
    RemoveOccupants(st, q);
  }

  lemma RemovePlaced(st: State, q: Piece)
    requires Consistent(st) && q in st.recs && st.recs[q].inPlay
    ensures Placed(RemovePieceFromPlay(st, q))
  {
    hide SpotIffInPlay, InPlayOccupy, InPlayListed, ListedInPlay, NoDuplicates;
    ListedOnce(st, q);
    var st' := RemovePieceFromPlay(st, q);
    var c := st.recs[q].color;
    RemoveOnly(PiecesOf(st, c), q);
    assert PiecesOf(st', c) == RemoveFirst(PiecesOf(st, c), q);
    assert forall x | x in PiecesOf(st', c) :: x in PiecesOf(st, c) && x != q;
    assert forall x | x in PiecesOf(st', OpponentColor(c)) :: x in PiecesOf(st, OpponentColor(c)) && x != q;
    assert st'.recs == st.recs[q := Removed(st.recs[q])];
    forall x | x in st'.white
      ensures x in st'.recs && OnBoard(st'.recs[x])
    {
      assert x in st.white && x != q by {
        if c == White {} else {}
      }
    }
    forall x | x in st'.black
      ensures x in st'.recs && OnBoard(st'.recs[x])
    {
      assert x in st.black && x != q by {
        if c == White {} else {}
      }
    }
    forall t | t in st'.occ
      ensures ValidSpot(t) && st'.occ[t] in st'.recs && OnBoard(st'.recs[st'.occ[t]])
    {
      assert t in st.occ && st.occ[t] != q;
    }
  }

  lemma RemoveOccupants(st: State, q: Piece)
    requires Consistent(st) && q in st.recs && st.recs[q].inPlay
    ensures var st' := RemovePieceFromPlay(st, q);
      st'.occ == Place(st.occ, Origin(st, q), None) &&
      SpotIffInPlay(st') && OccupantsAgree(st') && InPlayOccupy(st')
  {
    hide Placed, InPlayListed, ListedInPlay, NoDuplicates;
    var st' := RemovePieceFromPlay(st, q);
    ListedOnce(st, q);
    assert forall t | t in st'.occ :: t in st.occ && st.occ[t] != q && st'.occ[t] == st.occ[t];
    assert st'.recs == st.recs[q := Removed(st.recs[q])];
  }

  lemma RemoveLists(st: State, q: Piece)
    requires Consistent(st) && q in st.recs && st.recs[q].inPlay
    ensures var st' := RemovePieceFromPlay(st, q);
      q !in PiecesOf(st', st.recs[q].color) &&
      InPlayListed(st') && ListedInPlay(st') && NoDuplicates(st'.white) && NoDuplicates(st'.black)
  {
    hide Placed, SpotIffInPlay, OccupantsAgree, InPlayOccupy, NoDuplicates;
    ListedOnce(st, q);
    var st' := RemovePieceFromPlay(st, q);
    var c := st.recs[q].color;
    RemoveOnly(PiecesOf(st, c), q);
    assert PiecesOf(st', c) == RemoveFirst(PiecesOf(st, c), q);
    assert PiecesOf(st', OpponentColor(c)) == PiecesOf(st, OpponentColor(c));
    assert st'.recs == st.recs[q := Removed(st.recs[q])];
    assert NoDuplicates(st'.white) && NoDuplicates(st'.black) by {
      if c == White {} else {}
    }
    forall x | x in st'.recs && st'.recs[x].inPlay
      ensures x in PiecesOf(st', st'.recs[x].color)
    {
      assert x != q && x in PiecesOf(st, st.recs[x].color);
      if st.recs[x].color != c {
        assert st.recs[x].color == OpponentColor(c);
      }
    }
    forall x | x in PiecesOf(st', c)
      ensures x in st'.recs && st'.recs[x].color == c && st'.recs[x].inPlay
    {
      assert x in PiecesOf(st, c) && x != q;
    }
    forall x | x in PiecesOf(st', OpponentColor(c))
      ensures x in st'.recs && st'.recs[x].color == OpponentColor(c) && st'.recs[x].inPlay
    {
      assert x in PiecesOf(st, OpponentColor(c)) && st.recs[x].color != c;
    }
    assert ListedInPlay(st') by {
      if c == White {} else {}
    }
  }

  /** Game.movePieceTo keeps a consistent game consistent. When it succeeds,
      the captured occupant (if any) is out of play and out of its list, the
      mover stands on `s` with the fields Piece.moveTo gives it, its old spot
      is empty and no other spot changes. */
  lemma MoveConsistent(st: State, p: Piece, s: Spot)
    requires Consistent(st) && p in st.recs
    requires st.recs[p].spot == Some(s) ==> !(st.recs[p].inPlay && ValidSpot(s) && st.turn == Some(st.recs[p].color))
    ensures Consistent(MovePieceTo(st, p, s).1)
    ensures MovePieceTo(st, p, s).0.Ok? ==>
              var st' := MovePieceTo(st, p, s).1;
              Occupant(st', s) == Some(p) && Occupant(st', Origin(st, p)) == None &&
              st'.recs[p] == Moved(st.recs[p], s) &&
              forall t | t != s && t != Origin(st, p) :: Occupant(st', t) == Occupant(st, t)
    ensures MovePieceTo(st, p, s).0.Ok? && MovePieceTo(st, p, s).0.value.Some? ==>
              var q := MovePieceTo(st, p, s).0.value.value;
              var st' := MovePieceTo(st, p, s).1;
              q in st'.recs && !st'.recs[q].inPlay && q !in PiecesOf(st', st.recs[q].color)
    ensures MovePieceTo(st, p, s).0.Ok? ==>
              var captured, st' := MovePieceTo(st, p, s).0.value, MovePieceTo(st, p, s).1;
              st'.turn == st.turn && st'.recs.Keys == st.recs.Keys &&
              (forall q | q in st.recs && q != p && Some(q) != captured :: st'.recs[q] == st.recs[q]) &&
              (captured == None ==> st'.white == st.white && st'.black == st.black) &&
              (captured.Some? ==>
                 captured.value in st.recs && st'.recs[captured.value] == Removed(st.recs[captured.value]) &&
                 var c := st.recs[captured.value].color;
                 PiecesOf(st', c) == RemoveFirst(PiecesOf(st, c), captured.value) &&
                 PiecesOf(st', OpponentColor(c)) == PiecesOf(st, OpponentColor(c)))
  {
    hide SpotIffInPlay, InPlayListed, ListedInPlay, NoDuplicates;
    if st.recs[p].inPlay && ValidSpot(s) && st.turn == Some(st.recs[p].color) {
      var captured := Occupant(st, s);
      var home := Origin(st, p);
      assert Occupant(st, home) == Some(p);
      var st1 := if captured.Some? then RemovePieceFromPlay(st, captured.value) else st;
      if captured.Some? {
        RemoveConsistent(st, captured.value);
      }
      assert Consistent(st1) && st1.recs[p] == st.recs[p] && Occupant(st1, home) == Some(p);
      assert !Occupied(st1, s);
      MoveKeepsConsistent(st1, p, s);
    }
  }

  /** Piece.moveTo to an empty stored spot keeps a consistent game consistent. */
  lemma MoveKeepsConsistent(st: State, p: Piece, s: Spot)
    requires Consistent(st) && p in st.recs && st.recs[p].inPlay && ValidSpot(s) && !Occupied(st, s)
    ensures Consistent(PieceMoveTo(st, p, s))
  {
    ListedOnce(st, p);
    hide Placed, SpotIffInPlay, OccupantsAgree, InPlayOccupy, InPlayListed, ListedInPlay, NoDuplicates;
    var st' := PieceMoveTo(st, p, s);
    PieceMoveToPlaced(st, p, s);
    MoveAgree(st, p, s);
    ListsKept(st, st');
  }

  /** The board clauses of Consistent after Piece.moveTo to an empty stored spot. */
  lemma MoveAgree(st: State, p: Piece, s: Spot)
    requires Consistent(st) && p in st.recs && st.recs[p].inPlay && ValidSpot(s) && !Occupied(st, s)
    ensures var st' := PieceMoveTo(st, p, s);
      SpotIffInPlay(st') && OccupantsAgree(st') && InPlayOccupy(st')
  {
    hide Consistent, SpotIffInPlay, OccupantsAgree, InPlayOccupy;
    MoveAgreeOccupants(st, p, s);
    MoveAgreeInPlay(st, p, s);
  }

  lemma MoveAgreeOccupants(st: State, p: Piece, s: Spot)
    requires Consistent(st) && p in st.recs && st.recs[p].inPlay && ValidSpot(s) && !Occupied(st, s)
    ensures var st' := PieceMoveTo(st, p, s);
      SpotIffInPlay(st') && OccupantsAgree(st')
  {
    hide InPlayListed, ListedInPlay, NoDuplicates;
    var st' := PieceMoveTo(st, p, s);
    var home := Origin(st, p);
    assert Occupant(st, home) == Some(p);
    assert forall t | t in st'.occ :: (t == s && st'.occ[t] == p) || (t in st.occ && t != home && st'.occ[t] == st.occ[t]);
  }

  lemma MoveAgreeInPlay(st: State, p: Piece, s: Spot)
    requires Consistent(st) && p in st.recs && st.recs[p].inPlay && ValidSpot(s) && !Occupied(st, s)
    ensures InPlayOccupy(PieceMoveTo(st, p, s))
  {
    hide InPlayListed, ListedInPlay, NoDuplicates, Placed, SpotIffInPlay;
    var st' := PieceMoveTo(st, p, s);
    var home := Origin(st, p);
    assert Occupant(st, home) == Some(p);
    assert forall x | x in st'.recs && x != p && st'.recs[x].inPlay :: st'.recs[x].spot.value != s;
  }

  /** The list clauses only look at the lists and at colours and play. */
  lemma ListsKept(st: State, st': State)
    requires InPlayListed(st) && ListedInPlay(st) && NoDuplicates(st.white) && NoDuplicates(st.black)
    requires st'.white == st.white && st'.black == st.black && st'.recs.Keys == st.recs.Keys
    requires forall x | x in st.recs :: st'.recs[x].inPlay == st.recs[x].inPlay && st'.recs[x].color == st.recs[x].color
    ensures InPlayListed(st') && ListedInPlay(st') && NoDuplicates(st'.white) && NoDuplicates(st'.black)
  {
  }

  /** Game.addPiece on an empty stored spot keeps a consistent game consistent. */
  lemma AddConsistent(st: State, q: Piece, kind: Kind, color: Color, s: Spot)
    requires Consistent(st) && q !in st.recs && ValidSpot(s) && !Occupied(st, s)
    ensures Consistent(AddPiece(st, q, kind, color, s))
  {
    hide Placed, SpotIffInPlay, OccupantsAgree, InPlayOccupy, InPlayListed, ListedInPlay, NoDuplicates;
    AddBoard(st, q, kind, color, s);
    AddLists(st, q, kind, color, s);
  }

  lemma AddBoard(st: State, q: Piece, kind: Kind, color: Color, s: Spot)
    requires Consistent(st) && q !in st.recs && ValidSpot(s) && !Occupied(st, s)
    ensures var st' := AddPiece(st, q, kind, color, s);
      Placed(st') && SpotIffInPlay(st') && OccupantsAgree(st') && InPlayOccupy(st')
  {
    hide Consistent, Placed, SpotIffInPlay, OccupantsAgree, InPlayOccupy;
    AddPlaced(st, q, kind, color, s);
    AddAgree(st, q, kind, color, s);
    AddOccupy(st, q, kind, color, s);
  }

  lemma AddPlaced(st: State, q: Piece, kind: Kind, color: Color, s: Spot)
    requires Consistent(st) && q !in st.recs && ValidSpot(s) && !Occupied(st, s)
    ensures Placed(AddPiece(st, q, kind, color, s))
  {
    hide Consistent;
    var st' := AddPiece(st, q, kind, color, s);
    AddPlacedBoard(st, q, kind, color, s);
    AddPlacedLists(st, q, kind, color, s);
  }

  lemma AddPlacedBoard(st: State, q: Piece, kind: Kind, color: Color, s: Spot)
    requires Consistent(st) && q !in st.recs && ValidSpot(s) && !Occupied(st, s)
    ensures var st' := AddPiece(st, q, kind, color, s);
      (forall t | t in st'.occ :: ValidSpot(t) && st'.occ[t] in st'.recs && OnBoard(st'.recs[st'.occ[t]])) &&
      (forall x | x in st'.recs :: st'.recs[x].moveParity in {0, 1})
  {
    hide InPlayListed, ListedInPlay, NoDuplicates, SpotIffInPlay, OccupantsAgree, InPlayOccupy;
    var st' := AddPiece(st, q, kind, color, s);
    assert forall t | t in st'.occ :: (t == s && st'.occ[t] == q) || (t in st.occ && st'.occ[t] == st.occ[t]);
  }

  lemma AddPlacedLists(st: State, q: Piece, kind: Kind, color: Color, s: Spot)
    requires Consistent(st) && q !in st.recs && ValidSpot(s) && !Occupied(st, s)
    ensures var st' := AddPiece(st, q, kind, color, s);
      (forall x | x in st'.white :: x in st'.recs && OnBoard(st'.recs[x])) &&
      (forall x | x in st'.black :: x in st'.recs && OnBoard(st'.recs[x]))
  {
    hide InPlayListed, ListedInPlay, NoDuplicates, SpotIffInPlay, OccupantsAgree, InPlayOccupy;
    var st' := AddPiece(st, q, kind, color, s);
    assert forall x | x in st'.white :: x in st.white || x == q;
    assert forall x | x in st'.black :: x in st.black || x == q;
  }

  lemma AddAgree(st: State, q: Piece, kind: Kind, color: Color, s: Spot)
    requires Consistent(st) && q !in st.recs && ValidSpot(s) && !Occupied(st, s)
    ensures var st' := AddPiece(st, q, kind, color, s);
      SpotIffInPlay(st') && OccupantsAgree(st')
  {
    hide InPlayListed, ListedInPlay, NoDuplicates, Placed, InPlayOccupy;
    var st' := AddPiece(st, q, kind, color, s);
    assert forall t | t in st'.occ :: (t == s && st'.occ[t] == q) || (t in st.occ && st'.occ[t] == st.occ[t]);
  }

  lemma AddOccupy(st: State, q: Piece, kind: Kind, color: Color, s: Spot)
    requires Consistent(st) && q !in st.recs && ValidSpot(s) && !Occupied(st, s)
    ensures InPlayOccupy(AddPiece(st, q, kind, color, s))
  {
    hide InPlayListed, ListedInPlay, NoDuplicates, Placed, SpotIffInPlay, OccupantsAgree;
    var st' := AddPiece(st, q, kind, color, s);
    assert forall x | x in st.recs && st.recs[x].inPlay :: Origin(st, x) != s;
  }

  lemma AddLists(st: State, q: Piece, kind: Kind, color: Color, s: Spot)
    requires Consistent(st) && q !in st.recs && ValidSpot(s) && !Occupied(st, s)
    ensures var st' := AddPiece(st, q, kind, color, s);
      InPlayListed(st') && ListedInPlay(st') && NoDuplicates(st'.white) && NoDuplicates(st'.black)
  {
    hide Placed, SpotIffInPlay, OccupantsAgree, InPlayOccupy, NoDuplicates;
    var st' := AddPiece(st, q, kind, color, s);
    assert q !in PiecesOf(st, color);
    AppendNew(PiecesOf(st, color), q);
    assert PiecesOf(st', OpponentColor(color)) == PiecesOf(st, OpponentColor(color));
    assert NoDuplicates(st'.white) && NoDuplicates(st'.black) by {
      if color == White {} else {}
    }
    forall x | x in st'.recs && st'.recs[x].inPlay
      ensures x in PiecesOf(st', st'.recs[x].color)
    {
      if x != q {
        assert x in PiecesOf(st, st.recs[x].color);
        if st.recs[x].color != color {
          assert st.recs[x].color == OpponentColor(color);
        }
      }
    }
    forall x | x in PiecesOf(st', color)
      ensures x in st'.recs && st'.recs[x].color == color && st'.recs[x].inPlay
    {
      assert x in PiecesOf(st, color) || x == q;
    }
    forall x | x in PiecesOf(st', OpponentColor(color))
      ensures x in st'.recs && st'.recs[x].color == OpponentColor(color) && st'.recs[x].inPlay
    {
      assert x in PiecesOf(st, OpponentColor(color));
    }
    assert ListedInPlay(st') by {
      if color == White {} else {}
    }
  }

  /** Appending an element a list does not hold keeps it free of duplicates. */
  lemma AppendNew(xs: seq<Piece>, q: Piece)
    requires NoDuplicates(xs) && q !in xs
    ensures NoDuplicates(xs + [q])
  {
    var ys: seq<Piece> := xs + [q];
    var mx: multiset<Piece> := multiset(xs);
    var my: multiset<Piece> := multiset(ys);
    assert my == mx + multiset([q]);
    assert forall x | x in ys :: x in xs || x == q;
  }
}
