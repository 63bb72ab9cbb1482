/** Game.startGame on the model: the calls of Game.addPiece it makes for the
    starting layout, the state they build, and what that state looks like. */
module Setup {
  import opened Wrappers
  import opened Chess
  import opened Boards
  import opened Pieces
  import opened Rules
  import opened GameRules
  import opened Restoring
  import opened GameInvariant

  /** One call of Game.addPiece: the kind, the side and the spot. */
  datatype Placement = Placement(kind: Kind, color: Color, spot: Spot)

  /** The calls Game.startGame makes for the first n columns of one row
      configuration, column 0 first. */
  function RowLayout(cfg: RowConfiguration, n: nat): (ps: seq<Placement>)
    requires n <= |cfg.pieces|
    ensures |ps| == n
    ensures forall col | 0 <= col < n :: ps[col] == Placement(cfg.pieces[col], cfg.sideColor, Spot(cfg.row, col))
  {
    if n == 0 then [] else RowLayout(cfg, n - 1) + [Placement(cfg.pieces[n - 1], cfg.sideColor, Spot(cfg.row, n - 1))]
  }

  /** The calls Game.startGame makes for a list of full row configurations,
      in order: call NumCols * k + col places column col of configuration k. */
  function Layout(configs: seq<RowConfiguration>): (ps: seq<Placement>)
    requires forall k | 0 <= k < |configs| :: |configs[k].pieces| == NumCols
    ensures |ps| == NumCols * |configs|
    ensures forall k, col | 0 <= k < |configs| && 0 <= col < NumCols ::
              ps[NumCols * k + col] == Placement(configs[k].pieces[col], configs[k].sideColor, Spot(configs[k].row, col))
  {
    if configs == [] then []
    else
      var n := |configs| - 1;
      var ps := Layout(configs[..n]) + RowLayout(configs[n], NumCols);
      assert forall i | 0 <= i < NumCols * n :: ps[i] == Layout(configs[..n])[i];
      ps
  }

  /** The state after Game.addPiece has put the pieces qs on the board one
      after the other, piece qs[i] as ps[i] says. */
  function AddAll(st: State, qs: seq<Piece>, ps: seq<Placement>): (st': State)
    requires |qs| == |ps|
    ensures st'.turn == st.turn
  {
    if qs == [] then st
    else
      var n := |qs| - 1;
      AddPiece(AddAll(st, qs[..n], ps[..n]), qs[n], ps[n].kind, ps[n].color, ps[n].spot)
  }

  /** The spots a list of calls fills. */
  function Spots(ps: seq<Placement>): set<Spot>
  {
    set p | p in ps :: p.spot
  }

  /** How many of a list of calls add a piece of side c. */
  function CountOf(ps: seq<Placement>, c: Color): (n: nat)
    ensures n <= |ps|
  {
    if ps == [] then 0 else CountOf(ps[..|ps| - 1], c) + (if ps[|ps| - 1].color == c then 1 else 0)
  }

  /** Adding one more piece at the end of the calls is one more
      Game.addPiece on the state reached so far. */
  lemma AddStep(st: State, qs: seq<Piece>, ps: seq<Placement>, q: Piece, p: Placement)
    requires |qs| == |ps|
    ensures AddAll(st, qs + [q], ps + [p]) == AddPiece(AddAll(st, qs, ps), q, p.kind, p.color, p.spot)
  {
    assert (qs + [q])[..|qs|] == qs;
    assert (ps + [p])[..|ps|] == ps;
  }

  /** The calls for one more row configuration follow those for the ones
      before it. */
  lemma LayoutStep(configs: seq<RowConfiguration>, k: nat)
    requires k < |configs| && forall j | 0 <= j < |configs| :: |configs[j].pieces| == NumCols
    ensures Layout(configs[..k + 1]) == Layout(configs[..k]) + RowLayout(configs[k], NumCols)
  {
    assert configs[..k + 1][..k] == configs[..k];
  }

  /** Calls that each bring a new piece to an empty spot of its own. */
  predicate Fresh(st: State, qs: seq<Piece>, ps: seq<Placement>)
  {
    |qs| == |ps| &&
    (forall i, j | 0 <= i < j < |qs| :: qs[i] != qs[j] && ps[i].spot != ps[j].spot) &&
    (forall i | 0 <= i < |qs| :: qs[i] !in st.recs && ValidSpot(ps[i].spot) && !Occupied(st, ps[i].spot))
  }

  /** What the calls ps with the pieces qs have made of st: each piece
      stands on its spot with the fields of a new piece, nothing else was
      added, and each side's list grew by the number of calls for that side. */
  predicate Built(st: State, qs: seq<Piece>, ps: seq<Placement>, st': State)
    requires |qs| == |ps|
  {
    (forall q | q in st'.recs :: q in st.recs || q in qs) &&
    (forall t | t in st'.occ :: t in st.occ || t in Spots(ps)) &&
    (forall i | 0 <= i < |qs| ::
       Occupant(st', ps[i].spot) == Some(qs[i]) && qs[i] in st'.recs &&
       st'.recs[qs[i]] == NewRec(ps[i].kind, ps[i].color, ps[i].spot)) &&
    (forall c: Color :: |PiecesOf(st', c)| == |PiecesOf(st, c)| + CountOf(ps, c))
  }

  /** Game.addPiece, call after call, keeps a consistent game consistent as
      long as every call brings a new piece to an empty spot of its own, and
      builds what Built describes. */
  lemma {:induction false} AddAllConsistent(st: State, qs: seq<Piece>, ps: seq<Placement>)
    requires Consistent(st) && Fresh(st, qs, ps)
    ensures Consistent(AddAll(st, qs, ps)) && Built(st, qs, ps, AddAll(st, qs, ps))
    decreases |qs|
  {
    hide Consistent, AddPiece, AddAll, Fresh, Built;
    if qs == [] {
      BuiltNothing(st, qs, ps);
    } else {
      FreshPrefix(st, qs, ps);
      var n := |qs| - 1;
      var prev := AddAll(st, qs[..n], ps[..n]);
      AddAllConsistent(st, qs[..n], ps[..n]);
      assert qs == qs[..n] + [qs[n]] && ps == ps[..n] + [ps[n]];
      AddStep(st, qs[..n], ps[..n], qs[n], ps[n]);
      BuiltStep(st, qs, ps, prev, AddAll(st, qs, ps));
      AddConsistent(prev, qs[n], ps[n].kind, ps[n].color, ps[n].spot);
    }
  }

  /** No calls build nothing. */
  lemma BuiltNothing(st: State, qs: seq<Piece>, ps: seq<Placement>)
    requires Fresh(st, qs, ps) && qs == []
    ensures AddAll(st, qs, ps) == st && Built(st, qs, ps, st)
  {
  }

  /** Leaving out the last call keeps the calls fresh. */
  lemma FreshPrefix(st: State, qs: seq<Piece>, ps: seq<Placement>)
    requires Fresh(st, qs, ps) && qs != []
    ensures |qs| == |ps| && Fresh(st, qs[..|qs| - 1], ps[..|ps| - 1])
  {
  }

  /** One more fresh call extends what has been built. */
  lemma BuiltStep(st: State, qs: seq<Piece>, ps: seq<Placement>, prev: State, next: State)
    requires Fresh(st, qs, ps) && qs != []
    requires Built(st, qs[..|qs| - 1], ps[..|ps| - 1], prev)
    requires next == AddPiece(prev, qs[|qs| - 1], ps[|ps| - 1].kind, ps[|ps| - 1].color, ps[|ps| - 1].spot)
    ensures qs[|qs| - 1] !in prev.recs && ValidSpot(ps[|ps| - 1].spot) && !Occupied(prev, ps[|ps| - 1].spot)
    ensures Built(st, qs, ps, next)
  {
    hide AddPiece, Fresh, Built;
    StepFree(st, qs, ps, prev);
    StepKeys(st, qs, ps, prev, next);
    StepPlaced(st, qs, ps, prev, next);
    StepCount(st, qs, ps, prev, next);
    BuiltIntro(st, qs, ps, next);
  }

  lemma BuiltIntro(st: State, qs: seq<Piece>, ps: seq<Placement>, st': State)
    requires Fresh(st, qs, ps)
    requires forall q | q in st'.recs :: q in st.recs || q in qs
    requires forall t | t in st'.occ :: t in st.occ || t in Spots(ps)
    requires forall i | 0 <= i < |qs| ::
               Occupant(st', ps[i].spot) == Some(qs[i]) && qs[i] in st'.recs &&
               st'.recs[qs[i]] == NewRec(ps[i].kind, ps[i].color, ps[i].spot)
    requires forall c: Color :: |PiecesOf(st', c)| == |PiecesOf(st, c)| + CountOf(ps, c)
    ensures Built(st, qs, ps, st')
  {
  }

  /** The next piece is new to the state built so far and its spot is still empty. */
  lemma StepFree(st: State, qs: seq<Piece>, ps: seq<Placement>, prev: State)
    requires Fresh(st, qs, ps) && qs != []
    requires Built(st, qs[..|qs| - 1], ps[..|ps| - 1], prev)
    ensures qs[|qs| - 1] !in prev.recs && ValidSpot(ps[|ps| - 1].spot) && !Occupied(prev, ps[|ps| - 1].spot)
  {
    hide AddPiece, Fresh, Built;
    var n := |qs| - 1;
    FreshPrefix(st, qs, ps);
    FreshLast(st, qs, ps);
    BuiltKeys(st, qs[..n], ps[..n], prev);
    assert qs[n] !in qs[..n];
    forall p | p in ps[..n]
      ensures p.spot != ps[n].spot
    {
      var i :| 0 <= i < n && ps[..n][i] == p;
    }
  }

  /** What Fresh says about the last call. */
  lemma FreshLast(st: State, qs: seq<Piece>, ps: seq<Placement>)
    requires Fresh(st, qs, ps) && qs != []
    ensures |qs| == |ps|
    ensures qs[|qs| - 1] !in st.recs && ValidSpot(ps[|ps| - 1].spot) && !Occupied(st, ps[|ps| - 1].spot)
    ensures forall i | 0 <= i < |qs| - 1 :: qs[i] != qs[|qs| - 1] && ps[i].spot != ps[|ps| - 1].spot
  {
  }

  /** What Built says about the pieces and spots of the state built. */
  lemma BuiltKeys(st: State, qs: seq<Piece>, ps: seq<Placement>, st': State)
    requires |qs| == |ps| && Built(st, qs, ps, st')
    ensures forall q | q in st'.recs :: q in st.recs || q in qs
    ensures forall t | t in st'.occ :: t in st.occ || t in Spots(ps)
  {
  }

  /** One more call adds its piece to the pieces and its spot to the board. */
  lemma StepKeys(st: State, qs: seq<Piece>, ps: seq<Placement>, prev: State, next: State)
    requires Fresh(st, qs, ps) && qs != []
    requires Built(st, qs[..|qs| - 1], ps[..|ps| - 1], prev)
    requires next == AddPiece(prev, qs[|qs| - 1], ps[|ps| - 1].kind, ps[|ps| - 1].color, ps[|ps| - 1].spot)
    ensures forall q | q in next.recs :: q in st.recs || q in qs
    ensures forall t | t in next.occ :: t in st.occ || t in Spots(ps)
  {
    hide AddPiece;
    var n := |qs| - 1;
    forall q | q in next.recs
      ensures q in st.recs || q in qs
    {
      if q != qs[n] && q !in st.recs {
        assert q in qs[..n];
      }
    }
    forall t | t in next.occ
      ensures t in st.occ || t in Spots(ps)
    {
      if t != ps[n].spot && t !in st.occ {
        var x :| x in ps[..n] && x.spot == t;
        assert x in ps;
      }
    }
  }

  /** One more call leaves the pieces already placed where they are. */
  lemma StepPlaced(st: State, qs: seq<Piece>, ps: seq<Placement>, prev: State, next: State)
    requires Fresh(st, qs, ps) && qs != []
    requires Built(st, qs[..|qs| - 1], ps[..|ps| - 1], prev)
    requires next == AddPiece(prev, qs[|qs| - 1], ps[|ps| - 1].kind, ps[|ps| - 1].color, ps[|ps| - 1].spot)
    ensures forall i | 0 <= i < |qs| ::
              Occupant(next, ps[i].spot) == Some(qs[i]) && qs[i] in next.recs &&
              next.recs[qs[i]] == NewRec(ps[i].kind, ps[i].color, ps[i].spot)
  {
    hide AddPiece, Fresh, Built;
    var n := |qs| - 1;
    FreshPrefix(st, qs, ps);
    StepFree(st, qs, ps, prev);
    forall i | 0 <= i < |qs|
      ensures Occupant(next, ps[i].spot) == Some(qs[i]) && qs[i] in next.recs &&
              next.recs[qs[i]] == NewRec(ps[i].kind, ps[i].color, ps[i].spot)
    {
      if i < n {
        FreshAt(st, qs, ps, i, n);
        BuiltAt(st, qs[..n], ps[..n], prev, i);
        assert qs[..n][i] == qs[i] && ps[..n][i] == ps[i];
      }
    }
  }

  /** Two calls of a fresh list bring different pieces to different spots. */
  lemma FreshAt(st: State, qs: seq<Piece>, ps: seq<Placement>, i: nat, j: nat)
    requires Fresh(st, qs, ps) && i < j < |qs|
    ensures qs[i] != qs[j] && ps[i].spot != ps[j].spot
  {
  }

  /** What Built says about call i. */
  lemma BuiltAt(st: State, qs: seq<Piece>, ps: seq<Placement>, st': State, i: nat)
    requires |qs| == |ps| && Built(st, qs, ps, st') && i < |qs|
    ensures Occupant(st', ps[i].spot) == Some(qs[i]) && qs[i] in st'.recs &&
            st'.recs[qs[i]] == NewRec(ps[i].kind, ps[i].color, ps[i].spot)
  {
  }

  /** One more call lengthens the list of its side by one. */
  lemma StepCount(st: State, qs: seq<Piece>, ps: seq<Placement>, prev: State, next: State)
    requires Fresh(st, qs, ps) && qs != []
    requires Built(st, qs[..|qs| - 1], ps[..|ps| - 1], prev)
    requires next == AddPiece(prev, qs[|qs| - 1], ps[|ps| - 1].kind, ps[|ps| - 1].color, ps[|ps| - 1].spot)
    ensures forall c: Color :: |PiecesOf(next, c)| == |PiecesOf(st, c)| + CountOf(ps, c)
  {
    hide AddPiece;
    var p := ps[|ps| - 1];
    forall c: Color
      ensures |PiecesOf(next, c)| == |PiecesOf(st, c)| + CountOf(ps, c)
    {
      if c != p.color {
        assert c == OpponentColor(p.color);
      }
    }
  }

  /** Counting the calls for a side adds up over a concatenation. */
  lemma {:induction false} CountAppend(a: seq<Placement>, b: seq<Placement>, c: Color)
    ensures CountOf(a + b, c) == CountOf(a, c) + CountOf(b, c)
    decreases |b|
  {
    if b == [] {
      assert a + b == a;
    } else {
      var n := |b| - 1;
      assert (a + b)[..|a + b| - 1] == a + b[..n];
      CountAppend(a, b[..n], c);
    }
  }

  /** A row configuration's calls are all for its own side. */
  lemma {:induction false} CountRow(cfg: RowConfiguration, n: nat, c: Color)
    requires n <= |cfg.pieces|
    ensures CountOf(RowLayout(cfg, n), c) == if cfg.sideColor == c then n else 0
  {
    if n > 0 {
      var last := Placement(cfg.pieces[n - 1], cfg.sideColor, Spot(cfg.row, n - 1));
      assert RowLayout(cfg, n) == RowLayout(cfg, n - 1) + [last];
      hide RowLayout;
      CountRow(cfg, n - 1, c);
      CountSnoc(RowLayout(cfg, n - 1), last, c);
    }
  }

  /** One more call counts for its own side only. */
  lemma CountSnoc(ps: seq<Placement>, p: Placement, c: Color)
    ensures CountOf(ps + [p], c) == CountOf(ps, c) + if p.color == c then 1 else 0
  {
    assert (ps + [p])[..|ps|] == ps;
  }

  /** SideCount, taken from the back of the list. */
  lemma {:induction false} SideCountSnoc(configs: seq<RowConfiguration>, x: RowConfiguration, c: Color)
    ensures SideCount(configs + [x], c) == SideCount(configs, c) + (if x.sideColor == c then |x.pieces| else 0)
  {
    if configs == [] {
      assert ([] + [x])[1..] == [];
    } else {
      assert (configs + [x])[1..] == configs[1..] + [x];
      SideCountSnoc(configs[1..], x, c);
    }
  }

  /** Game.startGame makes SideCount calls for each side. */
  lemma {:induction false} CountLayout(configs: seq<RowConfiguration>, c: Color)
    requires forall k | 0 <= k < |configs| :: |configs[k].pieces| == NumCols
    ensures CountOf(Layout(configs), c) == SideCount(configs, c)
  {
    if configs != [] {
      var n := |configs| - 1;
      CountLayout(configs[..n], c);
      CountAppend(Layout(configs[..n]), RowLayout(configs[n], NumCols), c);
      CountRow(configs[n], NumCols, c);
      assert configs == configs[..n] + [configs[n]];
      SideCountSnoc(configs[..n], configs[n], c);
    }
  }

  /** The calls Game.startGame makes for the first k row configurations. */
  function Calls(k: nat): (ps: seq<Placement>)
    requires k <= |RowConfigurations|
    ensures |ps| == NumCols * k
  {
    StartingShape();
    Layout(RowConfigurations[..k])
  }

  /** No calls before the first configuration, all of them after the last. */
  lemma CallsEnds()
    ensures Calls(0) == [] && Calls(|RowConfigurations|) == Layout(RowConfigurations)
  {
    StartingShape();
    assert RowConfigurations[..0] == [];
    assert RowConfigurations[..|RowConfigurations|] == RowConfigurations;
  }

  /** The calls for configuration k follow those for the ones above it. */
  lemma CallsStep(k: nat)
    requires k < |RowConfigurations|
    ensures |RowConfigurations[k].pieces| == NumCols
    ensures Calls(k + 1) == Calls(k) + RowLayout(RowConfigurations[k], NumCols)
  {
    StartingShape();
    LayoutStep(RowConfigurations, k);
  }

  /** The starting layout has four full rows, so 32 calls. */
  lemma StartingShape()
    ensures |RowConfigurations| == 4 && forall k | 0 <= k < 4 :: |RowConfigurations[k].pieces| == NumCols
    ensures |Layout(RowConfigurations)| == 32
  {
    StartingLayout();
  }

  /** Call i of the starting layout places column i % 8 of row
      configuration i / 8. */
  lemma LayoutIndex()
    ensures |Layout(RowConfigurations)| == 32
    ensures forall i | 0 <= i < 32 ::
              Layout(RowConfigurations)[i].spot == Spot(RowConfigurations[i / NumCols].row, i % NumCols)
  {
    hide Layout, RowLayout;
    StartingLayout();
    var ls := Layout(RowConfigurations);
    forall i | 0 <= i < 32
      ensures ls[i].spot == Spot(RowConfigurations[i / NumCols].row, i % NumCols)
    {
      assert i == NumCols * (i / NumCols) + i % NumCols;
    }
  }

  /** Before the first call nothing has been built. */
  lemma NoCalls(st: State, configs: seq<RowConfiguration>, cfg: RowConfiguration)
    ensures Layout(configs[..0]) == [] && RowLayout(cfg, 0) == [] && AddAll(st, [], []) == st
  {
    assert configs[..0] == [];
  }

  /** Game.startGame walks the row configurations from the top row of the
      board down. */
  lemma RowsDescend()
    ensures forall j, k | 0 <= j < k < |RowConfigurations| :: RowConfigurations[j].row > RowConfigurations[k].row
  {
  }

  /** While Game.startGame fills the rows from the top down, the next spot
      it fills is on the board and still empty. */
  lemma ColumnFree(st: State, k: nat, col: nat)
    requires k < |RowConfigurations| && col < NumCols
    requires forall t | t in st.occ :: t.row > RowConfigurations[k].row || (t.row == RowConfigurations[k].row && t.col < col)
    ensures ValidSpot(Spot(RowConfigurations[k].row, col)) && !Occupied(st, Spot(RowConfigurations[k].row, col))
  {
  }

  /** One more column of a row configuration is one more call. */
  lemma RowStep(cfg: RowConfiguration, n: nat)
    requires n < |cfg.pieces|
    ensures RowLayout(cfg, n + 1) == RowLayout(cfg, n) + [Placement(cfg.pieces[n], cfg.sideColor, Spot(cfg.row, n))]
  {
  }

  /** The 32 calls of the starting layout go to 32 different spots of rows
      0, 1, 6 and 7. */
  lemma LayoutSpots()
    ensures |Layout(RowConfigurations)| == 32
    ensures forall i | 0 <= i < 32 ::
              ValidSpot(Layout(RowConfigurations)[i].spot) && Layout(RowConfigurations)[i].spot.row in {0, 1, 6, 7}
    ensures forall i, j | 0 <= i < j < 32 :: Layout(RowConfigurations)[i].spot != Layout(RowConfigurations)[j].spot
  {
    hide Layout, RowLayout;
    LayoutIndex();
    StartingLayout();
    var ls := Layout(RowConfigurations);
    forall i, j | 0 <= i < j < 32
      ensures ls[i].spot != ls[j].spot
    {
      if i / NumCols != j / NumCols {
        assert RowConfigurations[i / NumCols].row != RowConfigurations[j / NumCols].row;
      }
    }
  }

  /** With no piece on the board, a consistent game lists no piece. */
  lemma EmptyBoardLists(st: State)
    requires Consistent(st) && st.occ == map[]
    ensures st.white == [] && st.black == []
  {
    assert forall q | q in st.recs :: !st.recs[q].inPlay;
    NonEmptyHasMember(st.white);
    NonEmptyHasMember(st.black);
  }

  lemma NonEmptyHasMember<T>(xs: seq<T>)
    ensures xs != [] ==> xs[0] in xs
  {
  }

  /** Game.startGame on an empty board: 32 new pieces fill rows 0 and 1
      (White) and 6 and 7 (Black) as the row configurations say, the game
      stays consistent, and each side lists 16 pieces. */
  lemma StartingPosition(st: State, qs: seq<Piece>)
    requires Consistent(st) && st.occ == map[]
    requires |qs| == 32 && (forall i, j | 0 <= i < j < 32 :: qs[i] != qs[j]) && forall q | q in qs :: q !in st.recs
    ensures Consistent(AddAll(st, qs, Layout(RowConfigurations)))
    ensures AddAll(st, qs, Layout(RowConfigurations)).turn == st.turn
    ensures |AddAll(st, qs, Layout(RowConfigurations)).white| == 16 && |AddAll(st, qs, Layout(RowConfigurations)).black| == 16
    ensures forall k, col | 0 <= k < 4 && 0 <= col < NumCols ::
              var cfg := RowConfigurations[k];
              Occupant(AddAll(st, qs, Layout(RowConfigurations)), Spot(cfg.row, col)) == Some(qs[NumCols * k + col]) &&
              qs[NumCols * k + col] in AddAll(st, qs, Layout(RowConfigurations)).recs &&
              AddAll(st, qs, Layout(RowConfigurations)).recs[qs[NumCols * k + col]] == NewRec(cfg.pieces[col], cfg.sideColor, Spot(cfg.row, col))
    ensures forall t | Occupied(AddAll(st, qs, Layout(RowConfigurations)), t) :: t.row in {0, 1, 6, 7}
  {
    hide Layout, RowLayout, AddAll, Consistent, Built, Fresh;
    var ls := Layout(RowConfigurations);
    StartingFresh(st, qs);
    EmptyBoardLists(st);
    AddAllConsistent(st, qs, ls);
    var fin := AddAll(st, qs, ls);
    StartingCounts(st, qs, fin);
    StartingSpots(st, qs, fin);
    StartingRows(st, qs, fin);
  }

  /** The starting layout keeps an empty consistent game consistent. */
  lemma StartingConsistent(st: State, qs: seq<Piece>)
    requires Consistent(st) && st.occ == map[]
    requires |qs| == 32 && (forall i, j | 0 <= i < j < 32 :: qs[i] != qs[j]) && forall q | q in qs :: q !in st.recs
    ensures Consistent(AddAll(st, qs, Layout(RowConfigurations)))
  {
    hide Layout, RowLayout, AddAll, Consistent, Built, Fresh;
    StartingFresh(st, qs);
    AddAllConsistent(st, qs, Layout(RowConfigurations));
  }

  lemma StartingFresh(st: State, qs: seq<Piece>)
    requires st.occ == map[]
    requires |qs| == 32 && (forall i, j | 0 <= i < j < 32 :: qs[i] != qs[j]) && forall q | q in qs :: q !in st.recs
    ensures Fresh(st, qs, Layout(RowConfigurations))
  {
    hide Layout, RowLayout;
    LayoutSpots();
    forall i | 0 <= i < 32
      ensures qs[i] !in st.recs
    {
      assert qs[i] in qs;
    }
  }

  lemma StartingCounts(st: State, qs: seq<Piece>, fin: State)
    requires |qs| == 32 && st.white == [] && st.black == []
    requires Built(st, qs, Layout(RowConfigurations), fin)
    ensures |fin.white| == 16 && |fin.black| == 16
  {
    hide Layout, RowLayout;
    StartingLayout();
    CountLayout(RowConfigurations, White);
    CountLayout(RowConfigurations, Black);
    assert |PiecesOf(fin, White)| == 16 && |PiecesOf(fin, Black)| == 16;
  }

  lemma StartingSpots(st: State, qs: seq<Piece>, fin: State)
    requires |qs| == 32
    requires Built(st, qs, Layout(RowConfigurations), fin)
    ensures forall k, col | 0 <= k < 4 && 0 <= col < NumCols ::
              var cfg := RowConfigurations[k];
              Occupant(fin, Spot(cfg.row, col)) == Some(qs[NumCols * k + col]) && qs[NumCols * k + col] in fin.recs &&
              fin.recs[qs[NumCols * k + col]] == NewRec(cfg.pieces[col], cfg.sideColor, Spot(cfg.row, col))
  {
    hide RowLayout;
    StartingLayout();
    var ls := Layout(RowConfigurations);
    forall k, col | 0 <= k < 4 && 0 <= col < NumCols
      ensures var cfg := RowConfigurations[k];
              Occupant(fin, Spot(cfg.row, col)) == Some(qs[NumCols * k + col]) && qs[NumCols * k + col] in fin.recs &&
              fin.recs[qs[NumCols * k + col]] == NewRec(cfg.pieces[col], cfg.sideColor, Spot(cfg.row, col))
    {
      assert ls[NumCols * k + col] == Placement(RowConfigurations[k].pieces[col], RowConfigurations[k].sideColor, Spot(RowConfigurations[k].row, col));
    }
  }

  lemma StartingRows(st: State, qs: seq<Piece>, fin: State)
    requires |qs| == 32 && st.occ == map[]
    requires Built(st, qs, Layout(RowConfigurations), fin)
    ensures forall t | Occupied(fin, t) :: t.row in {0, 1, 6, 7}
  {
    hide Layout, RowLayout, Built;
    var ls := Layout(RowConfigurations);
    BuiltSpots(st, qs, ls, fin);
    LayoutRows();
    forall t | Occupied(fin, t)
      ensures t.row in {0, 1, 6, 7}
    {
      var p :| p in ls && p.spot == t;
      var i :| 0 <= i < |ls| && ls[i] == p;
    }
  }

  lemma BuiltSpots(st: State, qs: seq<Piece>, ps: seq<Placement>, fin: State)
    requires |qs| == |ps| && Built(st, qs, ps, fin)
    ensures forall t | t in fin.occ :: t in st.occ || t in Spots(ps)
  {
  }

  lemma LayoutRows()
    ensures forall i | 0 <= i < |Layout(RowConfigurations)| :: Layout(RowConfigurations)[i].spot.row in {0, 1, 6, 7}
  {
    LayoutSpots();
  }

  /** The state Game.startGame has built when it calls Game.startNewTurn:
      the pieces qs placed as the starting layout says. */
  function Populated(st: State, qs: seq<Piece>): (r: State)
    requires Consistent(st) && st.occ == map[]
    requires |qs| == 32 && (forall i, j | 0 <= i < j < 32 :: qs[i] != qs[j]) && forall q | q in qs :: q !in st.recs
    ensures Consistent(r) && Placed(r) && SideListed(r, White) && SideListed(r, Black)
  {
    hide *;
    StartingShape();
    StartingConsistent(st, qs);
    ConsistentListed(AddAll(st, qs, Layout(RowConfigurations)));
    AddAll(st, qs, Layout(RowConfigurations))
  }

  /** After Game.startGame on an empty board the game is consistent, the
      next side (White on a new game) is to move, every spot of rows 0, 1,
      6 and 7 holds the piece the row configurations put there with the
      kind and side they name, no other spot is occupied, and each side
      lists 16 pieces. */
  lemma StartedGame(st: State, qs: seq<Piece>)
    requires Consistent(st) && st.occ == map[]
    requires |qs| == 32 && (forall i, j | 0 <= i < j < 32 :: qs[i] != qs[j]) && forall q | q in qs :: q !in st.recs
    ensures |RowConfigurations| == 4 && forall k | 0 <= k < 4 :: |RowConfigurations[k].pieces| == NumCols
    ensures var fin := StartNewTurn(Populated(st, qs)).1;
            Consistent(fin) && fin.turn == Some(NextTurn(st.turn)) && |fin.white| == 16 && |fin.black| == 16 &&
            (forall k, col | 0 <= k < 4 && 0 <= col < NumCols ::
               var cfg, q := RowConfigurations[k], qs[NumCols * k + col];
               Occupant(fin, Spot(cfg.row, col)) == Some(q) && q in fin.recs &&
               fin.recs[q].kind == cfg.pieces[col] && fin.recs[q].color == cfg.sideColor &&
               fin.recs[q].spot == Some(Spot(cfg.row, col)) && fin.recs[q].inPlay) &&
            (forall t | Occupied(fin, t) :: t.row in {0, 1, 6, 7})
  {
    hide Consistent, AddAll, Layout, StartNewTurn;
    var built := Populated(st, qs);
    var fin := StartNewTurn(built).1;
    StartingPosition(st, qs);
    NewTurnRestores(built);
    RestoredLists(built.(turn := Some(NextTurn(st.turn))), fin);
    forall k, col | 0 <= k < 4 && 0 <= col < NumCols
      ensures var cfg, q := RowConfigurations[k], qs[NumCols * k + col];
              Occupant(fin, Spot(cfg.row, col)) == Some(q) && q in fin.recs &&
              fin.recs[q].kind == cfg.pieces[col] && fin.recs[q].color == cfg.sideColor &&
              fin.recs[q].spot == Some(Spot(cfg.row, col)) && fin.recs[q].inPlay
    {
      var q := qs[NumCols * k + col];
      assert Unmoved(built.recs[q], fin.recs[q]);
    }
  }
}
