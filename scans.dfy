/** One-step unfoldings of the scan functions of Rules. Each lemma takes a
    scan whose result and final state are `whole`, part of which (`done`) has
    been produced, and says what is left after one more availability test.
    The loops of Games keep exactly these facts as their invariants. */
module Scans {
  import opened Wrappers
  import opened Chess
  import opened Boards
  import opened Pieces
  import opened Rules

  /** A scan whose result and final state are `whole` has produced `done`
      so far, and will produce the result and final state of `rest`. */
  predicate Continues<T(==)>(whole: (seq<T>, State), done: seq<T>, rest: (seq<T>, State))
  {
    whole.0 == done + rest.0 && whole.1 == rest.1
  }

  /** The result `result` and the state `st` are those `spec` describes. */
  predicate Yields<T(==)>(spec: (T, State), result: T, st: State)
  {
    spec.0 == result && spec.1 == st
  }

  /** A scan has produced nothing of itself yet. */
  lemma Begin<T>(whole: (seq<T>, State))
    ensures Continues(whole, [], whole)
  {
    assert [] + whole.0 == whole.0;
  }

  /** The availability test in state m hands back a state where p still
      stands where it stood. */
  lemma AvailableKeeps(m: State, p: Piece, t: Spot, reg: bool, b: bool, m': State)
    requires Placed(m) && p in m.recs && OnBoard(m.recs[p])
    requires Yields(IsAvailable(m, p, t, reg), b, m')
    ensures StillPlaced(m, m', p)
  {
    FrameKeepsPiece(m, m', p);
  }

  /** Steps: the offset offsets[i] was examined. */
  lemma StepsStep(whole: (seq<Spot>, State), done: seq<Spot>, m: State, p: Piece, offsets: seq<Vec>, i: int,
                  reg: bool, t: Spot, b: bool, m': State)
    requires Placed(m) && p in m.recs && OnBoard(m.recs[p]) && 0 <= i < |offsets|
    requires Continues(whole, done, Steps(m, p, offsets[i..], reg))
    requires t == Offset(Origin(m, p), offsets[i].dr, offsets[i].dc)
    requires Yields(IsAvailable(m, p, t, reg), b, m')
    ensures StillPlaced(m, m', p)
    ensures Continues(whole, if b then done + [t] else done, Steps(m', p, offsets[i + 1..], reg))
  {
    hide IsAvailable, Placed, Frame;
    AvailableKeeps(m, p, t, reg, b, m');
    assert offsets[i..][0] == offsets[i] && offsets[i..][1..] == offsets[i + 1..];
    var rest := Steps(m', p, offsets[i + 1..], reg);
    assert Steps(m, p, offsets[i..], reg) == (if b then [t] + rest.0 else rest.0, rest.1);
    if b {
      assert done + ([t] + rest.0) == (done + [t]) + rest.0;
    }
  }

  /** Steps: every offset was examined. */
  lemma StepsEnd(whole: (seq<Spot>, State), done: seq<Spot>, m: State, p: Piece, offsets: seq<Vec>, reg: bool)
    requires Placed(m) && p in m.recs && OnBoard(m.recs[p])
    requires Continues(whole, done, Steps(m, p, offsets[|offsets|..], reg))
    ensures Yields(whole, done, m)
  {
    assert offsets[|offsets|..] == [];
    assert done + [] == done;
  }

  /** Rays: the ray along dirs[i] was scanned. */
  lemma RaysStep(whole: (seq<Spot>, State), done: seq<Spot>, m: State, p: Piece, dirs: seq<Vec>, i: int,
                 reg: bool, ray: seq<Spot>, m': State)
    requires Placed(m) && p in m.recs && OnBoard(m.recs[p]) && 0 <= i < |dirs|
    requires forall d | d in dirs :: Unit(d)
    requires Continues(whole, done, Rays(m, p, dirs[i..], reg))
    requires Yields(Ray(m, p, dirs[i], 1, reg), ray, m')
    ensures StillPlaced(m, m', p)
    ensures Continues(whole, done + ray, Rays(m', p, dirs[i + 1..], reg))
  {
    hide Ray, IsAvailable, Placed, Frame;
    FrameKeepsPiece(m, m', p);
    assert dirs[i..][0] == dirs[i] && dirs[i..][1..] == dirs[i + 1..];
    var rest := Rays(m', p, dirs[i + 1..], reg);
    assert done + (ray + rest.0) == (done + ray) + rest.0;
  }

  /** Rays: every direction was scanned. */
  lemma RaysEnd(whole: (seq<Spot>, State), done: seq<Spot>, m: State, p: Piece, dirs: seq<Vec>, reg: bool)
    requires Placed(m) && p in m.recs && OnBoard(m.recs[p])
    requires Continues(whole, done, Rays(m, p, dirs[|dirs|..], reg))
    ensures Yields(whole, done, m)
  {
    assert dirs[|dirs|..] == [];
    assert done + [] == done;
  }

  /** Ray: the first spot along d was examined. */
  lemma RayStart(m: State, p: Piece, d: Vec, reg: bool, t: Spot, b: bool, m': State)
    requires Placed(m) && p in m.recs && OnBoard(m.recs[p]) && Unit(d)
    requires t == Target(Origin(m, p), d, 1)
    requires Yields(IsAvailable(m, p, t, reg), b, m')
    ensures StillPlaced(m, m', p)
    ensures Continues(Ray(m, p, d, 1, reg), [], RayFrom(m', p, d, 1, b, reg))
  {
    AvailableKeeps(m, p, t, reg, b, m');
    Begin(Ray(m, p, d, 1, reg));
  }

  /** Ray: the available spot `dist` steps along d, which `done` now ends
      with, is neither occupied nor the end of a FlipFlopper's short ray, and
      the spot `next` steps along d was examined. */
  lemma RayStep(whole: (seq<Spot>, State), before: seq<Spot>, done: seq<Spot>, m: State, p: Piece, d: Vec,
                dist: int, next: int, reg: bool, t: Spot, b: bool, m': State)
    requires Placed(m) && p in m.recs && OnBoard(m.recs[p]) && Unit(d) && 1 <= dist && next == dist + 1
    requires ValidSpot(Target(Origin(m, p), d, dist))
    requires Continues(whole, before, RayFrom(m, p, d, dist, true, reg))
    requires done == before + [Target(Origin(m, p), d, dist)]
    requires !(m.recs[p].kind == FlipFlopper && m.recs[p].moveParity == 1)
    requires !Occupied(m, Target(Origin(m, p), d, dist))
    requires t == Target(Origin(m, p), d, next)
    requires Yields(IsAvailable(m, p, t, reg), b, m')
    ensures StillPlaced(m, m', p) && t == Target(Origin(m', p), d, next)
    ensures Continues(whole, done, RayFrom(m', p, d, next, b, reg))
  {
    hide IsAvailable, Placed, Frame;
    AvailableKeeps(m, p, t, reg, b, m');
    RayBound(Origin(m, p), d, dist);
    var u := Target(Origin(m, p), d, dist);
    var rest := RayFrom(m', p, d, next, b, reg);
    assert Ray(m, p, d, next, reg) == rest;
    assert RayFrom(m, p, d, dist, true, reg) == ([u] + rest.0, rest.1);
    assert before + ([u] + rest.0) == (before + [u]) + rest.0;
  }

  /** Ray: the available spot `dist` steps along d ends the ray. */
  lemma RayStop(whole: (seq<Spot>, State), done: seq<Spot>, m: State, p: Piece, d: Vec, dist: int, reg: bool)
    requires Placed(m) && p in m.recs && OnBoard(m.recs[p]) && Unit(d) && 1 <= dist
    requires ValidSpot(Target(Origin(m, p), d, dist))
    requires Continues(whole, done, RayFrom(m, p, d, dist, true, reg))
    requires (m.recs[p].kind == FlipFlopper && m.recs[p].moveParity == 1) || Occupied(m, Target(Origin(m, p), d, dist))
    ensures Yields(whole, done + [Target(Origin(m, p), d, dist)], m)
  {
  }

  /** Ray: the spot `dist` steps along d was unavailable. */
  lemma RayEnd(whole: (seq<Spot>, State), done: seq<Spot>, m: State, p: Piece, d: Vec, dist: int, reg: bool)
    requires Placed(m) && p in m.recs && OnBoard(m.recs[p]) && Unit(d) && 1 <= dist
    requires Continues(whole, done, RayFrom(m, p, d, dist, false, reg))
    ensures Yields(whole, done, m)
  {
    assert done + [] == done;
  }

  /** MegaRays: the scan along dirs[i] is done. */
  lemma MegaRaysStep(whole: (seq<Spot>, State), done: seq<Spot>, m: State, p: Piece, dirs: seq<Vec>, i: int,
                     reg: bool, ray: seq<Spot>, m': State)
    requires Placed(m) && p in m.recs && OnBoard(m.recs[p]) && 0 <= i < |dirs|
    requires forall d | d in dirs :: Unit(d)
    requires Continues(whole, done, MegaRays(m, p, dirs[i..], reg))
    requires Yields(MegaRay(m, p, dirs[i], 1, reg), ray, m')
    ensures StillPlaced(m, m', p)
    ensures Continues(whole, done + ray, MegaRays(m', p, dirs[i + 1..], reg))
  {
    hide MegaRay, IsAvailable, Placed, Frame;
    FrameKeepsPiece(m, m', p);
    assert dirs[i..][0] == dirs[i] && dirs[i..][1..] == dirs[i + 1..];
    var rest := MegaRays(m', p, dirs[i + 1..], reg);
    assert done + (ray + rest.0) == (done + ray) + rest.0;
  }

  /** MegaRays: every direction was scanned. */
  lemma MegaRaysEnd(whole: (seq<Spot>, State), done: seq<Spot>, m: State, p: Piece, dirs: seq<Vec>, reg: bool)
    requires Placed(m) && p in m.recs && OnBoard(m.recs[p])
    requires Continues(whole, done, MegaRays(m, p, dirs[|dirs|..], reg))
    ensures Yields(whole, done, m)
  {
    assert dirs[|dirs|..] == [];
    assert done + [] == done;
  }

  /** MegaRay: the stored spot `t`, `dist` steps along d, was examined, and
      `done` extends `before` with it when it was available. */
  lemma MegaRayStep(whole: (seq<Spot>, State), before: seq<Spot>, done: seq<Spot>, m: State, p: Piece, d: Vec,
                    dist: int, reg: bool, t: Spot, b: bool, m': State)
    requires Placed(m) && p in m.recs && OnBoard(m.recs[p]) && Unit(d) && 1 <= dist
    requires t == Target(Origin(m, p), d, dist) && ValidSpot(t)
    requires Continues(whole, before, MegaRay(m, p, d, dist, reg))
    requires Yields(IsAvailable(m, p, t, reg), b, m')
    requires done == if b then before + [t] else before
    ensures StillPlaced(m, m', p) && Origin(m', p) == Origin(m, p)
    ensures Continues(whole, done, MegaRay(m', p, d, dist + 1, reg))
  {
    hide IsAvailable, Placed, Frame;
    AvailableKeeps(m, p, t, reg, b, m');
    RayBound(Origin(m, p), d, dist);
    var rest := MegaRay(m', p, d, dist + 1, reg);
    assert MegaRay(m, p, d, dist, reg) == (if b then [t] + rest.0 else rest.0, rest.1);
    if b {
      assert before + ([t] + rest.0) == (before + [t]) + rest.0;
    }
  }

  /** MegaRay: the scan left the board. */
  lemma MegaRayEnd(whole: (seq<Spot>, State), done: seq<Spot>, m: State, p: Piece, d: Vec, dist: int, reg: bool)
    requires Placed(m) && p in m.recs && OnBoard(m.recs[p]) && Unit(d) && 1 <= dist
    requires !ValidSpot(Target(Origin(m, p), d, dist))
    requires Continues(whole, done, MegaRay(m, p, d, dist, reg))
    ensures Yields(whole, done, m)
  {
    assert done + [] == done;
  }

  /** PawnAdvance: the one-step was examined; unless it was kept by a pawn
      that has still not moved, the forward steps are over. */
  lemma AdvanceOne(st: State, p: Piece, reg: bool, one: Spot, ok: bool, st1: State)
    requires Placed(st) && p in st.recs && OnBoard(st.recs[p])
    requires one == Offset(Origin(st, p), Forward(st.recs[p].color), 0)
    requires Yields(IsAvailable(st, p, one, reg), ok, st1)
    ensures StillPlaced(st, st1, p)
    ensures !(ok && !Occupied(st1, one)) ==> Yields(PawnAdvance(st, p, reg), [], st1)
    ensures ok && !Occupied(st1, one) && st1.recs[p].hasMoved ==> Yields(PawnAdvance(st, p, reg), [one], st1)
  {
    AvailableKeeps(st, p, one, reg, ok, st1);
  }

  /** PawnAdvance: the one-step was kept, the pawn had still not moved, and
      the two-step was examined. */
  lemma AdvanceTwo(st: State, p: Piece, reg: bool, one: Spot, st1: State, two: Spot, ok: bool, st2: State)
    requires Placed(st) && p in st.recs && OnBoard(st.recs[p])
    requires one == Offset(Origin(st, p), Forward(st.recs[p].color), 0)
    requires Yields(IsAvailable(st, p, one, reg), true, st1) && !Occupied(st1, one)
    requires StillPlaced(st, st1, p) && !st1.recs[p].hasMoved
    requires two == Offset(Origin(st1, p), 2 * Forward(st.recs[p].color), 0)
    requires Yields(IsAvailable(st1, p, two, reg), ok, st2)
    ensures StillPlaced(st, st2, p)
    ensures PawnAdvance(st, p, reg) == (if ok && !Occupied(st2, two) then [one, two] else [one], st2)
  {
    AvailableKeeps(st1, p, two, reg, ok, st2);
  }

  /** PawnMoves: the forward steps are done and the diagonals come next. */
  lemma PawnStart(st: State, p: Piece, reg: bool, straight: seq<Spot>, st1: State)
    requires Placed(st) && p in st.recs && OnBoard(st.recs[p])
    requires Yields(PawnAdvance(st, p, reg), straight, st1)
    ensures StillPlaced(st, st1, p)
    ensures Continues(PawnMoves(st, p, reg), straight, PawnAttacks(st1, p, [1, -1], reg))
  {
    FrameKeepsPiece(st, st1, p);
  }

  /** PawnAttacks: the diagonal hs[i] was examined. */
  lemma AttacksStep(whole: (seq<Spot>, State), done: seq<Spot>, m: State, p: Piece, hs: seq<int>, i: int,
                    reg: bool, t: Spot, b: bool, m': State)
    requires Placed(m) && p in m.recs && OnBoard(m.recs[p]) && 0 <= i < |hs|
    requires Continues(whole, done, PawnAttacks(m, p, hs[i..], reg))
    requires t == Offset(Origin(m, p), Forward(m.recs[p].color), hs[i])
    requires Yields(IsAvailable(m, p, t, reg), b, m')
    ensures StillPlaced(m, m', p)
    ensures Continues(whole, if b && Occupied(m', t) then done + [t] else done, PawnAttacks(m', p, hs[i + 1..], reg))
  {
    hide IsAvailable, Placed, Frame;
    AvailableKeeps(m, p, t, reg, b, m');
    assert hs[i..][0] == hs[i] && hs[i..][1..] == hs[i + 1..];
    var rest := PawnAttacks(m', p, hs[i + 1..], reg);
    if b && Occupied(m', t) {
      assert done + ([t] + rest.0) == (done + [t]) + rest.0;
    }
  }

  /** PawnAttacks: both diagonals were examined. */
  lemma AttacksEnd(whole: (seq<Spot>, State), done: seq<Spot>, m: State, p: Piece, hs: seq<int>, reg: bool)
    requires Placed(m) && p in m.recs && OnBoard(m.recs[p])
    requires Continues(whole, done, PawnAttacks(m, p, hs[|hs|..], reg))
    ensures Yields(whole, done, m)
  {
    assert hs[|hs|..] == [];
    assert done + [] == done;
  }

  /** Game.isInCheck starts with the side's King and the opponent's list. */
  lemma ThreatStart(st: State, c: Color)
    requires Placed(st)
    ensures forall q | q in PiecesOf(st, OpponentColor(c)) :: q in st.recs && OnBoard(st.recs[q])
    ensures InCheck(st, c) == Threatened(st, GetKing(st, c), PiecesOf(st, OpponentColor(c)))
  {
  }

  /** Game.isInCheck: the unfiltered moves of opps[i] were generated. */
  lemma ThreatStep(st: State, king: Option<Piece>, opps: seq<Piece>, i: int, moves: seq<Spot>)
    requires Placed(st) && 0 <= i < |opps|
    requires forall q | q in opps :: q in st.recs && OnBoard(st.recs[q])
    requires king.Some? ==> king.value in st.recs && OnBoard(st.recs[king.value])
    requires moves == Moves(st, opps[i], true).0
    ensures Threatened(st, king, opps[i..]) ==
              if moves == [] then Threatened(st, king, opps[i + 1..])
              else if king.None? then Err(MissingKing)
              else if Origin(st, king.value) in moves then Ok(true)
              else Threatened(st, king, opps[i + 1..])
  {
    assert opps[i..][0] == opps[i] && opps[i..][1..] == opps[i + 1..];
  }

  /** Game.isInCheck: no opponent piece is left to scan. */
  lemma ThreatEnd(st: State, king: Option<Piece>, opps: seq<Piece>)
    requires Placed(st)
    requires forall q | q in opps :: q in st.recs && OnBoard(st.recs[q])
    requires king.Some? ==> king.value in st.recs && OnBoard(st.recs[king.value])
    ensures Threatened(st, king, opps[|opps|..]) == Ok(false)
  {
    assert opps[|opps|..] == [];
  }
}
