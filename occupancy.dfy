/** The third invariant of the cube's pieces: together they fill every
    place of the cube, one piece to a place. The constructors establish it,
    a quarter turn keeps it, and it is what makes every cell that
    `toColorMatrix` reads find a piece. */
module Occupancy {
  import opened Geometry
  import opened Pieces
  import opened Solved
  import opened TextFormat
  import opened Facelets

  /** Three real faces that meet at a corner of the cube: pairwise distinct
      and pairwise adjacent. */
  predicate CornerSlot(a: Face, b: Face, d: Face) {
    && IsFace(a) && IsFace(b) && IsFace(d)
    && a != b && b != d && a != d
    && ShareEdge(a, b) && ShareEdge(b, d) && ShareEdge(a, d)
  }

  /** Two real faces that meet along an edge of the cube. */
  predicate EdgeSlot(a: Face, b: Face) {
    IsFace(a) && IsFace(b) && a != b && ShareEdge(a, b)
  }

  /** The piece has a sticker on each of the three faces. */
  predicate Holds3(c: Cublet, a: Face, b: Face, d: Face) {
    IsRotated(c, a) && IsRotated(c, b) && IsRotated(c, d)
  }

  /** The piece has a sticker on each of the two faces. */
  predicate Holds2(c: Cublet, a: Face, b: Face) {
    IsRotated(c, a) && IsRotated(c, b)
  }

  /** Some piece is on every corner place. */
  ghost predicate CornersHeld(cs: seq<Cublet>) {
    forall a: Face, b: Face, d: Face :: CornerSlot(a, b, d) ==> exists j :: 0 <= j < |cs| && Holds3(cs[j], a, b, d)
  }

  /** No two pieces are on the same corner place. */
  ghost predicate CornersUnique(cs: seq<Cublet>) {
    forall a: Face, b: Face, d: Face, j, j' ::
      (CornerSlot(a, b, d) && 0 <= j < |cs| && 0 <= j' < |cs| &&
       Holds3(cs[j], a, b, d) && Holds3(cs[j'], a, b, d)) ==> j == j'
  }

  /** Every corner place of the cube holds exactly one of the pieces. */
  ghost predicate CornersOccupy(cs: seq<Cublet>) {
    CornersHeld(cs) && CornersUnique(cs)
  }

  /** Some piece is on every edge place. */
  ghost predicate MiddlesHeld(ms: seq<Cublet>) {
    forall a: Face, b: Face :: EdgeSlot(a, b) ==> exists j :: 0 <= j < |ms| && Holds2(ms[j], a, b)
  }

  /** No two pieces are on the same edge place. */
  ghost predicate MiddlesUnique(ms: seq<Cublet>) {
    forall a: Face, b: Face, j, j' ::
      (EdgeSlot(a, b) && 0 <= j < |ms| && 0 <= j' < |ms| &&
       Holds2(ms[j], a, b) && Holds2(ms[j'], a, b)) ==> j == j'
  }

  /** Every edge place of the cube holds exactly one of the pieces. */
  ghost predicate MiddlesOccupy(ms: seq<Cublet>) {
    MiddlesHeld(ms) && MiddlesUnique(ms)
  }

  /** Every sticker shows one of the six real colours. */
  predicate RealColors(cs: seq<Cublet>) {
    forall j, k :: 0 <= j < |cs| && 0 <= k < |cs[j].edges| ==> cs[j].edges[k].color != INVALID_COLOR
  }

  /** Opposite faces come in pairs. */
  lemma OppositeOfOpposite(f: Face)
    requires IsFace(f)
    ensures Opposite(Opposite(f)) == f
  {
    FaceCases(f);
  }

  /** `shareEdge` does not depend on the order of its arguments. */
  lemma ShareEdgeSymmetric(x: Face, y: Face)
    ensures ShareEdge(x, y) == ShareEdge(y, x)
  {
    if IsFace(x) && IsFace(y) {
      FaceCases(x);
      FaceCases(y);
    }
  }

  /** The face a quarter turn of `turned` moves onto x: the turned face
      itself, or three steps back along the 4-cycle of its sides. */
  function Unturn(turned: Face, x: Face): (y: Face)
    requires IsFace(turned) && (x == turned || IsSide(turned, x))
    ensures y == turned || IsSide(turned, y)
    ensures (y == turned) == (x == turned)
    ensures Rotated(turned, y) == x
  {
    if x == turned then
      RotatedRow(turned, turned);
      turned
    else
      RotatedIsFourCycle(turned, x);
      Rotated(turned, Rotated(turned, Rotated(turned, x)))
  }

  /** A quarter turn brings onto x only what was on `Unturn(turned, x)`. */
  lemma UnturnIsOnlyPreimage(turned: Face, x: Face, y: Face)
    requires IsFace(turned) && (x == turned || IsSide(turned, x))
    requires IsFace(y) && y != Opposite(turned)
    ensures Rotated(turned, y) == x <==> y == Unturn(turned, x)
  {
    RotatedKeepsAdjacency(turned, y, Unturn(turned, x));
  }

  /** The face whose piece a quarter turn of `turned` brings onto face x of
      a place: x itself when the place is not `moved` (does not touch
      `turned`). */
  function Before(turned: Face, moved: bool, x: Face): Face
    requires IsFace(turned)
  {
    if moved && (x == turned || IsSide(turned, x)) then Unturn(turned, x) else x
  }

  /** A piece that touches `turned` has a sticker on x after the turn
      exactly when it had one on `Unturn(turned, x)` before. */
  lemma {:induction false} TurnedSticker(turned: Face, c: Cublet, x: Face)
    requires IsFace(turned) && WellFormed(c) && IsRotated(c, turned)
    requires x == turned || IsSide(turned, x)
    ensures IsRotated(Turn(turned, c), x) <==> IsRotated(c, Unturn(turned, x))
  {
    var r := Turn(turned, c);
    if IsRotated(r, x) {
      var k :| 0 <= k < |r.edges| && r.edges[k].face == x;
      StickerBesideTurned(turned, c, k);
      UnturnIsOnlyPreimage(turned, x, c.edges[k].face);
    }
    if IsRotated(c, Unturn(turned, x)) {
      var k :| 0 <= k < |c.edges| && c.edges[k].face == Unturn(turned, x);
      assert r.edges[k].face == x;
    }
  }

  /** On the turned face and its sides, `Unturn` is one-to-one and keeps
      adjacency, so it takes a place round `turned` to a place. */
  lemma UnturnKeepsAdjacency(turned: Face, x: Face, y: Face)
    requires IsFace(turned) && (x == turned || IsSide(turned, x)) && (y == turned || IsSide(turned, y))
    ensures Unturn(turned, x) == Unturn(turned, y) <==> x == y
    ensures ShareEdge(Unturn(turned, x), Unturn(turned, y)) <==> ShareEdge(x, y)
  {
    RotatedKeepsAdjacency(turned, Unturn(turned, x), Unturn(turned, y));
  }

  /** A face of a place that has `turned` among its faces is `turned` or
      one of its sides. */
  lemma BesideTurned(turned: Face, x: Face)
    requires IsFace(turned) && IsFace(x) && x != turned
    requires ShareEdge(turned, x) || ShareEdge(x, turned)
    ensures IsSide(turned, x)
  {
    ShareEdgeSymmetric(turned, x);
  }

  /** The corner place whose piece a quarter turn of `turned` brings to
      the place {a, b, d} is again a corner place. */
  lemma CornerSlotBefore(turned: Face, a: Face, b: Face, d: Face)
    requires IsFace(turned) && CornerSlot(a, b, d)
    ensures var m := a == turned || b == turned || d == turned;
      CornerSlot(Before(turned, m, a), Before(turned, m, b), Before(turned, m, d))
  {
    if a == turned || b == turned || d == turned {
      ShareEdgeSymmetric(a, b);
      ShareEdgeSymmetric(b, d);
      ShareEdgeSymmetric(a, d);
      if a != turned { BesideTurned(turned, a); }
      if b != turned { BesideTurned(turned, b); }
      if d != turned { BesideTurned(turned, d); }
      UnturnKeepsAdjacency(turned, a, b);
      UnturnKeepsAdjacency(turned, b, d);
      UnturnKeepsAdjacency(turned, a, d);
    }
  }

  /** The edge place whose piece a quarter turn of `turned` brings to the
      place {a, b} is again an edge place. */
  lemma EdgeSlotBefore(turned: Face, a: Face, b: Face)
    requires IsFace(turned) && EdgeSlot(a, b)
    ensures var m := a == turned || b == turned;
      EdgeSlot(Before(turned, m, a), Before(turned, m, b))
  {
    if a == turned || b == turned {
      ShareEdgeSymmetric(a, b);
      if a != turned { BesideTurned(turned, a); }
      if b != turned { BesideTurned(turned, b); }
      UnturnKeepsAdjacency(turned, a, b);
    }
  }

  /** After a quarter turn of `turned`, a corner holds the place {a, b, d}
      exactly when it held the place `Before` it. A place away from
      `turned` keeps its piece: a corner on it and on `turned` would touch
      four faces. */
  lemma {:induction false} TurnedCornerHolds(turned: Face, c: Cublet, a: Face, b: Face, d: Face)
    requires IsFace(turned) && WellFormed(c) && |c.edges| == 3 && CornerSlot(a, b, d)
    ensures var m := a == turned || b == turned || d == turned;
      Holds3(Turn(turned, c), a, b, d) <==>
      Holds3(c, Before(turned, m, a), Before(turned, m, b), Before(turned, m, d))
  {
    var r := Turn(turned, c);
    if a == turned || b == turned || d == turned {
      ShareEdgeSymmetric(a, b);
      ShareEdgeSymmetric(b, d);
      ShareEdgeSymmetric(a, d);
      if a != turned { BesideTurned(turned, a); }
      if b != turned { BesideTurned(turned, b); }
      if d != turned { BesideTurned(turned, d); }
      if IsRotated(c, turned) {
        TurnedSticker(turned, c, a);
        TurnedSticker(turned, c, b);
        TurnedSticker(turned, c, d);
      }
    } else if IsRotated(c, turned) {
      CornerTouchesAtMostThreeFaces(c, a, b, d, turned);
      CornerTouchesAtMostThreeFaces(r, a, b, d, turned);
    }
  }

  /** After a quarter turn of `turned`, an edge piece holds the place
      {a, b} exactly when it held the place `Before` it. */
  lemma {:induction false} TurnedMiddleHolds(turned: Face, c: Cublet, a: Face, b: Face)
    requires IsFace(turned) && WellFormed(c) && |c.edges| == 2 && EdgeSlot(a, b)
    ensures var m := a == turned || b == turned;
      Holds2(Turn(turned, c), a, b) <==> Holds2(c, Before(turned, m, a), Before(turned, m, b))
  {
    var r := Turn(turned, c);
    if a == turned || b == turned {
      ShareEdgeSymmetric(a, b);
      if a != turned { BesideTurned(turned, a); }
      if b != turned { BesideTurned(turned, b); }
      if IsRotated(c, turned) {
        TurnedSticker(turned, c, a);
        TurnedSticker(turned, c, b);
      }
    } else if IsRotated(c, turned) {
      MiddleTouchesAtMostTwoFaces(c, a, b, turned);
      MiddleTouchesAtMostTwoFaces(r, a, b, turned);
    }
  }

  /** Two corners on the same place after a quarter turn were on the same
      place before it. */
  lemma TurnedCornersShareBefore(turned: Face, c: Cublet, c': Cublet, a: Face, b: Face, d: Face)
    requires IsFace(turned) && WellFormed(c) && WellFormed(c') && |c.edges| == 3 && |c'.edges| == 3
    requires CornerSlot(a, b, d) && Holds3(Turn(turned, c), a, b, d) && Holds3(Turn(turned, c'), a, b, d)
    ensures var m := a == turned || b == turned || d == turned;
      var a', b', d' := Before(turned, m, a), Before(turned, m, b), Before(turned, m, d);
      CornerSlot(a', b', d') && Holds3(c, a', b', d') && Holds3(c', a', b', d')
  {
    CornerSlotBefore(turned, a, b, d);
    TurnedCornerHolds(turned, c, a, b, d);
    TurnedCornerHolds(turned, c', a, b, d);
  }

  /** Two edge pieces on the same place after a quarter turn were on the
      same place before it. */
  lemma TurnedMiddlesShareBefore(turned: Face, c: Cublet, c': Cublet, a: Face, b: Face)
    requires IsFace(turned) && WellFormed(c) && WellFormed(c') && |c.edges| == 2 && |c'.edges| == 2
    requires EdgeSlot(a, b) && Holds2(Turn(turned, c), a, b) && Holds2(Turn(turned, c'), a, b)
    ensures var m := a == turned || b == turned;
      var a', b' := Before(turned, m, a), Before(turned, m, b);
      EdgeSlot(a', b') && Holds2(c, a', b') && Holds2(c', a', b')
  {
    EdgeSlotBefore(turned, a, b);
    TurnedMiddleHolds(turned, c, a, b);
    TurnedMiddleHolds(turned, c', a, b);
  }

  /** After a quarter turn every corner place still has a corner on it:
      the one that was on the place before it. */
  lemma {:induction false} TurnKeepsCornersHeld(turned: Face, cs: seq<Corner>)
    requires IsFace(turned) && forall j :: 0 <= j < |cs| ==> WellFormed(cs[j])
    requires CornersHeld(cs)
    ensures CornersHeld(TurnAll(turned, cs))
  {
    var r := TurnAll(turned, cs);
    forall a: Face, b: Face, d: Face | CornerSlot(a, b, d)
      ensures exists j :: 0 <= j < |r| && Holds3(r[j], a, b, d)
    {
      var m := a == turned || b == turned || d == turned;
      CornerSlotBefore(turned, a, b, d);
      var j :| 0 <= j < |cs| && Holds3(cs[j], Before(turned, m, a), Before(turned, m, b), Before(turned, m, d));
      TurnedCornerHolds(turned, cs[j], a, b, d);
      assert Holds3(r[j], a, b, d);
    }
  }

  /** After a quarter turn no two corners share a place: they would have
      shared the place before it. */
  lemma {:induction false} TurnKeepsCornersUnique(turned: Face, cs: seq<Corner>)
    requires IsFace(turned) && forall j :: 0 <= j < |cs| ==> WellFormed(cs[j])
    requires CornersUnique(cs)
    ensures CornersUnique(TurnAll(turned, cs))
  {
    var r := TurnAll(turned, cs);
    forall a: Face, b: Face, d: Face, j: int, j': int | CornerSlot(a, b, d) && 0 <= j < |r| && 0 <= j' < |r| &&
        Holds3(r[j], a, b, d) && Holds3(r[j'], a, b, d)
      ensures j == j'
    {
      TurnedCornersShareBefore(turned, cs[j], cs[j'], a, b, d);
    }
  }

  /** After a quarter turn every edge place still has an edge piece on it. */
  lemma {:induction false} TurnKeepsMiddlesHeld(turned: Face, ms: seq<Middle>)
    requires IsFace(turned) && forall j :: 0 <= j < |ms| ==> WellFormed(ms[j])
    requires MiddlesHeld(ms)
    ensures MiddlesHeld(TurnAll(turned, ms))
  {
    var r := TurnAll(turned, ms);
    forall a: Face, b: Face | EdgeSlot(a, b)
      ensures exists j :: 0 <= j < |r| && Holds2(r[j], a, b)
    {
      var m := a == turned || b == turned;
      EdgeSlotBefore(turned, a, b);
      var j :| 0 <= j < |ms| && Holds2(ms[j], Before(turned, m, a), Before(turned, m, b));
      TurnedMiddleHolds(turned, ms[j], a, b);
      assert Holds2(r[j], a, b);
    }
  }

  /** After a quarter turn no two edge pieces share a place. */
  lemma {:induction false} TurnKeepsMiddlesUnique(turned: Face, ms: seq<Middle>)
    requires IsFace(turned) && forall j :: 0 <= j < |ms| ==> WellFormed(ms[j])
    requires MiddlesUnique(ms)
    ensures MiddlesUnique(TurnAll(turned, ms))
  {
    var r := TurnAll(turned, ms);
    forall a: Face, b: Face, j: int, j': int | EdgeSlot(a, b) && 0 <= j < |r| && 0 <= j' < |r| &&
        Holds2(r[j], a, b) && Holds2(r[j'], a, b)
      ensures j == j'
    {
      TurnedMiddlesShareBefore(turned, ms[j], ms[j'], a, b);
    }
  }

  /** A quarter turn keeps every sticker's colour. */
  lemma TurnKeepsRealColors(turned: Face, cs: seq<Cublet>)
    requires IsFace(turned) && forall j :: 0 <= j < |cs| ==> WellFormed(cs[j])
    requires RealColors(cs)
    ensures RealColors(TurnAll(turned, cs))
  {
    var r := TurnAll(turned, cs);
    forall j, k | 0 <= j < |r| && 0 <= k < |r[j].edges|
      ensures r[j].edges[k].color != INVALID_COLOR
    {
      assert Colors(r[j])[k] == Colors(cs[j])[k];
    }
  }

  /** A solved corner with increasing colours a < b < d is on the place
      {a, b, d}. */
  lemma {:induction false} SolvedCornerOnSlot(a: Face, b: Face, d: Face)
    requires 0 <= a < b < d < 6 && ShareEdge(a, b) && ShareEdge(b, d) && ShareEdge(a, d)
    ensures exists j :: 0 <= j < |SOLVED_CORNERS| && Holds3(SOLVED_CORNERS[j], a, b, d)
  {
    ShareEdgeSymmetric(a, d);
    AdjacentTripleIsSolvedCorner(a, b, d);
    var j :| 0 <= j < |SOLVED_CORNERS| && SOLVED_CORNERS[j] == SolvedCorner(a, b, d);
    var c := SolvedCorner(a, b, d);
    assert c.edges[0].face == a && c.edges[1].face == b && c.edges[2].face == d;
    assert Holds3(SOLVED_CORNERS[j], a, b, d);
  }

  /** A solved edge piece with colours a < b is on the place {a, b}. */
  lemma {:induction false} SolvedMiddleOnSlot(a: Face, b: Face)
    requires 0 <= a < b < 6 && ShareEdge(a, b)
    ensures exists j :: 0 <= j < |SOLVED_MIDDLES| && Holds2(SOLVED_MIDDLES[j], a, b)
  {
    AdjacentPairIsSolvedMiddle(a, b);
    var j :| 0 <= j < |SOLVED_MIDDLES| && SOLVED_MIDDLES[j] == SolvedMiddle(a, b);
    var c := SolvedMiddle(a, b);
    assert c.edges[0].face == a && c.edges[1].face == b;
    assert Holds2(SOLVED_MIDDLES[j], a, b);
  }

  /** The faces a corner touches are those of its three stickers. */
  lemma CornerFacesAre(c: Cublet, x: Face)
    requires |c.edges| == 3
    ensures IsRotated(c, x) <==> x == c.edges[0].face || x == c.edges[1].face || x == c.edges[2].face
  {
  }

  /** The faces an edge piece touches are those of its two stickers. */
  lemma MiddleFacesAre(c: Cublet, x: Face)
    requires |c.edges| == 2
    ensures IsRotated(c, x) <==> x == c.edges[0].face || x == c.edges[1].face
  {
  }

  /** A solved piece shows each face's own colour, in increasing order. */
  lemma SolvedStickers(c: Cublet, k: nat)
    requires IsSolvedPiece(c) && k < |c.edges|
    ensures c.edges[k] == Edge(c.edges[k].face, c.edges[k].face)
    ensures k > 0 ==> c.edges[k - 1].face < c.edges[k].face
  {
    if k > 0 {
      assert c.edges[k - 1].color < c.edges[k].color;
    }
  }

  /** Two solved corners on the same corner place are the same piece: a
      solved piece is determined by the faces it touches. */
  lemma {:induction false} SolvedCornerIsItsPlace(c: Cublet, c': Cublet, a: Face, b: Face, d: Face)
    requires IsSolvedPiece(c) && IsSolvedPiece(c') && |c.edges| == 3 && |c'.edges| == 3
    requires CornerSlot(a, b, d) && Holds3(c, a, b, d) && Holds3(c', a, b, d)
    ensures c == c'
  {
    CornerFacesAre(c, a);
    CornerFacesAre(c, b);
    CornerFacesAre(c, d);
    CornerFacesAre(c', a);
    CornerFacesAre(c', b);
    CornerFacesAre(c', d);
    SolvedStickers(c, 0);
    SolvedStickers(c, 1);
    SolvedStickers(c, 2);
    SolvedStickers(c', 0);
    SolvedStickers(c', 1);
    SolvedStickers(c', 2);
    assert c.edges == c'.edges;
  }

  /** Two solved edge pieces on the same edge place are the same piece. */
  lemma {:induction false} SolvedMiddleIsItsPlace(c: Cublet, c': Cublet, a: Face, b: Face)
    requires IsSolvedPiece(c) && IsSolvedPiece(c') && |c.edges| == 2 && |c'.edges| == 2
    requires EdgeSlot(a, b) && Holds2(c, a, b) && Holds2(c', a, b)
    ensures c == c'
  {
    MiddleFacesAre(c, a);
    MiddleFacesAre(c, b);
    MiddleFacesAre(c', a);
    MiddleFacesAre(c', b);
    SolvedStickers(c, 0);
    SolvedStickers(c, 1);
    SolvedStickers(c', 0);
    SolvedStickers(c', 1);
    assert c.edges == c'.edges;
  }

  /** The solved cube holds every corner place with exactly one corner. */
  lemma {:induction false} SolvedCornersOccupy()
    ensures CornersOccupy(SOLVED_CORNERS)
  {
    forall a: Face, b: Face, d: Face | CornerSlot(a, b, d)
      ensures exists j :: 0 <= j < |SOLVED_CORNERS| && Holds3(SOLVED_CORNERS[j], a, b, d)
    {
      ShareEdgeSymmetric(a, b);
      ShareEdgeSymmetric(b, d);
      ShareEdgeSymmetric(a, d);
      if a < b < d {
        SolvedCornerOnSlot(a, b, d);
      } else if a < d < b {
        SolvedCornerOnSlot(a, d, b);
      } else if b < a < d {
        SolvedCornerOnSlot(b, a, d);
      } else if b < d < a {
        SolvedCornerOnSlot(b, d, a);
      } else if d < a < b {
        SolvedCornerOnSlot(d, a, b);
      } else {
        SolvedCornerOnSlot(d, b, a);
      }
    }
    SolvedPiecesAreWellFormed();
    SolvedCornersAreAdjacentTriples();
    forall a: Face, b: Face, d: Face, j: int, j': int | CornerSlot(a, b, d) && 0 <= j < |SOLVED_CORNERS| && 0 <= j' < |SOLVED_CORNERS| &&
        Holds3(SOLVED_CORNERS[j], a, b, d) && Holds3(SOLVED_CORNERS[j'], a, b, d)
      ensures j == j'
    {
      SolvedCornerIsItsPlace(SOLVED_CORNERS[j], SOLVED_CORNERS[j'], a, b, d);
    }
  }

  /** The solved cube holds every edge place with exactly one edge piece. */
  lemma {:induction false} SolvedMiddlesOccupy()
    ensures MiddlesOccupy(SOLVED_MIDDLES)
  {
    forall a: Face, b: Face | EdgeSlot(a, b)
      ensures exists j :: 0 <= j < |SOLVED_MIDDLES| && Holds2(SOLVED_MIDDLES[j], a, b)
    {
      ShareEdgeSymmetric(a, b);
      if a < b {
        SolvedMiddleOnSlot(a, b);
      } else {
        SolvedMiddleOnSlot(b, a);
      }
    }
    SolvedPiecesAreWellFormed();
    SolvedMiddlesAreAdjacentPairs();
    forall a: Face, b: Face, j: int, j': int | EdgeSlot(a, b) && 0 <= j < |SOLVED_MIDDLES| && 0 <= j' < |SOLVED_MIDDLES| &&
        Holds2(SOLVED_MIDDLES[j], a, b) && Holds2(SOLVED_MIDDLES[j'], a, b)
      ensures j == j'
    {
      SolvedMiddleIsItsPlace(SOLVED_MIDDLES[j], SOLVED_MIDDLES[j'], a, b);
    }
  }

  /** Recolouring keeps the faces each piece touches. */
  lemma PlacementKeepsFaces(cs: seq<Cublet>, ds: seq<Cublet>, j: nat, x: Face)
    requires SamePlacement(cs, ds) && j < |cs|
    ensures IsRotated(cs[j], x) <==> IsRotated(ds[j], x)
  {
    if IsRotated(cs[j], x) {
      var k :| 0 <= k < |cs[j].edges| && cs[j].edges[k].face == x;
      assert ds[j].edges[k].face == x;
    }
    if IsRotated(ds[j], x) {
      var k :| 0 <= k < |ds[j].edges| && ds[j].edges[k].face == x;
      assert cs[j].edges[k].face == x;
    }
  }

  /** Corner occupancy reads faces only: recolouring the stickers of
      pieces that fill every corner place keeps them filling it. */
  lemma {:induction false} PlacementKeepsCornersOccupy(cs: seq<Cublet>, ds: seq<Cublet>)
    requires SamePlacement(cs, ds) && CornersOccupy(ds)
    ensures CornersOccupy(cs)
  {
    forall a: Face, b: Face, d: Face | CornerSlot(a, b, d)
      ensures exists j :: 0 <= j < |cs| && Holds3(cs[j], a, b, d)
    {
      var j :| 0 <= j < |ds| && Holds3(ds[j], a, b, d);
      PlacementKeepsFaces(cs, ds, j, a);
      PlacementKeepsFaces(cs, ds, j, b);
      PlacementKeepsFaces(cs, ds, j, d);
      assert Holds3(cs[j], a, b, d);
    }
    forall a: Face, b: Face, d: Face, j: int, j': int | CornerSlot(a, b, d) && 0 <= j < |cs| && 0 <= j' < |cs| &&
        Holds3(cs[j], a, b, d) && Holds3(cs[j'], a, b, d)
      ensures j == j'
    {
      PlacementKeepsFaces(cs, ds, j, a);
      PlacementKeepsFaces(cs, ds, j, b);
      PlacementKeepsFaces(cs, ds, j, d);
      PlacementKeepsFaces(cs, ds, j', a);
      PlacementKeepsFaces(cs, ds, j', b);
      PlacementKeepsFaces(cs, ds, j', d);
    }
  }

  /** Edge occupancy reads faces only as well. */
  lemma {:induction false} PlacementKeepsMiddlesOccupy(ms: seq<Cublet>, ns: seq<Cublet>)
    requires SamePlacement(ms, ns) && MiddlesOccupy(ns)
    ensures MiddlesOccupy(ms)
  {
    forall a: Face, b: Face | EdgeSlot(a, b)
      ensures exists j :: 0 <= j < |ms| && Holds2(ms[j], a, b)
    {
      var j :| 0 <= j < |ns| && Holds2(ns[j], a, b);
      PlacementKeepsFaces(ms, ns, j, a);
      PlacementKeepsFaces(ms, ns, j, b);
      assert Holds2(ms[j], a, b);
    }
    forall a: Face, b: Face, j: int, j': int | EdgeSlot(a, b) && 0 <= j < |ms| && 0 <= j' < |ms| &&
        Holds2(ms[j], a, b) && Holds2(ms[j'], a, b)
      ensures j == j'
    {
      PlacementKeepsFaces(ms, ns, j, a);
      PlacementKeepsFaces(ms, ns, j, b);
      PlacementKeepsFaces(ms, ns, j', a);
      PlacementKeepsFaces(ms, ns, j', b);
    }
  }

  /** The faces of the corner cell and of the edge cell at step i of the
      walk round f are a corner place and an edge place. */
  lemma WalkCellsAreSlots(f: Face, i: nat)
    requires IsFace(f) && i < 4
    ensures CornerSlot(f, WalkCurrent(f, i), WalkPrevious(f, i))
    ensures EdgeSlot(f, WalkCurrent(f, i))
  {
    var current, previous := WalkCurrent(f, i), WalkPrevious(f, i);
    WalkPreviousIsStepBefore(f, i);
    WalkStepsDiffer(f, i, if i == 0 then 3 else i - 1);
    RotatedIsFourCycle(f, previous);
  }

  /** When every place is held and every sticker shows a real colour, the
      grid `toColorMatrix` reads has a real colour in every cell: every
      `cubletIndex` lookup finds its piece. */
  lemma {:induction false} OccupiedGridIsComplete(cs: seq<Cublet>, ms: seq<Cublet>)
    requires CornersOccupy(cs) && MiddlesOccupy(ms) && RealColors(cs) && RealColors(ms)
    ensures AllColorsValid(GridOf(cs, ms))
  {
    forall f, k | 0 <= f < 6 && 0 <= k < 9
      ensures GridOf(cs, ms)[f][k] != INVALID_COLOR
    {
      if k < 8 {
        var i := k / 2;
        WalkCellsAreSlots(f, i);
        if k % 2 == 0 {
          var j :| 0 <= j < |cs| && Holds3(cs[j], f, WalkCurrent(f, i), WalkPrevious(f, i));
          assert Covers(cs[j], CornerFaces(f, i));
        } else {
          var j :| 0 <= j < |ms| && Holds2(ms[j], f, WalkCurrent(f, i));
          assert Covers(ms[j], MiddleFaces(f, i));
        }
      }
    }
  }
}
