/** The solved cube that the default constructor builds, and the facts
    about its placement that the facelet-grid codec relies on. */
module Solved {
  import opened Geometry
  import opened Pieces

  /** The corner painted a, b, c with each colour on the face of the same
      number (the constructor casts colour to face). */
  function SolvedCorner(a: int, b: int, c: int): Corner
    requires 0 <= a < 6 && 0 <= b < 6 && 0 <= c < 6
  {
    Cublet([Edge(a, a), Edge(b, b), Edge(c, c)])
  }

  /** The edge piece painted a, b with each colour on its own face. */
  function SolvedMiddle(a: int, b: int): Middle
    requires 0 <= a < 6 && 0 <= b < 6
  {
    Cublet([Edge(a, a), Edge(b, b)])
  }

  /** The corners the loops have built when color1 = a is about to start. */
  function CornersBefore(a: int): seq<Corner>
    requires 0 <= a <= 6
    decreases a, 0, 0
  {
    if a == 0 then [] else CornersAt2(a - 1, 6)
  }

  /** The corners built when color1 = a and color2 = b is about to start. */
  function CornersAt2(a: int, b: int): seq<Corner>
    requires 0 <= a < 6 && a + 1 <= b <= 6
    decreases a, b - a, 0
  {
    if b == a + 1 then CornersBefore(a) else CornersAt3(a, b - 1, 6)
  }

  /** The corners built when color1 = a, color2 = b and color3 = c is
      about to start: the previous pass appended the corner a, b, c - 1
      when its three colours are pairwise adjacent. */
  function CornersAt3(a: int, b: int, c: int): seq<Corner>
    requires 0 <= a < b < 6 && b + 1 <= c <= 6
    decreases a, b - a, c - b
  {
    if c == b + 1 then CornersAt2(a, b)
    else
      var built := CornersAt3(a, b, c - 1);
      if ShareEdge(a, b) && ShareEdge(b, c - 1) && ShareEdge(c - 1, a) then built + [SolvedCorner(a, b, c - 1)]
      else built
  }

  /** The edge pieces the loops have built when color1 = a is about to start. */
  function MiddlesBefore(a: int): seq<Middle>
    requires 0 <= a <= 6
    decreases a, 0
  {
    if a == 0 then [] else MiddlesAt(a - 1, 6)
  }

  /** The edge pieces built when color1 = a and color2 = b is about to start. */
  function MiddlesAt(a: int, b: int): seq<Middle>
    requires 0 <= a < 6 && a + 1 <= b <= 6
    decreases a, b - a
  {
    if b == a + 1 then MiddlesBefore(a)
    else
      var built := MiddlesAt(a, b - 1);
      if ShareEdge(a, b - 1) then built + [SolvedMiddle(a, b - 1)] else built
  }

  /** The eight corners of the solved cube, in the order the loops build them. */
  const SOLVED_CORNERS: seq<Corner> := [
    Cublet([Edge(0, 0), Edge(2, 2), Edge(4, 4)]),
    Cublet([Edge(0, 0), Edge(2, 2), Edge(5, 5)]),
    Cublet([Edge(0, 0), Edge(3, 3), Edge(4, 4)]),
    Cublet([Edge(0, 0), Edge(3, 3), Edge(5, 5)]),
    Cublet([Edge(1, 1), Edge(2, 2), Edge(4, 4)]),
    Cublet([Edge(1, 1), Edge(2, 2), Edge(5, 5)]),
    Cublet([Edge(1, 1), Edge(3, 3), Edge(4, 4)]),
    Cublet([Edge(1, 1), Edge(3, 3), Edge(5, 5)])
  ]

  /** The twelve edge pieces of the solved cube, in the order the loops build them. */
  const SOLVED_MIDDLES: seq<Middle> := [
    Cublet([Edge(0, 0), Edge(2, 2)]),
    Cublet([Edge(0, 0), Edge(3, 3)]),
    Cublet([Edge(0, 0), Edge(4, 4)]),
    Cublet([Edge(0, 0), Edge(5, 5)]),
    Cublet([Edge(1, 1), Edge(2, 2)]),
    Cublet([Edge(1, 1), Edge(3, 3)]),
    Cublet([Edge(1, 1), Edge(4, 4)]),
    Cublet([Edge(1, 1), Edge(5, 5)]),
    Cublet([Edge(2, 2), Edge(4, 4)]),
    Cublet([Edge(2, 2), Edge(5, 5)]),
    Cublet([Edge(3, 3), Edge(4, 4)]),
    Cublet([Edge(3, 3), Edge(5, 5)])
  ]

  /** The corner loops build exactly SOLVED_CORNERS: four corners with
      WHITE as smallest colour, four with YELLOW, and none after. */
  lemma CornerEnumerationIsSolved()
    ensures CornersBefore(6) == SOLVED_CORNERS
  {
    assert CornersAt2(0, 3) == SOLVED_CORNERS[..2];
    assert CornersAt2(0, 4) == SOLVED_CORNERS[..4];
    assert CornersBefore(1) == SOLVED_CORNERS[..4];
    assert CornersAt2(1, 3) == SOLVED_CORNERS[..6];
    assert CornersAt2(1, 4) == SOLVED_CORNERS;
    assert CornersBefore(2) == SOLVED_CORNERS;
    assert CornersBefore(3) == SOLVED_CORNERS;
    assert CornersBefore(4) == SOLVED_CORNERS;
    assert CornersBefore(5) == SOLVED_CORNERS;
  }

  /** The edge loops build exactly SOLVED_MIDDLES. */
  lemma MiddleEnumerationIsSolved()
    ensures MiddlesBefore(6) == SOLVED_MIDDLES
  {
    assert MiddlesBefore(1) == SOLVED_MIDDLES[..4];
    assert MiddlesBefore(2) == SOLVED_MIDDLES[..8];
    assert MiddlesBefore(3) == SOLVED_MIDDLES[..10];
    assert MiddlesBefore(4) == SOLVED_MIDDLES;
    assert MiddlesBefore(5) == SOLVED_MIDDLES;
  }

  /** A piece of the solved cube: each sticker shows the colour numbered
      as its face, the colours strictly increase, and the piece is well
      formed. */
  predicate IsSolvedPiece(c: Cublet) {
    && WellFormed(c)
    && (forall k :: 0 <= k < |c.edges| ==> c.edges[k].color == c.edges[k].face)
    && (forall i, j :: 0 <= i < j < |c.edges| ==> c.edges[i].color < c.edges[j].color)
  }

  /** A corner painted with increasing, pairwise adjacent colours is a
      solved piece. */
  lemma SolvedCornerIsSolved(a: int, b: int, c: int)
    requires 0 <= a < b < c < 6 && ShareEdge(a, b) && ShareEdge(b, c) && ShareEdge(a, c)
    ensures IsSolvedPiece(SolvedCorner(a, b, c))
  {
    var e := SolvedCorner(a, b, c).edges;
    forall i, j | 0 <= i < j < 3
      ensures e[i].face != e[j].face && ShareEdge(e[i].face, e[j].face) && e[i].color < e[j].color
    {
      assert (i == 0 && j == 1) || (i == 0 && j == 2) || (i == 1 && j == 2);
    }
    forall k | 0 <= k < 3
      ensures IsFace(e[k].face) && e[k].color == e[k].face
    {
      assert k == 0 || k == 1 || k == 2;
    }
  }

  /** An edge piece painted with increasing adjacent colours is a solved piece. */
  lemma SolvedMiddleIsSolved(a: int, b: int)
    requires 0 <= a < b < 6 && ShareEdge(a, b)
    ensures IsSolvedPiece(SolvedMiddle(a, b))
  {
  }

  /** Corner j of the solved cube is a solved piece. */
  lemma {:induction false} SolvedCornerAt(j: int)
    requires 0 <= j < |SOLVED_CORNERS|
    ensures IsSolvedPiece(SOLVED_CORNERS[j])
  {
    if j == 0 {
      assert SOLVED_CORNERS[0] == SolvedCorner(0, 2, 4);
      SolvedCornerIsSolved(0, 2, 4);
    } else if j == 1 {
      assert SOLVED_CORNERS[1] == SolvedCorner(0, 2, 5);
      SolvedCornerIsSolved(0, 2, 5);
    } else if j == 2 {
      assert SOLVED_CORNERS[2] == SolvedCorner(0, 3, 4);
      SolvedCornerIsSolved(0, 3, 4);
    } else if j == 3 {
      assert SOLVED_CORNERS[3] == SolvedCorner(0, 3, 5);
      SolvedCornerIsSolved(0, 3, 5);
    } else if j == 4 {
      assert SOLVED_CORNERS[4] == SolvedCorner(1, 2, 4);
      SolvedCornerIsSolved(1, 2, 4);
    } else if j == 5 {
      assert SOLVED_CORNERS[5] == SolvedCorner(1, 2, 5);
      SolvedCornerIsSolved(1, 2, 5);
    } else if j == 6 {
      assert SOLVED_CORNERS[6] == SolvedCorner(1, 3, 4);
      SolvedCornerIsSolved(1, 3, 4);
    } else {
      assert SOLVED_CORNERS[7] == SolvedCorner(1, 3, 5);
      SolvedCornerIsSolved(1, 3, 5);
    }
  }

  /** Edge piece j of the solved cube is a solved piece. */
  lemma {:induction false} SolvedMiddleAt(j: int)
    requires 0 <= j < |SOLVED_MIDDLES|
    ensures IsSolvedPiece(SOLVED_MIDDLES[j])
  {
    if j == 0 {
      assert SOLVED_MIDDLES[0] == SolvedMiddle(0, 2);
      SolvedMiddleIsSolved(0, 2);
    } else if j == 1 {
      assert SOLVED_MIDDLES[1] == SolvedMiddle(0, 3);
      SolvedMiddleIsSolved(0, 3);
    } else if j == 2 {
      assert SOLVED_MIDDLES[2] == SolvedMiddle(0, 4);
      SolvedMiddleIsSolved(0, 4);
    } else if j == 3 {
      assert SOLVED_MIDDLES[3] == SolvedMiddle(0, 5);
      SolvedMiddleIsSolved(0, 5);
    } else if j == 4 {
      assert SOLVED_MIDDLES[4] == SolvedMiddle(1, 2);
      SolvedMiddleIsSolved(1, 2);
    } else if j == 5 {
      assert SOLVED_MIDDLES[5] == SolvedMiddle(1, 3);
      SolvedMiddleIsSolved(1, 3);
    } else if j == 6 {
      assert SOLVED_MIDDLES[6] == SolvedMiddle(1, 4);
      SolvedMiddleIsSolved(1, 4);
    } else if j == 7 {
      assert SOLVED_MIDDLES[7] == SolvedMiddle(1, 5);
      SolvedMiddleIsSolved(1, 5);
    } else if j == 8 {
      assert SOLVED_MIDDLES[8] == SolvedMiddle(2, 4);
      SolvedMiddleIsSolved(2, 4);
    } else if j == 9 {
      assert SOLVED_MIDDLES[9] == SolvedMiddle(2, 5);
      SolvedMiddleIsSolved(2, 5);
    } else if j == 10 {
      assert SOLVED_MIDDLES[10] == SolvedMiddle(3, 4);
      SolvedMiddleIsSolved(3, 4);
    } else {
      assert SOLVED_MIDDLES[11] == SolvedMiddle(3, 5);
      SolvedMiddleIsSolved(3, 5);
    }
  }

  /** Every piece of the solved cube is a solved piece. */
  lemma {:induction false} SolvedPiecesAreWellFormed()
    ensures forall j :: 0 <= j < |SOLVED_CORNERS| ==> IsSolvedPiece(SOLVED_CORNERS[j])
    ensures forall j :: 0 <= j < |SOLVED_MIDDLES| ==> IsSolvedPiece(SOLVED_MIDDLES[j])
  {
    forall j | 0 <= j < |SOLVED_CORNERS| ensures IsSolvedPiece(SOLVED_CORNERS[j]) {
      SolvedCornerAt(j);
    }
    forall j | 0 <= j < |SOLVED_MIDDLES| ensures IsSolvedPiece(SOLVED_MIDDLES[j]) {
      SolvedMiddleAt(j);
    }
  }

  /** Every strictly increasing triple of pairwise adjacent colours has
      its corner among those of the solved cube. */
  lemma {:induction false} AdjacentTripleIsSolvedCorner(a: int, b: int, c: int)
    requires 0 <= a < b < c < 6 && ShareEdge(a, b) && ShareEdge(b, c) && ShareEdge(c, a)
    ensures SolvedCorner(a, b, c) in SOLVED_CORNERS
  {
    if a == 0 && b == 2 && c == 4 {
      assert SOLVED_CORNERS[0] == SolvedCorner(0, 2, 4);
    } else if a == 0 && b == 2 && c == 5 {
      assert SOLVED_CORNERS[1] == SolvedCorner(0, 2, 5);
    } else if a == 0 && b == 3 && c == 4 {
      assert SOLVED_CORNERS[2] == SolvedCorner(0, 3, 4);
    } else if a == 0 && b == 3 && c == 5 {
      assert SOLVED_CORNERS[3] == SolvedCorner(0, 3, 5);
    } else if a == 1 && b == 2 && c == 4 {
      assert SOLVED_CORNERS[4] == SolvedCorner(1, 2, 4);
    } else if a == 1 && b == 2 && c == 5 {
      assert SOLVED_CORNERS[5] == SolvedCorner(1, 2, 5);
    } else if a == 1 && b == 3 && c == 4 {
      assert SOLVED_CORNERS[6] == SolvedCorner(1, 3, 4);
    } else if a == 1 && b == 3 && c == 5 {
      assert SOLVED_CORNERS[7] == SolvedCorner(1, 3, 5);
    } else {
      assert false;
    }
  }

  /** Every strictly increasing pair of adjacent colours has its edge piece
      among those of the solved cube. */
  lemma {:induction false} AdjacentPairIsSolvedMiddle(a: int, b: int)
    requires 0 <= a < b < 6 && ShareEdge(a, b)
    ensures SolvedMiddle(a, b) in SOLVED_MIDDLES
  {
    if a == 0 && b == 2 {
      assert SOLVED_MIDDLES[0] == SolvedMiddle(0, 2);
    } else if a == 0 && b == 3 {
      assert SOLVED_MIDDLES[1] == SolvedMiddle(0, 3);
    } else if a == 0 && b == 4 {
      assert SOLVED_MIDDLES[2] == SolvedMiddle(0, 4);
    } else if a == 0 && b == 5 {
      assert SOLVED_MIDDLES[3] == SolvedMiddle(0, 5);
    } else if a == 1 && b == 2 {
      assert SOLVED_MIDDLES[4] == SolvedMiddle(1, 2);
    } else if a == 1 && b == 3 {
      assert SOLVED_MIDDLES[5] == SolvedMiddle(1, 3);
    } else if a == 1 && b == 4 {
      assert SOLVED_MIDDLES[6] == SolvedMiddle(1, 4);
    } else if a == 1 && b == 5 {
      assert SOLVED_MIDDLES[7] == SolvedMiddle(1, 5);
    } else if a == 2 && b == 4 {
      assert SOLVED_MIDDLES[8] == SolvedMiddle(2, 4);
    } else if a == 2 && b == 5 {
      assert SOLVED_MIDDLES[9] == SolvedMiddle(2, 5);
    } else if a == 3 && b == 4 {
      assert SOLVED_MIDDLES[10] == SolvedMiddle(3, 4);
    } else if a == 3 && b == 5 {
      assert SOLVED_MIDDLES[11] == SolvedMiddle(3, 5);
    } else {
      assert false;
    }
  }

  /** The solved cube has one corner for each strictly increasing triple of
      pairwise adjacent colours and no other: 8 corners, as the constructor
      asserts. */
  lemma {:induction false} SolvedCornersAreAdjacentTriples()
    ensures |SOLVED_CORNERS| == 8
    ensures forall a, b, c :: 0 <= a < b < c < 6 ==>
      (SolvedCorner(a, b, c) in SOLVED_CORNERS <==> ShareEdge(a, b) && ShareEdge(b, c) && ShareEdge(c, a))
    ensures forall j, j' :: 0 <= j < j' < 8 ==> SOLVED_CORNERS[j] != SOLVED_CORNERS[j']
  {
    forall a, b, c | 0 <= a < b < c < 6
      ensures SolvedCorner(a, b, c) in SOLVED_CORNERS <==> ShareEdge(a, b) && ShareEdge(b, c) && ShareEdge(c, a)
    {
      if SolvedCorner(a, b, c) in SOLVED_CORNERS {
        var j :| 0 <= j < 8 && SOLVED_CORNERS[j] == SolvedCorner(a, b, c);
        SolvedCornerAt(j);
        assert ShareEdge(SOLVED_CORNERS[j].edges[0].face, SOLVED_CORNERS[j].edges[2].face);
      } else if ShareEdge(a, b) && ShareEdge(b, c) && ShareEdge(c, a) {
        AdjacentTripleIsSolvedCorner(a, b, c);
      }
    }
  }

  /** One edge piece for each strictly increasing adjacent pair and no
      other: 12 edge pieces, as the constructor asserts. */
  lemma {:induction false} SolvedMiddlesAreAdjacentPairs()
    ensures |SOLVED_MIDDLES| == 12
    ensures forall a, b :: 0 <= a < b < 6 ==> (SolvedMiddle(a, b) in SOLVED_MIDDLES <==> ShareEdge(a, b))
    ensures forall j, j' :: 0 <= j < j' < 12 ==> SOLVED_MIDDLES[j] != SOLVED_MIDDLES[j']
  {
    forall a, b | 0 <= a < b < 6
      ensures SolvedMiddle(a, b) in SOLVED_MIDDLES <==> ShareEdge(a, b)
    {
      if SolvedMiddle(a, b) in SOLVED_MIDDLES {
        var j :| 0 <= j < 12 && SOLVED_MIDDLES[j] == SolvedMiddle(a, b);
        SolvedMiddleAt(j);
      } else if ShareEdge(a, b) {
        AdjacentPairIsSolvedMiddle(a, b);
      }
    }
  }

  /** The default constructor's first loop nest: a corner for every strictly
      increasing triple of pairwise adjacent colours, each sticker on the
      face numbered as its colour. */
  method SolvedCorners() returns (corners: seq<Corner>)
    ensures corners == SOLVED_CORNERS
  {
    corners := [];
    var color1 := 0;
    while color1 < 6
      invariant 0 <= color1 <= 6
      invariant corners == CornersBefore(color1)
    {
      var color2 := color1 + 1;
      while color2 < 6
        invariant color1 + 1 <= color2 <= 6
        invariant corners == CornersAt2(color1, color2)
      {
        var color3 := color2 + 1;
        while color3 < 6
          invariant color2 + 1 <= color3 <= 6
          invariant corners == CornersAt3(color1, color2, color3)
        {
          if ShareEdge(color1, color2) && ShareEdge(color2, color3) && ShareEdge(color3, color1) {
            corners := corners + [SolvedCorner(color1, color2, color3)];
          }
          color3 := color3 + 1;
        }
        color2 := color2 + 1;
      }
      color1 := color1 + 1;
    }
    CornerEnumerationIsSolved();
  }

  /** The default constructor's second loop nest: an edge piece for every
      strictly increasing adjacent pair of colours. */
  method SolvedMiddles() returns (middles: seq<Middle>)
    ensures middles == SOLVED_MIDDLES
  {
    middles := [];
    var color1 := 0;
    while color1 < 6
      invariant 0 <= color1 <= 6
      invariant middles == MiddlesBefore(color1)
    {
      var color2 := color1 + 1;
      while color2 < 6
        invariant color1 + 1 <= color2 <= 6
        invariant middles == MiddlesAt(color1, color2)
      {
        if ShareEdge(color1, color2) {
          middles := middles + [SolvedMiddle(color1, color2)];
        }
        color2 := color2 + 1;
      }
      color1 := color1 + 1;
    }
    MiddleEnumerationIsSolved();
  }

  /** The pieces of the default constructor: the corner loops, then the edge loops. */
  method SolvedPieces() returns (corners: seq<Corner>, middles: seq<Middle>)
    ensures corners == SOLVED_CORNERS && middles == SOLVED_MIDDLES
  {
    corners := SolvedCorners();
    middles := SolvedMiddles();
  }

  /** A corner (index into SOLVED_CORNERS) and an edge piece (index into
      SOLVED_MIDDLES) that sit at step i of the walk round face f in the
      solved cube. */
  const CORNER_AT: seq<seq<int>> := [[0, 2, 3, 1], [6, 4, 5, 7], [4, 0, 1, 5], [2, 6, 7, 3], [4, 6, 2, 0], [1, 3, 7, 5]]
  const MIDDLE_AT: seq<seq<int>> := [[2, 1, 3, 0], [6, 4, 7, 5], [8, 0, 9, 4], [10, 5, 11, 1], [6, 10, 2, 8], [3, 11, 7, 9]]

  /** In the solved cube every corner cell and every edge cell of the walk
      round a face is occupied: `cubletIndex` never returns -1 there. */
  lemma SolvedCellsOccupied(f: Face, i: nat)
    requires IsFace(f) && i < 4
    ensures CubletIndex(SOLVED_CORNERS, CornerFaces(f, i)) >= 0
    ensures CubletIndex(SOLVED_MIDDLES, MiddleFaces(f, i)) >= 0
  {
    FaceCases(f);
    if f == FRONT {
      SolvedCellsOfFront(i);
    } else if f == BACK {
      SolvedCellsOfBack(i);
    } else if f == LEFT {
      SolvedCellsOfLeft(i);
    } else if f == RIGHT {
      SolvedCellsOfRight(i);
    } else if f == TOP {
      SolvedCellsOfTop(i);
    } else {
      SolvedCellsOfBottom(i);
    }
    var c := SOLVED_CORNERS[CORNER_AT[f][i]];
    var m := SOLVED_MIDDLES[MIDDLE_AT[f][i]];
    assert Covers(c, CornerFaces(f, i)) && Covers(m, MiddleFaces(f, i));
  }

  lemma SolvedCellsOfFront(i: nat)
    requires i < 4
    ensures CoversFrom(SOLVED_CORNERS[CORNER_AT[FRONT][i]], CornerFaces(FRONT, i), 0)
    ensures CoversFrom(SOLVED_MIDDLES[MIDDLE_AT[FRONT][i]], MiddleFaces(FRONT, i), 0)
  {
    if i == 0 {
      assert CornerFaces(FRONT, i) == [FRONT, TOP, LEFT];
    } else if i == 1 {
      assert CornerFaces(FRONT, i) == [FRONT, RIGHT, TOP];
    } else if i == 2 {
      assert CornerFaces(FRONT, i) == [FRONT, BOTTOM, RIGHT];
    } else {
      assert CornerFaces(FRONT, i) == [FRONT, LEFT, BOTTOM];
    }
  }

  lemma SolvedCellsOfBack(i: nat)
    requires i < 4
    ensures CoversFrom(SOLVED_CORNERS[CORNER_AT[BACK][i]], CornerFaces(BACK, i), 0)
    ensures CoversFrom(SOLVED_MIDDLES[MIDDLE_AT[BACK][i]], MiddleFaces(BACK, i), 0)
  {
    if i == 0 {
      assert CornerFaces(BACK, i) == [BACK, TOP, RIGHT];
    } else if i == 1 {
      assert CornerFaces(BACK, i) == [BACK, LEFT, TOP];
    } else if i == 2 {
      assert CornerFaces(BACK, i) == [BACK, BOTTOM, LEFT];
    } else {
      assert CornerFaces(BACK, i) == [BACK, RIGHT, BOTTOM];
    }
  }

  lemma SolvedCellsOfLeft(i: nat)
    requires i < 4
    ensures CoversFrom(SOLVED_CORNERS[CORNER_AT[LEFT][i]], CornerFaces(LEFT, i), 0)
    ensures CoversFrom(SOLVED_MIDDLES[MIDDLE_AT[LEFT][i]], MiddleFaces(LEFT, i), 0)
  {
    if i == 0 {
      assert CornerFaces(LEFT, i) == [LEFT, TOP, BACK];
    } else if i == 1 {
      assert CornerFaces(LEFT, i) == [LEFT, FRONT, TOP];
    } else if i == 2 {
      assert CornerFaces(LEFT, i) == [LEFT, BOTTOM, FRONT];
    } else {
      assert CornerFaces(LEFT, i) == [LEFT, BACK, BOTTOM];
    }
  }

  lemma SolvedCellsOfRight(i: nat)
    requires i < 4
    ensures CoversFrom(SOLVED_CORNERS[CORNER_AT[RIGHT][i]], CornerFaces(RIGHT, i), 0)
    ensures CoversFrom(SOLVED_MIDDLES[MIDDLE_AT[RIGHT][i]], MiddleFaces(RIGHT, i), 0)
  {
    if i == 0 {
      assert CornerFaces(RIGHT, i) == [RIGHT, TOP, FRONT];
    } else if i == 1 {
      assert CornerFaces(RIGHT, i) == [RIGHT, BACK, TOP];
    } else if i == 2 {
      assert CornerFaces(RIGHT, i) == [RIGHT, BOTTOM, BACK];
    } else {
      assert CornerFaces(RIGHT, i) == [RIGHT, FRONT, BOTTOM];
    }
  }

  lemma SolvedCellsOfTop(i: nat)
    requires i < 4
    ensures CoversFrom(SOLVED_CORNERS[CORNER_AT[TOP][i]], CornerFaces(TOP, i), 0)
    ensures CoversFrom(SOLVED_MIDDLES[MIDDLE_AT[TOP][i]], MiddleFaces(TOP, i), 0)
  {
    if i == 0 {
      assert CornerFaces(TOP, i) == [TOP, BACK, LEFT];
    } else if i == 1 {
      assert CornerFaces(TOP, i) == [TOP, RIGHT, BACK];
    } else if i == 2 {
      assert CornerFaces(TOP, i) == [TOP, FRONT, RIGHT];
    } else {
      assert CornerFaces(TOP, i) == [TOP, LEFT, FRONT];
    }
  }

  lemma SolvedCellsOfBottom(i: nat)
    requires i < 4
    ensures CoversFrom(SOLVED_CORNERS[CORNER_AT[BOTTOM][i]], CornerFaces(BOTTOM, i), 0)
    ensures CoversFrom(SOLVED_MIDDLES[MIDDLE_AT[BOTTOM][i]], MiddleFaces(BOTTOM, i), 0)
  {
    if i == 0 {
      assert CornerFaces(BOTTOM, i) == [BOTTOM, FRONT, LEFT];
    } else if i == 1 {
      assert CornerFaces(BOTTOM, i) == [BOTTOM, RIGHT, FRONT];
    } else if i == 2 {
      assert CornerFaces(BOTTOM, i) == [BOTTOM, BACK, RIGHT];
    } else {
      assert CornerFaces(BOTTOM, i) == [BOTTOM, LEFT, BACK];
    }
  }
}
