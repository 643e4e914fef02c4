/** The `RubiksCube` class: eight corners and twelve edge pieces that
    `rotate` relabels in place, its three constructors, `toColorMatrix`
    and `operator==`. */
module Cube {
  import opened Geometry
  import opened Pieces
  import opened Solved
  import opened TextFormat
  import opened Facelets
  import opened Occupancy

  /** The body of `rotate` for one cublet: when it has a sticker on `face`,
      every sticker's face goes through the rotation table. */
  method TurnCublet(face: Face, c: Cublet) returns (r: Cublet)
    requires IsFace(face) && WellFormed(c)
    ensures r == Turn(face, c)
  {
    r := c;
    if IsRotated(c, face) {
      var edges := c.edges;
      for i := 0 to |edges|
        invariant |edges| == |c.edges|
        invariant forall k :: 0 <= k < |edges| ==>
          edges[k] == if k < i then Edge(c.edges[k].color, Rotated(face, c.edges[k].face)) else c.edges[k]
      {
        edges := edges[i := Edge(edges[i].color, Rotated(face, edges[i].face))];
      }
      r := Cublet(edges);
      assert r == Relabel(face, c);
    }
  }

  /** One of the two loops of `rotate`: the body applied to every cublet
      of the collection in turn. */
  method TurnCublets(face: Face, cs: seq<Cublet>) returns (r: seq<Cublet>)
    requires IsFace(face) && forall j :: 0 <= j < |cs| ==> WellFormed(cs[j])
    ensures r == TurnAll(face, cs)
  {
    r := cs;
    for j := 0 to |r|
      invariant |r| == |cs|
      invariant forall k :: 0 <= k < |r| ==> r[k] == if k < j then Turn(face, cs[k]) else cs[k]
    {
      var c := TurnCublet(face, r[j]);
      r := r[j := c];
    }
  }

  /** Every cublet of the collection keeps the invariant. */
  ghost predicate AllWellFormed(cs: seq<Cublet>) {
    forall j :: 0 <= j < |cs| ==> WellFormed(cs[j])
  }

  class RubiksCube {
    var corners: seq<Corner>
    var middles: seq<Middle>

    /** Every sticker is on a real face and no cublet has two stickers on
        one face or on opposite faces. */
    ghost predicate PiecesWellFormed()
      reads this
    {
      AllWellFormed(corners) && AllWellFormed(middles)
    }

    /** The invariants of the cube: well-formed pieces that fill every
        corner place and every edge place, one piece to a place. */
    ghost predicate Valid()
      reads this
    {
      PiecesWellFormed() && CornersOccupy(corners) && MiddlesOccupy(middles)
    }

    /** Every sticker shows one of the six real colours. */
    ghost predicate Colored()
      reads this
    {
      RealColors(corners) && RealColors(middles)
    }

    /** The solved cube: the corner loops, then the edge loops. */
    constructor ()
      ensures corners == SOLVED_CORNERS && middles == SOLVED_MIDDLES
      ensures |corners| == 8 && |middles| == 12 && Valid() && Colored()
    {
      var cs, ms := SolvedPieces();
      corners, middles := cs, ms;
      SolvedPiecesAreWellFormed();
      SolvedCornersOccupy();
      SolvedMiddlesOccupy();
    }

    /** The cube made of the given pieces, copied as they are. */
    constructor FromPieces(corners: seq<Corner>, middles: seq<Middle>)
      ensures this.corners == corners && this.middles == middles
    {
      this.corners, this.middles := corners, middles;
    }

    /** The cube a colour grid describes: the solved cube with every ring
        cell painted from the grid. Reading it back gives the grid on every
        ring cell; centres read back as their face's colour. */
    constructor FromGrid(matrix: Grid)
      ensures SamePlacement(corners, SOLVED_CORNERS) && SamePlacement(middles, SOLVED_MIDDLES)
      ensures |corners| == 8 && |middles| == 12 && Valid()
      ensures forall f, k :: 0 <= f < 6 && 0 <= k < 8 ==> ColorGrid()[f][k] == matrix[f][k]
      ensures forall f :: 0 <= f < 6 ==> ColorGrid()[f][8] == f
    {
      var cs, ms := PaintGrid(matrix);
      corners, middles := cs, ms;
      PlacedAsSolvedIsValid(cs, ms);
    }

    /** The cube a cube file describes: its 54 characters read into a grid,
        then painted as by FromGrid. */
    constructor FromFile(text: seq<char>)
      requires |text| >= 54
      ensures SamePlacement(corners, SOLVED_CORNERS) && SamePlacement(middles, SOLVED_MIDDLES)
      ensures |corners| == 8 && |middles| == 12 && Valid()
      ensures forall f, k :: 0 <= f < 6 && 0 <= k < 8 ==> ColorGrid()[f][k] == ParseGrid(text)[f][k]
    {
      var matrix := FileToCubeMatrix(text);
      var cs, ms := PaintGrid(matrix);
      corners, middles := cs, ms;
      PlacedAsSolvedIsValid(cs, ms);
    }

    /** The grid `toColorMatrix` returns for the current pieces. */
    ghost function ColorGrid(): Grid
      reads this
    {
      GridOf(corners, middles)
    }

    /** `rotate(face, twice)`: a quarter turn of `face` (a half turn when
        `twice`) relabels every cublet with a sticker on `face` and leaves
        the others alone. It keeps every invariant and every colour: a cube
        that was valid stays valid. */
    method Rotate(face: Face, twice: bool := false)
      requires IsFace(face) && PiecesWellFormed()
      modifies this
      ensures PiecesWellFormed() && |corners| == |old(corners)| && |middles| == |old(middles)|
      ensures old(Valid()) ==> Valid()
      ensures old(Colored()) ==> Colored()
      ensures !twice ==> corners == TurnAll(face, old(corners)) && middles == TurnAll(face, old(middles))
      ensures twice ==> corners == TurnAll(face, TurnAll(face, old(corners)))
      ensures twice ==> middles == TurnAll(face, TurnAll(face, old(middles)))
      decreases twice
    {
      ghost var cs, ms := corners, middles;
      corners := TurnCublets(face, corners);
      middles := TurnCublets(face, middles);
      if CornersOccupy(cs) && MiddlesOccupy(ms) {
        TurnKeepsCornersHeld(face, cs);
        TurnKeepsCornersUnique(face, cs);
        TurnKeepsMiddlesHeld(face, ms);
        TurnKeepsMiddlesUnique(face, ms);
      }
      if RealColors(cs) && RealColors(ms) {
        TurnKeepsRealColors(face, cs);
        TurnKeepsRealColors(face, ms);
      }
      if twice {
        Rotate(face, false);
      }
    }

    /** `toColorMatrix`, on this cube's pieces. On a valid cube whose
        stickers are all coloured, every cell of the grid gets a real
        colour: no `cubletIndex` lookup fails. */
    method ToColorMatrix() returns (matrix: Grid)
      ensures matrix == ColorGrid()
      ensures Valid() && Colored() ==> AllColorsValid(matrix)
    {
      matrix := ColorMatrixOf(corners, middles);
      if Valid() && Colored() {
        OccupiedGridIsComplete(corners, middles);
      }
    }
  }
  /** `toColorMatrix`: the centre of face f gets colour f; walking round
      f, cell 2i gets the colour on f of the corner on {f, current,
      previous} and cell 2i + 1 that of the edge piece on {f, current}. */
  method ColorMatrixOf(corners: seq<Cublet>, middles: seq<Cublet>) returns (matrix: Grid)
    ensures matrix == GridOf(corners, middles)
  {
    ghost var grid := GridOf(corners, middles);
    matrix := BLANK;
    for face := FRONT to BOTTOM + 1
      invariant FilledBefore(matrix, grid, face, -1)
    {
      FillCentre(matrix, grid, face);
      matrix := SetCell(matrix, face, 8, face);
      RingOfGrid(corners, middles, face);
      matrix := FillRing(matrix, grid, corners, middles, face);
      FillFace(matrix, grid, face);
    }
    FillAll(matrix, grid);
  }

  /** The walk round `face` in `toColorMatrix`: cell 2i gets the colour on
      `face` of the corner on {face, current, previous} and cell 2i + 1
      that of the edge piece on {face, current}. */
  method FillRing(matrix: Grid, ghost grid: Grid, corners: seq<Cublet>, middles: seq<Cublet>, face: Face) returns (m: Grid)
    requires IsFace(face) && FilledBefore(matrix, grid, face, 0) && RingMatches(grid, corners, middles, face)
    ensures FilledBefore(m, grid, face, 4)
  {
    m := matrix;
    var currentFace, previousFace := STARTING_FACES[face].0, STARTING_FACES[face].1;
    for i := 0 to 4
      invariant i < 4 ==> currentFace == WalkCurrent(face, i) && previousFace == WalkPrevious(face, i)
      invariant FilledBefore(m, grid, face, i)
    {
      var corner := ColorOnEdge(corners, [face, currentFace, previousFace]);
      var middle := ColorOnEdge(middles, [face, currentFace]);
      assert [face, currentFace, previousFace] == CornerFaces(face, i);
      assert [face, currentFace] == MiddleFaces(face, i);
      FillWalkStep(m, grid, face, i, corner, middle);
      m := SetCell(m, face, 2 * i, corner);
      m := SetCell(m, face, 2 * i + 1, middle);
      RotatedRow(face, currentFace);
      previousFace := currentFace;
      currentFace := Rotated(face, currentFace);
    }
  }

  /** Pieces placed as well-formed pieces are well formed themselves:
      well-formedness reads faces only. */
  lemma PlacementKeepsWellFormed(cs: seq<Cublet>, ds: seq<Cublet>)
    requires SamePlacement(cs, ds) && AllWellFormed(ds)
    ensures AllWellFormed(cs)
  {
    forall j | 0 <= j < |cs|
      ensures WellFormed(cs[j])
    {
      assert WellFormed(ds[j]);
    }
  }

  /** Pieces placed as those of the solved cube, whatever their colours,
      keep all the invariants of the solved cube. */
  lemma PlacedAsSolvedIsValid(cs: seq<Cublet>, ms: seq<Cublet>)
    requires SamePlacement(cs, SOLVED_CORNERS) && SamePlacement(ms, SOLVED_MIDDLES)
    ensures AllWellFormed(cs) && AllWellFormed(ms)
    ensures CornersOccupy(cs) && MiddlesOccupy(ms)
  {
    SolvedPiecesAreWellFormed();
    PlacementKeepsWellFormed(cs, SOLVED_CORNERS);
    PlacementKeepsWellFormed(ms, SOLVED_MIDDLES);
    SolvedCornersOccupy();
    SolvedMiddlesOccupy();
    PlacementKeepsCornersOccupy(cs, SOLVED_CORNERS);
    PlacementKeepsMiddlesOccupy(ms, SOLVED_MIDDLES);
  }

  /** The cell-by-cell comparison loop of `operator==`. */
  method SameCells(lhsMatrix: Grid, rhsMatrix: Grid) returns (eq: bool)
    ensures eq <==> lhsMatrix == rhsMatrix
  {
    for face := FRONT to BOTTOM + 1
      invariant forall f :: 0 <= f < face ==> lhsMatrix[f] == rhsMatrix[f]
    {
      for i := 0 to 9
        invariant lhsMatrix[face][..i] == rhsMatrix[face][..i]
      {
        if lhsMatrix[face][i] != rhsMatrix[face][i] {
          return false;
        }
      }
      assert lhsMatrix[face] == lhsMatrix[face][..9];
      assert rhsMatrix[face] == rhsMatrix[face][..9];
    }
    assert lhsMatrix == lhsMatrix[..6] && rhsMatrix == rhsMatrix[..6];
    return true;
  }

  /** `operator==`: two cubes are equal when their colour grids agree cell
      by cell. */
  method Equal(lhs: RubiksCube, rhs: RubiksCube) returns (eq: bool)
    ensures eq <==> lhs.ColorGrid() == rhs.ColorGrid()
  {
    var lhsMatrix := lhs.ToColorMatrix();
    var rhsMatrix := rhs.ToColorMatrix();
    eq := SameCells(lhsMatrix, rhsMatrix);
  }
}
