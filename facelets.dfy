/** The 6x9 facelet grid of a cube: what `toColorMatrix` reads off the
    pieces, and how the grid constructor paints a grid onto the pieces of
    the solved cube. */
module Facelets {
  import opened Geometry
  import opened Pieces
  import opened Solved
  import opened TextFormat

  /** The colour `toColorMatrix` writes into cell k of face f: the face's
      own colour in the centre, the colour on f of the corner at step k / 2
      of the walk in the even ring cells and of the edge piece there in the
      odd ones. */
  function CellColor(cs: seq<Cublet>, ms: seq<Cublet>, f: Face, k: int): Color
    requires IsFace(f) && 0 <= k < 9
  {
    if k == 8 then f
    else if k % 2 == 0 then ColorOnEdge(cs, CornerFaces(f, k / 2))
    else ColorOnEdge(ms, MiddleFaces(f, k / 2))
  }

  /** The whole grid `toColorMatrix` produces for the given pieces. */
  function GridOf(cs: seq<Cublet>, ms: seq<Cublet>): Grid {
    seq(6, f requires 0 <= f < 6 => seq(9, k requires 0 <= k < 9 => CellColor(cs, ms, f, k)))
  }

  /** Cells 2i and 2i + 1 of face f are the corner and the edge cell of
      walk step i. */
  lemma RingCellsOfStep(cs: seq<Cublet>, ms: seq<Cublet>, f: Face, i: nat)
    requires IsFace(f) && i < 4
    ensures GridOf(cs, ms)[f][2 * i] == ColorOnEdge(cs, CornerFaces(f, i))
    ensures GridOf(cs, ms)[f][2 * i + 1] == ColorOnEdge(ms, MiddleFaces(f, i))
  {
    assert (2 * i) % 2 == 0 && (2 * i) / 2 == i;
    assert (2 * i + 1) % 2 == 1 && (2 * i + 1) / 2 == i;
  }

  /** `toColorMatrix` has filled the faces before `face` and, of `face`,
      the centre and the cells of the first i walk steps; every other cell
      still holds INVALID_COLOR. */
  ghost predicate FilledBefore(matrix: Grid, grid: Grid, face: int, i: int) {
    forall f, k :: 0 <= f < 6 && 0 <= k < 9 ==>
      matrix[f][k] == if f < face || (f == face && ((k == 8 && i >= 0) || k < 2 * i)) then grid[f][k] else INVALID_COLOR
  }

  /** Writing the centre of `face` starts the walk round it. */
  lemma FillCentre(matrix: Grid, grid: Grid, face: Face)
    requires IsFace(face) && FilledBefore(matrix, grid, face, -1) && grid[face][8] == face
    ensures FilledBefore(SetCell(matrix, face, 8, face), grid, face, 0)
  {
  }

  /** Cell 2i of `face` holds the colour on `face` of the corner at walk
      step i and cell 2i + 1 that of the edge piece there. */
  ghost predicate RingMatches(grid: Grid, cs: seq<Cublet>, ms: seq<Cublet>, face: Face)
    requires IsFace(face)
  {
    forall i: nat :: i < 4 ==>
      grid[face][2 * i] == ColorOnEdge(cs, CornerFaces(face, i)) &&
      grid[face][2 * i + 1] == ColorOnEdge(ms, MiddleFaces(face, i))
  }

  /** The grid of the pieces matches them round every face. */
  lemma RingOfGrid(cs: seq<Cublet>, ms: seq<Cublet>, face: Face)
    requires IsFace(face)
    ensures RingMatches(GridOf(cs, ms), cs, ms, face)
  {
    forall i: nat | i < 4
      ensures GridOf(cs, ms)[face][2 * i] == ColorOnEdge(cs, CornerFaces(face, i))
      ensures GridOf(cs, ms)[face][2 * i + 1] == ColorOnEdge(ms, MiddleFaces(face, i))
    {
      RingCellsOfStep(cs, ms, face, i);
    }
  }

  /** Writing the colours of cells 2i and 2i + 1 completes walk step i. */
  lemma FillWalkStep(matrix: Grid, grid: Grid, face: Face, i: nat, corner: Color, middle: Color)
    requires IsFace(face) && i < 4 && FilledBefore(matrix, grid, face, i)
    requires grid[face][2 * i] == corner && grid[face][2 * i + 1] == middle
    ensures FilledBefore(SetCell(SetCell(matrix, face, 2 * i, corner), face, 2 * i + 1, middle), grid, face, i + 1)
  {
  }

  /** After the last walk step `face` is complete. */
  lemma FillFace(matrix: Grid, grid: Grid, face: int)
    requires FilledBefore(matrix, grid, face, 4)
    ensures FilledBefore(matrix, grid, face + 1, -1)
  {
  }

  /** Once every face is filled the matrix is the grid. */
  lemma FillAll(matrix: Grid, grid: Grid)
    requires FilledBefore(matrix, grid, 6, -1)
    ensures matrix == grid
  {
    forall f | 0 <= f < 6
      ensures matrix[f] == grid[f]
    {
      assert forall k :: 0 <= k < 9 ==> matrix[f][k] == grid[f][k];
    }
  }

  /** Every sticker shows the colour numbered as the face it is on. */
  predicate ShowsOwnFaces(cs: seq<Cublet>) {
    forall j, k :: 0 <= j < |cs| && 0 <= k < |cs[j].edges| ==> cs[j].edges[k].color == cs[j].edges[k].face
  }

  /** The solved cube is read as a uniform grid: every cell of face f,
      the centre and the eight ring cells, has colour f. */
  lemma {:induction false} SolvedGridIsUniform()
    ensures forall f, k :: 0 <= f < 6 && 0 <= k < 9 ==> GridOf(SOLVED_CORNERS, SOLVED_MIDDLES)[f][k] == f
  {
    assert ShowsOwnFaces(SOLVED_CORNERS) && ShowsOwnFaces(SOLVED_MIDDLES);
    forall f, k | 0 <= f < 6 && 0 <= k < 8
      ensures CellColor(SOLVED_CORNERS, SOLVED_MIDDLES, f, k) == f
    {
      SolvedCellsOccupied(f, k / 2);
    }
  }

  /** Corner cell i and edge cell i of face f show the colours the grid
      holds in cells 2i and 2i + 1. */
  ghost predicate Painted(cs: seq<Cublet>, ms: seq<Cublet>, g: Grid, f: Face, i: nat)
    requires IsFace(f) && i < 4
  {
    && ColorOnEdge(cs, CornerFaces(f, i)) == g[f][2 * i]
    && ColorOnEdge(ms, MiddleFaces(f, i)) == g[f][2 * i + 1]
  }

  /** The inner loop of the grid constructor: every sticker of the cublet
      that is on `face` takes the colour `color`. */
  method PaintStickers(c: Cublet, face: Face, color: Color) returns (r: Cublet)
    ensures r == Recolor(c, face, color)
  {
    var edges := c.edges;
    for k := 0 to |edges|
      invariant |edges| == |c.edges|
      invariant forall i :: 0 <= i < |edges| ==>
        edges[i] == if i < k && c.edges[i].face == face then Edge(color, face) else c.edges[i]
    {
      if edges[k].face == face {
        edges := edges[k := Edge(color, face)];
      }
    }
    r := Cublet(edges);
  }

  /** Painting the corner found at step i of the walk round `face` sets
      that cell's colour and keeps every other corner cell of the grid. */
  lemma {:induction false} PaintCorner(cs: seq<Corner>, face: Face, i: nat, color: Color)
    requires IsFace(face) && i < 4 && SamePlacement(cs, SOLVED_CORNERS)
    ensures 0 <= CubletIndex(cs, CornerFaces(face, i)) < |cs|
    ensures var j := CubletIndex(cs, CornerFaces(face, i));
      SamePlacement(cs[j := Recolor(cs[j], face, color)], SOLVED_CORNERS)
    ensures var j := CubletIndex(cs, CornerFaces(face, i));
      ColorOnEdge(cs[j := Recolor(cs[j], face, color)], CornerFaces(face, i)) == color
    ensures var j := CubletIndex(cs, CornerFaces(face, i));
      forall f, i' :: 0 <= f < 6 && 0 <= i' < 4 && !(f == face && i' == i) ==>
        ColorOnEdge(cs[j := Recolor(cs[j], face, color)], CornerFaces(f, i')) == ColorOnEdge(cs, CornerFaces(f, i'))
  {
    SolvedCellsOccupied(face, i);
    CubletIndexReadsFacesOnly(cs, SOLVED_CORNERS, CornerFaces(face, i));
    var j := CubletIndex(cs, CornerFaces(face, i));
    var ds := cs[j := Recolor(cs[j], face, color)];
    RecolorEffect(cs, j, face, color, CornerFaces(face, i));
    SamePlacementTrans(ds, cs, SOLVED_CORNERS);
    forall f, i' | 0 <= f < 6 && 0 <= i' < 4 && !(f == face && i' == i)
      ensures ColorOnEdge(ds, CornerFaces(f, i')) == ColorOnEdge(cs, CornerFaces(f, i'))
    {
      RecolorEffect(cs, j, face, color, CornerFaces(f, i'));
      if f == face {
        CornerCellsAreDifferentPieces(cs, face, i, i');
      }
    }
  }

  /** The same for the edge piece at step i of the walk round `face`. */
  lemma {:induction false} PaintMiddle(ms: seq<Middle>, face: Face, i: nat, color: Color)
    requires IsFace(face) && i < 4 && SamePlacement(ms, SOLVED_MIDDLES)
    ensures 0 <= CubletIndex(ms, MiddleFaces(face, i)) < |ms|
    ensures var j := CubletIndex(ms, MiddleFaces(face, i));
      SamePlacement(ms[j := Recolor(ms[j], face, color)], SOLVED_MIDDLES)
    ensures var j := CubletIndex(ms, MiddleFaces(face, i));
      ColorOnEdge(ms[j := Recolor(ms[j], face, color)], MiddleFaces(face, i)) == color
    ensures var j := CubletIndex(ms, MiddleFaces(face, i));
      forall f, i' :: 0 <= f < 6 && 0 <= i' < 4 && !(f == face && i' == i) ==>
        ColorOnEdge(ms[j := Recolor(ms[j], face, color)], MiddleFaces(f, i')) == ColorOnEdge(ms, MiddleFaces(f, i'))
  {
    SolvedCellsOccupied(face, i);
    CubletIndexReadsFacesOnly(ms, SOLVED_MIDDLES, MiddleFaces(face, i));
    var j := CubletIndex(ms, MiddleFaces(face, i));
    var ds := ms[j := Recolor(ms[j], face, color)];
    RecolorEffect(ms, j, face, color, MiddleFaces(face, i));
    SamePlacementTrans(ds, ms, SOLVED_MIDDLES);
    forall f, i' | 0 <= f < 6 && 0 <= i' < 4 && !(f == face && i' == i)
      ensures ColorOnEdge(ds, MiddleFaces(f, i')) == ColorOnEdge(ms, MiddleFaces(f, i'))
    {
      RecolorEffect(ms, j, face, color, MiddleFaces(f, i'));
      if f == face {
        MiddleCellsAreDifferentPieces(ms, face, i, i');
      }
    }
  }

  /** The cells of every walk step before step i of `face` (faces before
      `face` entirely, then the first i steps of `face`) are painted. */
  ghost predicate PaintedBefore(cs: seq<Cublet>, ms: seq<Cublet>, g: Grid, face: int, i: int) {
    forall f, i' :: 0 <= f < 6 && 0 <= i' < 4 && (f < face || (f == face && i' < i)) ==> Painted(cs, ms, g, f, i')
  }

  /** One step of the grid constructor paints the next corner cell and edge
      cell and keeps every cell painted before. */
  lemma {:induction false} PaintStep(cs: seq<Corner>, ms: seq<Middle>, g: Grid, face: Face, i: nat)
    requires IsFace(face) && i < 4
    requires SamePlacement(cs, SOLVED_CORNERS) && SamePlacement(ms, SOLVED_MIDDLES)
    requires PaintedBefore(cs, ms, g, face, i)
    ensures 0 <= CubletIndex(cs, CornerFaces(face, i)) < |cs|
    ensures 0 <= CubletIndex(ms, MiddleFaces(face, i)) < |ms|
    ensures var j, m := CubletIndex(cs, CornerFaces(face, i)), CubletIndex(ms, MiddleFaces(face, i));
      var cs', ms' := cs[j := Recolor(cs[j], face, g[face][2 * i])], ms[m := Recolor(ms[m], face, g[face][2 * i + 1])];
      && SamePlacement(cs', SOLVED_CORNERS) && SamePlacement(ms', SOLVED_MIDDLES)
      && PaintedBefore(cs', ms', g, face, i + 1)
  {
    PaintCorner(cs, face, i, g[face][2 * i]);
    PaintMiddle(ms, face, i, g[face][2 * i + 1]);
    var j, m := CubletIndex(cs, CornerFaces(face, i)), CubletIndex(ms, MiddleFaces(face, i));
    var cs', ms' := cs[j := Recolor(cs[j], face, g[face][2 * i])], ms[m := Recolor(ms[m], face, g[face][2 * i + 1])];
    forall f, i' | 0 <= f < 6 && 0 <= i' < 4 && (f < face || (f == face && i' < i + 1))
      ensures Painted(cs', ms', g, f, i')
    {
      if !(f == face && i' == i) {
        assert Painted(cs, ms, g, f, i');
      }
    }
  }

  /** Once every step of every face is painted, the grid read back agrees
      with the painted one on every ring cell. */
  lemma {:induction false} PaintedGrid(cs: seq<Cublet>, ms: seq<Cublet>, g: Grid)
    requires PaintedBefore(cs, ms, g, 6, 0)
    ensures forall f, k :: 0 <= f < 6 && 0 <= k < 8 ==> GridOf(cs, ms)[f][k] == g[f][k]
  {
    forall f, k | 0 <= f < 6 && 0 <= k < 8
      ensures GridOf(cs, ms)[f][k] == g[f][k]
    {
      assert Painted(cs, ms, g, f, k / 2);
      if k % 2 == 0 {
        assert k == 2 * (k / 2);
      } else {
        assert k == 2 * (k / 2) + 1;
      }
    }
  }

  /** The grid constructor: start from the solved cube and, walking round
      every face as `toColorMatrix` does, paint the corner and the edge piece
      met at step i with the grid's cells 2i and 2i + 1. Reading the result
      back gives the grid on every ring cell, and the pieces stay where the
      solved cube has them. */
  method PaintGrid(g: Grid) returns (cs: seq<Corner>, ms: seq<Middle>)
    ensures SamePlacement(cs, SOLVED_CORNERS) && SamePlacement(ms, SOLVED_MIDDLES)
    ensures forall f, k :: 0 <= f < 6 && 0 <= k < 8 ==> GridOf(cs, ms)[f][k] == g[f][k]
  {
    cs, ms := SolvedPieces();
    for face := 0 to 6
      invariant SamePlacement(cs, SOLVED_CORNERS) && SamePlacement(ms, SOLVED_MIDDLES)
      invariant PaintedBefore(cs, ms, g, face, 0)
    {
      var currentFace, previousFace := STARTING_FACES[face].0, STARTING_FACES[face].1;
      for i := 0 to 4
        invariant SamePlacement(cs, SOLVED_CORNERS) && SamePlacement(ms, SOLVED_MIDDLES)
        invariant i < 4 ==> currentFace == WalkCurrent(face, i) && previousFace == WalkPrevious(face, i)
        invariant PaintedBefore(cs, ms, g, face, i)
      {
        PaintStep(cs, ms, g, face, i);
        var j := CubletIndex(cs, [face, currentFace, previousFace]);
        var corner := PaintStickers(cs[j], face, g[face][2 * i]);
        var m := CubletIndex(ms, [face, currentFace]);
        var middle := PaintStickers(ms[m], face, g[face][2 * i + 1]);
        cs, ms := cs[j := corner], ms[m := middle];
        RotatedRow(face, currentFace);
        previousFace := currentFace;
        currentFace := Rotated(face, currentFace);
      }
      assert PaintedBefore(cs, ms, g, face + 1, 0) by {
        assert PaintedBefore(cs, ms, g, face, 4);
      }
    }
    PaintedGrid(cs, ms, g);
  }
}
