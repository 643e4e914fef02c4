/** Faces, colours and the constant geometry tables of the 3x3x3 cube. */
module Geometry {

  /** A face label, numbered as the `Face` enum: FRONT..BOTTOM are 0..5 and
      INVALID (6) only ever marks a missing table entry. */
  type Face = f: int | 0 <= f <= 6

  const FRONT: Face := 0
  const BACK: Face := 1
  const LEFT: Face := 2
  const RIGHT: Face := 3
  const TOP: Face := 4
  const BOTTOM: Face := 5
  const INVALID: Face := 6

  /** A sticker colour, numbered as the `Color` enum: WHITE..ORANGE are 0..5
      and INVALID_COLOR (6) is what a failed lookup yields. The identity cube
      and the centre cells cast a face number to the colour with that number. */
  type Color = c: int | 0 <= c <= 6

  const WHITE: Color := 0
  const YELLOW: Color := 1
  const BLUE: Color := 2
  const GREEN: Color := 3
  const RED: Color := 4
  const ORANGE: Color := 5
  const INVALID_COLOR: Color := 6

  /** One of the six real faces (not the INVALID marker). */
  predicate IsFace(f: Face) {
    f != INVALID
  }

  /** The face across the cube: FRONT/BACK, LEFT/RIGHT and TOP/BOTTOM. */
  function Opposite(f: Face): (g: Face)
    requires IsFace(f)
    ensures IsFace(g) && g != f
  {
    if f == FRONT then BACK
    else if f == BACK then FRONT
    else if f == LEFT then RIGHT
    else if f == RIGHT then LEFT
    else if f == TOP then BOTTOM
    else TOP
  }

  /** A face that a quarter turn of `turned` moves stickers between: one of
      the four faces around it. */
  predicate IsSide(turned: Face, f: Face)
    requires IsFace(turned)
  {
    IsFace(f) && f != turned && f != Opposite(turned)
  }

  /** The C++ `shareEdge`: false exactly for the three opposite pairs, so it
      is TRUE for two equal faces (and for anything involving INVALID). */
  function ShareEdge(face1: Face, face2: Face): (r: bool)
    ensures r <==> !(IsFace(face1) && face2 == Opposite(face1))
  {
    if face1 == FRONT && face2 == BACK then false
    else if face1 == BACK && face2 == FRONT then false
    else if face1 == LEFT && face2 == RIGHT then false
    else if face1 == RIGHT && face2 == LEFT then false
    else if face1 == TOP && face2 == BOTTOM then false
    else if face1 == BOTTOM && face2 == TOP then false
    else true
  }

  /** `rotations[turned][current]`: where a quarter turn of `turned` moves a
      sticker that is on `current`. */
  const ROTATIONS: seq<seq<Face>> := [
    [FRONT, INVALID, TOP, BOTTOM, RIGHT, LEFT],   // FRONT
    [INVALID, BACK, BOTTOM, TOP, LEFT, RIGHT],    // BACK
    [BOTTOM, TOP, LEFT, INVALID, FRONT, BACK],    // LEFT
    [TOP, BOTTOM, INVALID, RIGHT, BACK, FRONT],   // RIGHT
    [LEFT, RIGHT, BACK, FRONT, TOP, INVALID],     // TOP
    [RIGHT, LEFT, FRONT, BACK, INVALID, BOTTOM]   // BOTTOM
  ]

  function Rotated(turned: Face, current: Face): Face
    requires IsFace(turned) && IsFace(current)
  {
    ROTATIONS[turned][current]
  }

  /** `startingFaces[f]` = (first, second): the neighbour the walk round face
      f starts on and the neighbour just before it. */
  const STARTING_FACES: seq<(Face, Face)> := [
    (TOP, LEFT),    // FRONT
    (TOP, RIGHT),   // BACK
    (TOP, BACK),    // LEFT
    (TOP, FRONT),   // RIGHT
    (BACK, LEFT),   // TOP
    (FRONT, LEFT)   // BOTTOM
  ]

  /** `cubeFormat`: the i-th character of a face block in the text format
      (row-major over the 3x3 face) goes to grid cell CUBE_FORMAT[i]. */
  const CUBE_FORMAT: seq<int> := [0, 1, 2, 7, 8, 3, 6, 5, 4]

  /** Z3 does not split an integer range by itself. */
  lemma FaceCases(f: Face)
    requires IsFace(f)
    ensures f == FRONT || f == BACK || f == LEFT || f == RIGHT || f == TOP || f == BOTTOM
  {
  }

  /** Each row of the rotation table: the turned face stays put, its opposite
      is INVALID, and the four side faces are sent to side faces. */
  lemma RotatedRow(turned: Face, current: Face)
    requires IsFace(turned) && IsFace(current)
    ensures current == turned ==> Rotated(turned, current) == turned
    ensures current == Opposite(turned) ==> Rotated(turned, current) == INVALID
    ensures IsSide(turned, current) ==> IsSide(turned, Rotated(turned, current))
  {
    FaceCases(turned);
    FaceCases(current);
  }

  /** On the side faces a quarter turn is a single 4-cycle: four turns give
      back the face, two never do (so neither does one), and it keeps
      opposite side faces opposite. */
  lemma RotatedIsFourCycle(turned: Face, current: Face)
    requires IsFace(turned) && IsSide(turned, current)
    ensures var r1 := Rotated(turned, current);
            IsSide(turned, r1) &&
            var r2 := Rotated(turned, r1);
            IsSide(turned, r2) && r2 != current && r2 == Opposite(current) &&
            var r3 := Rotated(turned, r2);
            IsSide(turned, r3) && Rotated(turned, r3) == current
  {
    FaceCases(turned);
    FaceCases(current);
  }

  /** A quarter turn is one-to-one and keeps adjacency on the turned face and
      its sides: the facts that keep a cublet well formed. */
  lemma RotatedKeepsAdjacency(turned: Face, x: Face, y: Face)
    requires IsFace(turned) && IsFace(x) && IsFace(y)
    requires x != Opposite(turned) && y != Opposite(turned)
    ensures IsFace(Rotated(turned, x)) && Rotated(turned, x) != Opposite(turned)
    ensures Rotated(turned, x) == Rotated(turned, y) <==> x == y
    ensures ShareEdge(Rotated(turned, x), Rotated(turned, y)) <==> ShareEdge(x, y)
  {
    FaceCases(turned);
    FaceCases(x);
    FaceCases(y);
  }

  /** The starting pair of every face is two consecutive side faces of it:
      a quarter turn of the face takes `second` to `first`. */
  lemma StartingFacesAreConsecutive(f: Face)
    requires IsFace(f)
    ensures IsSide(f, STARTING_FACES[f].0) && IsSide(f, STARTING_FACES[f].1)
    ensures Rotated(f, STARTING_FACES[f].1) == STARTING_FACES[f].0
  {
    FaceCases(f);
  }

  /** `currentFace` at step i of the walk round face f. */
  function WalkCurrent(f: Face, i: nat): (g: Face)
    requires IsFace(f) && i < 4
    ensures IsSide(f, g)
  {
    if i == 0 then
      StartingFacesAreConsecutive(f);
      STARTING_FACES[f].0
    else
      var before := WalkCurrent(f, i - 1);
      RotatedRow(f, before);
      Rotated(f, before)
  }

  /** `previousFace` at step i of the walk round face f. */
  function WalkPrevious(f: Face, i: nat): (g: Face)
    requires IsFace(f) && i < 4
    ensures IsSide(f, g) && Rotated(f, g) == WalkCurrent(f, i)
  {
    if i == 0 then
      StartingFacesAreConsecutive(f);
      STARTING_FACES[f].1
    else
      WalkCurrent(f, i - 1)
  }

  /** The faces `{face, currentFace, previousFace}` of the corner cell at
      step i of the walk round face f: grid cell 2i. */
  function CornerFaces(f: Face, i: nat): seq<Face>
    requires IsFace(f) && i < 4
  {
    [f, WalkCurrent(f, i), WalkPrevious(f, i)]
  }

  /** The faces `{face, currentFace}` of the edge cell at step i of the walk
      round face f: grid cell 2i + 1. */
  function MiddleFaces(f: Face, i: nat): seq<Face>
    requires IsFace(f) && i < 4
  {
    [f, WalkCurrent(f, i)]
  }

  /** The four neighbours met by the walk round face f, in walk order. */
  function Walk(f: Face): (w: seq<Face>)
    requires IsFace(f)
    ensures |w| == 4
  {
    [WalkCurrent(f, 0), WalkCurrent(f, 1), WalkCurrent(f, 2), WalkCurrent(f, 3)]
  }

  /** The walk round a face visits its four side faces, each once, and the
      step after the last one is back at the start. */
  lemma WalkVisitsEverySide(f: Face)
    requires IsFace(f)
    ensures forall i, j :: 0 <= i < j < 4 ==> Walk(f)[i] != Walk(f)[j]
    ensures forall g :: IsSide(f, g) ==> g in Walk(f)
    ensures Rotated(f, Walk(f)[3]) == Walk(f)[0]
  {
    FaceCases(f);
    if f == FRONT {
      assert Walk(f) == [TOP, RIGHT, BOTTOM, LEFT];
    } else if f == BACK {
      assert Walk(f) == [TOP, LEFT, BOTTOM, RIGHT];
    } else if f == LEFT {
      assert Walk(f) == [TOP, FRONT, BOTTOM, BACK];
    } else if f == RIGHT {
      assert Walk(f) == [TOP, BACK, BOTTOM, FRONT];
    } else if f == TOP {
      assert Walk(f) == [BACK, RIGHT, FRONT, LEFT];
    } else {
      assert Walk(f) == [FRONT, RIGHT, BACK, LEFT];
    }
    forall g | IsSide(f, g)
      ensures g in Walk(f)
    {
      FaceCases(g);
    }
  }

  /** `previousFace` is the walk step before the current one, and at the
      first step it is the last step of the walk. */
  lemma WalkPreviousIsStepBefore(f: Face, i: nat)
    requires IsFace(f) && i < 4
    ensures WalkPrevious(f, i) == WalkCurrent(f, if i == 0 then 3 else i - 1)
  {
    if i == 0 {
      WalkVisitsEverySide(f);
      RotatedKeepsAdjacency(f, WalkPrevious(f, 0), WalkCurrent(f, 3));
    }
  }

  /** Different steps of the walk are on different side faces. */
  lemma WalkStepsDiffer(f: Face, i: nat, i': nat)
    requires IsFace(f) && i < 4 && i' < 4 && i != i'
    ensures WalkCurrent(f, i) != WalkCurrent(f, i')
  {
    WalkVisitsEverySide(f);
    assert Walk(f)[i] == WalkCurrent(f, i) && Walk(f)[i'] == WalkCurrent(f, i');
  }

  /** Row and column of grid cell k in the 3x3 picture of a face:
        0 1 2
        7 8 3
        6 5 4  */
  const CELL_ROW: seq<Coord> := [0, 0, 0, 1, 2, 2, 2, 1, 1]
  const CELL_COLUMN: seq<Coord> := [0, 1, 2, 2, 2, 1, 0, 0, 1]

  /** A row or column index inside the 3x3 picture of a face. */
  type Coord = x: int | 0 <= x < 3

  /** The text layout table agrees with the cell picture: the character at
      row r, column c of a face block lands on the cell drawn at (r, c).
      So CUBE_FORMAT is a permutation of 0..8 and the centre goes to cell 8. */
  lemma {:induction false} CubeFormatMatchesLayout()
    ensures |CUBE_FORMAT| == 9
    ensures forall i :: 0 <= i < 9 ==> 0 <= CUBE_FORMAT[i] < 9
    ensures forall i :: 0 <= i < 9 ==>
      CELL_ROW[CUBE_FORMAT[i]] == i / 3 && CELL_COLUMN[CUBE_FORMAT[i]] == i % 3
    ensures forall i, j :: 0 <= i < 9 && 0 <= j < 9 && CUBE_FORMAT[i] == CUBE_FORMAT[j] ==> i == j
    ensures forall k :: 0 <= k < 9 ==> k in CUBE_FORMAT
  {
    forall i | 0 <= i < 9
      ensures CELL_ROW[CUBE_FORMAT[i]] == i / 3 && CELL_COLUMN[CUBE_FORMAT[i]] == i % 3
    {
      assert i == 0 || i == 1 || i == 2 || i == 3 || i == 4 || i == 5 || i == 6 || i == 7 || i == 8;
    }
  }

  /** Read the other way round: the character at row CELL_ROW[k], column
      CELL_COLUMN[k] of a face block is the one sent to cell k. */
  lemma {:induction false} FormatFindsEveryCell(k: int)
    requires 0 <= k < 9
    ensures CUBE_FORMAT[3 * (CELL_ROW[k] as int) + CELL_COLUMN[k]] == k
  {
    assert k == 0 || k == 1 || k == 2 || k == 3 || k == 4 || k == 5 || k == 6 || k == 7 || k == 8;
  }

  /** The ring cells 0..7 go clockwise round the centre: each is the
      orthogonal neighbour of the next (7 wraps to 0), corner cells are the
      even ones and the centre is cell 8. */
  lemma {:induction false} RingIsClockwise()
    ensures forall k :: 0 <= k < 8 ==>
      var k' := (k + 1) % 8;
      (if CELL_ROW[k] < CELL_ROW[k'] then CELL_ROW[k'] - CELL_ROW[k] else CELL_ROW[k] - CELL_ROW[k']) +
      (if CELL_COLUMN[k] < CELL_COLUMN[k'] then CELL_COLUMN[k'] - CELL_COLUMN[k] else CELL_COLUMN[k] - CELL_COLUMN[k']) == 1
    ensures forall k :: 0 <= k < 8 ==> (k % 2 == 0 <==> CELL_ROW[k] != 1 && CELL_COLUMN[k] != 1)
    ensures CELL_ROW[8] == 1 && CELL_COLUMN[8] == 1
  {
    forall k | 0 <= k < 8
      ensures k % 2 == 0 <==> CELL_ROW[k] != 1 && CELL_COLUMN[k] != 1
    {
      assert k == 0 || k == 1 || k == 2 || k == 3 || k == 4 || k == 5 || k == 6 || k == 7;
    }
  }
}
