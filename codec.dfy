/** The 6x9 colour grid and its text form: `fromChar` and the layout that
    `fileToCubeMatrix` reads the 54 characters of a cube file in. */
module TextFormat {
  import opened Geometry

  /** `Matrix<6, 9, Color>`: nine cells for each of the six faces, numbered
      as CELL_ROW / CELL_COLUMN draw them (cell 8 is the centre). */
  type Grid = g: seq<seq<Color>> | |g| == 6 && forall f :: 0 <= f < 6 ==> |g[f]| == 9
    witness seq(6, f => seq(9, k => INVALID_COLOR))

  /** A grid whose every cell is INVALID_COLOR. */
  const BLANK: Grid := seq(6, f => seq(9, k => INVALID_COLOR))

  /** Every cell holds one of the six real colours. */
  predicate AllColorsValid(g: Grid) {
    forall f, k :: 0 <= f < 6 && 0 <= k < 9 ==> g[f][k] != INVALID_COLOR
  }

  /** The letter and the digit that stand for each colour, indexed by colour. */
  const LETTERS: string := "WYBGRO"
  const DIGITS: string := "012345"

  /** `fromChar`: a colour letter or digit to its colour, anything else to
      INVALID_COLOR. */
  function FromChar(c: char): (r: Color)
    ensures r != INVALID_COLOR <==> c in LETTERS || c in DIGITS
    ensures r != INVALID_COLOR ==> c == LETTERS[r] || c == DIGITS[r]
  {
    match c
    case 'R' => RED
    case 'O' => ORANGE
    case 'G' => GREEN
    case 'B' => BLUE
    case 'W' => WHITE
    case 'Y' => YELLOW
    case '0' => WHITE
    case '1' => YELLOW
    case '2' => BLUE
    case '3' => GREEN
    case '4' => RED
    case '5' => ORANGE
    case _ => INVALID_COLOR
  }

  /** Every colour is read back from its letter and from its digit. */
  lemma {:induction false} LettersAndDigitsRoundTrip(k: Color)
    requires k != INVALID_COLOR
    ensures FromChar(LETTERS[k]) == k && FromChar(DIGITS[k]) == k
  {
    assert k == WHITE || k == YELLOW || k == BLUE || k == GREEN || k == RED || k == ORANGE;
  }

  /** The four faces of the middle band of the net, left to right. */
  const BAND: seq<Face> := [LEFT, FRONT, RIGHT, BACK]

  /** Where face f sits in BAND (only meaningful for the four band faces). */
  function BandSlot(f: Face): (q: int)
    requires IsFace(f) && f != TOP && f != BOTTOM
    ensures 0 <= q < 4 && BAND[q] == f
  {
    if f == LEFT then 0 else if f == FRONT then 1 else if f == RIGHT then 2 else 3
  }

  /** BandSlot undoes indexing into BAND. */
  lemma BandSlotOfBand(q: int)
    requires 0 <= q < 4
    ensures BandSlot(BAND[q]) == q
  {
    assert q == 0 || q == 1 || q == 2 || q == 3;
  }

  /** The position, among the 54 characters read, of the character for row
      `row`, column `col` of face f: the TOP block first, then three lines
      each holding a row of LEFT, FRONT, RIGHT and BACK, then BOTTOM. */
  function TextPos(f: Face, row: Coord, col: Coord): (p: int)
    requires IsFace(f)
    ensures 0 <= p < 54
  {
    if f == TOP then 3 * row + col
    else if f == BOTTOM then 45 + 3 * row + col
    else 9 + 12 * row + 3 * BandSlot(f) + col
  }

  /** The reading order: face, row and column of the character at position p. */
  function CellOfPos(p: int): (r: (Face, Coord, Coord))
    requires 0 <= p < 54
    ensures IsFace(r.0)
  {
    if p < 9 then (TOP, p / 3, p % 3)
    else if p >= 45 then (BOTTOM, (p - 45) / 3, (p - 45) % 3)
    else (BAND[((p - 9) % 12) / 3], (p - 9) / 12, (p - 9) % 3)
  }

  /** Each position is read once, into exactly one cell: TextPos and
      CellOfPos are inverse to each other, so the layout is a one-to-one
      map of the 54 cells onto positions 0..53. */
  lemma {:induction false} LayoutIsOneToOne(p: int, f: Face, row: Coord, col: Coord)
    requires 0 <= p < 54 && IsFace(f)
    ensures var (f', row', col') := CellOfPos(p); TextPos(f', row', col') == p
    ensures CellOfPos(TextPos(f, row, col)) == (f, row, col)
  {
    if 9 <= p < 45 {
      var q := ((p - 9) % 12) / 3;
      assert BandSlot(BAND[q]) == q by {
        assert q == 0 || q == 1 || q == 2 || q == 3;
      }
    }
    FaceCases(f);
  }

  /** The cell of face f that the reader fills from position TextPos(f, row, col). */
  function CellAt(f: Face, k: int): (p: int)
    requires IsFace(f) && 0 <= k < 9
    ensures 0 <= p < 54
  {
    TextPos(f, CELL_ROW[k], CELL_COLUMN[k])
  }

  /** Different cells are read from different positions. */
  lemma CellAtIsOneToOne(f: Face, k: int, f': Face, k': int)
    requires IsFace(f) && 0 <= k < 9 && IsFace(f') && 0 <= k' < 9
    requires CellAt(f, k) == CellAt(f', k')
    ensures f == f' && k == k'
  {
    LayoutIsOneToOne(0, f, CELL_ROW[k], CELL_COLUMN[k]);
    LayoutIsOneToOne(0, f', CELL_ROW[k'], CELL_COLUMN[k']);
    FormatFindsEveryCell(k);
    FormatFindsEveryCell(k');
  }

  /** The grid a cube file holds: cell k of face f takes the colour of the
      character at position CellAt(f, k). */
  function ParseGrid(text: seq<char>): (g: Grid)
    requires |text| >= 54
    ensures forall f, k :: 0 <= f < 6 && 0 <= k < 9 ==> g[f][k] == FromChar(text[CellAt(f, k)])
  {
    seq(6, f requires 0 <= f < 6 => seq(9, k requires 0 <= k < 9 => FromChar(text[CellAt(f, k)])))
  }

  /** The net as the cube printer lays it out, one letter per cell in
      reading order (the printer's spaces, line breaks and colour escape
      codes are not part of this text). */
  function FormatGrid(g: Grid): (text: string)
    requires AllColorsValid(g)
    ensures |text| == 54
  {
    seq(54, p requires 0 <= p < 54 =>
      var (f, row, col) := CellOfPos(p);
      LETTERS[g[f][CUBE_FORMAT[3 * (row as int) + col]]])
  }

  /** Reading back a printed net gives the grid that was printed. */
  lemma {:induction false} ParseFormatRoundTrip(g: Grid)
    requires AllColorsValid(g)
    ensures ParseGrid(FormatGrid(g)) == g
  {
    var text := FormatGrid(g);
    var parsed := ParseGrid(text);
    forall f | 0 <= f < 6
      ensures parsed[f] == g[f]
    {
      forall k | 0 <= k < 9
        ensures parsed[f][k] == g[f][k]
      {
        var p := CellAt(f, k);
        LayoutIsOneToOne(p, f, CELL_ROW[k], CELL_COLUMN[k]);
        assert CellOfPos(p) == (f, CELL_ROW[k], CELL_COLUMN[k]);
        FormatFindsEveryCell(k);
        assert text[p] == LETTERS[g[f][k]];
        LettersAndDigitsRoundTrip(g[f][k]);
      }
    }
  }

  /** The grid with cell k of face f set to c and nothing else changed. */
  function SetCell(g: Grid, f: Face, k: int, c: Color): (g': Grid)
    requires IsFace(f) && 0 <= k < 9
    ensures g'[f][k] == c
    ensures forall f', k' :: 0 <= f' < 6 && 0 <= k' < 9 && !(f' == f && k' == k) ==> g'[f'][k'] == g[f'][k']
  {
    var line: seq<Color> := g[f][k := c];
    g[f := line]
  }

  /** The reader has filled exactly the cells whose characters come before
      position `pos`, each with the colour of its character. */
  ghost predicate ReadUpTo(matrix: Grid, text: seq<char>, pos: int)
    requires |text| >= 54
  {
    forall f, k :: 0 <= f < 6 && 0 <= k < 9 ==>
      matrix[f][k] == if CellAt(f, k) < pos then FromChar(text[CellAt(f, k)]) else INVALID_COLOR
  }

  /** Reading the character at TextPos(f, row, col) into cell
      CUBE_FORMAT[3 * row + col] of face f fills the next cell in order. */
  lemma {:induction false} ReadStep(matrix: Grid, text: seq<char>, f: Face, row: Coord, col: Coord)
    requires |text| >= 54 && IsFace(f)
    requires ReadUpTo(matrix, text, TextPos(f, row, col))
    ensures var k := CUBE_FORMAT[3 * (row as int) + col];
      ReadUpTo(SetCell(matrix, f, k, FromChar(text[TextPos(f, row, col)])), text, TextPos(f, row, col) + 1)
  {
    CubeFormatMatchesLayout();
    var pos := TextPos(f, row, col);
    var k := CUBE_FORMAT[3 * (row as int) + col];
    assert CELL_ROW[k] == row && CELL_COLUMN[k] == col;
    assert CellAt(f, k) == pos;
    forall f', k' | 0 <= f' < 6 && 0 <= k' < 9 && CellAt(f', k') == pos
      ensures f' == f && k' == k
    {
      CellAtIsOneToOne(f, k, f', k');
    }
  }

  /** Once all 54 characters are read the grid is the parsed one. */
  lemma ReadAll(matrix: Grid, text: seq<char>)
    requires |text| >= 54 && ReadUpTo(matrix, text, 54)
    ensures matrix == ParseGrid(text)
  {
    var parsed := ParseGrid(text);
    forall f | 0 <= f < 6
      ensures matrix[f] == parsed[f]
    {
      assert forall k :: 0 <= k < 9 ==> matrix[f][k] == parsed[f][k];
    }
  }

  /** `fileToCubeMatrix` after the file is open: nine characters for TOP,
      three lines of LEFT, FRONT, RIGHT and BACK, then nine for BOTTOM; the
      i-th character of a face block goes to cell CUBE_FORMAT[i]. */
  method FileToCubeMatrix(text: seq<char>) returns (matrix: Grid)
    requires |text| >= 54
    ensures matrix == ParseGrid(text)
  {
    matrix := BLANK;
    var pos := 0;
    for i := 0 to 9
      invariant pos == i && ReadUpTo(matrix, text, pos)
    {
      assert 3 * (i / 3) + i % 3 == i;
      assert TextPos(TOP, i / 3, i % 3) == pos;
      ReadStep(matrix, text, TOP, i / 3, i % 3);
      matrix := SetCell(matrix, TOP, CUBE_FORMAT[i], FromChar(text[pos]));
      pos := pos + 1;
    }
    for line := 0 to 3
      invariant pos == 9 + 12 * line && ReadUpTo(matrix, text, pos)
    {
      for q := 0 to 4
        invariant pos == 9 + 12 * line + 3 * q && ReadUpTo(matrix, text, pos)
      {
        var face := BAND[q];
        for i := 0 to 3
          invariant pos == 9 + 12 * line + 3 * q + i && ReadUpTo(matrix, text, pos)
        {
          BandSlotOfBand(q);
          assert TextPos(face, line, i) == pos;
          ReadStep(matrix, text, face, line, i);
          matrix := SetCell(matrix, face, CUBE_FORMAT[3 * line + i], FromChar(text[pos]));
          pos := pos + 1;
        }
      }
    }
    for i := 0 to 9
      invariant pos == 45 + i && ReadUpTo(matrix, text, pos)
    {
      assert 3 * (i / 3) + i % 3 == i;
      assert TextPos(BOTTOM, i / 3, i % 3) == pos;
      ReadStep(matrix, text, BOTTOM, i / 3, i % 3);
      matrix := SetCell(matrix, BOTTOM, CUBE_FORMAT[i], FromChar(text[pos]));
      pos := pos + 1;
    }
    ReadAll(matrix, text);
  }
}
