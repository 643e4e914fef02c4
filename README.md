# Rubik's cube model

A Dafny model of the cube representation of Mikpol21/Rubiks-Cube-Solver.
It has two parts.

The C++ `RubiksCube` class holds eight corner cublets and twelve edge
cublets. Each cublet is a list of stickers (`Edge`), and each sticker
pairs a colour with the face it currently sits on. The model covers:

- `rotate(face, twice)`, which relabels the faces of every cublet that
  has a sticker on the turned face, using the `rotations` table;
- the solved-cube constructor;
- the constructor from a 6x9 colour grid, which paints the solved cube's
  stickers from the grid;
- the constructor from a cube file, read through `fromChar` and the
  `cubeFormat` layout;
- `cubletIndex`, `colorOnEdge` and `toColorMatrix`, which read the grid
  back by walking round each face from `startingFaces`;
- `operator==`.

The Python constant generator builds four lists:

- `cublets2`, the increasing adjacent colour pairs;
- `cublets3`, the increasing, pairwise adjacent colour triples;
- `faces2`, the ordered adjacent face pairs;
- `faces3`, a face followed by two faces adjacent to it and to each
  other.

It numbers pieces with the four id functions that search those lists.

Modules:

- `Geometry` (geometry.dfy): faces, colours, the rotation and walk
  tables and the cell layout.
- `Pieces` (pieces.dfy): stickers and cublets, turning, and the
  `cubletIndex` / `colorOnEdge` searches.
- `Solved` (solved.dfy): the pieces the default constructor builds.
- `TextFormat` (codec.dfy): the 6x9 grid, `fromChar` and the cube-file
  reader.
- `Facelets` (facelets.dfy): the grid that pieces show, and the painting
  done by the grid constructor.
- `Occupancy` (occupancy.dfy): the invariant that the pieces fill every
  corner place and edge place of the cube, one piece to a place; the
  constructors establish it, turns keep it, and with it every cell of the
  grid finds its piece.
- `Cube` (cube.dfy): the `RubiksCube` class.
- `ConstantTables` (tables.dfy): the Python lists and id functions.

Faces and colours are the integers 0..5, and 6 is `INVALID` /
`INVALID_COLOR`, as in the C++ enums. The constructor casts colour numbers
to face numbers, so the solved cube shows colour c on face c.

## Model

| member | source | states |
|---|---|---|
| Geometry.Opposite | src/cpp/RubiksCube.cpp:38-53 | the face paired with a real face by the three rejected cases of `shareEdge` is another real face |
| Geometry.ShareEdge | src/cpp/RubiksCube.cpp:38-53 | false exactly when the second face is the opposite of the first (a real face); a face shares an edge with itself and anything shares one with INVALID |
| Geometry.RotatedRow | src/cpp/RubiksCube.cpp:9-16 | a turn fixes the turned face, sends the opposite face to INVALID and keeps the four side faces among the side faces |
| Geometry.RotatedIsFourCycle | src/cpp/RubiksCube.cpp:9-16 | on the side faces a quarter turn is a 4-cycle: two steps reach the opposite side and four steps come back |
| Geometry.RotatedKeepsAdjacency | src/cpp/RubiksCube.cpp:9-16 | on faces other than the opposite one the rotation is one to one and keeps and reflects edge sharing |
| Geometry.StartingFacesAreConsecutive | src/cpp/RubiksCube.cpp:18-25 | both starting faces of each face are side faces of it, and turning the face takes the second to the first |
| Geometry.WalkCurrent | src/cpp/RubiksCube.cpp:251-259 | at every step of the walk round a face, `currentFace` is a side face of it |
| Geometry.WalkPrevious | src/cpp/RubiksCube.cpp:251-259 | `previousFace` is a side face and turning the face takes it to `currentFace` |
| Geometry.WalkVisitsEverySide | src/cpp/RubiksCube.cpp:248-260 | the four `currentFace` values are distinct, cover every side face, and the walk closes up |
| Geometry.WalkPreviousIsStepBefore | src/cpp/RubiksCube.cpp:257-258 | `previousFace` at step i is `currentFace` at step i - 1 (at step 0, at step 3) |
| Geometry.WalkStepsDiffer | src/cpp/RubiksCube.cpp:251-259 | different steps of a walk visit different side faces |
| Geometry.CubeFormatMatchesLayout | src/cpp/RubiksCube.cpp:27 | `cubeFormat` is a permutation of the nine cells that sends reading position i to the cell drawn at row i / 3, column i % 3 |
| Geometry.FormatFindsEveryCell | src/cpp/RubiksCube.h:77-81 | every drawn cell is the `cubeFormat` image of the reading position of its row and column |
| Geometry.RingIsClockwise | src/cpp/RubiksCube.h:77-81 | cells 0..7 go round the face, each a neighbour of the next; even cells are corners, odd cells are edges, and cell 8 is the centre |
| Pieces.IsRotated | src/cpp/RubiksCube.cpp:29-36 | true exactly when some sticker of the cublet is on the face |
| Pieces.IsRotatedFromMeans | src/cpp/RubiksCube.cpp:32-35 | the search from sticker i on succeeds exactly when a sticker at or after i is on the face |
| Pieces.Turn | src/cpp/RubiksCube.cpp:184-191 | colours are kept; a cublet with a sticker on the turned face has every sticker's face sent through the rotation table, and any other cublet is unchanged |
| Pieces.TurnSticker | src/cpp/RubiksCube.cpp:188-189 | sticker i of a turned cublet keeps its colour and moves to the rotated face |
| Pieces.StickerBesideTurned | src/cpp/RubiksCube.cpp:186-189 | every sticker of a well-formed cublet on the turned face is on that face or on one of its sides, so no sticker is sent to INVALID |
| Pieces.TurnKeepsWellFormed | src/cpp/RubiksCube.cpp:182-203 | a turn keeps every sticker on a real face, and keeps the faces distinct and pairwise edge-sharing |
| Pieces.Turns | src/cpp/RubiksCube.cpp:182-203 | any number of turns keep a cublet well formed, its size and its colours |
| Pieces.FourTurnsRestore | src/cpp/RubiksCube.cpp:182-203 | four quarter turns of one face give back every cublet |
| Pieces.FourTurnsRestoreAll | src/cpp/RubiksCube.cpp:182-203 | four quarter turns of one face give back every well-formed collection of cublets exactly |
| Pieces.HalfTurnSwapsOppositeSides | src/cpp/RubiksCube.cpp:201-202 | a half turn leaves stickers on the turned face there and sends every other sticker of a touched cublet to the opposite side |
| Pieces.TurnAll | src/cpp/RubiksCube.cpp:184-199 | each cublet of the collection is turned by itself and stays well formed |
| Pieces.CoversFromMeans | src/cpp/RubiksCube.cpp:223-225 | the `isMatch` loop succeeds exactly when the cublet has a sticker on every face of the list |
| Pieces.Covers | src/cpp/RubiksCube.cpp:223-225 | true exactly when every face of the list has a sticker of the cublet on it |
| Pieces.CubletIndexFromMeans | src/cpp/RubiksCube.cpp:221-229 | the search from position `from` finds the first cublet at or after it that touches every face, or gives -1 when there is none |
| Pieces.CubletIndex | src/cpp/RubiksCube.cpp:217-230 | the first cublet touching every given face, or -1 exactly when no cublet does |
| Pieces.CubletIndexReadsFacesOnly | src/cpp/RubiksCube.cpp:217-230 | cublet collections with the same faces give the same index, whatever their colours |
| Pieces.StickerIndex | src/cpp/RubiksCube.cpp:239-241 | the first sticker of the cublet that sits on the face |
| Pieces.ColorOnEdge | src/cpp/RubiksCube.cpp:232-243 | INVALID_COLOR when no cublet touches the faces; otherwise the colour of the first sticker on the first face of the cublet found |
| Pieces.RecolorEffect | src/cpp/RubiksCube.cpp:163-167 | recolouring the stickers on one face of cublet j keeps the placement, and changes only the colour read at that face of that cublet |
| Pieces.CornerTouchesAtMostThreeFaces | src/cpp/RubiksCube.h:43-47 | a three-sticker cublet cannot touch four distinct faces |
| Pieces.MiddleTouchesAtMostTwoFaces | src/cpp/RubiksCube.h:43-47 | a two-sticker cublet cannot touch three distinct faces |
| Pieces.CornerCellsAreDifferentPieces | src/cpp/RubiksCube.cpp:160-167 | the four corner cells of a face are read from four different corner cublets |
| Pieces.MiddleCellsAreDifferentPieces | src/cpp/RubiksCube.cpp:168-173 | the four edge cells of a face are read from four different edge cublets |
| Solved.CornerEnumerationIsSolved | src/cpp/RubiksCube.cpp:121-134 | the three nested corner loops, traced pass by pass, append exactly the eight listed corners in order |
| Solved.MiddleEnumerationIsSolved | src/cpp/RubiksCube.cpp:136-146 | the two nested edge loops append exactly the twelve listed edge pieces in order |
| Solved.SolvedCornerIsSolved | src/cpp/RubiksCube.cpp:126-133 | a corner built from increasing, pairwise edge-sharing colours is well formed, shows colour c on face c, and has increasing colours |
| Solved.SolvedMiddleIsSolved | src/cpp/RubiksCube.cpp:140-145 | the same for an edge piece built from two edge-sharing colours |
| Solved.SolvedPiecesAreWellFormed | src/cpp/RubiksCube.cpp:118-149 | every piece of the solved cube is well formed, shows its own faces, and has increasing colours |
| Solved.AdjacentTripleIsSolvedCorner | src/cpp/RubiksCube.cpp:121-134 | every increasing triple of pairwise edge-sharing faces is a corner of the solved cube |
| Solved.AdjacentPairIsSolvedMiddle | src/cpp/RubiksCube.cpp:136-146 | every increasing edge-sharing pair is an edge piece of the solved cube |
| Solved.SolvedCornersAreAdjacentTriples | src/cpp/RubiksCube.cpp:121-147 | there are 8 corners, all distinct, and a triple is among them exactly when its faces pairwise share edges |
| Solved.SolvedMiddlesAreAdjacentPairs | src/cpp/RubiksCube.cpp:136-148 | there are 12 edge pieces, all distinct, and a pair is among them exactly when its faces share an edge |
| Solved.SolvedCorners | src/cpp/RubiksCube.cpp:121-134 | the corner loops build the solved corners |
| Solved.SolvedMiddles | src/cpp/RubiksCube.cpp:136-146 | the edge loops build the solved edge pieces |
| Solved.SolvedPieces | src/cpp/RubiksCube.cpp:118-149 | the default constructor's loops build the solved corners and edge pieces |
| Solved.SolvedCellsOccupied | src/cpp/RubiksCube.cpp:160-176 | in the solved cube every corner cell and edge cell of the walk names a cublet, so the grid constructor never indexes with -1 |
| TextFormat.FromChar | src/cpp/RubiksCube.cpp:55-86 | a colour exactly for the letters WYBGRO and the digits 012345, each mapping to the colour of its place in that list; INVALID_COLOR otherwise |
| TextFormat.LettersAndDigitsRoundTrip | src/cpp/RubiksCube.cpp:55-86 | every colour is read back from its letter and from its digit |
| TextFormat.TextPos | src/cpp/RubiksCube.cpp:96-113 | the reading position of each face row and column lies in 0..53 |
| TextFormat.LayoutIsOneToOne | src/cpp/RubiksCube.cpp:96-113 | the reading order is a one-to-one map between the 54 positions and the face/row/column triples |
| TextFormat.CellAtIsOneToOne | src/cpp/RubiksCube.cpp:96-113 | different cells are read from different positions |
| TextFormat.ParseGrid | src/cpp/RubiksCube.cpp:88-115 | cell k of face f is `fromChar` of the character read for it |
| TextFormat.FormatGrid | src/cpp/RubiksCube.cpp:333-356 | the printed net as 54 letters, in the order the printer lays out the cells |
| TextFormat.ParseFormatRoundTrip | src/cpp/RubiksCube.cpp:88-115 | reading back a printed grid of real colours gives the same grid |
| TextFormat.SetCell | src/cpp/RubiksCube.cpp:99 | one cell is written and every other cell is kept |
| TextFormat.ReadStep | src/cpp/RubiksCube.cpp:98-99 | reading the next character into its `cubeFormat` cell fills exactly the cells read so far |
| TextFormat.FileToCubeMatrix | src/cpp/RubiksCube.cpp:88-115 | the TOP block, the three band lines and the BOTTOM block fill the grid that ParseGrid describes |
| Facelets.RingCellsOfStep | src/cpp/RubiksCube.cpp:253-256 | ring cells 2i and 2i + 1 of a face are the colours of the corner and the edge piece at walk step i |
| Facelets.SolvedGridIsUniform | src/cpp/RubiksCube.cpp:245-262 | the solved cube reads as a grid whose every cell of face f has colour f |
| Facelets.PaintStickers | src/cpp/RubiksCube.cpp:163-167 | sets the colour of every sticker of the cublet that is on the face |
| Facelets.PaintCorner | src/cpp/RubiksCube.cpp:162-167 | painting the corner found for walk step i writes its colour at that cell only and keeps the solved placement |
| Facelets.PaintMiddle | src/cpp/RubiksCube.cpp:168-173 | painting the edge piece found for walk step i writes its colour at that cell only and keeps the solved placement |
| Facelets.PaintStep | src/cpp/RubiksCube.cpp:160-176 | one step of the grid constructor paints the next corner cell and edge cell and keeps every cell painted before |
| Facelets.PaintedGrid | src/cpp/RubiksCube.cpp:155-177 | once every step is painted, the cube reads back the grid on all ring cells |
| Facelets.PaintGrid | src/cpp/RubiksCube.cpp:153-178 | the painted pieces keep the solved placement and read back every ring cell of the grid |
| Occupancy.OppositeOfOpposite | src/cpp/RubiksCube.cpp:38-53 | the face opposite the opposite face is the face itself |
| Occupancy.ShareEdgeSymmetric | src/cpp/RubiksCube.cpp:38-53 | `shareEdge` gives the same answer with its arguments swapped |
| Occupancy.Unturn | src/cpp/RubiksCube.cpp:9-16 | the face a quarter turn sends onto a given face: the turned face for itself, a side face for a side face |
| Occupancy.UnturnIsOnlyPreimage | src/cpp/RubiksCube.cpp:9-16 | among faces other than the opposite one, a turn sends exactly one face onto each face round the turned one |
| Occupancy.UnturnKeepsAdjacency | src/cpp/RubiksCube.cpp:9-16 | undoing a turn is one to one on the turned face and its sides and keeps and reflects edge sharing |
| Occupancy.BesideTurned | src/cpp/RubiksCube.cpp:38-53 | a real face other than the turned one that shares an edge with it is one of its sides |
| Occupancy.TurnedSticker | src/cpp/RubiksCube.cpp:184-191 | a turned cublet that touches the turned face has a sticker on a face exactly when it had one on the face the turn brings there |
| Occupancy.CornerSlotBefore | src/cpp/RubiksCube.cpp:9-16 | the place a turn brings to a corner place is again three distinct, pairwise edge-sharing faces |
| Occupancy.EdgeSlotBefore | src/cpp/RubiksCube.cpp:9-16 | the place a turn brings to an edge place is again two distinct edge-sharing faces |
| Occupancy.TurnedCornerHolds | src/cpp/RubiksCube.cpp:184-191 | after a turn a corner is on a place exactly when it was on the place the turn brings there; places away from the turned face keep their corner |
| Occupancy.TurnedMiddleHolds | src/cpp/RubiksCube.cpp:184-191 | the same for an edge piece and an edge place |
| Occupancy.TurnedCornersShareBefore | src/cpp/RubiksCube.cpp:184-199 | two corners on one place after a turn were on one place before it |
| Occupancy.TurnedMiddlesShareBefore | src/cpp/RubiksCube.cpp:184-199 | two edge pieces on one place after a turn were on one place before it |
| Occupancy.TurnKeepsCornersHeld | src/cpp/RubiksCube.cpp:182-203 | after a turn every corner place still has a corner on it |
| Occupancy.TurnKeepsCornersUnique | src/cpp/RubiksCube.cpp:182-203 | after a turn no corner place has two corners on it |
| Occupancy.TurnKeepsMiddlesHeld | src/cpp/RubiksCube.cpp:182-203 | after a turn every edge place still has an edge piece on it |
| Occupancy.TurnKeepsMiddlesUnique | src/cpp/RubiksCube.cpp:182-203 | after a turn no edge place has two edge pieces on it |
| Occupancy.TurnKeepsRealColors | src/cpp/RubiksCube.cpp:184-191 | a turn keeps every sticker's colour, so stickers that all had real colours still have |
| Occupancy.SolvedCornerOnSlot | src/cpp/RubiksCube.cpp:121-134 | each increasing triple of pairwise edge-sharing faces has a corner of the solved cube on it |
| Occupancy.SolvedMiddleOnSlot | src/cpp/RubiksCube.cpp:136-146 | each increasing edge-sharing pair of faces has an edge piece of the solved cube on it |
| Occupancy.CornerFacesAre | src/cpp/RubiksCube.cpp:29-36 | a three-sticker cublet touches exactly the faces of its three stickers |
| Occupancy.MiddleFacesAre | src/cpp/RubiksCube.cpp:29-36 | a two-sticker cublet touches exactly the faces of its two stickers |
| Occupancy.SolvedStickers | src/cpp/RubiksCube.cpp:126-145 | a solved piece's stickers show their own faces' colours, on increasing faces |
| Occupancy.SolvedCornerIsItsPlace | src/cpp/RubiksCube.cpp:121-134 | two solved corners on the same corner place are the same corner |
| Occupancy.SolvedMiddleIsItsPlace | src/cpp/RubiksCube.cpp:136-146 | two solved edge pieces on the same edge place are the same piece |
| Occupancy.SolvedCornersOccupy | src/cpp/RubiksCube.cpp:121-134 | the solved cube has exactly one corner on every corner place |
| Occupancy.SolvedMiddlesOccupy | src/cpp/RubiksCube.cpp:136-146 | the solved cube has exactly one edge piece on every edge place |
| Occupancy.PlacementKeepsFaces | src/cpp/RubiksCube.cpp:163-167 | recolouring stickers keeps the faces every cublet touches |
| Occupancy.PlacementKeepsCornersOccupy | src/cpp/RubiksCube.cpp:153-178 | pieces placed as corners that fill every corner place once still do after recolouring |
| Occupancy.PlacementKeepsMiddlesOccupy | src/cpp/RubiksCube.cpp:153-178 | the same for edge pieces and edge places |
| Occupancy.WalkCellsAreSlots | src/cpp/RubiksCube.cpp:251-259 | the faces of every corner cell and edge cell of the walk are a corner place and an edge place |
| Occupancy.OccupiedGridIsComplete | src/cpp/RubiksCube.cpp:217-262 | when every place holds a piece and every sticker has a real colour, every `cubletIndex` lookup of `toColorMatrix` succeeds and every cell gets a real colour |
| Cube.TurnCublet | src/cpp/RubiksCube.cpp:184-191 | the loop body of `rotate` computes the turned cublet |
| Cube.TurnCublets | src/cpp/RubiksCube.cpp:192-199 | the loop over a collection turns every cublet |
| Cube.RubiksCube.constructor | src/cpp/RubiksCube.cpp:118-149 | the new cube holds the solved 8 corners and 12 edge pieces, all well formed, one to each place, all with real colours |
| Cube.RubiksCube.FromPieces | src/cpp/RubiksCube.cpp:151 | the cube holds exactly the given pieces |
| Cube.RubiksCube.FromGrid | src/cpp/RubiksCube.cpp:153-178 | the pieces sit where the solved ones do, are well formed and fill every place once; every ring cell reads back from the grid and every centre as its own face |
| Cube.RubiksCube.FromFile | src/cpp/RubiksCube.cpp:180 | the cube built from the grid of the file's 54 characters, valid, whose ring cells read back as parsed |
| Cube.RubiksCube.Rotate | src/cpp/RubiksCube.cpp:182-203 | every cublet is turned once, or twice when `twice` is set; sizes, well-formedness, the one-piece-per-place invariant and real colours are kept |
| Cube.RubiksCube.ToColorMatrix | src/cpp/RubiksCube.cpp:245-262 | the grid the cube's pieces show; on a valid cube with real sticker colours, a real colour in every cell |
| Cube.ColorMatrixOf | src/cpp/RubiksCube.cpp:245-262 | the loops fill every centre with its face and every ring cell from the corner or edge piece of its walk step |
| Cube.FillRing | src/cpp/RubiksCube.cpp:251-259 | the walk round one face fills its eight ring cells |
| Cube.PlacedAsSolvedIsValid | src/cpp/RubiksCube.cpp:153-178 | pieces placed as the solved ones, whatever their colours, are well formed and fill every place once |
| Cube.SameCells | src/cpp/RubiksCube.cpp:268-272 | true exactly when the two grids agree in every cell |
| Cube.Equal | src/cpp/RubiksCube.cpp:264-273 | two cubes are equal exactly when they show the same colour grid |
| ConstantTables.PyShareEdgeIsShareEdge | src/py/cubeConstantsGenerator.py:19-35 | false for equal arguments and opposite faces; on real faces, the C++ `shareEdge` with equal faces excluded; symmetric |
| ConstantTables.Cublets2Prefix | src/py/cubeConstantsGenerator.py:39-42 | before the outer pass for colour a, the loops have built the first CUBLETS2_ENDS[a] rows of the table |
| ConstantTables.Cublets3Prefix | src/py/cubeConstantsGenerator.py:39-45 | before the outer pass for colour a, the loops have built the first CUBLETS3_ENDS[a] rows of the table |
| ConstantTables.Faces2Prefix | src/py/cubeConstantsGenerator.py:97-100 | before the outer pass for face a, the loops have built the first FACES2_ENDS[a] rows of the table |
| ConstantTables.Faces3Prefix | src/py/cubeConstantsGenerator.py:97-103 | before the outer pass for face a, the loops have built the first FACES3_ENDS[a] rows of the table |
| ConstantTables.Cublet2EnumerationIsTable | src/py/cubeConstantsGenerator.py:39-42 | the loops append exactly the twelve listed pairs, in order |
| ConstantTables.Cublet3EnumerationIsTable | src/py/cubeConstantsGenerator.py:39-45 | the loops append exactly the eight listed triples, in order |
| ConstantTables.Face2EnumerationIsTable | src/py/cubeConstantsGenerator.py:97-100 | the loops append exactly the twenty-four listed ordered pairs, in order |
| ConstantTables.Face3EnumerationIsTable | src/py/cubeConstantsGenerator.py:97-103 | the loops append exactly the twenty-four listed triples, in order |
| ConstantTables.BuildCubletLists | src/py/cubeConstantsGenerator.py:37-45 | the generator's first loops leave `cublets2` and `cublets3` equal to the listed tables |
| ConstantTables.BuildFaceLists | src/py/cubeConstantsGenerator.py:95-103 | the second loops leave `faces2` and `faces3` equal to the listed tables |
| ConstantTables.IncreasingIsDistinct | src/py/cubeConstantsGenerator.py:37-45 | a list with strictly increasing rows lists no row twice |
| ConstantTables.Cublet2IsListed | src/py/cubeConstantsGenerator.py:39-42 | every increasing adjacent pair is in `cublets2` |
| ConstantTables.Cublet3IsListed | src/py/cubeConstantsGenerator.py:39-45 | every increasing, pairwise adjacent triple is in `cublets3` |
| ConstantTables.Face2IsListed | src/py/cubeConstantsGenerator.py:97-100 | every ordered adjacent pair is in `faces2` |
| ConstantTables.Face3IsListed | src/py/cubeConstantsGenerator.py:97-103 | every pairwise adjacent triple whose last two are increasing is in `faces3` |
| ConstantTables.Cublets2Row | src/py/cubeConstantsGenerator.py:39-42 | every row of `cublets2` is an increasing adjacent pair |
| ConstantTables.Cublets3Row | src/py/cubeConstantsGenerator.py:39-45 | every row of `cublets3` is an increasing, pairwise adjacent triple |
| ConstantTables.Faces2Row | src/py/cubeConstantsGenerator.py:97-100 | every row of `faces2` is an ordered adjacent pair |
| ConstantTables.Faces3Row | src/py/cubeConstantsGenerator.py:97-103 | every row of `faces3` is a pairwise adjacent triple whose last two are increasing |
| ConstantTables.TablesIncrease | src/py/cubeConstantsGenerator.py:37-45 | all four lists come out strictly increasing, so no row is repeated |
| ConstantTables.FirstIndexFromMeans | src/py/cubeConstantsGenerator.py:51-54 | the search from position i finds the first matching row at or after i, or gives -1 exactly when there is none |
| ConstantTables.FirstIndex | src/py/cubeConstantsGenerator.py:51-54 | the first row equal to the key, or -1 exactly when the key is not listed |
| ConstantTables.FirstIndexOfRow | src/py/cubeConstantsGenerator.py:51-54 | in a list with no repeats each row is found at its own position |
| ConstantTables.Lookup | src/py/cubeConstantsGenerator.py:51-54 | the search loop returns the first matching position, or -1 |
| ConstantTables.SortTwo | src/py/cubeConstantsGenerator.py:76 | the two numbers in non-decreasing order |
| ConstantTables.SortThree | src/py/cubeConstantsGenerator.py:50 | the three numbers in non-decreasing order |
| ConstantTables.Cublet2Id | src/py/cubeConstantsGenerator.py:75-80 | `cublet2Id` sorts the colours, then looks them up in `cublets2` |
| ConstantTables.Cublet3Id | src/py/cubeConstantsGenerator.py:49-54 | `cublet3Id` sorts the colours, then looks them up in `cublets3` |
| ConstantTables.Face2Id | src/py/cubeConstantsGenerator.py:131-135 | `face2Id` looks the pair up in `faces2` as given |
| ConstantTables.Face3Id | src/py/cubeConstantsGenerator.py:105-111 | `face3Id` orders the last two faces, then looks the triple up in `faces3` |
| ConstantTables.Cublet2IdMeans | src/py/cubeConstantsGenerator.py:75-80 | an id in 0..11 exactly for two adjacent colours, naming the row that holds them; -1 otherwise; the same for either order |
| ConstantTables.Cublet3IdMeans | src/py/cubeConstantsGenerator.py:49-54 | an id in 0..7 exactly for three pairwise adjacent colours, naming the row that holds them; -1 otherwise; the same in any order |
| ConstantTables.Face2IdMeans | src/py/cubeConstantsGenerator.py:131-135 | an id in 0..23 exactly for two adjacent faces, naming the row that holds them in that order; the two orders get different ids |
| ConstantTables.Face3IdMeans | src/py/cubeConstantsGenerator.py:105-111 | an id in 0..23 exactly for three faces meeting at a corner; the row starts with the first face and holds the other two; swapping the last two keeps the id |
| ConstantTables.Face3IdKeepsFirstFace | src/py/cubeConstantsGenerator.py:105-111 | swapping the first face with the second changes the id of a corner's faces |
| ConstantTables.Cublet2RowHasItsId | src/py/cubeConstantsGenerator.py:75-80 | every row of `cublets2` gets its own position as id |
| ConstantTables.Cublet3RowHasItsId | src/py/cubeConstantsGenerator.py:49-54 | every row of `cublets3` gets its own position as id |
| ConstantTables.Face2RowHasItsId | src/py/cubeConstantsGenerator.py:131-135 | every row of `faces2` gets its own position as id |
| ConstantTables.Face3RowHasItsId | src/py/cubeConstantsGenerator.py:105-111 | every row of `faces3` gets its own position as id |
| ConstantTables.SolvedCornerHasItsId | src/py/cubeConstantsGenerator.py:49-54 | the colours of the C++ solved corner at index j get the Python id j, so the two programs number corners alike |
| ConstantTables.SolvedMiddleHasItsId | src/py/cubeConstantsGenerator.py:75-80 | the colours of the C++ solved edge piece at index j get the Python id j |

## Left out

- Stream input: opening the file and the exception thrown when it cannot be opened are not modelled. `>>` skips whitespace, and that is not modelled either. FileToCubeMatrix and FromFile take the 54 characters already read, so they require at least 54 of them. A shorter file, where the C++ reads past the end, is not modelled.
- Printing: the colour and face `operator<<` and the cube printer are out. Only the printer's cell order is kept, as FormatGrid, which has no spaces, line breaks or terminal escape codes.
- `toMatrix` returns an uninitialised matrix, so it has no behaviour to model. The Python bindings, `main.cpp`, `Util.h` and the tests are not part of this model.
- The Python print functions (the `print*Ids` tables) are left out. So are the Python colour constants, which nothing uses and which number colours differently from the C++ enum.
- Cube.RubiksCube.Rotate: requires well-formed pieces (PiecesWellFormed): every sticker on a real face, and the faces of a cublet distinct and edge-sharing. This is the caller's side of the class design: whoever builds a cube from pieces must supply pieces that meet the invariants. The C++ goes wrong only once a sticker's face is INVALID, because `rotations` cannot be indexed with it. Pieces with real but repeated or opposite faces rotate without error in the C++; rotating such pieces is not modelled.
- Cube.RubiksCube.FromPieces: promises nothing about Valid(): the one-piece-per-place invariant of pieces given from outside is the caller's to keep, as in the C++.
- Cube.RubiksCube.FromGrid: guarantees the grid only on ring cells. Centres read back as their own face, as `toColorMatrix` writes them, whatever the grid's centre holds.
- Cube.RubiksCube.FromFile: guarantees the ring cells only, for the same reason.
- Cube.RubiksCube.FromPieces: the C++ Cublet sizes are fixed by the template. Here they are fixed by the Corner and Middle subset types. Nothing checks the counts of 8 and 12.
- Helper methods: some loops of one C++ function are split out into their own methods. These are SolvedPieces, PaintGrid, FillRing, TurnCublets and SameCells. A Dafny constructor cannot call another constructor, and FromGrid and FromFile reuse the solved-cube loops through SolvedPieces.
- `isRotated`, `cubletIndex`, `colorOnEdge` and `startingFaces`'s walk are searches without side effects. They are modelled as functions, with lemmas on their search loops.
- Ids (Cublet2Id, Cublet3Id, Face2Id, Face3Id): the Python compares a row entry by entry. The model compares whole sequences, which is the same thing because every row has the key's length.
- Sorting: Python's `sorted` is modelled only for two and three numbers, as SortTwo and SortThree.
- ConstantTables.SortTwo: states the permutation as the two orders of the inputs rather than as a multiset.
- ConstantTables.SortThree: states the permutation as the six orders of the inputs rather than as a multiset.
- Python integers and C++ `int` values here stay within 0..6, so no overflow is modelled.
