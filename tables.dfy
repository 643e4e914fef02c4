/** The constant tables of the Python generator: the lists of two- and
    three-colour pieces and of ordered face pairs and triples it builds,
    and the four id functions that look an entry up in them. */
module ConstantTables {
  import opened Geometry
  import opened Pieces
  import opened Solved

  /** `share_edge`: unlike the C++ `shareEdge`, two equal faces do not
      share an edge; otherwise only the three opposite pairs fail. */
  function PyShareEdge(face1: int, face2: int): bool {
    if face1 == face2 then false
    else if face1 == FRONT && face2 == BACK then false
    else if face1 == BACK && face2 == FRONT then false
    else if face1 == LEFT && face2 == RIGHT then false
    else if face1 == RIGHT && face2 == LEFT then false
    else if face1 == TOP && face2 == BOTTOM then false
    else if face1 == BOTTOM && face2 == TOP then false
    else true
  }

  /** On two real faces the Python test is the C++ one with equal faces
      excluded, and it does not depend on the order of its arguments. */
  lemma {:induction false} PyShareEdgeIsShareEdge(a: int, b: int)
    ensures PyShareEdge(a, b) <==> a != b && (0 <= a < 6 ==> b != Opposite(a))
    ensures 0 <= a < 6 && 0 <= b < 6 ==> (PyShareEdge(a, b) <==> a != b && ShareEdge(a, b))
    ensures PyShareEdge(a, b) == PyShareEdge(b, a)
  {
    if 0 <= a < 6 {
      FaceCases(a);
    }
  }

  /** Two real faces, or colours, that share an edge. */
  predicate Adjacent(a: int, b: int) {
    0 <= a < 6 && 0 <= b < 6 && PyShareEdge(a, b)
  }

  /** The entries of `cublets2`: increasing pairs of adjacent colours. */
  predicate IsCublet2(p: seq<int>) {
    |p| == 2 && p[0] < p[1] && Adjacent(p[0], p[1])
  }

  /** The entries of `cublets3`: increasing, pairwise adjacent triples. */
  predicate IsCublet3(t: seq<int>) {
    |t| == 3 && t[0] < t[1] < t[2] && Adjacent(t[0], t[1]) && Adjacent(t[1], t[2]) && Adjacent(t[0], t[2])
  }

  /** The entries of `faces2`: ordered pairs of adjacent faces. */
  predicate IsFace2(p: seq<int>) {
    |p| == 2 && Adjacent(p[0], p[1])
  }

  /** The entries of `faces3`: a face, then two faces adjacent to it and
      to each other, the second smaller than the third. */
  predicate IsFace3(t: seq<int>) {
    |t| == 3 && t[1] < t[2] && Adjacent(t[0], t[1]) && Adjacent(t[1], t[2]) && Adjacent(t[0], t[2])
  }

  /** The four lists, as the generator's loops leave them. */
  const CUBLETS2: seq<seq<int>> := [
    [0, 2], [0, 3], [0, 4], [0, 5], [1, 2], [1, 3], [1, 4], [1, 5], [2, 4],
    [2, 5], [3, 4], [3, 5]
  ]

  const CUBLETS3: seq<seq<int>> := [
    [0, 2, 4], [0, 2, 5], [0, 3, 4], [0, 3, 5], [1, 2, 4], [1, 2, 5],
    [1, 3, 4], [1, 3, 5]
  ]

  const FACES2: seq<seq<int>> := [
    [0, 2], [0, 3], [0, 4], [0, 5], [1, 2], [1, 3], [1, 4], [1, 5], [2, 0],
    [2, 1], [2, 4], [2, 5], [3, 0], [3, 1], [3, 4], [3, 5], [4, 0], [4, 1],
    [4, 2], [4, 3], [5, 0], [5, 1], [5, 2], [5, 3]
  ]

  const FACES3: seq<seq<int>> := [
    [0, 2, 4], [0, 2, 5], [0, 3, 4], [0, 3, 5], [1, 2, 4], [1, 2, 5],
    [1, 3, 4], [1, 3, 5], [2, 0, 4], [2, 0, 5], [2, 1, 4], [2, 1, 5],
    [3, 0, 4], [3, 0, 5], [3, 1, 4], [3, 1, 5], [4, 0, 2], [4, 0, 3],
    [4, 1, 2], [4, 1, 3], [5, 0, 2], [5, 0, 3], [5, 1, 2], [5, 1, 3]
  ]

  // ---------------------------------------------------------------------
  // The loops that build the lists

  /** `acc` after the pair loop's passes lo <= b' < b for first entry a:
      each appends [a, b'] when the two share an edge. */
  function PairsAfter(acc: seq<seq<int>>, a: int, lo: int, b: int): seq<seq<int>>
    requires lo <= b
    decreases b - lo
  {
    if b == lo then acc
    else
      var prev := PairsAfter(acc, a, lo, b - 1);
      if PyShareEdge(a, b - 1) then prev + [[a, b - 1]] else prev
  }

  /** `acc` after the third loop's passes b < c' < c for the pair a, b:
      each appends [a, b, c'] when c' shares an edge with both. */
  function TriplesAfter(acc: seq<seq<int>>, a: int, b: int, c: int): seq<seq<int>>
    requires b + 1 <= c
    decreases c - b
  {
    if c == b + 1 then acc
    else
      var prev := TriplesAfter(acc, a, b, c - 1);
      if PyShareEdge(b, c - 1) && PyShareEdge(a, c - 1) then prev + [[a, b, c - 1]] else prev
  }

  /** `acc` after the second loop's passes lo <= b' < b for first entry a:
      the third loop runs for each b' that shares an edge with a. */
  function TripleBlocksAfter(acc: seq<seq<int>>, a: int, lo: int, b: int): seq<seq<int>>
    requires lo <= b <= 6
    decreases b - lo
  {
    if b == lo then acc
    else
      var prev := TripleBlocksAfter(acc, a, lo, b - 1);
      if PyShareEdge(a, b - 1) then TriplesAfter(prev, a, b - 1, 6) else prev
  }

  /** `cublets2` when color1 = a is about to start. */
  function Cublets2Before(a: nat): seq<seq<int>>
    requires a <= 6
  {
    if a == 0 then [] else PairsAfter(Cublets2Before(a - 1), a - 1, a, 6)
  }

  /** `cublets3` when color1 = a is about to start. */
  function Cublets3Before(a: nat): seq<seq<int>>
    requires a <= 6
  {
    if a == 0 then [] else TripleBlocksAfter(Cublets3Before(a - 1), a - 1, a, 6)
  }

  /** `faces2` when face1 = a is about to start. */
  function Faces2Before(a: nat): seq<seq<int>>
    requires a <= 6
  {
    if a == 0 then [] else PairsAfter(Faces2Before(a - 1), a - 1, 0, 6)
  }

  /** `faces3` when face1 = a is about to start. */
  function Faces3Before(a: nat): seq<seq<int>>
    requires a <= 6
  {
    if a == 0 then [] else TripleBlocksAfter(Faces3Before(a - 1), a - 1, 0, 6)
  }

  /** How long `cublets2` is when the outer loop is about to start its
      pass for a, up to a = 6 when it has finished. */
  const CUBLETS2_ENDS: seq<nat> := [0, 4, 8, 10, 12, 12, 12]

  /** The pass of the outer loop for a appends the next stretch of
      CUBLETS2. */
  lemma {:induction false} Cublets2Step(a: nat)
    requires a < 6
    ensures PairsAfter(CUBLETS2[..CUBLETS2_ENDS[a]], a, a + 1, 6) == CUBLETS2[..CUBLETS2_ENDS[a + 1]]
  {
    if a == 0 {
      assert PairsAfter([], 0, 1, 2) == [];
      assert PairsAfter([], 0, 1, 3) == CUBLETS2[..1];
      assert PairsAfter([], 0, 1, 4) == CUBLETS2[..2];
      assert PairsAfter([], 0, 1, 5) == CUBLETS2[..3];
      assert PairsAfter([], 0, 1, 6) == CUBLETS2[..4];
    } else if a == 1 {
      assert PairsAfter(CUBLETS2[..4], 1, 2, 3) == CUBLETS2[..5];
      assert PairsAfter(CUBLETS2[..4], 1, 2, 4) == CUBLETS2[..6];
      assert PairsAfter(CUBLETS2[..4], 1, 2, 5) == CUBLETS2[..7];
      assert PairsAfter(CUBLETS2[..4], 1, 2, 6) == CUBLETS2[..8];
    } else if a == 2 {
      assert PairsAfter(CUBLETS2[..8], 2, 3, 4) == CUBLETS2[..8];
      assert PairsAfter(CUBLETS2[..8], 2, 3, 5) == CUBLETS2[..9];
      assert PairsAfter(CUBLETS2[..8], 2, 3, 6) == CUBLETS2[..10];
    } else if a == 3 {
      assert PairsAfter(CUBLETS2[..10], 3, 4, 5) == CUBLETS2[..11];
      assert PairsAfter(CUBLETS2[..10], 3, 4, 6) == CUBLETS2[..12];
    } else if a == 4 {
      assert PairsAfter(CUBLETS2[..12], 4, 5, 6) == CUBLETS2[..12];
    } else {
      // no colour above 5: the pass appends nothing
    }
  }

  /** Before the pass for a, the loops have built the first
      CUBLETS2_ENDS[a] pairs of CUBLETS2. */
  lemma {:induction false} Cublets2Prefix(a: nat)
    requires a <= 6
    ensures Cublets2Before(a) == CUBLETS2[..CUBLETS2_ENDS[a]]
  {
    if a > 0 {
      Cublets2Prefix(a - 1);
      Cublets2Step(a - 1);
    }
  }

  /** When they finish they have built exactly CUBLETS2. */
  lemma Cublet2EnumerationIsTable()
    ensures Cublets2Before(6) == CUBLETS2
  {
    Cublets2Prefix(6);
    assert CUBLETS2[..|CUBLETS2|] == CUBLETS2;
  }

  /** How long `cublets3` is when the outer loop is about to start its
      pass for a, up to a = 6 when it has finished. */
  const CUBLETS3_ENDS: seq<nat> := [0, 4, 8, 8, 8, 8, 8]

  /** The pass of the outer loop for a appends the next stretch of
      CUBLETS3. */
  lemma {:induction false} Cublets3Step(a: nat)
    requires a < 6
    ensures TripleBlocksAfter(CUBLETS3[..CUBLETS3_ENDS[a]], a, a + 1, 6) == CUBLETS3[..CUBLETS3_ENDS[a + 1]]
  {
    if a == 0 {
      assert TripleBlocksAfter([], 0, 1, 2) == [];
      assert TriplesAfter([], 0, 2, 4) == [];
      assert TriplesAfter([], 0, 2, 5) == CUBLETS3[..1];
      assert TriplesAfter([], 0, 2, 6) == CUBLETS3[..2];
      assert TripleBlocksAfter([], 0, 1, 3) == CUBLETS3[..2];
      assert TriplesAfter(CUBLETS3[..2], 0, 3, 5) == CUBLETS3[..3];
      assert TriplesAfter(CUBLETS3[..2], 0, 3, 6) == CUBLETS3[..4];
      assert TripleBlocksAfter([], 0, 1, 4) == CUBLETS3[..4];
      assert TriplesAfter(CUBLETS3[..4], 0, 4, 6) == CUBLETS3[..4];
      assert TripleBlocksAfter([], 0, 1, 5) == CUBLETS3[..4];
      assert TripleBlocksAfter([], 0, 1, 6) == CUBLETS3[..4];
    } else if a == 1 {
      assert TriplesAfter(CUBLETS3[..4], 1, 2, 4) == CUBLETS3[..4];
      assert TriplesAfter(CUBLETS3[..4], 1, 2, 5) == CUBLETS3[..5];
      assert TriplesAfter(CUBLETS3[..4], 1, 2, 6) == CUBLETS3[..6];
      assert TripleBlocksAfter(CUBLETS3[..4], 1, 2, 3) == CUBLETS3[..6];
      assert TriplesAfter(CUBLETS3[..6], 1, 3, 5) == CUBLETS3[..7];
      assert TriplesAfter(CUBLETS3[..6], 1, 3, 6) == CUBLETS3[..8];
      assert TripleBlocksAfter(CUBLETS3[..4], 1, 2, 4) == CUBLETS3[..8];
      assert TriplesAfter(CUBLETS3[..8], 1, 4, 6) == CUBLETS3[..8];
      assert TripleBlocksAfter(CUBLETS3[..4], 1, 2, 5) == CUBLETS3[..8];
      assert TripleBlocksAfter(CUBLETS3[..4], 1, 2, 6) == CUBLETS3[..8];
    } else if a == 2 {
      assert TripleBlocksAfter(CUBLETS3[..8], 2, 3, 4) == CUBLETS3[..8];
      assert TriplesAfter(CUBLETS3[..8], 2, 4, 6) == CUBLETS3[..8];
      assert TripleBlocksAfter(CUBLETS3[..8], 2, 3, 5) == CUBLETS3[..8];
      assert TripleBlocksAfter(CUBLETS3[..8], 2, 3, 6) == CUBLETS3[..8];
    } else if a == 3 {
      assert TriplesAfter(CUBLETS3[..8], 3, 4, 6) == CUBLETS3[..8];
      assert TripleBlocksAfter(CUBLETS3[..8], 3, 4, 5) == CUBLETS3[..8];
      assert TripleBlocksAfter(CUBLETS3[..8], 3, 4, 6) == CUBLETS3[..8];
    } else if a == 4 {
      assert TripleBlocksAfter(CUBLETS3[..8], 4, 5, 6) == CUBLETS3[..8];
    } else {
      // no colour above 5: the pass appends nothing
    }
  }

  /** Before the pass for a, the loops have built the first
      CUBLETS3_ENDS[a] triples of CUBLETS3. */
  lemma {:induction false} Cublets3Prefix(a: nat)
    requires a <= 6
    ensures Cublets3Before(a) == CUBLETS3[..CUBLETS3_ENDS[a]]
  {
    if a > 0 {
      Cublets3Prefix(a - 1);
      Cublets3Step(a - 1);
    }
  }

  /** When they finish they have built exactly CUBLETS3. */
  lemma Cublet3EnumerationIsTable()
    ensures Cublets3Before(6) == CUBLETS3
  {
    Cublets3Prefix(6);
    assert CUBLETS3[..|CUBLETS3|] == CUBLETS3;
  }

  /** How long `faces2` is when the outer loop is about to start its
      pass for a, up to a = 6 when it has finished. */
  const FACES2_ENDS: seq<nat> := [0, 4, 8, 12, 16, 20, 24]

  /** The pass for FRONT. */
  lemma Faces2Pass0()
    ensures PairsAfter([], 0, 0, 6) == FACES2[..4]
  {
    assert PairsAfter([], 0, 0, 1) == [];
    assert PairsAfter([], 0, 0, 2) == [];
    assert PairsAfter([], 0, 0, 3) == FACES2[..1];
    assert PairsAfter([], 0, 0, 4) == FACES2[..2];
    assert PairsAfter([], 0, 0, 5) == FACES2[..3];
    assert PairsAfter([], 0, 0, 6) == FACES2[..4];
  }

  /** The pass for BACK. */
  lemma Faces2Pass1()
    ensures PairsAfter(FACES2[..4], 1, 0, 6) == FACES2[..8]
  {
    assert PairsAfter(FACES2[..4], 1, 0, 1) == FACES2[..4];
    assert PairsAfter(FACES2[..4], 1, 0, 2) == FACES2[..4];
    assert PairsAfter(FACES2[..4], 1, 0, 3) == FACES2[..5];
    assert PairsAfter(FACES2[..4], 1, 0, 4) == FACES2[..6];
    assert PairsAfter(FACES2[..4], 1, 0, 5) == FACES2[..7];
    assert PairsAfter(FACES2[..4], 1, 0, 6) == FACES2[..8];
  }

  /** The pass for LEFT. */
  lemma Faces2Pass2()
    ensures PairsAfter(FACES2[..8], 2, 0, 6) == FACES2[..12]
  {
    assert PairsAfter(FACES2[..8], 2, 0, 1) == FACES2[..9];
    assert PairsAfter(FACES2[..8], 2, 0, 2) == FACES2[..10];
    assert PairsAfter(FACES2[..8], 2, 0, 3) == FACES2[..10];
    assert PairsAfter(FACES2[..8], 2, 0, 4) == FACES2[..10];
    assert PairsAfter(FACES2[..8], 2, 0, 5) == FACES2[..11];
    assert PairsAfter(FACES2[..8], 2, 0, 6) == FACES2[..12];
  }

  /** The pass for RIGHT. */
  lemma Faces2Pass3()
    ensures PairsAfter(FACES2[..12], 3, 0, 6) == FACES2[..16]
  {
    assert PairsAfter(FACES2[..12], 3, 0, 1) == FACES2[..13];
    assert PairsAfter(FACES2[..12], 3, 0, 2) == FACES2[..14];
    assert PairsAfter(FACES2[..12], 3, 0, 3) == FACES2[..14];
    assert PairsAfter(FACES2[..12], 3, 0, 4) == FACES2[..14];
    assert PairsAfter(FACES2[..12], 3, 0, 5) == FACES2[..15];
    assert PairsAfter(FACES2[..12], 3, 0, 6) == FACES2[..16];
  }

  /** The pass for TOP. */
  lemma Faces2Pass4()
    ensures PairsAfter(FACES2[..16], 4, 0, 6) == FACES2[..20]
  {
    assert PairsAfter(FACES2[..16], 4, 0, 1) == FACES2[..17];
    assert PairsAfter(FACES2[..16], 4, 0, 2) == FACES2[..18];
    assert PairsAfter(FACES2[..16], 4, 0, 3) == FACES2[..19];
    assert PairsAfter(FACES2[..16], 4, 0, 4) == FACES2[..20];
    assert PairsAfter(FACES2[..16], 4, 0, 5) == FACES2[..20];
    assert PairsAfter(FACES2[..16], 4, 0, 6) == FACES2[..20];
  }

  /** The pass for BOTTOM. */
  lemma Faces2Pass5()
    ensures PairsAfter(FACES2[..20], 5, 0, 6) == FACES2[..24]
  {
    assert PairsAfter(FACES2[..20], 5, 0, 1) == FACES2[..21];
    assert PairsAfter(FACES2[..20], 5, 0, 2) == FACES2[..22];
    assert PairsAfter(FACES2[..20], 5, 0, 3) == FACES2[..23];
    assert PairsAfter(FACES2[..20], 5, 0, 4) == FACES2[..24];
    assert PairsAfter(FACES2[..20], 5, 0, 5) == FACES2[..24];
    assert PairsAfter(FACES2[..20], 5, 0, 6) == FACES2[..24];
  }

  /** The pass of the outer loop for a appends the next stretch of
      FACES2. */
  lemma {:induction false} Faces2Step(a: nat)
    requires a < 6
    ensures PairsAfter(FACES2[..FACES2_ENDS[a]], a, 0, 6) == FACES2[..FACES2_ENDS[a + 1]]
  {
    if a == 0 {
      Faces2Pass0();
    } else if a == 1 {
      Faces2Pass1();
    } else if a == 2 {
      Faces2Pass2();
    } else if a == 3 {
      Faces2Pass3();
    } else if a == 4 {
      Faces2Pass4();
    } else {
      Faces2Pass5();
    }
  }

  /** Before the pass for a, the loops have built the first
      FACES2_ENDS[a] pairs of FACES2. */
  lemma {:induction false} Faces2Prefix(a: nat)
    requires a <= 6
    ensures Faces2Before(a) == FACES2[..FACES2_ENDS[a]]
  {
    if a > 0 {
      Faces2Prefix(a - 1);
      Faces2Step(a - 1);
    }
  }

  /** When they finish they have built exactly FACES2. */
  lemma Face2EnumerationIsTable()
    ensures Faces2Before(6) == FACES2
  {
    Faces2Prefix(6);
    assert FACES2[..|FACES2|] == FACES2;
  }

  /** How long `faces3` is when the outer loop is about to start its
      pass for a, up to a = 6 when it has finished. */
  const FACES3_ENDS: seq<nat> := [0, 4, 8, 12, 16, 20, 24]

  /** The pass for FRONT. */
  lemma Faces3Pass0()
    ensures TripleBlocksAfter([], 0, 0, 6) == FACES3[..4]
  {
    assert TripleBlocksAfter([], 0, 0, 1) == [];
    assert TripleBlocksAfter([], 0, 0, 2) == [];
    assert TriplesAfter([], 0, 2, 4) == [];
    assert TriplesAfter([], 0, 2, 5) == FACES3[..1];
    assert TriplesAfter([], 0, 2, 6) == FACES3[..2];
    assert TripleBlocksAfter([], 0, 0, 3) == FACES3[..2];
    assert TriplesAfter(FACES3[..2], 0, 3, 5) == FACES3[..3];
    assert TriplesAfter(FACES3[..2], 0, 3, 6) == FACES3[..4];
    assert TripleBlocksAfter([], 0, 0, 4) == FACES3[..4];
    assert TriplesAfter(FACES3[..4], 0, 4, 6) == FACES3[..4];
    assert TripleBlocksAfter([], 0, 0, 5) == FACES3[..4];
    assert TripleBlocksAfter([], 0, 0, 6) == FACES3[..4];
  }

  /** The pass for BACK. */
  lemma Faces3Pass1()
    ensures TripleBlocksAfter(FACES3[..4], 1, 0, 6) == FACES3[..8]
  {
    assert TripleBlocksAfter(FACES3[..4], 1, 0, 1) == FACES3[..4];
    assert TripleBlocksAfter(FACES3[..4], 1, 0, 2) == FACES3[..4];
    assert TriplesAfter(FACES3[..4], 1, 2, 4) == FACES3[..4];
    assert TriplesAfter(FACES3[..4], 1, 2, 5) == FACES3[..5];
    assert TriplesAfter(FACES3[..4], 1, 2, 6) == FACES3[..6];
    assert TripleBlocksAfter(FACES3[..4], 1, 0, 3) == FACES3[..6];
    assert TriplesAfter(FACES3[..6], 1, 3, 5) == FACES3[..7];
    assert TriplesAfter(FACES3[..6], 1, 3, 6) == FACES3[..8];
    assert TripleBlocksAfter(FACES3[..4], 1, 0, 4) == FACES3[..8];
    assert TriplesAfter(FACES3[..8], 1, 4, 6) == FACES3[..8];
    assert TripleBlocksAfter(FACES3[..4], 1, 0, 5) == FACES3[..8];
    assert TripleBlocksAfter(FACES3[..4], 1, 0, 6) == FACES3[..8];
  }

  /** The pass for LEFT. */
  lemma Faces3Pass2()
    ensures TripleBlocksAfter(FACES3[..8], 2, 0, 6) == FACES3[..12]
  {
    assert TriplesAfter(FACES3[..8], 2, 0, 2) == FACES3[..8];
    assert TriplesAfter(FACES3[..8], 2, 0, 3) == FACES3[..8];
    assert TriplesAfter(FACES3[..8], 2, 0, 4) == FACES3[..8];
    assert TriplesAfter(FACES3[..8], 2, 0, 5) == FACES3[..9];
    assert TriplesAfter(FACES3[..8], 2, 0, 6) == FACES3[..10];
    assert TripleBlocksAfter(FACES3[..8], 2, 0, 1) == FACES3[..10];
    assert TriplesAfter(FACES3[..10], 2, 1, 3) == FACES3[..10];
    assert TriplesAfter(FACES3[..10], 2, 1, 4) == FACES3[..10];
    assert TriplesAfter(FACES3[..10], 2, 1, 5) == FACES3[..11];
    assert TriplesAfter(FACES3[..10], 2, 1, 6) == FACES3[..12];
    assert TripleBlocksAfter(FACES3[..8], 2, 0, 2) == FACES3[..12];
    assert TripleBlocksAfter(FACES3[..8], 2, 0, 3) == FACES3[..12];
    assert TripleBlocksAfter(FACES3[..8], 2, 0, 4) == FACES3[..12];
    assert TriplesAfter(FACES3[..12], 2, 4, 6) == FACES3[..12];
    assert TripleBlocksAfter(FACES3[..8], 2, 0, 5) == FACES3[..12];
    assert TripleBlocksAfter(FACES3[..8], 2, 0, 6) == FACES3[..12];
  }

  /** The pass for RIGHT. */
  lemma Faces3Pass3()
    ensures TripleBlocksAfter(FACES3[..12], 3, 0, 6) == FACES3[..16]
  {
    assert TriplesAfter(FACES3[..12], 3, 0, 2) == FACES3[..12];
    assert TriplesAfter(FACES3[..12], 3, 0, 3) == FACES3[..12];
    assert TriplesAfter(FACES3[..12], 3, 0, 4) == FACES3[..12];
    assert TriplesAfter(FACES3[..12], 3, 0, 5) == FACES3[..13];
    assert TriplesAfter(FACES3[..12], 3, 0, 6) == FACES3[..14];
    assert TripleBlocksAfter(FACES3[..12], 3, 0, 1) == FACES3[..14];
    assert TriplesAfter(FACES3[..14], 3, 1, 3) == FACES3[..14];
    assert TriplesAfter(FACES3[..14], 3, 1, 4) == FACES3[..14];
    assert TriplesAfter(FACES3[..14], 3, 1, 5) == FACES3[..15];
    assert TriplesAfter(FACES3[..14], 3, 1, 6) == FACES3[..16];
    assert TripleBlocksAfter(FACES3[..12], 3, 0, 2) == FACES3[..16];
    assert TripleBlocksAfter(FACES3[..12], 3, 0, 3) == FACES3[..16];
    assert TripleBlocksAfter(FACES3[..12], 3, 0, 4) == FACES3[..16];
    assert TriplesAfter(FACES3[..16], 3, 4, 6) == FACES3[..16];
    assert TripleBlocksAfter(FACES3[..12], 3, 0, 5) == FACES3[..16];
    assert TripleBlocksAfter(FACES3[..12], 3, 0, 6) == FACES3[..16];
  }

  /** The pass for TOP. */
  lemma Faces3Pass4()
    ensures TripleBlocksAfter(FACES3[..16], 4, 0, 6) == FACES3[..20]
  {
    assert TriplesAfter(FACES3[..16], 4, 0, 2) == FACES3[..16];
    assert TriplesAfter(FACES3[..16], 4, 0, 3) == FACES3[..17];
    assert TriplesAfter(FACES3[..16], 4, 0, 4) == FACES3[..18];
    assert TriplesAfter(FACES3[..16], 4, 0, 5) == FACES3[..18];
    assert TriplesAfter(FACES3[..16], 4, 0, 6) == FACES3[..18];
    assert TripleBlocksAfter(FACES3[..16], 4, 0, 1) == FACES3[..18];
    assert TriplesAfter(FACES3[..18], 4, 1, 3) == FACES3[..19];
    assert TriplesAfter(FACES3[..18], 4, 1, 4) == FACES3[..20];
    assert TriplesAfter(FACES3[..18], 4, 1, 5) == FACES3[..20];
    assert TriplesAfter(FACES3[..18], 4, 1, 6) == FACES3[..20];
    assert TripleBlocksAfter(FACES3[..16], 4, 0, 2) == FACES3[..20];
    assert TriplesAfter(FACES3[..20], 4, 2, 4) == FACES3[..20];
    assert TriplesAfter(FACES3[..20], 4, 2, 5) == FACES3[..20];
    assert TriplesAfter(FACES3[..20], 4, 2, 6) == FACES3[..20];
    assert TripleBlocksAfter(FACES3[..16], 4, 0, 3) == FACES3[..20];
    assert TriplesAfter(FACES3[..20], 4, 3, 5) == FACES3[..20];
    assert TriplesAfter(FACES3[..20], 4, 3, 6) == FACES3[..20];
    assert TripleBlocksAfter(FACES3[..16], 4, 0, 4) == FACES3[..20];
    assert TripleBlocksAfter(FACES3[..16], 4, 0, 5) == FACES3[..20];
    assert TripleBlocksAfter(FACES3[..16], 4, 0, 6) == FACES3[..20];
  }

  /** The pass for BOTTOM. */
  lemma Faces3Pass5()
    ensures TripleBlocksAfter(FACES3[..20], 5, 0, 6) == FACES3[..24]
  {
    assert TriplesAfter(FACES3[..20], 5, 0, 2) == FACES3[..20];
    assert TriplesAfter(FACES3[..20], 5, 0, 3) == FACES3[..21];
    assert TriplesAfter(FACES3[..20], 5, 0, 4) == FACES3[..22];
    assert TriplesAfter(FACES3[..20], 5, 0, 5) == FACES3[..22];
    assert TriplesAfter(FACES3[..20], 5, 0, 6) == FACES3[..22];
    assert TripleBlocksAfter(FACES3[..20], 5, 0, 1) == FACES3[..22];
    assert TriplesAfter(FACES3[..22], 5, 1, 3) == FACES3[..23];
    assert TriplesAfter(FACES3[..22], 5, 1, 4) == FACES3[..24];
    assert TriplesAfter(FACES3[..22], 5, 1, 5) == FACES3[..24];
    assert TriplesAfter(FACES3[..22], 5, 1, 6) == FACES3[..24];
    assert TripleBlocksAfter(FACES3[..20], 5, 0, 2) == FACES3[..24];
    assert TriplesAfter(FACES3[..24], 5, 2, 4) == FACES3[..24];
    assert TriplesAfter(FACES3[..24], 5, 2, 5) == FACES3[..24];
    assert TriplesAfter(FACES3[..24], 5, 2, 6) == FACES3[..24];
    assert TripleBlocksAfter(FACES3[..20], 5, 0, 3) == FACES3[..24];
    assert TriplesAfter(FACES3[..24], 5, 3, 5) == FACES3[..24];
    assert TriplesAfter(FACES3[..24], 5, 3, 6) == FACES3[..24];
    assert TripleBlocksAfter(FACES3[..20], 5, 0, 4) == FACES3[..24];
    assert TripleBlocksAfter(FACES3[..20], 5, 0, 5) == FACES3[..24];
    assert TripleBlocksAfter(FACES3[..20], 5, 0, 6) == FACES3[..24];
  }

  /** The pass of the outer loop for a appends the next stretch of
      FACES3. */
  lemma {:induction false} Faces3Step(a: nat)
    requires a < 6
    ensures TripleBlocksAfter(FACES3[..FACES3_ENDS[a]], a, 0, 6) == FACES3[..FACES3_ENDS[a + 1]]
  {
    if a == 0 {
      Faces3Pass0();
    } else if a == 1 {
      Faces3Pass1();
    } else if a == 2 {
      Faces3Pass2();
    } else if a == 3 {
      Faces3Pass3();
    } else if a == 4 {
      Faces3Pass4();
    } else {
      Faces3Pass5();
    }
  }

  /** Before the pass for a, the loops have built the first
      FACES3_ENDS[a] triples of FACES3. */
  lemma {:induction false} Faces3Prefix(a: nat)
    requires a <= 6
    ensures Faces3Before(a) == FACES3[..FACES3_ENDS[a]]
  {
    if a > 0 {
      Faces3Prefix(a - 1);
      Faces3Step(a - 1);
    }
  }

  /** When they finish they have built exactly FACES3. */
  lemma Face3EnumerationIsTable()
    ensures Faces3Before(6) == FACES3
  {
    Faces3Prefix(6);
    assert FACES3[..|FACES3|] == FACES3;
  }

  /** The module-level loops over the colours: every increasing adjacent
      pair is appended to `cublets2` and, for each such pair, every larger
      colour adjacent to both completes a triple of `cublets3`. */
  method BuildCubletLists() returns (cublets2: seq<seq<int>>, cublets3: seq<seq<int>>)
    ensures cublets2 == CUBLETS2 && cublets3 == CUBLETS3
  {
    cublets2, cublets3 := [], [];
    for color1 := 0 to 6
      invariant cublets2 == Cublets2Before(color1) && cublets3 == Cublets3Before(color1)
    {
      ghost var before2, before3 := cublets2, cublets3;
      for color2 := color1 + 1 to 6
        invariant cublets2 == PairsAfter(before2, color1, color1 + 1, color2)
        invariant cublets3 == TripleBlocksAfter(before3, color1, color1 + 1, color2)
      {
        if PyShareEdge(color1, color2) {
          cublets2 := cublets2 + [[color1, color2]];
          ghost var before := cublets3;
          for color3 := color2 + 1 to 6
            invariant cublets3 == TriplesAfter(before, color1, color2, color3)
          {
            if PyShareEdge(color2, color3) && PyShareEdge(color1, color3) {
              cublets3 := cublets3 + [[color1, color2, color3]];
            }
          }
        }
      }
    }
    Cublet2EnumerationIsTable();
    Cublet3EnumerationIsTable();
  }

  /** The module-level loops over the faces: every ordered adjacent pair
      goes to `faces2` and, for each, every larger third face adjacent to
      both completes a triple of `faces3`. */
  method BuildFaceLists() returns (faces2: seq<seq<int>>, faces3: seq<seq<int>>)
    ensures faces2 == FACES2 && faces3 == FACES3
  {
    faces2, faces3 := [], [];
    for face1 := 0 to 6
      invariant faces2 == Faces2Before(face1) && faces3 == Faces3Before(face1)
    {
      ghost var before2, before3 := faces2, faces3;
      for face2 := 0 to 6
        invariant faces2 == PairsAfter(before2, face1, 0, face2)
        invariant faces3 == TripleBlocksAfter(before3, face1, 0, face2)
      {
        if PyShareEdge(face1, face2) {
          faces2 := faces2 + [[face1, face2]];
          ghost var before := faces3;
          for face3 := face2 + 1 to 6
            invariant faces3 == TriplesAfter(before, face1, face2, face3)
          {
            if PyShareEdge(face2, face3) && PyShareEdge(face1, face3) {
              faces3 := faces3 + [[face1, face2, face3]];
            }
          }
        }
      }
    }
    Face2EnumerationIsTable();
    Face3EnumerationIsTable();
  }

  // ---------------------------------------------------------------------
  // What the lists hold

  /** A row of two or three colours or faces read as a number in base 6,
      so that comparing codes compares rows of equal length
      lexicographically. */
  function Code(p: seq<int>): int {
    if |p| == 2 then 6 * p[0] + p[1]
    else if |p| == 3 then 36 * p[0] + 6 * p[1] + p[2]
    else 0
  }

  /** The rows come in strictly increasing lexicographic order. */
  predicate Increasing(table: seq<seq<int>>) {
    forall j :: 0 <= j < |table| - 1 ==> Code(table[j]) < Code(table[j + 1])
  }

  /** In an increasing table every later row has a larger code. */
  lemma {:induction false} IncreasingFrom(table: seq<seq<int>>, j: int, j': int)
    requires Increasing(table) && 0 <= j < j' < |table|
    ensures Code(table[j]) < Code(table[j'])
    decreases j' - j
  {
    if j + 1 < j' {
      IncreasingFrom(table, j + 1, j');
    }
  }

  /** An increasing table lists no row twice. */
  lemma {:induction false} IncreasingIsDistinct(table: seq<seq<int>>)
    requires Increasing(table)
    ensures forall j, j' :: 0 <= j < j' < |table| ==> table[j] != table[j']
  {
    forall j, j' | 0 <= j < j' < |table|
      ensures table[j] != table[j']
    {
      IncreasingFrom(table, j, j');
    }
  }

  lemma {:induction false} Cublet2IsListed(t: seq<int>)
    requires IsCublet2(t)
    ensures t in CUBLETS2
  {
    assert t == [t[0], t[1]];
    if t[0] == 0 && t[1] == 2 {
      assert CUBLETS2[0] == t;
    } else if t[0] == 0 && t[1] == 3 {
      assert CUBLETS2[1] == t;
    } else if t[0] == 0 && t[1] == 4 {
      assert CUBLETS2[2] == t;
    } else if t[0] == 0 && t[1] == 5 {
      assert CUBLETS2[3] == t;
    } else if t[0] == 1 && t[1] == 2 {
      assert CUBLETS2[4] == t;
    } else if t[0] == 1 && t[1] == 3 {
      assert CUBLETS2[5] == t;
    } else if t[0] == 1 && t[1] == 4 {
      assert CUBLETS2[6] == t;
    } else if t[0] == 1 && t[1] == 5 {
      assert CUBLETS2[7] == t;
    } else if t[0] == 2 && t[1] == 4 {
      assert CUBLETS2[8] == t;
    } else if t[0] == 2 && t[1] == 5 {
      assert CUBLETS2[9] == t;
    } else if t[0] == 3 && t[1] == 4 {
      assert CUBLETS2[10] == t;
    } else if t[0] == 3 && t[1] == 5 {
      assert CUBLETS2[11] == t;
    } else {
      assert false;
    }
  }

  lemma {:induction false} Cublet3IsListed(t: seq<int>)
    requires IsCublet3(t)
    ensures t in CUBLETS3
  {
    assert t == [t[0], t[1], t[2]];
    if t[0] == 0 && t[1] == 2 && t[2] == 4 {
      assert CUBLETS3[0] == t;
    } else if t[0] == 0 && t[1] == 2 && t[2] == 5 {
      assert CUBLETS3[1] == t;
    } else if t[0] == 0 && t[1] == 3 && t[2] == 4 {
      assert CUBLETS3[2] == t;
    } else if t[0] == 0 && t[1] == 3 && t[2] == 5 {
      assert CUBLETS3[3] == t;
    } else if t[0] == 1 && t[1] == 2 && t[2] == 4 {
      assert CUBLETS3[4] == t;
    } else if t[0] == 1 && t[1] == 2 && t[2] == 5 {
      assert CUBLETS3[5] == t;
    } else if t[0] == 1 && t[1] == 3 && t[2] == 4 {
      assert CUBLETS3[6] == t;
    } else if t[0] == 1 && t[1] == 3 && t[2] == 5 {
      assert CUBLETS3[7] == t;
    } else {
      assert false;
    }
  }

  lemma {:induction false} Face2IsListed(t: seq<int>)
    requires IsFace2(t)
    ensures t in FACES2
  {
    assert t == [t[0], t[1]];
    if t[0] == 0 && t[1] == 2 {
      assert FACES2[0] == t;
    } else if t[0] == 0 && t[1] == 3 {
      assert FACES2[1] == t;
    } else if t[0] == 0 && t[1] == 4 {
      assert FACES2[2] == t;
    } else if t[0] == 0 && t[1] == 5 {
      assert FACES2[3] == t;
    } else if t[0] == 1 && t[1] == 2 {
      assert FACES2[4] == t;
    } else if t[0] == 1 && t[1] == 3 {
      assert FACES2[5] == t;
    } else if t[0] == 1 && t[1] == 4 {
      assert FACES2[6] == t;
    } else if t[0] == 1 && t[1] == 5 {
      assert FACES2[7] == t;
    } else if t[0] == 2 && t[1] == 0 {
      assert FACES2[8] == t;
    } else if t[0] == 2 && t[1] == 1 {
      assert FACES2[9] == t;
    } else if t[0] == 2 && t[1] == 4 {
      assert FACES2[10] == t;
    } else if t[0] == 2 && t[1] == 5 {
      assert FACES2[11] == t;
    } else if t[0] == 3 && t[1] == 0 {
      assert FACES2[12] == t;
    } else if t[0] == 3 && t[1] == 1 {
      assert FACES2[13] == t;
    } else if t[0] == 3 && t[1] == 4 {
      assert FACES2[14] == t;
    } else if t[0] == 3 && t[1] == 5 {
      assert FACES2[15] == t;
    } else if t[0] == 4 && t[1] == 0 {
      assert FACES2[16] == t;
    } else if t[0] == 4 && t[1] == 1 {
      assert FACES2[17] == t;
    } else if t[0] == 4 && t[1] == 2 {
      assert FACES2[18] == t;
    } else if t[0] == 4 && t[1] == 3 {
      assert FACES2[19] == t;
    } else if t[0] == 5 && t[1] == 0 {
      assert FACES2[20] == t;
    } else if t[0] == 5 && t[1] == 1 {
      assert FACES2[21] == t;
    } else if t[0] == 5 && t[1] == 2 {
      assert FACES2[22] == t;
    } else if t[0] == 5 && t[1] == 3 {
      assert FACES2[23] == t;
    } else {
      assert false;
    }
  }

  lemma {:induction false} Face3IsListed(t: seq<int>)
    requires IsFace3(t)
    ensures t in FACES3
  {
    assert t == [t[0], t[1], t[2]];
    if t[0] == 0 && t[1] == 2 && t[2] == 4 {
      assert FACES3[0] == t;
    } else if t[0] == 0 && t[1] == 2 && t[2] == 5 {
      assert FACES3[1] == t;
    } else if t[0] == 0 && t[1] == 3 && t[2] == 4 {
      assert FACES3[2] == t;
    } else if t[0] == 0 && t[1] == 3 && t[2] == 5 {
      assert FACES3[3] == t;
    } else if t[0] == 1 && t[1] == 2 && t[2] == 4 {
      assert FACES3[4] == t;
    } else if t[0] == 1 && t[1] == 2 && t[2] == 5 {
      assert FACES3[5] == t;
    } else if t[0] == 1 && t[1] == 3 && t[2] == 4 {
      assert FACES3[6] == t;
    } else if t[0] == 1 && t[1] == 3 && t[2] == 5 {
      assert FACES3[7] == t;
    } else if t[0] == 2 && t[1] == 0 && t[2] == 4 {
      assert FACES3[8] == t;
    } else if t[0] == 2 && t[1] == 0 && t[2] == 5 {
      assert FACES3[9] == t;
    } else if t[0] == 2 && t[1] == 1 && t[2] == 4 {
      assert FACES3[10] == t;
    } else if t[0] == 2 && t[1] == 1 && t[2] == 5 {
      assert FACES3[11] == t;
    } else if t[0] == 3 && t[1] == 0 && t[2] == 4 {
      assert FACES3[12] == t;
    } else if t[0] == 3 && t[1] == 0 && t[2] == 5 {
      assert FACES3[13] == t;
    } else if t[0] == 3 && t[1] == 1 && t[2] == 4 {
      assert FACES3[14] == t;
    } else if t[0] == 3 && t[1] == 1 && t[2] == 5 {
      assert FACES3[15] == t;
    } else if t[0] == 4 && t[1] == 0 && t[2] == 2 {
      assert FACES3[16] == t;
    } else if t[0] == 4 && t[1] == 0 && t[2] == 3 {
      assert FACES3[17] == t;
    } else if t[0] == 4 && t[1] == 1 && t[2] == 2 {
      assert FACES3[18] == t;
    } else if t[0] == 4 && t[1] == 1 && t[2] == 3 {
      assert FACES3[19] == t;
    } else if t[0] == 5 && t[1] == 0 && t[2] == 2 {
      assert FACES3[20] == t;
    } else if t[0] == 5 && t[1] == 0 && t[2] == 3 {
      assert FACES3[21] == t;
    } else if t[0] == 5 && t[1] == 1 && t[2] == 2 {
      assert FACES3[22] == t;
    } else if t[0] == 5 && t[1] == 1 && t[2] == 3 {
      assert FACES3[23] == t;
    } else {
      assert false;
    }
  }

  lemma {:induction false} Cublets2Increase(j: int)
    requires 0 <= j < |CUBLETS2| - 1
    ensures Code(CUBLETS2[j]) < Code(CUBLETS2[j + 1])
  {
    if j < 5 {
      if j < 2 {
        if j < 1 {
          assert CUBLETS2[0] == [0, 2] && CUBLETS2[1] == [0, 3];
        } else {
          assert CUBLETS2[1] == [0, 3] && CUBLETS2[2] == [0, 4];
        }
      } else {
        if j < 3 {
          assert CUBLETS2[2] == [0, 4] && CUBLETS2[3] == [0, 5];
        } else {
          if j < 4 {
            assert CUBLETS2[3] == [0, 5] && CUBLETS2[4] == [1, 2];
          } else {
            assert CUBLETS2[4] == [1, 2] && CUBLETS2[5] == [1, 3];
          }
        }
      }
    } else {
      if j < 8 {
        if j < 6 {
          assert CUBLETS2[5] == [1, 3] && CUBLETS2[6] == [1, 4];
        } else {
          if j < 7 {
            assert CUBLETS2[6] == [1, 4] && CUBLETS2[7] == [1, 5];
          } else {
            assert CUBLETS2[7] == [1, 5] && CUBLETS2[8] == [2, 4];
          }
        }
      } else {
        if j < 9 {
          assert CUBLETS2[8] == [2, 4] && CUBLETS2[9] == [2, 5];
        } else {
          if j < 10 {
            assert CUBLETS2[9] == [2, 5] && CUBLETS2[10] == [3, 4];
          } else {
            assert CUBLETS2[10] == [3, 4] && CUBLETS2[11] == [3, 5];
          }
        }
      }
    }
  }

  lemma {:induction false} Cublets3Increase(j: int)
    requires 0 <= j < |CUBLETS3| - 1
    ensures Code(CUBLETS3[j]) < Code(CUBLETS3[j + 1])
  {
    if j < 3 {
      if j < 1 {
        assert CUBLETS3[0] == [0, 2, 4] && CUBLETS3[1] == [0, 2, 5];
      } else {
        if j < 2 {
          assert CUBLETS3[1] == [0, 2, 5] && CUBLETS3[2] == [0, 3, 4];
        } else {
          assert CUBLETS3[2] == [0, 3, 4] && CUBLETS3[3] == [0, 3, 5];
        }
      }
    } else {
      if j < 5 {
        if j < 4 {
          assert CUBLETS3[3] == [0, 3, 5] && CUBLETS3[4] == [1, 2, 4];
        } else {
          assert CUBLETS3[4] == [1, 2, 4] && CUBLETS3[5] == [1, 2, 5];
        }
      } else {
        if j < 6 {
          assert CUBLETS3[5] == [1, 2, 5] && CUBLETS3[6] == [1, 3, 4];
        } else {
          assert CUBLETS3[6] == [1, 3, 4] && CUBLETS3[7] == [1, 3, 5];
        }
      }
    }
  }

  lemma {:induction false} Faces2Increase(j: int)
    requires 0 <= j < |FACES2| - 1
    ensures Code(FACES2[j]) < Code(FACES2[j + 1])
  {
    if j < 11 {
      if j < 5 {
        if j < 2 {
          if j < 1 {
            assert FACES2[0] == [0, 2] && FACES2[1] == [0, 3];
          } else {
            assert FACES2[1] == [0, 3] && FACES2[2] == [0, 4];
          }
        } else {
          if j < 3 {
            assert FACES2[2] == [0, 4] && FACES2[3] == [0, 5];
          } else {
            if j < 4 {
              assert FACES2[3] == [0, 5] && FACES2[4] == [1, 2];
            } else {
              assert FACES2[4] == [1, 2] && FACES2[5] == [1, 3];
            }
          }
        }
      } else {
        if j < 8 {
          if j < 6 {
            assert FACES2[5] == [1, 3] && FACES2[6] == [1, 4];
          } else {
            if j < 7 {
              assert FACES2[6] == [1, 4] && FACES2[7] == [1, 5];
            } else {
              assert FACES2[7] == [1, 5] && FACES2[8] == [2, 0];
            }
          }
        } else {
          if j < 9 {
            assert FACES2[8] == [2, 0] && FACES2[9] == [2, 1];
          } else {
            if j < 10 {
              assert FACES2[9] == [2, 1] && FACES2[10] == [2, 4];
            } else {
              assert FACES2[10] == [2, 4] && FACES2[11] == [2, 5];
            }
          }
        }
      }
    } else {
      if j < 17 {
        if j < 14 {
          if j < 12 {
            assert FACES2[11] == [2, 5] && FACES2[12] == [3, 0];
          } else {
            if j < 13 {
              assert FACES2[12] == [3, 0] && FACES2[13] == [3, 1];
            } else {
              assert FACES2[13] == [3, 1] && FACES2[14] == [3, 4];
            }
          }
        } else {
          if j < 15 {
            assert FACES2[14] == [3, 4] && FACES2[15] == [3, 5];
          } else {
            if j < 16 {
              assert FACES2[15] == [3, 5] && FACES2[16] == [4, 0];
            } else {
              assert FACES2[16] == [4, 0] && FACES2[17] == [4, 1];
            }
          }
        }
      } else {
        if j < 20 {
          if j < 18 {
            assert FACES2[17] == [4, 1] && FACES2[18] == [4, 2];
          } else {
            if j < 19 {
              assert FACES2[18] == [4, 2] && FACES2[19] == [4, 3];
            } else {
              assert FACES2[19] == [4, 3] && FACES2[20] == [5, 0];
            }
          }
        } else {
          if j < 21 {
            assert FACES2[20] == [5, 0] && FACES2[21] == [5, 1];
          } else {
            if j < 22 {
              assert FACES2[21] == [5, 1] && FACES2[22] == [5, 2];
            } else {
              assert FACES2[22] == [5, 2] && FACES2[23] == [5, 3];
            }
          }
        }
      }
    }
  }

  lemma {:induction false} Faces3Increase(j: int)
    requires 0 <= j < |FACES3| - 1
    ensures Code(FACES3[j]) < Code(FACES3[j + 1])
  {
    if j < 11 {
      if j < 5 {
        if j < 2 {
          if j < 1 {
            assert FACES3[0] == [0, 2, 4] && FACES3[1] == [0, 2, 5];
          } else {
            assert FACES3[1] == [0, 2, 5] && FACES3[2] == [0, 3, 4];
          }
        } else {
          if j < 3 {
            assert FACES3[2] == [0, 3, 4] && FACES3[3] == [0, 3, 5];
          } else {
            if j < 4 {
              assert FACES3[3] == [0, 3, 5] && FACES3[4] == [1, 2, 4];
            } else {
              assert FACES3[4] == [1, 2, 4] && FACES3[5] == [1, 2, 5];
            }
          }
        }
      } else {
        if j < 8 {
          if j < 6 {
            assert FACES3[5] == [1, 2, 5] && FACES3[6] == [1, 3, 4];
          } else {
            if j < 7 {
              assert FACES3[6] == [1, 3, 4] && FACES3[7] == [1, 3, 5];
            } else {
              assert FACES3[7] == [1, 3, 5] && FACES3[8] == [2, 0, 4];
            }
          }
        } else {
          if j < 9 {
            assert FACES3[8] == [2, 0, 4] && FACES3[9] == [2, 0, 5];
          } else {
            if j < 10 {
              assert FACES3[9] == [2, 0, 5] && FACES3[10] == [2, 1, 4];
            } else {
              assert FACES3[10] == [2, 1, 4] && FACES3[11] == [2, 1, 5];
            }
          }
        }
      }
    } else {
      if j < 17 {
        if j < 14 {
          if j < 12 {
            assert FACES3[11] == [2, 1, 5] && FACES3[12] == [3, 0, 4];
          } else {
            if j < 13 {
              assert FACES3[12] == [3, 0, 4] && FACES3[13] == [3, 0, 5];
            } else {
              assert FACES3[13] == [3, 0, 5] && FACES3[14] == [3, 1, 4];
            }
          }
        } else {
          if j < 15 {
            assert FACES3[14] == [3, 1, 4] && FACES3[15] == [3, 1, 5];
          } else {
            if j < 16 {
              assert FACES3[15] == [3, 1, 5] && FACES3[16] == [4, 0, 2];
            } else {
              assert FACES3[16] == [4, 0, 2] && FACES3[17] == [4, 0, 3];
            }
          }
        }
      } else {
        if j < 20 {
          if j < 18 {
            assert FACES3[17] == [4, 0, 3] && FACES3[18] == [4, 1, 2];
          } else {
            if j < 19 {
              assert FACES3[18] == [4, 1, 2] && FACES3[19] == [4, 1, 3];
            } else {
              assert FACES3[19] == [4, 1, 3] && FACES3[20] == [5, 0, 2];
            }
          }
        } else {
          if j < 21 {
            assert FACES3[20] == [5, 0, 2] && FACES3[21] == [5, 0, 3];
          } else {
            if j < 22 {
              assert FACES3[21] == [5, 0, 3] && FACES3[22] == [5, 1, 2];
            } else {
              assert FACES3[22] == [5, 1, 2] && FACES3[23] == [5, 1, 3];
            }
          }
        }
      }
    }
  }

  /** Each row of CUBLETS2 is an increasing adjacent pair. */
  lemma {:induction false} Cublets2Row(j: int)
    requires 0 <= j < |CUBLETS2|
    ensures IsCublet2(CUBLETS2[j])
  {
    if j < 6 {
      if j < 3 {
        if j < 1 {
          assert CUBLETS2[0] == [0, 2];
        } else {
          if j < 2 {
            assert CUBLETS2[1] == [0, 3];
          } else {
            assert CUBLETS2[2] == [0, 4];
          }
        }
      } else {
        if j < 4 {
          assert CUBLETS2[3] == [0, 5];
        } else {
          if j < 5 {
            assert CUBLETS2[4] == [1, 2];
          } else {
            assert CUBLETS2[5] == [1, 3];
          }
        }
      }
    } else {
      if j < 9 {
        if j < 7 {
          assert CUBLETS2[6] == [1, 4];
        } else {
          if j < 8 {
            assert CUBLETS2[7] == [1, 5];
          } else {
            assert CUBLETS2[8] == [2, 4];
          }
        }
      } else {
        if j < 10 {
          assert CUBLETS2[9] == [2, 5];
        } else {
          if j < 11 {
            assert CUBLETS2[10] == [3, 4];
          } else {
            assert CUBLETS2[11] == [3, 5];
          }
        }
      }
    }
  }

  /** Each row of CUBLETS3 is an increasing, pairwise adjacent triple. */
  lemma {:induction false} Cublets3Row(j: int)
    requires 0 <= j < |CUBLETS3|
    ensures IsCublet3(CUBLETS3[j])
  {
    if j < 4 {
      if j < 2 {
        if j < 1 {
          assert CUBLETS3[0] == [0, 2, 4];
        } else {
          assert CUBLETS3[1] == [0, 2, 5];
        }
      } else {
        if j < 3 {
          assert CUBLETS3[2] == [0, 3, 4];
        } else {
          assert CUBLETS3[3] == [0, 3, 5];
        }
      }
    } else {
      if j < 6 {
        if j < 5 {
          assert CUBLETS3[4] == [1, 2, 4];
        } else {
          assert CUBLETS3[5] == [1, 2, 5];
        }
      } else {
        if j < 7 {
          assert CUBLETS3[6] == [1, 3, 4];
        } else {
          assert CUBLETS3[7] == [1, 3, 5];
        }
      }
    }
  }

  /** Each row of FACES2 is an ordered adjacent pair. */
  lemma {:induction false} Faces2Row(j: int)
    requires 0 <= j < |FACES2|
    ensures IsFace2(FACES2[j])
  {
    if j < 12 {
      if j < 6 {
        if j < 3 {
          if j < 1 {
            assert FACES2[0] == [0, 2];
          } else {
            if j < 2 {
              assert FACES2[1] == [0, 3];
            } else {
              assert FACES2[2] == [0, 4];
            }
          }
        } else {
          if j < 4 {
            assert FACES2[3] == [0, 5];
          } else {
            if j < 5 {
              assert FACES2[4] == [1, 2];
            } else {
              assert FACES2[5] == [1, 3];
            }
          }
        }
      } else {
        if j < 9 {
          if j < 7 {
            assert FACES2[6] == [1, 4];
          } else {
            if j < 8 {
              assert FACES2[7] == [1, 5];
            } else {
              assert FACES2[8] == [2, 0];
            }
          }
        } else {
          if j < 10 {
            assert FACES2[9] == [2, 1];
          } else {
            if j < 11 {
              assert FACES2[10] == [2, 4];
            } else {
              assert FACES2[11] == [2, 5];
            }
          }
        }
      }
    } else {
      if j < 18 {
        if j < 15 {
          if j < 13 {
            assert FACES2[12] == [3, 0];
          } else {
            if j < 14 {
              assert FACES2[13] == [3, 1];
            } else {
              assert FACES2[14] == [3, 4];
            }
          }
        } else {
          if j < 16 {
            assert FACES2[15] == [3, 5];
          } else {
            if j < 17 {
              assert FACES2[16] == [4, 0];
            } else {
              assert FACES2[17] == [4, 1];
            }
          }
        }
      } else {
        if j < 21 {
          if j < 19 {
            assert FACES2[18] == [4, 2];
          } else {
            if j < 20 {
              assert FACES2[19] == [4, 3];
            } else {
              assert FACES2[20] == [5, 0];
            }
          }
        } else {
          if j < 22 {
            assert FACES2[21] == [5, 1];
          } else {
            if j < 23 {
              assert FACES2[22] == [5, 2];
            } else {
              assert FACES2[23] == [5, 3];
            }
          }
        }
      }
    }
  }

  /** Each row of FACES3 is a face and two faces adjacent to it and to each
      other, the last two increasing. */
  lemma {:induction false} Faces3Row(j: int)
    requires 0 <= j < |FACES3|
    ensures IsFace3(FACES3[j])
  {
    if j < 12 {
      if j < 6 {
        if j < 3 {
          if j < 1 {
            assert FACES3[0] == [0, 2, 4];
          } else {
            if j < 2 {
              assert FACES3[1] == [0, 2, 5];
            } else {
              assert FACES3[2] == [0, 3, 4];
            }
          }
        } else {
          if j < 4 {
            assert FACES3[3] == [0, 3, 5];
          } else {
            if j < 5 {
              assert FACES3[4] == [1, 2, 4];
            } else {
              assert FACES3[5] == [1, 2, 5];
            }
          }
        }
      } else {
        if j < 9 {
          if j < 7 {
            assert FACES3[6] == [1, 3, 4];
          } else {
            if j < 8 {
              assert FACES3[7] == [1, 3, 5];
            } else {
              assert FACES3[8] == [2, 0, 4];
            }
          }
        } else {
          if j < 10 {
            assert FACES3[9] == [2, 0, 5];
          } else {
            if j < 11 {
              assert FACES3[10] == [2, 1, 4];
            } else {
              assert FACES3[11] == [2, 1, 5];
            }
          }
        }
      }
    } else {
      if j < 18 {
        if j < 15 {
          if j < 13 {
            assert FACES3[12] == [3, 0, 4];
          } else {
            if j < 14 {
              assert FACES3[13] == [3, 0, 5];
            } else {
              assert FACES3[14] == [3, 1, 4];
            }
          }
        } else {
          if j < 16 {
            assert FACES3[15] == [3, 1, 5];
          } else {
            if j < 17 {
              assert FACES3[16] == [4, 0, 2];
            } else {
              assert FACES3[17] == [4, 0, 3];
            }
          }
        }
      } else {
        if j < 21 {
          if j < 19 {
            assert FACES3[18] == [4, 1, 2];
          } else {
            if j < 20 {
              assert FACES3[19] == [4, 1, 3];
            } else {
              assert FACES3[20] == [5, 0, 2];
            }
          }
        } else {
          if j < 22 {
            assert FACES3[21] == [5, 0, 3];
          } else {
            if j < 23 {
              assert FACES3[22] == [5, 1, 2];
            } else {
              assert FACES3[23] == [5, 1, 3];
            }
          }
        }
      }
    }
  }

  /** The four lists are in increasing order, so no row is listed twice. */
  lemma {:induction false} TablesIncrease()
    ensures Increasing(CUBLETS2) && Increasing(CUBLETS3) && Increasing(FACES2) && Increasing(FACES3)
  {
    forall j | 0 <= j < |CUBLETS2| - 1
      ensures Code(CUBLETS2[j]) < Code(CUBLETS2[j + 1])
    {
      Cublets2Increase(j);
    }
    forall j | 0 <= j < |CUBLETS3| - 1
      ensures Code(CUBLETS3[j]) < Code(CUBLETS3[j + 1])
    {
      Cublets3Increase(j);
    }
    forall j | 0 <= j < |FACES2| - 1
      ensures Code(FACES2[j]) < Code(FACES2[j + 1])
    {
      Faces2Increase(j);
    }
    forall j | 0 <= j < |FACES3| - 1
      ensures Code(FACES3[j]) < Code(FACES3[j + 1])
    {
      Faces3Increase(j);
    }
  }

  // ---------------------------------------------------------------------
  // The id functions

  /** The search loop of the id functions, from position i on. */
  function FirstIndexFrom(table: seq<seq<int>>, key: seq<int>, i: nat): int
    requires i <= |table|
    decreases |table| - i
  {
    if i == |table| then -1 else if table[i] == key then i else FirstIndexFrom(table, key, i + 1)
  }

  /** The search from i on finds the first matching row at or after i, and
      gives -1 exactly when there is none. */
  lemma {:induction false} FirstIndexFromMeans(table: seq<seq<int>>, key: seq<int>, i: nat)
    requires i <= |table|
    ensures var r := FirstIndexFrom(table, key, i);
      (r == -1 <==> forall j :: i <= j < |table| ==> table[j] != key) &&
      (r != -1 ==> i <= r < |table| && table[r] == key && forall j :: i <= j < r ==> table[j] != key)
    decreases |table| - i
  {
    if i < |table| {
      FirstIndexFromMeans(table, key, i + 1);
    }
  }

  /** The position of the first row equal to `key`, or -1 when no row is. */
  function FirstIndex(table: seq<seq<int>>, key: seq<int>): (r: int)
    ensures -1 <= r < |table|
    ensures r >= 0 ==> table[r] == key && forall j :: 0 <= j < r ==> table[j] != key
    ensures r == -1 <==> key !in table
  {
    FirstIndexFromMeans(table, key, 0);
    FirstIndexFrom(table, key, 0)
  }

  /** In a list without repeated rows, a row is found at its own position. */
  lemma {:induction false} FirstIndexOfRow(table: seq<seq<int>>, j: int)
    requires Increasing(table) && 0 <= j < |table|
    ensures FirstIndex(table, table[j]) == j
  {
    IncreasingIsDistinct(table);
  }

  /** The loop the four id functions share: the index of the first row
      that matches the key entry by entry, or -1. */
  method Lookup(table: seq<seq<int>>, key: seq<int>) returns (id: int)
    ensures id == FirstIndex(table, key)
  {
    for i := 0 to |table|
      invariant forall j :: 0 <= j < i ==> table[j] != key
    {
      if table[i] == key {
        return i;
      }
    }
    return -1;
  }

  /** r holds a, b in some order. */
  predicate IsReordering2(r: seq<int>, a: int, b: int) {
    r == [a, b] || r == [b, a]
  }

  /** r holds a, b, c in some order. */
  predicate IsReordering3(r: seq<int>, a: int, b: int, c: int) {
    r == [a, b, c] || r == [a, c, b] || r == [b, a, c] || r == [b, c, a] || r == [c, a, b] || r == [c, b, a]
  }

  /** `sorted` on two numbers. */
  function SortTwo(a: int, b: int): (r: seq<int>)
    ensures |r| == 2 && r[0] <= r[1] && IsReordering2(r, a, b)
  {
    if a <= b then [a, b] else [b, a]
  }

  /** `sorted` on three numbers. */
  function SortThree(a: int, b: int, c: int): (r: seq<int>)
    ensures |r| == 3 && r[0] <= r[1] <= r[2] && IsReordering3(r, a, b, c)
  {
    if a <= b then
      if b <= c then [a, b, c] else if a <= c then [a, c, b] else [c, a, b]
    else
      if a <= c then [b, a, c] else if b <= c then [b, c, a] else [c, b, a]
  }

  /** The id `cublet2Id` gives the colours c1, c2. */
  function Cublet2IdOf(c1: int, c2: int): int {
    FirstIndex(CUBLETS2, SortTwo(c1, c2))
  }

  /** The id `cublet3Id` gives the colours c1, c2, c3. */
  function Cublet3IdOf(c1: int, c2: int, c3: int): int {
    FirstIndex(CUBLETS3, SortThree(c1, c2, c3))
  }

  /** The id `face2Id` gives the faces f1, f2, in that order. */
  function Face2IdOf(f1: int, f2: int): int {
    FirstIndex(FACES2, [f1, f2])
  }

  /** The id `face3Id` gives the faces f1, f2, f3: the last two are put in
      increasing order first. */
  function Face3IdOf(f1: int, f2: int, f3: int): int {
    FirstIndex(FACES3, if f2 > f3 then [f1, f3, f2] else [f1, f2, f3])
  }

  /** `cublet2Id`: sort the two colours, then search `cublets2`. */
  method Cublet2Id(color1: int, color2: int) returns (id: int)
    ensures id == Cublet2IdOf(color1, color2)
  {
    var sorted := SortTwo(color1, color2);
    id := Lookup(CUBLETS2, sorted);
  }

  /** `cublet3Id`: sort the three colours, then search `cublets3`. */
  method Cublet3Id(color1: int, color2: int, color3: int) returns (id: int)
    ensures id == Cublet3IdOf(color1, color2, color3)
  {
    var sorted := SortThree(color1, color2, color3);
    id := Lookup(CUBLETS3, sorted);
  }

  /** `face2Id`: search `faces2` for the pair as given. */
  method Face2Id(face1: int, face2: int) returns (id: int)
    ensures id == Face2IdOf(face1, face2)
  {
    id := Lookup(FACES2, [face1, face2]);
  }

  /** `face3Id`: swap the last two faces when they are out of order, then
      search `faces3`. */
  method Face3Id(face1: int, face2: int, face3: int) returns (id: int)
    ensures id == Face3IdOf(face1, face2, face3)
  {
    var second, third := face2, face3;
    if second > third {
      second, third := third, second;
    }
    id := Lookup(FACES3, [face1, second, third]);
  }

  // ---------------------------------------------------------------------
  // What the ids mean

  /** `cublet2Id` gives -1 for two colours that are not on one edge piece,
      and otherwise the row holding the two colours, in either order. */
  lemma {:induction false} Cublet2IdMeans(c1: int, c2: int)
    ensures var id := Cublet2IdOf(c1, c2);
      -1 <= id < 12 && (id >= 0 <==> Adjacent(c1, c2)) &&
      (id >= 0 ==> IsReordering2(CUBLETS2[id], c1, c2))
    ensures Cublet2IdOf(c1, c2) == Cublet2IdOf(c2, c1)
  {
    PyShareEdgeIsShareEdge(c1, c2);
    var key := SortTwo(c1, c2);
    var id := Cublet2IdOf(c1, c2);
    if Adjacent(c1, c2) {
      assert IsCublet2(key);
      Cublet2IsListed(key);
    }
    if id >= 0 {
      Cublets2Row(id);
    }
  }

  /** `cublet3Id` gives -1 for three colours that are not on one corner,
      and otherwise the row holding the three colours, in any order. */
  lemma {:induction false} Cublet3IdMeans(c1: int, c2: int, c3: int)
    ensures var id := Cublet3IdOf(c1, c2, c3);
      -1 <= id < 8 && (id >= 0 <==> Adjacent(c1, c2) && Adjacent(c2, c3) && Adjacent(c1, c3)) &&
      (id >= 0 ==> IsReordering3(CUBLETS3[id], c1, c2, c3))
    ensures Cublet3IdOf(c1, c2, c3) == Cublet3IdOf(c2, c1, c3) == Cublet3IdOf(c1, c3, c2)
  {
    PyShareEdgeIsShareEdge(c1, c2);
    PyShareEdgeIsShareEdge(c2, c3);
    PyShareEdgeIsShareEdge(c1, c3);
    var key := SortThree(c1, c2, c3);
    var id := Cublet3IdOf(c1, c2, c3);
    if Adjacent(c1, c2) && Adjacent(c2, c3) && Adjacent(c1, c3) {
      assert IsCublet3(key);
      Cublet3IsListed(key);
    }
    if id >= 0 {
      Cublets3Row(id);
    }
  }

  /** `face2Id` gives -1 for two faces that do not share an edge, and
      otherwise the row holding the pair in the order given, so the two
      orders of a pair get different ids. */
  lemma {:induction false} Face2IdMeans(f1: int, f2: int)
    ensures var id := Face2IdOf(f1, f2);
      -1 <= id < 24 && (id >= 0 <==> Adjacent(f1, f2)) && (id >= 0 ==> FACES2[id] == [f1, f2])
    ensures Adjacent(f1, f2) ==> Face2IdOf(f1, f2) != Face2IdOf(f2, f1)
  {
    PyShareEdgeIsShareEdge(f1, f2);
    var id := Face2IdOf(f1, f2);
    if Adjacent(f1, f2) {
      Face2IsListed([f1, f2]);
    }
    if id >= 0 {
      Faces2Row(id);
    }
  }

  /** `face3Id` gives -1 for three faces that do not meet at a corner, and
      otherwise the row starting with f1 and holding f2, f3 in either
      order; the first face is not interchangeable with the others. */
  lemma {:induction false} Face3IdMeans(f1: int, f2: int, f3: int)
    ensures var id := Face3IdOf(f1, f2, f3);
      -1 <= id < 24 && (id >= 0 <==> Adjacent(f1, f2) && Adjacent(f2, f3) && Adjacent(f1, f3)) &&
      (id >= 0 ==> FACES3[id][0] == f1 && IsReordering2(FACES3[id][1..], f2, f3))
    ensures Face3IdOf(f1, f2, f3) == Face3IdOf(f1, f3, f2)
  {
    PyShareEdgeIsShareEdge(f1, f2);
    PyShareEdgeIsShareEdge(f2, f3);
    PyShareEdgeIsShareEdge(f1, f3);
    var key := if f2 > f3 then [f1, f3, f2] else [f1, f2, f3];
    var id := Face3IdOf(f1, f2, f3);
    if Adjacent(f1, f2) && Adjacent(f2, f3) && Adjacent(f1, f3) {
      assert IsFace3(key);
      Face3IsListed(key);
    }
    if id >= 0 {
      Faces3Row(id);
      assert FACES3[id][1..] == [key[1], key[2]];
    }
  }

  /** Swapping the first face with another changes the id of three faces
      that meet at a corner. */
  lemma {:induction false} Face3IdKeepsFirstFace(f1: int, f2: int, f3: int)
    requires Adjacent(f1, f2) && Adjacent(f2, f3) && Adjacent(f1, f3)
    ensures Face3IdOf(f1, f2, f3) != Face3IdOf(f2, f1, f3)
  {
    PyShareEdgeIsShareEdge(f1, f2);
    PyShareEdgeIsShareEdge(f1, f3);
    Face3IdMeans(f1, f2, f3);
    Face3IdMeans(f2, f1, f3);
  }

  /** Each row of CUBLETS2 gets its own position as id. */
  lemma {:induction false} Cublet2RowHasItsId(j: int)
    requires 0 <= j < |CUBLETS2|
    ensures Cublet2IdOf(CUBLETS2[j][0], CUBLETS2[j][1]) == j
  {
    Cublets2Row(j);
    TablesIncrease();
    assert SortTwo(CUBLETS2[j][0], CUBLETS2[j][1]) == CUBLETS2[j];
    FirstIndexOfRow(CUBLETS2, j);
  }

  /** Each row of CUBLETS3 gets its own position as id. */
  lemma {:induction false} Cublet3RowHasItsId(j: int)
    requires 0 <= j < |CUBLETS3|
    ensures Cublet3IdOf(CUBLETS3[j][0], CUBLETS3[j][1], CUBLETS3[j][2]) == j
  {
    Cublets3Row(j);
    TablesIncrease();
    assert SortThree(CUBLETS3[j][0], CUBLETS3[j][1], CUBLETS3[j][2]) == CUBLETS3[j];
    FirstIndexOfRow(CUBLETS3, j);
  }

  /** Each row of FACES2 gets its own position as id. */
  lemma {:induction false} Face2RowHasItsId(j: int)
    requires 0 <= j < |FACES2|
    ensures Face2IdOf(FACES2[j][0], FACES2[j][1]) == j
  {
    Faces2Row(j);
    TablesIncrease();
    assert [FACES2[j][0], FACES2[j][1]] == FACES2[j];
    FirstIndexOfRow(FACES2, j);
  }

  /** Each row of FACES3 gets its own position as id. */
  lemma {:induction false} Face3RowHasItsId(j: int)
    requires 0 <= j < |FACES3|
    ensures Face3IdOf(FACES3[j][0], FACES3[j][1], FACES3[j][2]) == j
  {
    Faces3Row(j);
    TablesIncrease();
    assert [FACES3[j][0], FACES3[j][1], FACES3[j][2]] == FACES3[j];
    FirstIndexOfRow(FACES3, j);
  }

  /** The Python numbering agrees with the C++ one: the colours of the
      solved corner at index j of the solved cube get id j. */
  lemma {:induction false} SolvedCornerHasItsId(j: int)
    requires 0 <= j < |SOLVED_CORNERS|
    ensures |SOLVED_CORNERS[j].edges| == 3
    ensures Cublet3IdOf(SOLVED_CORNERS[j].edges[0].color, SOLVED_CORNERS[j].edges[1].color,
                        SOLVED_CORNERS[j].edges[2].color) == j
  {
    if j < 4 {
      if j < 2 {
        if j < 1 {
          assert SOLVED_CORNERS[0] == Cublet([Edge(0, 0), Edge(2, 2), Edge(4, 4)]);
        } else {
          assert SOLVED_CORNERS[1] == Cublet([Edge(0, 0), Edge(2, 2), Edge(5, 5)]);
        }
      } else {
        if j < 3 {
          assert SOLVED_CORNERS[2] == Cublet([Edge(0, 0), Edge(3, 3), Edge(4, 4)]);
        } else {
          assert SOLVED_CORNERS[3] == Cublet([Edge(0, 0), Edge(3, 3), Edge(5, 5)]);
        }
      }
    } else {
      if j < 6 {
        if j < 5 {
          assert SOLVED_CORNERS[4] == Cublet([Edge(1, 1), Edge(2, 2), Edge(4, 4)]);
        } else {
          assert SOLVED_CORNERS[5] == Cublet([Edge(1, 1), Edge(2, 2), Edge(5, 5)]);
        }
      } else {
        if j < 7 {
          assert SOLVED_CORNERS[6] == Cublet([Edge(1, 1), Edge(3, 3), Edge(4, 4)]);
        } else {
          assert SOLVED_CORNERS[7] == Cublet([Edge(1, 1), Edge(3, 3), Edge(5, 5)]);
        }
      }
    }
    Cublet3RowHasItsId(j);
  }

  /** The colours of the solved edge piece at index j get id j. */
  lemma {:induction false} SolvedMiddleHasItsId(j: int)
    requires 0 <= j < |SOLVED_MIDDLES|
    ensures |SOLVED_MIDDLES[j].edges| == 2
    ensures Cublet2IdOf(SOLVED_MIDDLES[j].edges[0].color, SOLVED_MIDDLES[j].edges[1].color) == j
  {
    if j < 6 {
      if j < 3 {
        if j < 1 {
          assert SOLVED_MIDDLES[0] == Cublet([Edge(0, 0), Edge(2, 2)]);
        } else {
          if j < 2 {
            assert SOLVED_MIDDLES[1] == Cublet([Edge(0, 0), Edge(3, 3)]);
          } else {
            assert SOLVED_MIDDLES[2] == Cublet([Edge(0, 0), Edge(4, 4)]);
          }
        }
      } else {
        if j < 4 {
          assert SOLVED_MIDDLES[3] == Cublet([Edge(0, 0), Edge(5, 5)]);
        } else {
          if j < 5 {
            assert SOLVED_MIDDLES[4] == Cublet([Edge(1, 1), Edge(2, 2)]);
          } else {
            assert SOLVED_MIDDLES[5] == Cublet([Edge(1, 1), Edge(3, 3)]);
          }
        }
      }
    } else {
      if j < 9 {
        if j < 7 {
          assert SOLVED_MIDDLES[6] == Cublet([Edge(1, 1), Edge(4, 4)]);
        } else {
          if j < 8 {
            assert SOLVED_MIDDLES[7] == Cublet([Edge(1, 1), Edge(5, 5)]);
          } else {
            assert SOLVED_MIDDLES[8] == Cublet([Edge(2, 2), Edge(4, 4)]);
          }
        }
      } else {
        if j < 10 {
          assert SOLVED_MIDDLES[9] == Cublet([Edge(2, 2), Edge(5, 5)]);
        } else {
          if j < 11 {
            assert SOLVED_MIDDLES[10] == Cublet([Edge(3, 3), Edge(4, 4)]);
          } else {
            assert SOLVED_MIDDLES[11] == Cublet([Edge(3, 3), Edge(5, 5)]);
          }
        }
      }
    }
    Cublet2RowHasItsId(j);
  }
}
