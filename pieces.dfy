/** Stickers, cublets, the turn of one cublet and the searches by face. */
module Pieces {
  import opened Geometry

  /** The `Edge` struct: one sticker, its colour and the face it is on. */
  datatype Edge = Edge(color: Color, face: Face)

  /** `Cublet<N>`: the N stickers of one piece. */
  datatype Cublet = Cublet(edges: seq<Edge>)

  /** A corner piece, `Cublet<3>`. */
  type Corner = c: Cublet | |c.edges| == 3
    witness Cublet([Edge(WHITE, FRONT), Edge(BLUE, LEFT), Edge(RED, TOP)])

  /** An edge ("middle") piece, `Cublet<2>`. */
  type Middle = c: Cublet | |c.edges| == 2
    witness Cublet([Edge(WHITE, FRONT), Edge(RED, TOP)])

  /** The loop of `isRotated` from sticker i on. */
  predicate IsRotatedFrom(c: Cublet, face: Face, i: nat)
    decreases |c.edges| - i
  {
    i < |c.edges| && (c.edges[i].face == face || IsRotatedFrom(c, face, i + 1))
  }

  /** The loop from sticker i on finds a sticker on `face` iff one exists. */
  lemma {:induction false} IsRotatedFromMeans(c: Cublet, face: Face, i: nat)
    ensures IsRotatedFrom(c, face, i) <==> exists k :: i <= k < |c.edges| && c.edges[k].face == face
    decreases |c.edges| - i
  {
    if i < |c.edges| {
      IsRotatedFromMeans(c, face, i + 1);
    }
  }

  /** `isRotated(cublet, face)`: some sticker of the cublet is on `face`. */
  predicate IsRotated(c: Cublet, face: Face)
    ensures IsRotated(c, face) <==> exists k :: 0 <= k < |c.edges| && c.edges[k].face == face
  {
    IsRotatedFromMeans(c, face, 0);
    IsRotatedFrom(c, face, 0)
  }

  /** Every sticker is on one of the six real faces. */
  predicate OnRealFaces(c: Cublet) {
    forall k :: 0 <= k < |c.edges| ==> IsFace(c.edges[k].face)
  }

  /** The invariant every cublet keeps: its stickers are on real faces,
      pairwise distinct and pairwise adjacent (never an opposite pair). */
  predicate WellFormed(c: Cublet) {
    && OnRealFaces(c)
    && forall i, j :: 0 <= i < j < |c.edges| ==>
         c.edges[i].face != c.edges[j].face && ShareEdge(c.edges[i].face, c.edges[j].face)
  }

  /** The colours of the stickers, in sticker order. */
  function Colors(c: Cublet): (r: seq<Color>)
    ensures |r| == |c.edges|
  {
    seq(|c.edges|, k requires 0 <= k < |c.edges| => c.edges[k].color)
  }

  /** The inner loop of `rotate`: every sticker's face goes through the row
      of the rotation table for `turned`. */
  function Relabel(turned: Face, c: Cublet): (r: Cublet)
    requires IsFace(turned) && OnRealFaces(c)
    ensures |r.edges| == |c.edges|
  {
    Cublet(seq(|c.edges|, k requires 0 <= k < |c.edges| =>
      Edge(c.edges[k].color, Rotated(turned, c.edges[k].face))))
  }

  /** What a quarter turn of `turned` does to one cublet: it is relabelled
      when it has a sticker on `turned` and left alone otherwise. Colours,
      sticker count and whether it touches `turned` never change. */
  function Turn(turned: Face, c: Cublet): (r: Cublet)
    requires IsFace(turned) && (IsRotated(c, turned) ==> OnRealFaces(c))
    ensures |r.edges| == |c.edges| && Colors(r) == Colors(c)
    ensures !IsRotated(c, turned) ==> r == c
    ensures IsRotated(c, turned) ==> forall k :: 0 <= k < |c.edges| ==>
      r.edges[k].face == Rotated(turned, c.edges[k].face)
    ensures IsRotated(r, turned) <==> IsRotated(c, turned)
  {
    if IsRotated(c, turned) then
      var k :| 0 <= k < |c.edges| && c.edges[k].face == turned;
      RotatedRow(turned, turned);
      var r := Relabel(turned, c);
      assert r.edges[k].face == turned;
      r
    else
      c
  }

  /** A quarter turn keeps a well-formed cublet well formed: a cublet with a
      sticker on the turned face has none on the opposite face, so the table
      never yields INVALID for it. */
  lemma {:induction false} TurnKeepsWellFormed(turned: Face, c: Cublet)
    requires IsFace(turned) && WellFormed(c)
    ensures WellFormed(Turn(turned, c))
  {
    if IsRotated(c, turned) {
      var r := Turn(turned, c);
      var k :| 0 <= k < |c.edges| && c.edges[k].face == turned;
      forall i | 0 <= i < |c.edges|
        ensures c.edges[i].face != Opposite(turned)
      {
        if i < k {
          assert ShareEdge(c.edges[i].face, c.edges[k].face);
        } else if k < i {
          assert ShareEdge(c.edges[k].face, c.edges[i].face);
        }
      }
      forall i | 0 <= i < |c.edges|
        ensures IsFace(r.edges[i].face)
      {
        RotatedKeepsAdjacency(turned, c.edges[i].face, c.edges[i].face);
      }
      forall i, j | 0 <= i < j < |c.edges|
        ensures r.edges[i].face != r.edges[j].face && ShareEdge(r.edges[i].face, r.edges[j].face)
      {
        RotatedKeepsAdjacency(turned, c.edges[i].face, c.edges[j].face);
      }
    }
  }

  /** n quarter turns of the same face, one after the other. */
  function Turns(turned: Face, c: Cublet, n: nat): (r: Cublet)
    requires IsFace(turned) && WellFormed(c)
    ensures WellFormed(r) && |r.edges| == |c.edges| && Colors(r) == Colors(c)
    decreases n
  {
    if n == 0 then c
    else
      TurnKeepsWellFormed(turned, c);
      Turns(turned, Turn(turned, c), n - 1)
  }

  /** One sticker of a cublet that a quarter turn relabels. */
  lemma TurnSticker(turned: Face, c: Cublet, i: nat)
    requires IsFace(turned) && OnRealFaces(c) && IsRotated(c, turned) && i < |c.edges|
    ensures Turn(turned, c).edges[i] == Edge(c.edges[i].color, Rotated(turned, c.edges[i].face))
  {
    assert Colors(Turn(turned, c))[i] == Colors(c)[i];
  }

  /** A sticker of a well-formed cublet that touches `turned` is on `turned`
      or on one of its side faces. */
  lemma StickerBesideTurned(turned: Face, c: Cublet, i: nat)
    requires IsFace(turned) && WellFormed(c) && IsRotated(c, turned) && i < |c.edges|
    ensures c.edges[i].face == turned || IsSide(turned, c.edges[i].face)
  {
    var k :| 0 <= k < |c.edges| && c.edges[k].face == turned;
    if i < k {
      assert ShareEdge(c.edges[i].face, c.edges[k].face);
    } else if k < i {
      assert ShareEdge(c.edges[k].face, c.edges[i].face);
    }
  }

  /** Four quarter turns of the same face give back a well-formed cublet
      exactly (the turned face is kept, the sides go round a 4-cycle). */
  lemma {:induction false} FourTurnsRestore(turned: Face, c: Cublet)
    requires IsFace(turned) && WellFormed(c)
    ensures Turns(turned, c, 4) == c
  {
    TurnKeepsWellFormed(turned, c);
    var c1 := Turn(turned, c);
    TurnKeepsWellFormed(turned, c1);
    var c2 := Turn(turned, c1);
    TurnKeepsWellFormed(turned, c2);
    var c3 := Turn(turned, c2);
    TurnKeepsWellFormed(turned, c3);
    var c4 := Turn(turned, c3);
    assert Turns(turned, c, 4) == c4 by {
      assert Turns(turned, c4, 0) == c4;
      assert Turns(turned, c3, 1) == c4;
      assert Turns(turned, c2, 2) == c4;
      assert Turns(turned, c1, 3) == c4;
    }
    if IsRotated(c, turned) {
      forall i | 0 <= i < |c.edges|
        ensures c4.edges[i] == c.edges[i]
      {
        TurnSticker(turned, c, i);
        TurnSticker(turned, c1, i);
        TurnSticker(turned, c2, i);
        TurnSticker(turned, c3, i);
        StickerBesideTurned(turned, c, i);
        if c.edges[i].face == turned {
          RotatedRow(turned, turned);
        } else {
          RotatedIsFourCycle(turned, c.edges[i].face);
        }
      }
      assert c4.edges == c.edges;
    }
  }

  /** A half turn sends every sticker on a side face of `turned` to the
      opposite face and keeps the stickers on `turned` where they are. */
  lemma {:induction false} HalfTurnSwapsOppositeSides(turned: Face, c: Cublet, k: nat)
    requires IsFace(turned) && WellFormed(c) && IsRotated(c, turned) && k < |c.edges|
    ensures Turns(turned, c, 2).edges[k].face ==
      if c.edges[k].face == turned then turned else Opposite(c.edges[k].face)
  {
    TurnKeepsWellFormed(turned, c);
    var c1 := Turn(turned, c);
    TurnKeepsWellFormed(turned, c1);
    var c2 := Turn(turned, c1);
    assert Turns(turned, c, 2) == c2 by {
      assert Turns(turned, c2, 0) == c2;
      assert Turns(turned, c1, 1) == c2;
    }
    var x := c.edges[k].face;
    var j :| 0 <= j < |c.edges| && c.edges[j].face == turned;
    if x == turned {
      RotatedRow(turned, x);
    } else {
      if k < j {
        assert ShareEdge(c.edges[k].face, c.edges[j].face);
      } else if j < k {
        assert ShareEdge(c.edges[j].face, c.edges[k].face);
      }
      RotatedIsFourCycle(turned, x);
    }
  }

  /** A quarter turn applied to every cublet of a collection. */
  function TurnAll(turned: Face, cs: seq<Cublet>): (r: seq<Cublet>)
    requires IsFace(turned) && forall j :: 0 <= j < |cs| ==> WellFormed(cs[j])
    ensures |r| == |cs|
    ensures forall j :: 0 <= j < |cs| ==> WellFormed(cs[j]) && r[j] == Turn(turned, cs[j]) && WellFormed(r[j])
  {
    if cs == [] then []
    else
      TurnKeepsWellFormed(turned, cs[0]);
      [Turn(turned, cs[0])] + TurnAll(turned, cs[1..])
  }

  /** Four quarter turns of the same face give back every well-formed
      collection of cublets exactly. */
  lemma {:induction false} FourTurnsRestoreAll(turned: Face, cs: seq<Cublet>)
    requires IsFace(turned) && forall j :: 0 <= j < |cs| ==> WellFormed(cs[j])
    ensures TurnAll(turned, TurnAll(turned, TurnAll(turned, TurnAll(turned, cs)))) == cs
  {
    var r1 := TurnAll(turned, cs);
    var r2 := TurnAll(turned, r1);
    var r3 := TurnAll(turned, r2);
    var r4 := TurnAll(turned, r3);
    forall j | 0 <= j < |cs|
      ensures r4[j] == cs[j]
    {
      FourTurnsRestore(turned, cs[j]);
      assert Turns(turned, r1[j], 3) == r4[j] by {
        assert Turns(turned, r4[j], 0) == r4[j];
        assert Turns(turned, r3[j], 1) == r4[j];
        assert Turns(turned, r2[j], 2) == r4[j];
      }
    }
  }

  /** The `isMatch &= isRotated(...)` loop of `cubletIndex`, from face i on. */
  predicate CoversFrom(c: Cublet, faces: seq<Face>, i: nat)
    decreases |faces| - i
  {
    i >= |faces| || (IsRotatedFrom(c, faces[i], 0) && CoversFrom(c, faces, i + 1))
  }

  /** The loop from face i on succeeds iff every face from i on is occupied. */
  lemma {:induction false} CoversFromMeans(c: Cublet, faces: seq<Face>, i: nat)
    ensures CoversFrom(c, faces, i) <==> forall j :: i <= j < |faces| ==> IsRotated(c, faces[j])
    decreases |faces| - i
  {
    if i < |faces| {
      CoversFromMeans(c, faces, i + 1);
      assert IsRotatedFrom(c, faces[i], 0) == IsRotated(c, faces[i]);
    }
  }

  /** Every face of `faces` is occupied by some sticker of the cublet. */
  predicate Covers(c: Cublet, faces: seq<Face>)
    ensures Covers(c, faces) <==> forall f :: f in faces ==> IsRotated(c, f)
  {
    CoversFromMeans(c, faces, 0);
    CoversFrom(c, faces, 0)
  }

  /** The loop of `cubletIndex` from position `from` on. */
  function CubletIndexFrom(cs: seq<Cublet>, faces: seq<Face>, from: nat): int
    requires from <= |cs|
    decreases |cs| - from
  {
    if from == |cs| then -1
    else if CoversFrom(cs[from], faces, 0) then from
    else CubletIndexFrom(cs, faces, from + 1)
  }

  /** The loop from position `from` on returns the first covering cublet
      there, or -1 when there is none. */
  lemma {:induction false} CubletIndexFromMeans(cs: seq<Cublet>, faces: seq<Face>, from: nat)
    requires from <= |cs|
    ensures var r := CubletIndexFrom(cs, faces, from);
      && (r == -1 || from <= r < |cs|)
      && (r >= 0 ==> Covers(cs[r], faces))
      && forall j :: from <= j < (if r == -1 then |cs| else r) ==> !Covers(cs[j], faces)
    decreases |cs| - from
  {
    if from < |cs| {
      CubletIndexFromMeans(cs, faces, from + 1);
      assert CoversFrom(cs[from], faces, 0) == Covers(cs[from], faces);
    }
  }

  /** `cubletIndex`: the first cublet with a sticker on every face of
      `faces`, or -1 when no cublet has. */
  function CubletIndex(cs: seq<Cublet>, faces: seq<Face>): (r: int)
    ensures -1 <= r < |cs|
    ensures r >= 0 ==> Covers(cs[r], faces) && forall j :: 0 <= j < r ==> !Covers(cs[j], faces)
    ensures r == -1 <==> forall j :: 0 <= j < |cs| ==> !Covers(cs[j], faces)
  {
    CubletIndexFromMeans(cs, faces, 0);
    CubletIndexFrom(cs, faces, 0)
  }

  /** Two collections that put the same stickers on the same faces. */
  predicate SamePlacement(cs: seq<Cublet>, ds: seq<Cublet>) {
    && |cs| == |ds|
    && forall j :: 0 <= j < |cs| ==>
         |cs[j].edges| == |ds[j].edges| &&
         forall k :: 0 <= k < |cs[j].edges| ==> cs[j].edges[k].face == ds[j].edges[k].face
  }

  /** Placements compose: relabel-free changes of a placement keep it. */
  lemma SamePlacementTrans(a: seq<Cublet>, b: seq<Cublet>, c: seq<Cublet>)
    requires SamePlacement(b, a) && SamePlacement(b, c)
    ensures SamePlacement(a, c)
  {
  }

  /** `cubletIndex` reads faces only: recolouring stickers cannot change
      which cublet it finds. */
  lemma CubletIndexReadsFacesOnly(cs: seq<Cublet>, ds: seq<Cublet>, faces: seq<Face>)
    requires SamePlacement(cs, ds)
    ensures CubletIndex(cs, faces) == CubletIndex(ds, faces)
  {
    forall j | 0 <= j < |cs|
      ensures Covers(cs[j], faces) <==> Covers(ds[j], faces)
    {
      if Covers(cs[j], faces) {
        forall f | f in faces ensures IsRotated(ds[j], f) {
          var k :| 0 <= k < |cs[j].edges| && cs[j].edges[k].face == f;
          assert ds[j].edges[k].face == f;
        }
      }
      if Covers(ds[j], faces) {
        forall f | f in faces ensures IsRotated(cs[j], f) {
          var k :| 0 <= k < |ds[j].edges| && ds[j].edges[k].face == f;
          assert cs[j].edges[k].face == f;
        }
      }
    }
  }

  /** The loop in `colorOnEdge` from sticker `from` on. */
  function StickerIndexFrom(c: Cublet, face: Face, from: nat): (k: nat)
    requires from <= |c.edges|
    requires exists k :: from <= k < |c.edges| && c.edges[k].face == face
    ensures from <= k < |c.edges| && c.edges[k].face == face
    ensures forall i :: from <= i < k ==> c.edges[i].face != face
    decreases |c.edges| - from
  {
    if c.edges[from].face == face then from
    else StickerIndexFrom(c, face, from + 1)
  }

  /** The first sticker of the cublet that is on `face`. */
  function StickerIndex(c: Cublet, face: Face): (k: nat)
    requires IsRotated(c, face)
    ensures k < |c.edges| && c.edges[k].face == face
    ensures forall i :: 0 <= i < k ==> c.edges[i].face != face
  {
    StickerIndexFrom(c, face, 0)
  }

  /** `colorOnEdge`: the colour that the cublet found by `cubletIndex` shows
      on `faces[0]`, or INVALID_COLOR when there is no such cublet. */
  function ColorOnEdge(cs: seq<Cublet>, faces: seq<Face>): (r: Color)
    requires |faces| >= 1
    ensures CubletIndex(cs, faces) == -1 ==> r == INVALID_COLOR
    ensures CubletIndex(cs, faces) >= 0 ==>
      var c := cs[CubletIndex(cs, faces)];
      exists k :: 0 <= k < |c.edges| && c.edges[k] == Edge(r, faces[0]) &&
        forall i :: 0 <= i < k ==> c.edges[i].face != faces[0]
  {
    var j := CubletIndex(cs, faces);
    if j == -1 then INVALID_COLOR
    else
      assert faces[0] in faces;
      var k := StickerIndex(cs[j], faces[0]);
      cs[j].edges[k].color
  }

  /** The inner loop of the grid constructor: every sticker of the cublet
      that is on `face` is painted `color`. */
  function Recolor(c: Cublet, face: Face, color: Color): (r: Cublet)
    ensures |r.edges| == |c.edges|
  {
    Cublet(seq(|c.edges|, k requires 0 <= k < |c.edges| =>
      if c.edges[k].face == face then Edge(color, face) else c.edges[k]))
  }

  /** Painting one cublet on one face changes nothing but that cublet's
      colour on that face: every other colour `colorOnEdge` reads is kept. */
  lemma {:induction false} RecolorEffect(cs: seq<Cublet>, j: nat, face: Face, color: Color, faces: seq<Face>)
    requires j < |cs| && |faces| >= 1
    ensures SamePlacement(cs, cs[j := Recolor(cs[j], face, color)])
    ensures var ds := cs[j := Recolor(cs[j], face, color)];
      ColorOnEdge(ds, faces) ==
        if CubletIndex(cs, faces) == j && faces[0] == face then color else ColorOnEdge(cs, faces)
  {
    var ds := cs[j := Recolor(cs[j], face, color)];
    assert SamePlacement(cs, ds);
    CubletIndexReadsFacesOnly(cs, ds, faces);
    var i := CubletIndex(cs, faces);
    if i >= 0 {
      assert faces[0] in faces;
      var k := StickerIndex(cs[i], faces[0]);
      assert StickerIndex(ds[i], faces[0]) == k by {
        var k' := StickerIndex(ds[i], faces[0]);
        assert ds[i].edges[k'].face == cs[i].edges[k'].face;
        if k' < k {
          assert false;
        } else if k < k' {
          assert false;
        }
      }
    }
  }

  /** A corner has stickers on at most three faces. */
  lemma {:induction false} CornerTouchesAtMostThreeFaces(c: Cublet, a: Face, b: Face, d: Face, e: Face)
    requires |c.edges| == 3
    requires a != b && a != d && a != e && b != d && b != e && d != e
    ensures !(IsRotated(c, a) && IsRotated(c, b) && IsRotated(c, d) && IsRotated(c, e))
  {
    assert forall x :: IsRotated(c, x) ==> x == c.edges[0].face || x == c.edges[1].face || x == c.edges[2].face;
  }

  /** An edge piece has stickers on at most two faces. */
  lemma {:induction false} MiddleTouchesAtMostTwoFaces(c: Cublet, a: Face, b: Face, d: Face)
    requires |c.edges| == 2
    requires a != b && a != d && b != d
    ensures !(IsRotated(c, a) && IsRotated(c, b) && IsRotated(c, d))
  {
    assert forall x :: IsRotated(c, x) ==> x == c.edges[0].face || x == c.edges[1].face;
  }

  /** A covering cublet has a sticker on each face of the list. */
  lemma CoveredFace(c: Cublet, faces: seq<Face>, k: nat)
    requires Covers(c, faces) && k < |faces|
    ensures IsRotated(c, faces[k])
  {
    assert faces[k] in faces;
  }

  /** Whatever the position, the four corner cells round a face are four
      different corners: no corner covers the faces of two steps of the walk. */
  lemma {:induction false} CornerCellsAreDifferentPieces(cs: seq<Corner>, f: Face, i: nat, i': nat)
    requires IsFace(f) && i < 4 && i' < 4 && i != i'
    requires CubletIndex(cs, CornerFaces(f, i)) >= 0
    ensures CubletIndex(cs, CornerFaces(f, i)) != CubletIndex(cs, CornerFaces(f, i'))
  {
    var c := cs[CubletIndex(cs, CornerFaces(f, i))];
    var p, p' := (if i == 0 then 3 else i - 1), (if i' == 0 then 3 else i' - 1);
    WalkPreviousIsStepBefore(f, i);
    WalkPreviousIsStepBefore(f, i');
    CoveredFace(c, CornerFaces(f, i), 0);
    CoveredFace(c, CornerFaces(f, i), 1);
    CoveredFace(c, CornerFaces(f, i), 2);
    WalkStepsDiffer(f, i, p);
    // the face of the other corner that this corner has no sticker on
    var other := if i' != p then WalkCurrent(f, i') else WalkCurrent(f, p');
    if i' != p {
      WalkStepsDiffer(f, i, i');
      WalkStepsDiffer(f, p, i');
    } else {
      WalkStepsDiffer(f, i, p');
      WalkStepsDiffer(f, p, p');
    }
    CornerTouchesAtMostThreeFaces(c, f, WalkCurrent(f, i), WalkCurrent(f, p), other);
    assert other in CornerFaces(f, i');
  }

  /** Whatever the position, the four edge cells round a face are four
      different edge pieces. */
  lemma {:induction false} MiddleCellsAreDifferentPieces(ms: seq<Middle>, f: Face, i: nat, i': nat)
    requires IsFace(f) && i < 4 && i' < 4 && i != i'
    requires CubletIndex(ms, MiddleFaces(f, i)) >= 0
    ensures CubletIndex(ms, MiddleFaces(f, i)) != CubletIndex(ms, MiddleFaces(f, i'))
  {
    var c := ms[CubletIndex(ms, MiddleFaces(f, i))];
    CoveredFace(c, MiddleFaces(f, i), 0);
    CoveredFace(c, MiddleFaces(f, i), 1);
    WalkStepsDiffer(f, i, i');
    MiddleTouchesAtMostTwoFaces(c, f, WalkCurrent(f, i), WalkCurrent(f, i'));
    assert WalkCurrent(f, i') in MiddleFaces(f, i');
  }
}
