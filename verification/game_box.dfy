/**
 * The fixed-size play volume (class GameBox of game-box.hpp / game-box.cpp):
 * containment of points and pieces, and pushing a piece back inside.
 */
module Boxes {
  import opened Geometry
  import opened Pieces
  import opened Extrema

  datatype GameBox = GameBox(dims: Pos3d) {

    /** The cell `p` lies in the box: 0 <= coordinate < dimension on every axis. */
    predicate Contains(p: Pos3d)
    {
      0 <= p.x < dims.x && 0 <= p.y < dims.y && 0 <= p.z < dims.z
    }

    /** Every absolute block of the piece lies in the box (an empty piece trivially does). */
    predicate ContainsPiece(piece: Piece)
    {
      forall i :: 0 <= i < |piece.blocks| ==> Contains(GetBlocks(piece)[i].pos)
    }

    /** Number of cells of the box. */
    function Size(): int
    {
      dims.x * dims.y * dims.z
    }
  }

  /** Containment of a point, axis by axis. */
  lemma ContainsAxisWise(box: GameBox, p: Pos3d)
    ensures box.Contains(p) <==> forall ax :: 0 <= GetElement(p, ax) < GetElement(box.dims, ax)
  {
    if forall ax :: 0 <= GetElement(p, ax) < GetElement(box.dims, ax) {
      assert 0 <= GetElement(p, X) < GetElement(box.dims, X);
      assert 0 <= GetElement(p, Y) < GetElement(box.dims, Y);
      assert 0 <= GetElement(p, Z) < GetElement(box.dims, Z);
    }
  }

  /** A non-empty piece is inside the box exactly when its extents on every axis are. */
  lemma ContainsPieceIffExtents(box: GameBox, p: Piece)
    requires |p.blocks| > 0
    ensures box.ContainsPiece(p) <==>
      forall ax :: 0 <= GetExtent(p, ax, -1) && GetExtent(p, ax, 1) < GetElement(box.dims, ax)
  {
    var bs := GetBlocks(p);
    if box.ContainsPiece(p) {
      forall ax
        ensures 0 <= GetExtent(p, ax, -1) && GetExtent(p, ax, 1) < GetElement(box.dims, ax)
      {
        ExtentBounds(p, ax, -1);
        ExtentBounds(p, ax, 1);
        var lo :| 0 <= lo < |p.blocks| && GetElement(bs[lo].pos, ax) == GetExtent(p, ax, -1);
        var hi :| 0 <= hi < |p.blocks| && GetElement(bs[hi].pos, ax) == GetExtent(p, ax, 1);
        ContainsAxisWise(box, bs[lo].pos);
        ContainsAxisWise(box, bs[hi].pos);
      }
    }
    if forall ax :: 0 <= GetExtent(p, ax, -1) && GetExtent(p, ax, 1) < GetElement(box.dims, ax) {
      forall i | 0 <= i < |p.blocks|
        ensures box.Contains(bs[i].pos)
      {
        forall ax
          ensures 0 <= GetElement(bs[i].pos, ax) < GetElement(box.dims, ax)
        {
          ExtentBounds(p, ax, -1);
          ExtentBounds(p, ax, 1);
        }
        ContainsAxisWise(box, bs[i].pos);
      }
    }
  }

  /**
   * Net shift that one axis step of translateToBounds applies to a piece whose
   * extents on the axis are `min` and `max`, in a box `dim` cells wide.
   */
  function ClampOffset(min: int, max: int, dim: int): int
  {
    if min < 0 then
      (if max - min >= dim then dim - 1 - max else -min)
    else if max >= dim then dim - 1 - max
    else 0
  }

  /** One axis step of translateToBounds: raise the piece above zero, then lower it below the dimension. */
  function ClampAxis(box: GameBox, p: Piece, a: Axis): Piece
    requires |p.blocks| > 0
  {
    LowerInto(box, RaiseInto(p, a), a)
  }

  /** When the minimum extent on `a` is negative, translate the piece so that it is zero. */
  function RaiseInto(p: Piece, a: Axis): (r: Piece)
    requires |p.blocks| > 0
    ensures r.blocks == p.blocks
  {
    if GetExtent(p, a, -1) < 0 then TranslatedBeyond(p, a, 0, 1) else p
  }

  /** When the maximum extent on `a` reaches the box's dimension, translate the piece so that it is one less. */
  function LowerInto(box: GameBox, p: Piece, a: Axis): (r: Piece)
    requires |p.blocks| > 0
    ensures r.blocks == p.blocks
  {
    var limit := GetElement(box.dims, a);
    if GetExtent(p, a, 1) >= limit then TranslatedBeyond(p, a, limit - 1, -1) else p
  }

  lemma AxisVectorSum(a: Axis, u: int, v: int)
    ensures Sum(AxisVector(a, u), AxisVector(a, v)) == AxisVector(a, u + v)
  {
  }

  /** Raising is a translation along `a` by the gap below zero. */
  lemma RaiseIntoIsTranslation(p: Piece, a: Axis)
    requires |p.blocks| > 0
    ensures RaiseInto(p, a) == Translated(p, AxisVector(a, if GetExtent(p, a, -1) < 0 then -GetExtent(p, a, -1) else 0))
  {
    if GetExtent(p, a, -1) >= 0 {
      TranslatedByOrigin(p);
    }
  }

  /** Lowering is a translation along `a` by the overshoot past the last layer. */
  lemma LowerIntoIsTranslation(box: GameBox, p: Piece, a: Axis)
    requires |p.blocks| > 0
    ensures var max, dim := GetExtent(p, a, 1), GetElement(box.dims, a);
      LowerInto(box, p, a) == Translated(p, AxisVector(a, if max >= dim then dim - 1 - max else 0))
  {
    if GetExtent(p, a, 1) < GetElement(box.dims, a) {
      TranslatedByOrigin(p);
    }
  }

  /** One axis step is a translation along that axis by `ClampOffset` of the piece's extents. */
  lemma ClampAxisIsTranslation(box: GameBox, p: Piece, a: Axis)
    requires |p.blocks| > 0
    ensures ClampAxis(box, p, a) == Translated(p, AxisVector(a, AxisOffset(box, p, a)))
  {
    var min, max, dim := GetExtent(p, a, -1), GetExtent(p, a, 1), GetElement(box.dims, a);
    var s1 := if min < 0 then -min else 0;
    var p1 := RaiseInto(p, a);
    RaiseIntoIsTranslation(p, a);
    TranslatedExtent(p, AxisVector(a, s1), a, 1);
    var max1 := GetExtent(p1, a, 1);
    assert max1 == max + s1;
    var s2 := if max1 >= dim then dim - 1 - max1 else 0;
    LowerIntoIsTranslation(box, p1, a);
    TranslatedTwice(p, AxisVector(a, s1), AxisVector(a, s2));
    AxisVectorSum(a, s1, s2);
    ClampOffsetSplit(min, max, dim);
  }

  /** The offset of one axis step is the raise followed by the lowering of the raised piece. */
  lemma ClampOffsetSplit(min: int, max: int, dim: int)
    ensures var s1 := if min < 0 then -min else 0;
      ClampOffset(min, max, dim) == s1 + (if max + s1 >= dim then dim - 1 - (max + s1) else 0)
  {
  }

  /** Net shift of one axis step for this piece. */
  function AxisOffset(box: GameBox, p: Piece, a: Axis): int
    requires |p.blocks| > 0
  {
    ClampOffset(GetExtent(p, a, -1), GetExtent(p, a, 1), GetElement(box.dims, a))
  }

  /** The offset every axis step applies, one coordinate per axis. */
  function BoundsOffset(box: GameBox, p: Piece): Pos3d
    requires |p.blocks| > 0
  {
    Pos3d(AxisOffset(box, p, X), AxisOffset(box, p, Y), AxisOffset(box, p, Z))
  }

  lemma BoundsOffsetElement(box: GameBox, p: Piece, a: Axis)
    requires |p.blocks| > 0
    ensures GetElement(BoundsOffset(box, p), a) == AxisOffset(box, p, a)
  {
  }

  /** Facts about one axis step, in terms of the extents before and after it. */
  lemma ClampOffsetFacts(min: int, max: int, dim: int)
    requires min <= max
    ensures max + ClampOffset(min, max, dim) <= dim - 1
    ensures max - min + 1 <= dim ==> 0 <= min + ClampOffset(min, max, dim)
    ensures 0 <= min && max < dim ==> ClampOffset(min, max, dim) == 0
    ensures max - min + 1 <= dim && dim <= max ==> max + ClampOffset(min, max, dim) == dim - 1
    ensures ClampOffset(min + ClampOffset(min, max, dim), max + ClampOffset(min, max, dim), dim) == 0
  {
  }

  /**
   * translateToBounds: the axes X, Y and Z in turn, each raising the piece
   * when its minimum is negative and then lowering it when its maximum
   * reaches the box's dimension. The piece is only translated, so its
   * relative blocks (and with them its shape and materials) are unchanged;
   * `TranslateToBoundsFacts` states where it ends.
   */
  function TranslateToBounds(box: GameBox, p: Piece): (r: Piece)
    requires |p.blocks| > 0
    ensures r.blocks == p.blocks
  {
    ClampAxis(box, ClampAxis(box, ClampAxis(box, p, X), Y), Z)
  }

  /**
   * The maximum on every axis ends inside the box, the minimum too when the
   * piece is no wider than the box on that axis, and a piece already inside
   * is returned unchanged.
   */
  lemma TranslateToBoundsFacts(box: GameBox, p: Piece)
    requires |p.blocks| > 0
    ensures var r := TranslateToBounds(box, p);
      && (forall ax :: GetExtent(r, ax, 1) <= GetElement(box.dims, ax) - 1)
      && (forall ax :: Span(p, ax) <= GetElement(box.dims, ax) ==> 0 <= GetExtent(r, ax, -1))
      && (box.ContainsPiece(p) ==> r == p)
  {
    TranslateToBoundsIsOffset(box, p);
    var r := Translated(p, BoundsOffset(box, p));
    forall ax
      ensures GetExtent(r, ax, 1) <= GetElement(box.dims, ax) - 1
      ensures Span(p, ax) <= GetElement(box.dims, ax) ==> 0 <= GetExtent(r, ax, -1)
    {
      OffsetAxisFacts(box, p, ax);
    }
    if box.ContainsPiece(p) {
      ContainedOffsetIsOrigin(box, p);
      TranslatedByOrigin(p);
    }
  }

  /** On every axis the net shift leaves the maximum inside, the minimum too when the piece fits, and nothing more to do. */
  lemma OffsetAxisFacts(box: GameBox, p: Piece, ax: Axis)
    requires |p.blocks| > 0
    ensures var r := Translated(p, BoundsOffset(box, p));
      && GetExtent(r, ax, 1) <= GetElement(box.dims, ax) - 1
      && (Span(p, ax) <= GetElement(box.dims, ax) ==> 0 <= GetExtent(r, ax, -1))
      && AxisOffset(box, r, ax) == 0
  {
    var d := BoundsOffset(box, p);
    BoundsOffsetElement(box, p, ax);
    TranslatedExtent(p, d, ax, 1);
    TranslatedExtent(p, d, ax, -1);
    ClampOffsetFacts(GetExtent(p, ax, -1), GetExtent(p, ax, 1), GetElement(box.dims, ax));
  }

  /** A piece already inside the box needs no shift. */
  lemma ContainedOffsetIsOrigin(box: GameBox, p: Piece)
    requires |p.blocks| > 0 && box.ContainsPiece(p)
    ensures BoundsOffset(box, p) == Origin
  {
    ContainsPieceIffExtents(box, p);
    forall ax
      ensures AxisOffset(box, p, ax) == 0
    {
      ClampOffsetFacts(GetExtent(p, ax, -1), GetExtent(p, ax, 1), GetElement(box.dims, ax));
    }
    assert AxisOffset(box, p, X) == 0 && AxisOffset(box, p, Y) == 0 && AxisOffset(box, p, Z) == 0;
  }

  /** translateToBounds translates the piece by `BoundsOffset`. */
  lemma TranslateToBoundsIsOffset(box: GameBox, p: Piece)
    requires |p.blocks| > 0
    ensures TranslateToBounds(box, p) == Translated(p, BoundsOffset(box, p))
  {
    TranslateToBoundsIsTranslation(box, p);
  }

  /** The three axis steps together translate the piece by `BoundsOffset`. */
  lemma TranslateToBoundsIsTranslation(box: GameBox, p: Piece)
    requires |p.blocks| > 0
    ensures ClampAxis(box, ClampAxis(box, ClampAxis(box, p, X), Y), Z) == Translated(p, BoundsOffset(box, p))
  {
    var d := BoundsOffset(box, p);
    var dx, dy, dz := AxisVector(X, d.x), AxisVector(Y, d.y), AxisVector(Z, d.z);
    ClampAxisIsTranslation(box, p, X);
    var p1 := Translated(p, dx);
    ExtentOnlyAlongAxis(p, p1, Y, 1);
    ExtentOnlyAlongAxis(p, p1, Y, -1);
    ClampAxisIsTranslation(box, p1, Y);
    var p2 := Translated(p1, dy);
    TranslatedTwice(p, dx, dy);
    ExtentOnlyAlongAxis(p, p2, Z, 1);
    ExtentOnlyAlongAxis(p, p2, Z, -1);
    ClampAxisIsTranslation(box, p2, Z);
    TranslatedTwice(p, Sum(dx, dy), dz);
    assert Sum(Sum(dx, dy), dz) == d;
  }

  /** translateToBounds is idempotent. */
  lemma {:induction false} TranslateToBoundsIdempotent(box: GameBox, p: Piece)
    requires |p.blocks| > 0
    ensures TranslateToBounds(box, TranslateToBounds(box, p)) == TranslateToBounds(box, p)
  {
    var r := Translated(p, BoundsOffset(box, p));
    TranslateToBoundsIsOffset(box, p);
    TranslateToBoundsIsOffset(box, r);
    OffsetAxisFacts(box, p, X);
    OffsetAxisFacts(box, p, Y);
    OffsetAxisFacts(box, p, Z);
    assert BoundsOffset(box, r) == Origin;
    TranslatedByOrigin(r);
  }

  /** A piece no wider than the box on any axis ends inside the box. */
  lemma {:induction false} TranslateToBoundsContains(box: GameBox, p: Piece)
    requires |p.blocks| > 0
    requires forall ax :: Span(p, ax) <= GetElement(box.dims, ax)
    ensures box.ContainsPiece(TranslateToBounds(box, p))
  {
    var r := TranslateToBounds(box, p);
    TranslateToBoundsFacts(box, p);
    forall ax
      ensures 0 <= GetExtent(r, ax, -1) && GetExtent(r, ax, 1) < GetElement(box.dims, ax)
    {
    }
    ContainsPieceIffExtents(box, r);
  }

  /**
   * When the piece fits the box on axis `a` but reaches past its far side,
   * translateToBounds leaves its maximum on `a` at the last layer.
   */
  lemma {:induction false} TranslateToBoundsTouchesFarSide(box: GameBox, p: Piece, a: Axis)
    requires |p.blocks| > 0
    requires Span(p, a) <= GetElement(box.dims, a) <= GetExtent(p, a, 1)
    ensures GetExtent(TranslateToBounds(box, p), a, 1) == GetElement(box.dims, a) - 1
  {
    TranslateToBoundsIsTranslation(box, p);
    TranslatedExtent(p, BoundsOffset(box, p), a, 1);
    ClampOffsetFacts(GetExtent(p, a, -1), GetExtent(p, a, 1), GetElement(box.dims, a));
  }

  /**
   * The translateToBounds case of the JavaScript test suite: blocks (-2,0,0)
   * and (0,-1,0) moved up by 10 along y, in a box at least 3 wide, 2 to 10
   * deep and 1 high, end at (0, depth-1, 0) and (2, depth-2, 0), inside the box.
   */
  lemma TranslateToBoundsScenario(box: GameBox, m: int)
    requires 3 <= box.dims.x && 2 <= box.dims.y <= 10 && 1 <= box.dims.z
    ensures var p := Translated(FromBlocks([Block(Pos3d(-2, 0, 0), m), Block(Pos3d(0, -1, 0), m)]), Pos3d(0, 10, 0));
      && GetBlocks(TranslateToBounds(box, p))
         == [Block(Pos3d(0, box.dims.y - 1, 0), m), Block(Pos3d(2, box.dims.y - 2, 0), m)]
  {
    var p := Translated(FromBlocks([Block(Pos3d(-2, 0, 0), m), Block(Pos3d(0, -1, 0), m)]), Pos3d(0, 10, 0));
    ScenarioPiece(m);
    ScenarioOffset(box, p, m);
    ScenarioClamped(box, p, Pos3d(2, box.dims.y - 11, 0));
    ScenarioResult(box, m);
  }

  /** The test case's piece: center (0, 10, 0), relative blocks as given. */
  lemma ScenarioPiece(m: int)
    ensures Translated(FromBlocks([Block(Pos3d(-2, 0, 0), m), Block(Pos3d(0, -1, 0), m)]), Pos3d(0, 10, 0))
      == Piece(Pos3d(0, 10, 0), [Block(Pos3d(-2, 0, 0), m), Block(Pos3d(0, -1, 0), m)])
  {
  }

  /**
   * In the test case, translateToBounds moves the center from (0, 10, 0) to
   * (2, depth-1, 0). The piece is taken apart into center and blocks so that
   * the clamp steps are not evaluated on the literal piece.
   */
  lemma ScenarioClamped(box: GameBox, p: Piece, d: Pos3d)
    requires |p.blocks| > 0 && p.center == Pos3d(0, 10, 0)
    requires d == Pos3d(2, box.dims.y - 11, 0) && BoundsOffset(box, p) == d
    ensures TranslateToBounds(box, p) == Piece(Pos3d(2, box.dims.y - 1, 0), p.blocks)
  {
    ClampedByOffset(box, p, d);
  }

  /** translateToBounds keeps the relative blocks and moves the center by `BoundsOffset`. */
  lemma ClampedByOffset(box: GameBox, p: Piece, d: Pos3d)
    requires |p.blocks| > 0 && BoundsOffset(box, p) == d
    ensures TranslateToBounds(box, p) == Piece(Sum(p.center, d), p.blocks)
  {
    TranslateToBoundsIsOffset(box, p);
  }

  /** In the same test case, the piece lies outside the box before translateToBounds and inside after it. */
  lemma TranslateToBoundsScenarioFits(box: GameBox, m: int)
    requires 3 <= box.dims.x && 2 <= box.dims.y <= 10 && 1 <= box.dims.z
    ensures var p := Translated(FromBlocks([Block(Pos3d(-2, 0, 0), m), Block(Pos3d(0, -1, 0), m)]), Pos3d(0, 10, 0));
      !box.ContainsPiece(p) && box.ContainsPiece(TranslateToBounds(box, p))
  {
    var p := Translated(FromBlocks([Block(Pos3d(-2, 0, 0), m), Block(Pos3d(0, -1, 0), m)]), Pos3d(0, 10, 0));
    ScenarioPiece(m);
    ScenarioOutside(box, p);
    ScenarioOffset(box, p, m);
    ScenarioClamped(box, p, Pos3d(2, box.dims.y - 11, 0));
    ScenarioResult(box, m);
  }

  /** The blocks of the test case's final piece, inside the box. */
  lemma ScenarioResult(box: GameBox, m: int)
    requires 3 <= box.dims.x && 2 <= box.dims.y <= 10 && 1 <= box.dims.z
    ensures var r := Piece(Pos3d(2, box.dims.y - 1, 0), [Block(Pos3d(-2, 0, 0), m), Block(Pos3d(0, -1, 0), m)]);
      && GetBlocks(r) == [Block(Pos3d(0, box.dims.y - 1, 0), m), Block(Pos3d(2, box.dims.y - 2, 0), m)]
      && box.ContainsPiece(r)
  {
    var r := Piece(Pos3d(2, box.dims.y - 1, 0), [Block(Pos3d(-2, 0, 0), m), Block(Pos3d(0, -1, 0), m)]);
    assert GetBlocks(r)[0] == Block(Pos3d(0, box.dims.y - 1, 0), m);
    assert GetBlocks(r)[1] == Block(Pos3d(2, box.dims.y - 2, 0), m);
  }

  /** The test case's piece starts with a block at x = -2, outside the box. */
  lemma ScenarioOutside(box: GameBox, p: Piece)
    requires |p.blocks| > 0 && p.blocks[0].pos == Pos3d(-2, 0, 0) && p.center == Pos3d(0, 10, 0)
    ensures !box.ContainsPiece(p)
  {
    assert GetBlocks(p)[0].pos.x == -2;
  }

  /** The net shift in the test case: 2 along x, back to the last layer along y, none along z. */
  lemma ScenarioOffset(box: GameBox, p: Piece, m: int)
    requires 3 <= box.dims.x && 2 <= box.dims.y <= 10 && 1 <= box.dims.z
    requires p == Piece(Pos3d(0, 10, 0), [Block(Pos3d(-2, 0, 0), m), Block(Pos3d(0, -1, 0), m)])
    ensures BoundsOffset(box, p) == Pos3d(2, box.dims.y - 11, 0)
  {
    PairAxisOffset(box, p, X);
    PairAxisOffset(box, p, Y);
    PairAxisOffset(box, p, Z);
  }

  /** The net shift on axis `a` of a two-block piece, from the two coordinates on that axis. */
  lemma PairAxisOffset(box: GameBox, p: Piece, a: Axis)
    requires |p.blocks| == 2
    ensures var u, v, c := GetElement(p.blocks[0].pos, a), GetElement(p.blocks[1].pos, a), GetElement(p.center, a);
      AxisOffset(box, p, a) == ClampOffset((if u <= v then u else v) + c, (if u >= v then u else v) + c, GetElement(box.dims, a))
  {
    PairExtents(p, a);
  }

  /** The extents on axis `a` of a two-block piece: the smaller and the larger coordinate, moved by the center. */
  lemma PairExtents(p: Piece, a: Axis)
    requires |p.blocks| == 2
    ensures var u, v, c := GetElement(p.blocks[0].pos, a), GetElement(p.blocks[1].pos, a), GetElement(p.center, a);
      && GetExtent(p, a, -1) == (if u <= v then u else v) + c
      && GetExtent(p, a, 1) == (if u >= v then u else v) + c
  {
    var u, v := GetElement(p.blocks[0].pos, a), GetElement(p.blocks[1].pos, a);
    assert Coords(p.blocks, a) == [u, v];
    ExtremaOfPair(u, v);
  }
}
