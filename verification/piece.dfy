/**
 * A piece: a center plus blocks placed relative to it (struct Piece of
 * piece.hpp / piece.cpp). Translation moves the center; rotation turns the
 * relative blocks, so a piece turns about its own center.
 */
module Pieces {
  import opened Geometry
  import opened Extrema

  datatype Piece = Piece(center: Pos3d, blocks: seq<Block>)

  /** The absolute blocks: each relative block moved by the center, in stored order. */
  function GetBlocks(p: Piece): (r: seq<Block>)
    ensures |r| == |p.blocks|
    ensures forall i :: 0 <= i < |r| ==> r[i] == TranslateBlock(p.blocks[i], p.center)
  {
    seq(|p.blocks|, i requires 0 <= i < |p.blocks| => TranslateBlock(p.blocks[i], p.center))
  }

  /** The blocks-only constructor: the center is the origin. */
  function FromBlocks(blocks: seq<Block>): (p: Piece)
    ensures GetBlocks(p) == blocks
  {
    var p := Piece(Origin, blocks);
    assert forall i :: 0 <= i < |blocks| ==> GetBlocks(p)[i] == blocks[i];
    p
  }

  /** A new piece moved by `delta`: the relative blocks are untouched and every absolute block moves by `delta`. */
  function Translated(p: Piece, delta: Pos3d): (r: Piece)
    ensures r.blocks == p.blocks
    ensures r.center == Sum(p.center, delta)
  {
    Piece(Sum(p.center, delta), p.blocks)
  }

  /** A new piece turned about its center: the center is kept and every relative block is turned, materials kept. */
  function Rotated(p: Piece, rot: Rotation): (r: Piece)
    ensures r.center == p.center
    ensures |r.blocks| == |p.blocks|
    ensures forall i :: 0 <= i < |p.blocks| ==>
      r.blocks[i].material == p.blocks[i].material &&
      GetElement(r.blocks[i].pos, rot.axis) == GetElement(p.blocks[i].pos, rot.axis)
  {
    Piece(p.center, seq(|p.blocks|, i requires 0 <= i < |p.blocks| => RotateBlock(p.blocks[i], rot)))
  }

  /** Translating moves every absolute block by the offset and keeps its material. */
  lemma TranslatedMovesBlocks(p: Piece, delta: Pos3d)
    ensures forall i :: 0 <= i < |p.blocks| ==>
      GetBlocks(Translated(p, delta))[i] == TranslateBlock(GetBlocks(p)[i], delta)
  {
  }

  /** Two translations compose into one translation by the sum of the offsets. */
  lemma TranslatedTwice(p: Piece, a: Pos3d, b: Pos3d)
    ensures Translated(Translated(p, a), b) == Translated(p, Sum(a, b))
    ensures GetBlocks(Translated(Translated(p, a), b)) == GetBlocks(Translated(p, Sum(a, b)))
  {
    SumIsCommutativeMonoid(p.center, a, b);
  }

  /** Translation and rotation act on different parts of a piece, so they commute. */
  lemma TranslatedRotatedCommute(p: Piece, d: Pos3d, rot: Rotation)
    ensures Rotated(Translated(p, d), rot) == Translated(Rotated(p, rot), d)
  {
  }

  /** The blocks-only constructor reports its blocks unchanged, and translating by nothing is the identity. */
  lemma TranslatedByOrigin(p: Piece)
    ensures Translated(p, Origin) == p
    ensures GetBlocks(FromBlocks(p.blocks)) == p.blocks
  {
  }

  /** Turning a piece and then turning it back about the same axis restores it. */
  lemma {:induction false} RotatedInverse(p: Piece, rot: Rotation)
    ensures Rotated(Rotated(p, rot), Rotation(rot.axis, Reverse(rot.direction))) == p
  {
    var q := Rotated(Rotated(p, rot), Rotation(rot.axis, Reverse(rot.direction)));
    forall i | 0 <= i < |p.blocks|
      ensures q.blocks[i] == p.blocks[i]
    {
      RotatePosInverse(p.blocks[i].pos, rot);
    }
  }

  /** Four equal quarter turns restore a piece. */
  lemma {:induction false} RotatedFourTimes(p: Piece, rot: Rotation)
    ensures Rotated(Rotated(Rotated(Rotated(p, rot), rot), rot), rot) == p
  {
    var q := Rotated(Rotated(Rotated(Rotated(p, rot), rot), rot), rot);
    forall i | 0 <= i < |p.blocks|
      ensures q.blocks[i] == p.blocks[i]
    {
      RotatePosFourTimes(p.blocks[i].pos, rot);
    }
  }

  /**
   * The piece case of the C++ test suite: center (1,2,3) with blocks
   * (0,0,0)/100 and (0,1,0)/101, translated by (-1,0,1) then turned
   * counter-clockwise about X.
   */
  lemma PieceScenario()
    ensures GetBlocks(Rotated(Translated(Piece(Pos3d(1, 2, 3), [Block(Pos3d(0, 0, 0), 100), Block(Pos3d(0, 1, 0), 101)]),
                                        Pos3d(-1, 0, 1)), Rotation(X, CCW)))
            == [Block(Pos3d(0, 2, 4), 100), Block(Pos3d(0, 2, 5), 101)]
  {
    var r := Rotated(Translated(Piece(Pos3d(1, 2, 3), [Block(Pos3d(0, 0, 0), 100), Block(Pos3d(0, 1, 0), 101)]),
                                Pos3d(-1, 0, 1)), Rotation(X, CCW));
    assert r.center == Pos3d(0, 2, 4);
    assert r.blocks[0] == Block(Pos3d(0, 0, 0), 100);
    assert r.blocks[1] == Block(Pos3d(0, 0, 1), 101);
    assert GetBlocks(r)[0] == Block(Pos3d(0, 2, 4), 100);
    assert GetBlocks(r)[1] == Block(Pos3d(0, 2, 5), 101);
  }

  /** Coordinates of blocks on axis `a`, in block order. */
  function Coords(bs: seq<Block>, a: Axis): (s: seq<int>)
    ensures |s| == |bs|
  {
    seq(|bs|, i requires 0 <= i < |bs| => GetElement(bs[i].pos, a))
  }

  /** Direction +1 or -1 along an axis. */
  predicate IsDirection(dir: int)
  {
    dir == 1 || dir == -1
  }

  /**
   * Extent of a non-empty piece along `a`: the largest absolute coordinate
   * for direction +1, the smallest for direction -1 (see `ExtentBounds`).
   */
  function GetExtent(p: Piece, a: Axis, dir: int): int
    requires |p.blocks| > 0 && IsDirection(dir)
  {
    var s := Coords(p.blocks, a);
    (if dir == 1 then MaxOf(s) else MinOf(s)) + GetElement(p.center, a)
  }

  /** The extent is the coordinate of some absolute block and bounds all of them. */
  lemma ExtentBounds(p: Piece, a: Axis, dir: int)
    requires |p.blocks| > 0 && IsDirection(dir)
    ensures exists i :: 0 <= i < |p.blocks| && GetElement(GetBlocks(p)[i].pos, a) == GetExtent(p, a, dir)
    ensures forall i :: 0 <= i < |p.blocks| ==>
      if dir == 1 then GetElement(GetBlocks(p)[i].pos, a) <= GetExtent(p, a, dir)
      else GetExtent(p, a, dir) <= GetElement(GetBlocks(p)[i].pos, a)
  {
    var s := Coords(p.blocks, a);
    var c := GetElement(p.center, a);
    assert forall i :: 0 <= i < |p.blocks| ==> GetElement(GetBlocks(p)[i].pos, a) == s[i] + c;
    var w :| 0 <= w < |s| && s[w] == if dir == 1 then MaxOf(s) else MinOf(s);
    assert GetElement(GetBlocks(p)[w].pos, a) == GetExtent(p, a, dir);
  }

  /** Translating moves each extent on `a` by the offset's coordinate on `a`. */
  lemma TranslatedExtent(p: Piece, d: Pos3d, a: Axis, dir: int)
    requires |p.blocks| > 0 && IsDirection(dir)
    ensures GetExtent(Translated(p, d), a, dir) == GetExtent(p, a, dir) + GetElement(d, a)
  {
  }

  /** Extents on `a` depend only on the relative blocks and the center's coordinate on `a`. */
  lemma ExtentOnlyAlongAxis(p: Piece, q: Piece, a: Axis, dir: int)
    requires |p.blocks| > 0 && IsDirection(dir)
    requires q.blocks == p.blocks && GetElement(q.center, a) == GetElement(p.center, a)
    ensures GetExtent(q, a, dir) == GetExtent(p, a, dir)
  {
  }

  /**
   * translatedBeyond, with the semantics of the JavaScript translateBeyond:
   * for direction +1 the minimum extent on `a` is raised to `limit` when it
   * lies below it, for direction -1 the maximum extent is lowered to `limit`
   * when it lies above it; otherwise the piece is returned unchanged. Only
   * the center moves, and only along `a`.
   */
  function TranslatedBeyond(p: Piece, a: Axis, limit: int, dir: int): (r: Piece)
    requires |p.blocks| > 0 && IsDirection(dir)
    ensures r.blocks == p.blocks
    ensures forall b :: b != a ==> GetElement(r.center, b) == GetElement(p.center, b)
    ensures dir == 1 ==>
      if GetExtent(p, a, -1) < limit then GetExtent(r, a, -1) == limit else r == p
    ensures dir == -1 ==>
      if GetExtent(p, a, 1) > limit then GetExtent(r, a, 1) == limit else r == p
  {
    var extreme := GetExtent(p, a, -dir);
    var diff := (limit - extreme) * dir;
    if diff > 0 then Translated(p, AxisVector(a, diff * dir)) else p
  }

  /** Extent of the piece along `a` measured in cells. */
  function Span(p: Piece, a: Axis): int
    requires |p.blocks| > 0
  {
    GetExtent(p, a, 1) - GetExtent(p, a, -1) + 1
  }

  /**
   * The axis whose coordinates a turn moves onto axis `b`: the rotation axis
   * maps to itself and the two exchanged axes trade places.
   */
  function SourceAxis(rot: Rotation, b: Axis): Axis
  {
    var (a0, a1) := ExchangedAxes(rot.axis);
    if b == a0 then a1 else if b == a1 then a0 else b
  }

  /** The sign a turn puts on the coordinate it moves onto axis `b`. */
  function SourceSign(rot: Rotation, b: Axis): int
  {
    var (a0, a1) := ExchangedAxes(rot.axis);
    if b == a0 then -Sign(rot.direction) else if b == a1 then Sign(rot.direction) else 1
  }

  /** After a turn, the coordinate on `b` is the old coordinate on `SourceAxis(rot, b)`, negated or not. */
  lemma RotatePosCoordinate(v: Pos3d, rot: Rotation, b: Axis)
    ensures SourceSign(rot, b) == 1 || SourceSign(rot, b) == -1
    ensures GetElement(RotatePos(v, rot), b) == SourceSign(rot, b) * GetElement(v, SourceAxis(rot, b))
  {
  }

  /** A turn permutes the spans: the span on `b` becomes the old span on `SourceAxis(rot, b)`. */
  lemma {:induction false} SpanRotated(p: Piece, rot: Rotation, b: Axis)
    requires |p.blocks| > 0
    ensures Span(Rotated(p, rot), b) == Span(p, SourceAxis(rot, b))
  {
    var q := Rotated(p, rot);
    var a := SourceAxis(rot, b);
    var k := SourceSign(rot, b);
    var t := Coords(q.blocks, b);
    var s := Coords(p.blocks, a);
    forall i | 0 <= i < |p.blocks|
      ensures t[i] == k * s[i]
    {
      RotatePosCoordinate(p.blocks[i].pos, rot, b);
    }
    RotatePosCoordinate(Origin, rot, b);
    if k == 1 {
      ShiftedExtrema(s, t, 0);
    } else {
      MirroredExtrema(s, t, 0);
    }
  }

  /** A turn keeps a block at the center if there was one. */
  lemma RotatedKeepsCenterBlock(p: Piece, rot: Rotation, i: int)
    requires 0 <= i < |p.blocks| && p.blocks[i].pos == Origin
    ensures Rotated(p, rot).blocks[i].pos == Origin
  {
    RotatePosOrigin(rot);
  }
}
