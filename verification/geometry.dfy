/**
 * Integer geometry of the puzzle: positions, axes, quarter-turn rotations
 * and blocks (the records of api.hpp and the pos_methods / block_methods
 * helpers of piece.hpp and piece.cpp).
 */
module Geometry {

  /** An integer point or offset in the game's 3D lattice. */
  datatype Pos3d = Pos3d(x: int, y: int, z: int)

  datatype Axis = X | Y | Z

  datatype Direction = CW | CCW

  /** One 90-degree turn about a principal axis. */
  datatype Rotation = Rotation(axis: Axis, direction: Direction)

  /** A unit block at a position, tagged with the material used to draw it. */
  datatype Block = Block(pos: Pos3d, material: int)

  const Origin := Pos3d(0, 0, 0)

  /** Coordinate of `p` on axis `a` (pos_methods::getElement). */
  function GetElement(p: Pos3d, a: Axis): int
  {
    match a
    case X => p.x
    case Y => p.y
    case Z => p.z
  }

  /** `p` with its coordinate on axis `a` replaced by `v`. */
  function WithElement(p: Pos3d, a: Axis, v: int): Pos3d
  {
    match a
    case X => p.(x := v)
    case Y => p.(y := v)
    case Z => p.(z := v)
  }

  /** The offset of length `v` along axis `a`. */
  function AxisVector(a: Axis, v: int): Pos3d
  {
    WithElement(Origin, a, v)
  }

  /** Component-wise addition (pos_methods::sum). */
  function Sum(a: Pos3d, b: Pos3d): Pos3d
  {
    Pos3d(a.x + b.x, a.y + b.y, a.z + b.z)
  }

  /** The origin is neutral, and addition is commutative and associative. */
  lemma SumIsCommutativeMonoid(a: Pos3d, b: Pos3d, c: Pos3d)
    ensures Sum(a, Origin) == a && Sum(Origin, a) == a
    ensures Sum(a, b) == Sum(b, a)
    ensures Sum(Sum(a, b), c) == Sum(a, Sum(b, c))
  {
  }

  /** The sum example of the C++ test suite: (1,2,3) + (0,-2,2) = (1,0,5). */
  lemma SumExample()
    ensures Sum(Pos3d(1, 2, 3), Pos3d(0, -2, 2)) == Pos3d(1, 0, 5)
  {
  }

  /**
   * The ordered pair of axes whose coordinates a turn about `a` exchanges:
   * (Y, Z) for X, (Z, X) for Y and (X, Y) for Z.
   */
  function ExchangedAxes(a: Axis): (Axis, Axis)
  {
    match a
    case X => (Y, Z)
    case Y => (Z, X)
    case Z => (X, Y)
  }

  /** +1 for a counter-clockwise turn, -1 for a clockwise one. */
  function Sign(d: Direction): int
  {
    if d == CCW then 1 else -1
  }

  /**
   * Exact quarter turn of a position about the origin: the coordinates on
   * the exchanged pair (a0, a1) become (-s*p[a1], s*p[a0]) with s the
   * sign of the direction; the coordinate on the rotation axis is kept.
   */
  function RotatePos(p: Pos3d, rot: Rotation): (r: Pos3d)
    ensures GetElement(r, rot.axis) == GetElement(p, rot.axis)
    ensures rot == Rotation(X, CCW) ==> r == Pos3d(p.x, -p.z, p.y)
    ensures rot == Rotation(X, CW) ==> r == Pos3d(p.x, p.z, -p.y)
    ensures rot == Rotation(Y, CCW) ==> r == Pos3d(p.z, p.y, -p.x)
    ensures rot == Rotation(Y, CW) ==> r == Pos3d(-p.z, p.y, p.x)
    ensures rot == Rotation(Z, CCW) ==> r == Pos3d(-p.y, p.x, p.z)
    ensures rot == Rotation(Z, CW) ==> r == Pos3d(p.y, -p.x, p.z)
  {
    var (a0, a1) := ExchangedAxes(rot.axis);
    var s := Sign(rot.direction);
    WithElement(WithElement(p, a0, -s * GetElement(p, a1)), a1, s * GetElement(p, a0))
  }

  function Reverse(d: Direction): Direction
  {
    if d == CW then CCW else CW
  }

  /** A turn followed by the opposite turn about the same axis is the identity. */
  lemma RotatePosInverse(p: Pos3d, rot: Rotation)
    ensures RotatePos(RotatePos(p, rot), Rotation(rot.axis, Reverse(rot.direction))) == p
  {
  }

  /** Four equal quarter turns are the identity. */
  lemma RotatePosFourTimes(p: Pos3d, rot: Rotation)
    ensures RotatePos(RotatePos(RotatePos(RotatePos(p, rot), rot), rot), rot) == p
  {
  }

  /** A turn fixes the origin. */
  lemma RotatePosOrigin(rot: Rotation)
    ensures RotatePos(Origin, rot) == Origin
  {
  }

  /** block_methods::translate: moves the block by `delta`, keeping its material. */
  function TranslateBlock(b: Block, delta: Pos3d): Block
  {
    Block(Sum(b.pos, delta), b.material)
  }

  /** block_methods::rotate: turns the block's position, keeping its material. */
  function RotateBlock(b: Block, rot: Rotation): Block
  {
    Block(RotatePos(b.pos, rot), b.material)
  }

  /** The block cases of the C++ test suite. */
  lemma BlockExamples()
    ensures TranslateBlock(Block(Pos3d(1, 2, 3), 100), Pos3d(1, -3, 5)) == Block(Pos3d(2, -1, 8), 100)
    ensures RotateBlock(Block(Pos3d(1, 2, 3), 100), Rotation(X, CCW)) == Block(Pos3d(1, -3, 2), 100)
    ensures RotateBlock(Block(Pos3d(1, 2, 3), 100), Rotation(X, CW)) == Block(Pos3d(1, 3, -2), 100)
  {
  }
}
