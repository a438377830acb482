/**
 * The JavaScript prototype of blocks and pieces (pieces.js). Blocks are
 * objects with numeric fields x, y, z and material addressed by string
 * keys; a piece holds a center and relative blocks. `rotate`, `translate`
 * and `translateBeyond` mutate the piece in JavaScript; here they return
 * the new piece. A thrown exception is an `Err`.
 */
module JsPieces {
  import opened Outcomes
  import opened Geometry
  import opened Extrema
  import Pieces

  datatype JsBlock = JsBlock(x: int, y: int, z: int, material: int)

  datatype JsPiece = JsPiece(center: Pos3d, blocks: seq<JsBlock>)

  /** The axis a coordinate key names, if it names one. */
  function AxisOf(key: string): Option<Axis>
  {
    if key == "x" then Some(X) else if key == "y" then Some(Y) else if key == "z" then Some(Z) else None
  }

  function KeyOf(a: Axis): string
  {
    match a
    case X => "x"
    case Y => "y"
    case Z => "z"
  }

  lemma KeyOfAxisOf(a: Axis)
    ensures AxisOf(KeyOf(a)) == Some(a)
  {
  }

  function Coordinate(b: JsBlock, a: Axis): int
  {
    match a
    case X => b.x
    case Y => b.y
    case Z => b.z
  }

  function WithCoordinate(b: JsBlock, a: Axis, v: int): JsBlock
  {
    match a
    case X => b.(x := v)
    case Y => b.(y := v)
    case Z => b.(z := v)
  }

  /** Reading `b[key]`: the three coordinates and the material are numbers, any other key is undefined (None). */
  function Field(b: JsBlock, key: string): Option<int>
  {
    match AxisOf(key)
    case Some(a) => Some(Coordinate(b, a))
    case None => if key == "material" then Some(b.material) else None
  }

  /** The ordered pair of axes a turn about `axis` exchanges, as listed in the rotation's table; None for an unknown key. */
  function ExchangedKeys(axis: string): Option<(Axis, Axis)>
  {
    if axis == "x" then Some((Y, Z))
    else if axis == "y" then Some((Z, X))
    else if axis == "z" then Some((X, Y))
    else None
  }

  /**
   * Block.rotated: a new block whose exchanged pair (a, b) becomes
   * (-sign * b, sign * a); an unknown axis throws. The rotation axis and the
   * material are kept.
   */
  function Rotated(b: JsBlock, axis: string, sign: int): (r: Result<JsBlock, string>)
    ensures r.Err? <==> AxisOf(axis).None?
    ensures r.Ok? ==> r.value.material == b.material
    ensures r.Ok? ==> Coordinate(r.value, AxisOf(axis).value) == Coordinate(b, AxisOf(axis).value)
  {
    match ExchangedKeys(axis)
    case None => Err("invalid axis " + axis)
    case Some((a0, a1)) =>
      Ok(WithCoordinate(WithCoordinate(b, a0, -sign * Coordinate(b, a1)), a1, sign * Coordinate(b, a0)))
  }

  /** Block.translated: a new block moved by (dx, dy, dz), material kept. */
  function Translated(b: JsBlock, dx: int, dy: int, dz: int): (r: JsBlock)
    ensures r.material == b.material
  {
    JsBlock(b.x + dx, b.y + dy, b.z + dz, b.material)
  }

  /** The same block as the C++ model's block. */
  function ToJs(b: Block): JsBlock
  {
    JsBlock(b.pos.x, b.pos.y, b.pos.z, b.material)
  }

  function ToJsPiece(p: Pieces.Piece): JsPiece
  {
    JsPiece(p.center, seq(|p.blocks|, i requires 0 <= i < |p.blocks| => ToJs(p.blocks[i])))
  }

  /** With sign +1 for counter-clockwise and -1 for clockwise, Block.rotated is the C++ block rotation. */
  lemma RotatedAgreesWithCpp(b: Block, rot: Rotation)
    ensures Rotated(ToJs(b), KeyOf(rot.axis), Sign(rot.direction)) == Ok(ToJs(RotateBlock(b, rot)))
  {
  }

  /** Block.translated is the C++ block translation: the position moves by the offset and the material is kept. */
  lemma TranslatedAgreesWithCpp(b: Block, d: Pos3d)
    ensures Translated(ToJs(b), d.x, d.y, d.z) == ToJs(TranslateBlock(b, d))
  {
  }

  /** The rotation cases of the JavaScript tests: (1,2,3) about x gives (1,-3,2) with sign 1 and (1,3,-2) with sign -1. */
  lemma RotatedExamples(m: int)
    ensures Rotated(JsBlock(1, 2, 3, m), "x", 1) == Ok(JsBlock(1, -3, 2, m))
    ensures Rotated(JsBlock(1, 2, 3, m), "x", -1) == Ok(JsBlock(1, 3, -2, m))
    ensures Rotated(JsBlock(1, 2, 3, m), "w", 1).Err?
  {
  }

  /** A turn with sign 1 or -1 is undone by the turn with the opposite sign about the same axis. */
  lemma RotatedInverse(b: JsBlock, axis: string, sign: int)
    requires AxisOf(axis).Some? && (sign == 1 || sign == -1)
    ensures Rotated(Rotated(b, axis, sign).value, axis, -sign) == Ok(b)
  {
  }

  /** The Piece constructor: the given center, or the origin when none is passed, and the given blocks. */
  function NewPiece(blocks: seq<JsBlock>, center: Option<Pos3d>): JsPiece
  {
    JsPiece(if center.Some? then center.value else Origin, blocks)
  }

  /**
   * Piece.rotate: every relative block turned in place, the center kept. An
   * unknown axis throws on the first block, before any block is changed; a
   * piece without blocks never looks at the axis.
   */
  function Rotate(p: JsPiece, axis: string, sign: int): (r: Result<JsPiece, string>)
    ensures r.Err? <==> |p.blocks| > 0 && AxisOf(axis).None?
    ensures r.Ok? ==> r.value.center == p.center && |r.value.blocks| == |p.blocks|
    ensures r.Ok? ==> forall i :: 0 <= i < |p.blocks| ==> Rotated(p.blocks[i], axis, sign) == Ok(r.value.blocks[i])
  {
    if |p.blocks| > 0 && AxisOf(axis).None? then
      Err("invalid axis " + axis)
    else
      Ok(JsPiece(p.center, seq(|p.blocks|, i requires 0 <= i < |p.blocks| => Rotated(p.blocks[i], axis, sign).value)))
  }

  /** Piece.translate (through translateDict): the center moves, the relative blocks are untouched. */
  function Translate(p: JsPiece, dx: int, dy: int, dz: int): (r: JsPiece)
    ensures r.blocks == p.blocks
    ensures r.center == Sum(p.center, Pos3d(dx, dy, dz))
  {
    JsPiece(Pos3d(p.center.x + dx, p.center.y + dy, p.center.z + dz), p.blocks)
  }

  /** Piece.getBlocks: each relative block moved by the center, in order. */
  function GetBlocks(p: JsPiece): (r: seq<JsBlock>)
    ensures |r| == |p.blocks|
  {
    seq(|p.blocks|, i requires 0 <= i < |p.blocks| => Translated(p.blocks[i], p.center.x, p.center.y, p.center.z))
  }

  /** A piece built from blocks alone reports exactly those blocks. */
  lemma NewPieceBlocks(blocks: seq<JsBlock>)
    ensures GetBlocks(NewPiece(blocks, None)) == blocks
  {
  }

  lemma RotateAgreesWithCpp(p: Pieces.Piece, rot: Rotation)
    ensures Rotate(ToJsPiece(p), KeyOf(rot.axis), Sign(rot.direction)) == Ok(ToJsPiece(Pieces.Rotated(p, rot)))
  {
    KeyOfAxisOf(rot.axis);
    var q := Rotate(ToJsPiece(p), KeyOf(rot.axis), Sign(rot.direction));
    var expected := ToJsPiece(Pieces.Rotated(p, rot));
    assert |q.value.blocks| == |expected.blocks|;
    forall i | 0 <= i < |p.blocks|
      ensures q.value.blocks[i] == expected.blocks[i]
    {
      RotatedAgreesWithCpp(p.blocks[i], rot);
    }
    assert q.value.blocks == expected.blocks;
  }

  lemma TranslateAgreesWithCpp(p: Pieces.Piece, d: Pos3d)
    ensures Translate(ToJsPiece(p), d.x, d.y, d.z) == ToJsPiece(Pieces.Translated(p, d))
  {
  }

  lemma GetBlocksAgreesWithCpp(p: Pieces.Piece)
    ensures GetBlocks(ToJsPiece(p)) == seq(|p.blocks|, i requires 0 <= i < |p.blocks| => ToJs(Pieces.GetBlocks(p)[i]))
  {
  }

  /** One step of the reduction: Math.min for direction 1, Math.max for -1; undefined or NaN on either side gives NaN. */
  function Combine(a: Option<int>, b: Option<int>, dir: int): Option<int>
  {
    if a.None? || b.None? then None
    else if dir == 1 then Some(if a.value <= b.value then a.value else b.value)
    else Some(if a.value >= b.value then a.value else b.value)
  }

  /** Array.prototype.reduce without an initial value: a left fold that starts from the first element. */
  function Reduce(s: seq<Option<int>>, dir: int): Option<int>
    requires |s| > 0
  {
    if |s| == 1 then s[0] else Combine(Reduce(s[..|s| - 1], dir), s[|s| - 1], dir)
  }

  /** `t` holds the numbers of `s`, all defined. */
  predicate AllDefined(t: seq<Option<int>>, s: seq<int>)
  {
    |t| == |s| && forall i :: 0 <= i < |s| ==> t[i] == Some(s[i])
  }

  /** Reducing defined numbers with Math.min gives a minimum, with Math.max a maximum: a value in the list that bounds all of them. */
  lemma {:induction false} ReduceBounds(t: seq<Option<int>>, s: seq<int>, dir: int)
    requires |s| > 0 && Pieces.IsDirection(dir) && AllDefined(t, s)
    ensures Reduce(t, dir).Some?
    ensures exists i :: 0 <= i < |s| && s[i] == Reduce(t, dir).value
    ensures forall i :: 0 <= i < |s| ==> if dir == 1 then Reduce(t, dir).value <= s[i] else s[i] <= Reduce(t, dir).value
  {
    if |s| > 1 {
      var init, tinit := s[..|s| - 1], t[..|s| - 1];
      ReduceBounds(tinit, init, dir);
      var w :| 0 <= w < |init| && init[w] == Reduce(tinit, dir).value;
      assert s[w] == init[w];
    }
  }

  /** The reduction over defined numbers is the C++ model's extreme: minimum for direction 1, maximum for -1. */
  lemma ReduceIsExtreme(t: seq<Option<int>>, s: seq<int>, dir: int)
    requires |s| > 0 && Pieces.IsDirection(dir) && AllDefined(t, s)
    ensures Reduce(t, dir) == Some(if dir == 1 then MinOf(s) else MaxOf(s))
  {
    ReduceBounds(t, s, dir);
    var r := Reduce(t, dir).value;
    var w :| 0 <= w < |s| && s[w] == r;
    if dir == 1 {
      MinOfUnique(s, w);
    } else {
      MaxOfUnique(s, w);
    }
  }

  /** The values `b[key]` of the absolute blocks, in order. */
  function FieldValues(p: JsPiece, key: string): (s: seq<Option<int>>)
    ensures |s| == |p.blocks|
  {
    var bs := GetBlocks(p);
    seq(|bs|, i requires 0 <= i < |bs| => Field(bs[i], key))
  }

  /** The translation that moves only the coordinate named by `key`; the zero vector for any other key. */
  function KeyVector(key: string, v: int): (d: Pos3d)
    ensures AxisOf(key).None? ==> d == Origin
  {
    match AxisOf(key)
    case Some(a) => AxisVector(a, v)
    case None => Origin
  }

  /**
   * Piece.prototype.translateBeyond: any direction but 1 and -1 throws, and
   * so does a piece without blocks (reduce of an empty array). Otherwise the
   * extreme of `b[axis]` over the absolute blocks (the minimum for 1, the
   * maximum for -1) is compared with `limit`; when it lies on the wrong side
   * the center moves along `axis` by the gap and the result reports true.
   * Undefined fields make the comparison false. Nothing but the center's
   * coordinate on `axis` can change.
   */
  function TranslateBeyond(p: JsPiece, axis: string, limit: int, dir: int): (r: Result<(JsPiece, bool), string>)
    ensures r.Err? <==> !Pieces.IsDirection(dir) || |p.blocks| == 0
    ensures r.Ok? ==> r.value.0.blocks == p.blocks
    ensures r.Ok? ==> forall a :: KeyOf(a) != axis ==> GetElement(r.value.0.center, a) == GetElement(p.center, a)
    ensures r.Ok? && !r.value.1 ==> r.value.0 == p
    ensures r.Ok? && AxisOf(axis).None? ==> r.value.0 == p
    ensures r.Ok? && r.value.1 && AxisOf(axis).None? ==> axis == "material"
  {
    if !Pieces.IsDirection(dir) then
      Err("invalid direction")
    else if |p.blocks| == 0 then
      Err("reduce of empty array with no initial value")
    else
      var extreme := Reduce(FieldValues(p, axis), dir);
      if extreme.Some? && (limit - extreme.value) * dir > 0 then
        var d := KeyVector(axis, (limit - extreme.value) * dir * dir);
        Ok((JsPiece(Sum(p.center, d), p.blocks), true))
      else
        Ok((p, false))
  }

  /** The coordinates on `a` of a C++ model piece's absolute blocks. */
  function AbsoluteCoords(p: Pieces.Piece, a: Axis): (s: seq<int>)
    ensures |s| == |p.blocks|
  {
    seq(|p.blocks|, i requires 0 <= i < |p.blocks| => GetElement(p.blocks[i].pos, a) + GetElement(p.center, a))
  }

  lemma FieldValuesAreAbsoluteCoords(p: Pieces.Piece, a: Axis)
    ensures AllDefined(FieldValues(ToJsPiece(p), KeyOf(a)), AbsoluteCoords(p, a))
  {
    var fv, abs := FieldValues(ToJsPiece(p), KeyOf(a)), AbsoluteCoords(p, a);
    forall i | 0 <= i < |abs|
      ensures fv[i] == Some(abs[i])
    {
    }
  }

  lemma AbsoluteExtrema(p: Pieces.Piece, a: Axis, dir: int)
    requires |p.blocks| > 0 && Pieces.IsDirection(dir)
    ensures (if dir == 1 then MinOf(AbsoluteCoords(p, a)) else MaxOf(AbsoluteCoords(p, a))) == Pieces.GetExtent(p, a, -dir)
  {
    ShiftedExtrema(Pieces.Coords(p.blocks, a), AbsoluteCoords(p, a), GetElement(p.center, a));
  }

  /** Over the absolute blocks, the reduction on a coordinate key is the C++ model's extent in the opposite direction. */
  lemma ReducedExtent(p: Pieces.Piece, a: Axis, dir: int)
    requires |p.blocks| > 0 && Pieces.IsDirection(dir)
    ensures Reduce(FieldValues(ToJsPiece(p), KeyOf(a)), dir) == Some(Pieces.GetExtent(p, a, -dir))
  {
    FieldValuesAreAbsoluteCoords(p, a);
    ReduceIsExtreme(FieldValues(ToJsPiece(p), KeyOf(a)), AbsoluteCoords(p, a), dir);
    AbsoluteExtrema(p, a, dir);
  }

  /**
   * On a coordinate key, translateBeyond is the C++ model's translatedBeyond
   * and reports true exactly when it moved the piece.
   */
  lemma {:induction false} TranslateBeyondAgreesWithCpp(p: Pieces.Piece, a: Axis, limit: int, dir: int)
    requires |p.blocks| > 0 && Pieces.IsDirection(dir)
    ensures var q := Pieces.TranslatedBeyond(p, a, limit, dir);
      TranslateBeyond(ToJsPiece(p), KeyOf(a), limit, dir) == Ok((ToJsPiece(q), q != p))
  {
    ReducedExtent(p, a, dir);
    KeyOfAxisOf(a);
    var q := Pieces.TranslatedBeyond(p, a, limit, dir);
    var diff := (limit - Pieces.GetExtent(p, a, -dir)) * dir;
    if diff > 0 {
      assert q.center == Sum(p.center, AxisVector(a, diff * dir));
      assert GetElement(q.center, a) != GetElement(p.center, a);
    }
  }

  /** On the key "material", translateBeyond compares the materials and may report true, but the piece never moves. */
  lemma MaterialKeyNeverMoves(p: JsPiece, limit: int, dir: int)
    requires |p.blocks| > 0 && Pieces.IsDirection(dir)
    ensures TranslateBeyond(p, "material", limit, dir).Ok?
    ensures TranslateBeyond(p, "material", limit, dir).value.0 == p
  {
  }

  /** The concrete quirk: a one-block piece of material 5 "moves" beyond 7 along "material" but stays where it was. */
  lemma MaterialKeyExample()
    ensures TranslateBeyond(JsPiece(Origin, [JsBlock(0, 0, 0, 5)]), "material", 7, 1) == Ok((JsPiece(Origin, [JsBlock(0, 0, 0, 5)]), true))
  {
    var p := JsPiece(Origin, [JsBlock(0, 0, 0, 5)]);
    assert FieldValues(p, "material") == [Some(5)];
    assert Reduce([Some(5)], 1) == Some(5);
    assert AxisOf("material").None?;
    assert KeyVector("material", 2) == Origin;
  }
}
