/**
 * The material-less JavaScript variant of blocks and pieces (game.js):
 * blocks carry only x, y and z, and the Piece constructor takes blocks
 * alone, so every piece starts with its center at the origin. The code is
 * otherwise the same as pieces.js; the agreement lemmas below show that
 * erasing the material commutes with every operation, except that
 * `translateBeyond` on the key "material" finds no number here.
 */
module JsGame {
  import opened Outcomes
  import opened Geometry
  import JsPieces

  datatype GameBlock = GameBlock(x: int, y: int, z: int)

  datatype GamePiece = GamePiece(center: Pos3d, blocks: seq<GameBlock>)

  function Coordinate(b: GameBlock, a: Axis): int
  {
    match a
    case X => b.x
    case Y => b.y
    case Z => b.z
  }

  function WithCoordinate(b: GameBlock, a: Axis, v: int): GameBlock
  {
    match a
    case X => b.(x := v)
    case Y => b.(y := v)
    case Z => b.(z := v)
  }

  /** Reading `b[key]`: only the three coordinates are numbers. */
  function Field(b: GameBlock, key: string): Option<int>
  {
    match JsPieces.AxisOf(key)
    case Some(a) => Some(Coordinate(b, a))
    case None => None
  }

  /** Block.rotated: the exchanged pair (a, b) becomes (-sign * b, sign * a); an unknown axis throws. */
  function Rotated(b: GameBlock, axis: string, sign: int): (r: Result<GameBlock, string>)
    ensures r.Err? <==> JsPieces.AxisOf(axis).None?
    ensures r.Ok? ==> Coordinate(r.value, JsPieces.AxisOf(axis).value) == Coordinate(b, JsPieces.AxisOf(axis).value)
  {
    match JsPieces.ExchangedKeys(axis)
    case None => Err("invalid axis " + axis)
    case Some((a0, a1)) =>
      Ok(WithCoordinate(WithCoordinate(b, a0, -sign * Coordinate(b, a1)), a1, sign * Coordinate(b, a0)))
  }

  function Translated(b: GameBlock, dx: int, dy: int, dz: int): GameBlock
  {
    GameBlock(b.x + dx, b.y + dy, b.z + dz)
  }

  /** The Piece constructor: the given blocks with the center at the origin. */
  function NewPiece(blocks: seq<GameBlock>): (p: GamePiece)
    ensures p.center == Origin && p.blocks == blocks
  {
    GamePiece(Origin, blocks)
  }

  /** Piece.rotate: every relative block turned, the center kept; an unknown axis throws unless there are no blocks. */
  function Rotate(p: GamePiece, axis: string, sign: int): (r: Result<GamePiece, string>)
    ensures r.Err? <==> |p.blocks| > 0 && JsPieces.AxisOf(axis).None?
    ensures r.Ok? ==> r.value.center == p.center && |r.value.blocks| == |p.blocks|
    ensures r.Ok? ==> forall i :: 0 <= i < |p.blocks| ==> Rotated(p.blocks[i], axis, sign) == Ok(r.value.blocks[i])
  {
    if |p.blocks| > 0 && JsPieces.AxisOf(axis).None? then
      Err("invalid axis " + axis)
    else
      Ok(GamePiece(p.center, seq(|p.blocks|, i requires 0 <= i < |p.blocks| => Rotated(p.blocks[i], axis, sign).value)))
  }

  /** Piece.translate: the center moves, the relative blocks are untouched. */
  function Translate(p: GamePiece, dx: int, dy: int, dz: int): (r: GamePiece)
    ensures r.blocks == p.blocks
    ensures r.center == Sum(p.center, Pos3d(dx, dy, dz))
  {
    GamePiece(Pos3d(p.center.x + dx, p.center.y + dy, p.center.z + dz), p.blocks)
  }

  /** Piece.getBlocks: each relative block moved by the center, in order. */
  function GetBlocks(p: GamePiece): (r: seq<GameBlock>)
    ensures |r| == |p.blocks|
  {
    seq(|p.blocks|, i requires 0 <= i < |p.blocks| => Translated(p.blocks[i], p.center.x, p.center.y, p.center.z))
  }

  function FieldValues(p: GamePiece, key: string): (s: seq<Option<int>>)
    ensures |s| == |p.blocks|
  {
    var bs := GetBlocks(p);
    seq(|bs|, i requires 0 <= i < |bs| => Field(bs[i], key))
  }

  /**
   * Piece.prototype.translateBeyond, as in pieces.js: a direction other than
   * 1 and -1 throws, and so does a piece without blocks; otherwise the center
   * moves along `axis` when the extreme overshoots `limit`.
   */
  function TranslateBeyond(p: GamePiece, axis: string, limit: int, dir: int): (r: Result<(GamePiece, bool), string>)
    ensures r.Err? <==> !(dir == 1 || dir == -1) || |p.blocks| == 0
    ensures r.Ok? ==> r.value.0.blocks == p.blocks
    ensures r.Ok? ==> forall a :: JsPieces.KeyOf(a) != axis ==> GetElement(r.value.0.center, a) == GetElement(p.center, a)
    ensures r.Ok? && JsPieces.AxisOf(axis).None? ==> r.value == (p, false)
    ensures r.Ok? && !r.value.1 ==> r.value.0 == p
  {
    if !(dir == 1 || dir == -1) then
      Err("invalid direction")
    else if |p.blocks| == 0 then
      Err("reduce of empty array with no initial value")
    else
      var extreme := JsPieces.Reduce(FieldValues(p, axis), dir);
      if extreme.Some? && (limit - extreme.value) * dir > 0 then
        var d := JsPieces.KeyVector(axis, (limit - extreme.value) * dir * dir);
        Ok((GamePiece(Sum(p.center, d), p.blocks), true))
      else
        Ok((p, false))
  }

  /** A block of pieces.js without its material. */
  function Erase(b: JsPieces.JsBlock): GameBlock
  {
    GameBlock(b.x, b.y, b.z)
  }

  function EraseAll(bs: seq<JsPieces.JsBlock>): (r: seq<GameBlock>)
    ensures |r| == |bs|
  {
    seq(|bs|, i requires 0 <= i < |bs| => Erase(bs[i]))
  }

  function ErasePiece(p: JsPieces.JsPiece): GamePiece
  {
    GamePiece(p.center, EraseAll(p.blocks))
  }

  lemma RotatedAgrees(b: JsPieces.JsBlock, axis: string, sign: int)
    ensures Rotated(Erase(b), axis, sign) ==
      match JsPieces.Rotated(b, axis, sign)
      case Ok(v) => Ok(Erase(v))
      case Err(e) => Err(e)
  {
  }

  lemma {:induction false} RotateAgrees(p: JsPieces.JsPiece, axis: string, sign: int)
    ensures Rotate(ErasePiece(p), axis, sign) ==
      match JsPieces.Rotate(p, axis, sign)
      case Ok(q) => Ok(ErasePiece(q))
      case Err(e) => Err(e)
  {
    var r, q := Rotate(ErasePiece(p), axis, sign), JsPieces.Rotate(p, axis, sign);
    if q.Ok? {
      forall i | 0 <= i < |p.blocks|
        ensures r.value.blocks[i] == ErasePiece(q.value).blocks[i]
      {
        RotatedAgrees(p.blocks[i], axis, sign);
      }
      assert r.value.blocks == ErasePiece(q.value).blocks;
    }
  }

  /** Block.translated of game.js is that of pieces.js with the material erased. */
  lemma TranslatedAgrees(b: JsPieces.JsBlock, dx: int, dy: int, dz: int)
    ensures Translated(Erase(b), dx, dy, dz) == Erase(JsPieces.Translated(b, dx, dy, dz))
  {
  }

  lemma TranslateAgrees(p: JsPieces.JsPiece, dx: int, dy: int, dz: int)
    ensures Translate(ErasePiece(p), dx, dy, dz) == ErasePiece(JsPieces.Translate(p, dx, dy, dz))
  {
  }

  lemma GetBlocksAgrees(p: JsPieces.JsPiece)
    ensures GetBlocks(ErasePiece(p)) == EraseAll(JsPieces.GetBlocks(p))
  {
  }

  /** On every key but "material" the two block types read the same fields. */
  lemma FieldValuesAgree(p: JsPieces.JsPiece, key: string)
    requires key != "material"
    ensures FieldValues(ErasePiece(p), key) == JsPieces.FieldValues(p, key)
  {
    var s, t := FieldValues(ErasePiece(p), key), JsPieces.FieldValues(p, key);
    forall i | 0 <= i < |s|
      ensures s[i] == t[i]
    {
    }
  }

  /** translateBeyond of game.js is the one of pieces.js, the material aside, on every key but "material". */
  lemma TranslateBeyondAgrees(p: JsPieces.JsPiece, axis: string, limit: int, dir: int)
    requires axis != "material"
    ensures TranslateBeyond(ErasePiece(p), axis, limit, dir) ==
      match JsPieces.TranslateBeyond(p, axis, limit, dir)
      case Ok((q, moved)) => Ok((ErasePiece(q), moved))
      case Err(e) => Err(e)
  {
    if (dir == 1 || dir == -1) && |p.blocks| > 0 {
      FieldValuesAgree(p, axis);
    }
  }

  /** Unlike pieces.js, the key "material" is undefined here, so translateBeyond reports false and leaves the piece. */
  lemma MaterialKeyIsUndefined(p: GamePiece, limit: int, dir: int)
    requires |p.blocks| > 0 && (dir == 1 || dir == -1)
    ensures TranslateBeyond(p, "material", limit, dir) == Ok((p, false))
  {
  }
}
