/**
 * The cemented blocks (class CementedBlockArray of cemented-block-array.hpp /
 * cemented-block-array.cpp): a dense grid over the game box holding, per
 * cell, an occupancy flag and a material, stored layer by layer, row by row.
 */
module Cemented {
  import opened Geometry
  import opened Outcomes
  import opened Boxes

  /** Why a grid operation aborts. */
  datatype Fault = OutsideBox | EmptyCell

  /**
   * The grid: `nonEmpty[i]` tells whether cell `i` is occupied and
   * `materials[i]` is its material (kept, stale, when the cell is cleared).
   */
  datatype Grid = Grid(box: GameBox, nonEmpty: seq<bool>, materials: seq<int>)

  /** A box with no negative dimension. */
  predicate ValidBox(box: GameBox)
  {
    0 <= box.dims.x && 0 <= box.dims.y && 0 <= box.dims.z
  }

  /** Both vectors hold one entry per cell of the box. */
  predicate Valid(g: Grid)
  {
    ValidBox(g.box) && |g.nonEmpty| == g.box.Size() && |g.materials| == g.box.Size()
  }

  /** Flat index of a cell: whole layers below it, then whole rows, then its column. */
  function PosToIndex(box: GameBox, p: Pos3d): int
  {
    p.z * box.dims.x * box.dims.y + p.y * box.dims.x + p.x
  }

  /** `a * m + b` with `b` a digit in [0, m) stays below `n * m` when `a` is below `n`. */
  lemma MixedBound(a: int, b: int, n: int, m: int)
    requires 0 <= a < n && 0 <= b < m
    ensures 0 <= a * m + b < n * m
  {
    var k := n - (a + 1);
    assert a * m >= 0;
    assert k * m >= 0;
    assert (a + 1) * m == a * m + m;
    assert n * m == (a + 1) * m + k * m;
  }

  lemma MixedLess(a1: int, b1: int, a2: int, b2: int, m: int)
    requires 0 <= b1 < m && 0 <= b2 < m && a1 < a2
    ensures a1 * m + b1 < a2 * m + b2
  {
    var k := a2 - a1;
    assert a2 * m == a1 * m + k * m;
    assert k * m >= m by {
      assert (k - 1) * m >= 0;
    }
  }

  /** Numbers written with a digit `b` in [0, m) compare by their high part first, then by the digit. */
  lemma MixedOrder(a1: int, b1: int, a2: int, b2: int, m: int)
    requires 0 <= b1 < m && 0 <= b2 < m
    ensures a1 * m + b1 < a2 * m + b2 <==> a1 < a2 || (a1 == a2 && b1 < b2)
  {
    if a1 < a2 {
      MixedLess(a1, b1, a2, b2, m);
    } else if a2 < a1 {
      MixedLess(a2, b2, a1, b1, m);
    }
  }

  /** The flat index as a layer number, in units of whole layers, plus the index within the layer. */
  lemma IndexByLayer(box: GameBox, p: Pos3d)
    ensures PosToIndex(box, p) == p.z * (box.dims.y * box.dims.x) + (p.y * box.dims.x + p.x)
    ensures box.Size() == box.dims.z * (box.dims.y * box.dims.x)
  {
    assert p.z * box.dims.x * box.dims.y == p.z * (box.dims.y * box.dims.x);
    assert box.dims.x * box.dims.y * box.dims.z == box.dims.z * (box.dims.y * box.dims.x);
  }

  /** The flat index of a cell of the box lies in [0, size). */
  lemma PosToIndexInRange(box: GameBox, p: Pos3d)
    requires box.Contains(p)
    ensures 0 <= PosToIndex(box, p) < box.Size()
  {
    IndexByLayer(box, p);
    MixedBound(p.y, p.x, box.dims.y, box.dims.x);
    MixedBound(p.z, p.y * box.dims.x + p.x, box.dims.z, box.dims.y * box.dims.x);
  }

  /** Enumeration order: by layer, then row, then column. */
  predicate Before(p: Pos3d, q: Pos3d)
  {
    p.z < q.z || (p.z == q.z && (p.y < q.y || (p.y == q.y && p.x < q.x)))
  }

  /** Within the box, the enumeration order is the order of flat indices. */
  lemma BeforeIsIndexOrder(box: GameBox, p: Pos3d, q: Pos3d)
    requires box.Contains(p) && box.Contains(q)
    ensures Before(p, q) <==> PosToIndex(box, p) < PosToIndex(box, q)
  {
    var dx, dy := box.dims.x, box.dims.y;
    IndexByLayer(box, p);
    IndexByLayer(box, q);
    MixedBound(p.y, p.x, dy, dx);
    MixedBound(q.y, q.x, dy, dx);
    MixedOrder(p.z, p.y * dx + p.x, q.z, q.y * dx + q.x, dy * dx);
    MixedOrder(p.y, p.x, q.y, q.x, dx);
  }

  /** Distinct cells of the box have distinct flat indices. */
  lemma PosToIndexInjective(box: GameBox, p: Pos3d, q: Pos3d)
    requires box.Contains(p) && box.Contains(q)
    ensures PosToIndex(box, p) == PosToIndex(box, q) <==> p == q
  {
    BeforeIsIndexOrder(box, p, q);
    BeforeIsIndexOrder(box, q, p);
  }

  /** What a cell holds: `Some(material)` when occupied, `None` when empty. */
  function Cell(g: Grid, p: Pos3d): Option<int>
    requires Valid(g) && g.box.Contains(p)
  {
    PosToIndexInRange(g.box, p);
    var i := PosToIndex(g.box, p);
    if g.nonEmpty[i] then Some(g.materials[i]) else None
  }

  /** The constructor: one cell per position of the box, all of them empty. */
  function Init(box: GameBox): (g: Grid)
    requires ValidBox(box)
    ensures Valid(g) && g.box == box
  {
    SizeNonNegative(box);
    Grid(box, seq(box.Size(), _ => false), seq(box.Size(), _ => 0))
  }

  /** A fresh grid has every cell empty. */
  lemma InitIsEmpty(box: GameBox, p: Pos3d)
    requires ValidBox(box) && box.Contains(p)
    ensures Cell(Init(box), p) == None
  {
    PosToIndexInRange(box, p);
  }

  lemma SizeNonNegative(box: GameBox)
    requires ValidBox(box)
    ensures 0 <= box.Size()
  {
    assert 0 <= box.dims.x * box.dims.y;
  }

  /** hasBlock: whether the cell is occupied; a position outside the box aborts. */
  function HasBlock(g: Grid, p: Pos3d): (r: Result<bool, Fault>)
    requires Valid(g)
    ensures r.Err? <==> !g.box.Contains(p)
    ensures g.box.Contains(p) ==> r == Ok(Cell(g, p).Some?)
  {
    if !g.box.Contains(p) then Err(OutsideBox)
    else
      PosToIndexInRange(g.box, p);
      Ok(g.nonEmpty[PosToIndex(g.box, p)])
  }

  /** getBlockMaterial: the material of an occupied cell; an empty cell or a position outside the box aborts. */
  function GetBlockMaterial(g: Grid, p: Pos3d): (r: Result<int, Fault>)
    requires Valid(g)
    ensures !g.box.Contains(p) ==> r == Err(OutsideBox)
    ensures g.box.Contains(p) ==> (r.Ok? <==> Cell(g, p).Some?)
    ensures r.Ok? ==> g.box.Contains(p) && Cell(g, p) == Some(r.value)
  {
    match HasBlock(g, p)
    case Err(f) => Err(f)
    case Ok(occupied) =>
      if !occupied then Err(EmptyCell)
      else
        PosToIndexInRange(g.box, p);
        Ok(g.materials[PosToIndex(g.box, p)])
  }

  /** setBlock: occupy the block's cell with its material; a position outside the box aborts. */
  function SetBlock(g: Grid, b: Block): (r: Result<Grid, Fault>)
    requires Valid(g)
    ensures r.Err? <==> !g.box.Contains(b.pos)
    ensures r.Ok? ==> Valid(r.value) && r.value.box == g.box
  {
    if !g.box.Contains(b.pos) then Err(OutsideBox)
    else
      PosToIndexInRange(g.box, b.pos);
      var i := PosToIndex(g.box, b.pos);
      Ok(Grid(g.box, g.nonEmpty[i := true], g.materials[i := b.material]))
  }

  /** After setBlock the block's cell holds its material and every other cell is unchanged. */
  lemma SetBlockCells(g: Grid, b: Block, q: Pos3d)
    requires Valid(g) && g.box.Contains(b.pos) && g.box.Contains(q)
    ensures SetBlock(g, b).Ok?
    ensures Cell(SetBlock(g, b).value, q) == if q == b.pos then Some(b.material) else Cell(g, q)
  {
    PosToIndexInRange(g.box, b.pos);
    PosToIndexInRange(g.box, q);
    PosToIndexInjective(g.box, b.pos, q);
  }

  /** clearBlock: empty the cell, leaving its stored material behind. */
  function ClearBlock(g: Grid, p: Pos3d): (r: Grid)
    requires Valid(g) && g.box.Contains(p)
    ensures Valid(r) && r.box == g.box && r.materials == g.materials
  {
    PosToIndexInRange(g.box, p);
    Grid(g.box, g.nonEmpty[PosToIndex(g.box, p) := false], g.materials)
  }

  /** After clearBlock the cell is empty and every other cell is unchanged. */
  lemma ClearBlockCells(g: Grid, p: Pos3d, q: Pos3d)
    requires Valid(g) && g.box.Contains(p) && g.box.Contains(q)
    ensures Cell(ClearBlock(g, p), q) == if q == p then None else Cell(g, q)
  {
    PosToIndexInRange(g.box, p);
    PosToIndexInRange(g.box, q);
    PosToIndexInjective(g.box, p, q);
  }

  /** Every cell of layer `z` is occupied. */
  predicate LayerFull(g: Grid, z: int)
    requires Valid(g) && 0 <= z < g.box.dims.z
  {
    forall x, y :: 0 <= x < g.box.dims.x && 0 <= y < g.box.dims.y ==> Cell(g, Pos3d(x, y, z)).Some?
  }

  /**
   * isLayerFull: column by column, row by row, stopping at the first empty
   * cell. A layer outside the box aborts in the first hasBlock, unless the
   * layer has no cells at all, in which case it is reported full.
   */
  method IsLayerFull(g: Grid, z: int) returns (r: Result<bool, Fault>)
    requires Valid(g)
    ensures 0 <= z < g.box.dims.z ==> r == Ok(LayerFull(g, z))
    ensures !(0 <= z < g.box.dims.z) ==>
      r == if 0 < g.box.dims.x && 0 < g.box.dims.y then Err(OutsideBox) else Ok(true)
  {
    var x := 0;
    while x < g.box.dims.x
      invariant 0 <= x <= g.box.dims.x
      invariant x > 0 && 0 < g.box.dims.y ==> 0 <= z < g.box.dims.z
      invariant 0 <= z < g.box.dims.z ==>
        forall x', y' :: 0 <= x' < x && 0 <= y' < g.box.dims.y ==> Cell(g, Pos3d(x', y', z)).Some?
    {
      var y := 0;
      while y < g.box.dims.y
        invariant 0 <= y <= g.box.dims.y
        invariant (x > 0 && 0 < g.box.dims.y) || y > 0 ==> 0 <= z < g.box.dims.z
        invariant 0 <= z < g.box.dims.z ==>
          forall x', y' :: 0 <= x' < x && 0 <= y' < g.box.dims.y ==> Cell(g, Pos3d(x', y', z)).Some?
        invariant 0 <= z < g.box.dims.z ==> forall y' :: 0 <= y' < y ==> Cell(g, Pos3d(x, y', z)).Some?
      {
        var has := HasBlock(g, Pos3d(x, y, z));
        if has.Err? {
          return Err(has.error);
        }
        if !has.value {
          return Ok(false);
        }
        y := y + 1;
      }
      x := x + 1;
    }
    return Ok(true);
  }

  /** What removeLayer leaves in cell `p`: layer `z` takes the cell above it (nothing above the top layer); other layers keep theirs. */
  function AfterRemoval(g: Grid, z: int, p: Pos3d): Option<int>
    requires Valid(g) && 0 <= z < g.box.dims.z && g.box.Contains(p)
  {
    if p.z != z then Cell(g, p)
    else if z == g.box.dims.z - 1 then None
    else Cell(g, Pos3d(p.x, p.y, z + 1))
  }

  /**
   * removeLayer: every cell of layer `z` takes the occupancy and material of
   * the cell directly above it, or becomes empty in the top layer. Only
   * layer `z` is rewritten; the layers above it are not moved down.
   */
  method RemoveLayer(g: Grid, z: int) returns (r: Grid)
    requires Valid(g) && 0 <= z < g.box.dims.z
    ensures Valid(r) && r.box == g.box
    ensures forall p :: g.box.Contains(p) ==> Cell(r, p) == AfterRemoval(g, z, p)
  {
    var box := g.box;
    r := g;
    var x := 0;
    while x < box.dims.x
      invariant 0 <= x <= box.dims.x
      invariant Valid(r) && r.box == box
      invariant forall p :: box.Contains(p) ==>
        Cell(r, p) == if p.z == z && p.x < x then AfterRemoval(g, z, p) else Cell(g, p)
    {
      var y := 0;
      while y < box.dims.y
        invariant 0 <= y <= box.dims.y
        invariant Valid(r) && r.box == box
        invariant forall p :: box.Contains(p) ==>
          Cell(r, p) == if p.z == z && (p.x < x || (p.x == x && p.y < y)) then AfterRemoval(g, z, p) else Cell(g, p)
      {
        var pos, top := Pos3d(x, y, z), Pos3d(x, y, z + 1);
        var prev := r;
        if z == box.dims.z - 1 || HasBlock(r, top) != Ok(true) {
          r := ClearBlock(r, pos);
          forall p | box.Contains(p)
            ensures Cell(r, p) == if p == pos then None else Cell(prev, p)
          {
            ClearBlockCells(prev, pos, p);
          }
        } else {
          var m := GetBlockMaterial(r, top).value;
          r := SetBlock(r, Block(pos, m)).value;
          forall p | box.Contains(p)
            ensures Cell(r, p) == if p == pos then Some(m) else Cell(prev, p)
          {
            SetBlockCells(prev, Block(pos, m), p);
          }
        }
        y := y + 1;
      }
      x := x + 1;
    }
  }

  /** Below the top, the rewritten layer is full exactly when the layer above it was. */
  lemma {:induction false} RemovedLayerFull(g: Grid, r: Grid, z: int)
    requires Valid(g) && Valid(r) && r.box == g.box && 0 <= z < g.box.dims.z
    requires forall p :: g.box.Contains(p) ==> Cell(r, p) == AfterRemoval(g, z, p)
    ensures z < g.box.dims.z - 1 ==> (LayerFull(r, z) <==> LayerFull(g, z + 1))
    ensures z == g.box.dims.z - 1 && 0 < g.box.dims.x && 0 < g.box.dims.y ==> !LayerFull(r, z)
  {
    if z < g.box.dims.z - 1 {
      if LayerFull(g, z + 1) {
        forall x, y | 0 <= x < g.box.dims.x && 0 <= y < g.box.dims.y
          ensures Cell(r, Pos3d(x, y, z)).Some?
        {
          assert Cell(g, Pos3d(x, y, z + 1)).Some?;
        }
      }
      var above := z + 1;
      if LayerFull(r, z) {
        forall x, y | 0 <= x < g.box.dims.x && 0 <= y < g.box.dims.y
          ensures Cell(g, Pos3d(x, y, above)).Some?
        {
          assert Cell(r, Pos3d(x, y, z)).Some?;
        }
      }
    } else if 0 < g.box.dims.x && 0 < g.box.dims.y {
      assert Cell(r, Pos3d(0, 0, z)) == None;
    }
  }

  /**
   * `blocks` lists, each with its material and in enumeration order, exactly
   * the occupied cells that come before `bound`.
   */
  ghost predicate ListedBefore(g: Grid, blocks: seq<Block>, bound: Pos3d)
    requires Valid(g)
  {
    && (forall i :: 0 <= i < |blocks| ==>
         g.box.Contains(blocks[i].pos) && Cell(g, blocks[i].pos) == Some(blocks[i].material) &&
         Before(blocks[i].pos, bound))
    && (forall p :: g.box.Contains(p) && Before(p, bound) && Cell(g, p).Some? ==>
         exists i :: 0 <= i < |blocks| && blocks[i].pos == p)
    && (forall i, j :: 0 <= i < j < |blocks| ==> Before(blocks[i].pos, blocks[j].pos))
  }

  /** Two bounds that no cell of the box tells apart list the same blocks. */
  lemma ListedSameCells(g: Grid, blocks: seq<Block>, b1: Pos3d, b2: Pos3d)
    requires Valid(g) && ListedBefore(g, blocks, b1)
    requires forall p :: g.box.Contains(p) ==> (Before(p, b1) <==> Before(p, b2))
    ensures ListedBefore(g, blocks, b2)
  {
  }

  /** Visiting one cell of the box extends the listing up to the next column. */
  lemma {:induction false} ListedStep(g: Grid, blocks: seq<Block>, pos: Pos3d)
    requires Valid(g) && g.box.Contains(pos) && ListedBefore(g, blocks, pos)
    ensures var next := if Cell(g, pos).Some? then blocks + [Block(pos, Cell(g, pos).value)] else blocks;
      ListedBefore(g, next, Pos3d(pos.x + 1, pos.y, pos.z))
  {
    var bound := Pos3d(pos.x + 1, pos.y, pos.z);
    var next := if Cell(g, pos).Some? then blocks + [Block(pos, Cell(g, pos).value)] else blocks;
    forall p | g.box.Contains(p) && Before(p, bound) && Cell(g, p).Some?
      ensures exists i :: 0 <= i < |next| && next[i].pos == p
    {
      if p == pos {
        assert next[|next| - 1].pos == p;
      } else {
        assert Before(p, pos);
        var i :| 0 <= i < |blocks| && blocks[i].pos == p;
        assert next[i].pos == p;
      }
    }
  }

  /** The innermost loop of getNonEmptyBlocks: one row, column by column. */
  method ScanRow(g: Grid, blocks: seq<Block>, y: int, z: int) returns (out: seq<Block>)
    requires Valid(g) && 0 <= y < g.box.dims.y && 0 <= z < g.box.dims.z
    requires ListedBefore(g, blocks, Pos3d(0, y, z))
    ensures ListedBefore(g, out, Pos3d(0, y + 1, z))
  {
    out := blocks;
    var x := 0;
    while x < g.box.dims.x
      invariant 0 <= x <= g.box.dims.x
      invariant ListedBefore(g, out, Pos3d(x, y, z))
    {
      var pos := Pos3d(x, y, z);
      ListedStep(g, out, pos);
      if HasBlock(g, pos) == Ok(true) {
        out := out + [Block(pos, GetBlockMaterial(g, pos).value)];
      }
      x := x + 1;
    }
    ListedSameCells(g, out, Pos3d(x, y, z), Pos3d(0, y + 1, z));
  }

  /**
   * getNonEmptyBlocks: the occupied cells with their materials, layer by
   * layer, row by row, column by column; each occupied cell appears once.
   */
  method GetNonEmptyBlocks(g: Grid) returns (blocks: seq<Block>)
    requires Valid(g)
    ensures forall i :: 0 <= i < |blocks| ==>
      g.box.Contains(blocks[i].pos) && Cell(g, blocks[i].pos) == Some(blocks[i].material)
    ensures forall p :: g.box.Contains(p) && Cell(g, p).Some? ==>
      exists i :: 0 <= i < |blocks| && blocks[i].pos == p
    ensures forall i, j :: 0 <= i < j < |blocks| ==> Before(blocks[i].pos, blocks[j].pos)
  {
    var box := g.box;
    blocks := [];
    var z := 0;
    while z < box.dims.z
      invariant 0 <= z <= box.dims.z
      invariant ListedBefore(g, blocks, Pos3d(0, 0, z))
    {
      var y := 0;
      while y < box.dims.y
        invariant 0 <= y <= box.dims.y
        invariant ListedBefore(g, blocks, Pos3d(0, y, z))
      {
        blocks := ScanRow(g, blocks, y, z);
        y := y + 1;
      }
      ListedSameCells(g, blocks, Pos3d(0, y, z), Pos3d(0, 0, z + 1));
      z := z + 1;
    }
  }

  /** A freshly constructed array lists no blocks. */
  method FreshArrayListsNothing(box: GameBox) returns (blocks: seq<Block>)
    requires ValidBox(box)
    ensures blocks == []
  {
    blocks := GetNonEmptyBlocks(Init(box));
    if |blocks| > 0 {
      InitIsEmpty(box, blocks[0].pos);
    }
  }
}
