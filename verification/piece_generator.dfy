/**
 * The deterministic part of the piece generator (class PieceGenerator of
 * piece-generator.hpp / piece-generator.cpp). The values the generator draws
 * from its random engine (through its uniform distributions) are parameters.
 */
module Generator {
  import opened Geometry
  import opened Extrema
  import opened Pieces
  import opened Boxes

  /** Materials are drawn from [0, NumberOfMaterials). */
  const NumberOfMaterials := 10

  /** The number of prototypes. */
  const NumberOfPrototypes := 8

  /** The four-block prototypes, as positions relative to the piece center, in table order. */
  function Prototype(k: int): seq<Pos3d>
    requires 0 <= k < NumberOfPrototypes
  {
    match k
    case 0 => [Pos3d(-1, 0, 0), Pos3d(0, 0, 0), Pos3d(0, 1, 0), Pos3d(1, 1, 0)]
    case 1 => [Pos3d(-1, 0, 0), Pos3d(0, 0, 0), Pos3d(1, 0, 0), Pos3d(2, 0, 0)]
    case 2 => [Pos3d(-1, 0, 0), Pos3d(0, 0, 0), Pos3d(1, 0, 0), Pos3d(1, 1, 0)]
    case 3 => [Pos3d(-1, 0, 0), Pos3d(0, 0, 0), Pos3d(1, 0, 0), Pos3d(0, 1, 0)]
    case 4 => [Pos3d(0, 0, 0), Pos3d(0, 1, 0), Pos3d(1, 0, 0), Pos3d(1, 1, 0)]
    case 5 => [Pos3d(-1, 0, 0), Pos3d(0, 0, 0), Pos3d(0, 1, 1), Pos3d(0, 1, 0)]
    case 6 => [Pos3d(-1, 0, 0), Pos3d(0, 0, 0), Pos3d(-1, 0, 1), Pos3d(0, 1, 0)]
    case _ => [Pos3d(0, 0, 0), Pos3d(1, 0, 0), Pos3d(0, 1, 0), Pos3d(0, 0, 1)]
  }

  /** Every coordinate of `p` lies in [-1, 2]. */
  predicate SmallPos(p: Pos3d)
  {
    -1 <= p.x <= 2 && -1 <= p.y <= 2 && -1 <= p.z <= 2
  }

  /**
   * Every prototype has four positions, one of them (the one returned) at
   * the center, and coordinates in [-1, 2].
   */
  lemma PrototypeShape(k: int) returns (c: int)
    requires 0 <= k < NumberOfPrototypes
    ensures |Prototype(k)| == 4 && 0 <= c < 4 && Prototype(k)[c] == Origin
    ensures forall j :: 0 <= j < 4 ==> SmallPos(Prototype(k)[j])
  {
    c := if k == 4 || k == 7 then 0 else 1;
  }

  /** prototypeToPiece: one block per position, all of the given material, centered at the origin. */
  function PrototypeToPiece(ps: seq<Pos3d>, material: int): (p: Piece)
    ensures p.center == Origin && |p.blocks| == |ps|
    ensures forall i :: 0 <= i < |ps| ==> p.blocks[i] == Block(ps[i], material)
  {
    Piece(Origin, seq(|ps|, i requires 0 <= i < |ps| => Block(ps[i], material)))
  }

  /** C++ integer division, which truncates toward zero. */
  function TruncDiv(a: int, b: int): int
    requires b > 0
  {
    if a >= 0 then a / b else -((-a) / b)
  }

  /** Where a new piece is put before it is turned: above the middle of the box, five layers over the top. */
  function SpawnOffset(box: GameBox): Pos3d
  {
    Pos3d(TruncDiv(box.dims.x, 2), TruncDiv(box.dims.y, 2), box.dims.z + 5)
  }

  /** `n` equal quarter turns. */
  function RotatedN(p: Piece, rot: Rotation, n: nat): Piece
  {
    if n == 0 then p else Rotated(RotatedN(p, rot, n - 1), rot)
  }

  /** Quarter turns keep the center, the number of blocks, each block's material and a block at the center. */
  lemma {:induction false} RotatedNKeeps(p: Piece, rot: Rotation, n: nat)
    ensures RotatedN(p, rot, n).center == p.center
    ensures |RotatedN(p, rot, n).blocks| == |p.blocks|
    ensures forall i :: 0 <= i < |p.blocks| ==>
      RotatedN(p, rot, n).blocks[i].material == p.blocks[i].material &&
      (p.blocks[i].pos == Origin ==> RotatedN(p, rot, n).blocks[i].pos == Origin)
  {
    if n > 0 {
      RotatedNKeeps(p, rot, n - 1);
      var q := RotatedN(p, rot, n - 1);
      forall i | 0 <= i < |p.blocks| && p.blocks[i].pos == Origin
        ensures Rotated(q, rot).blocks[i].pos == Origin
      {
        RotatedKeepsCenterBlock(q, rot, i);
      }
    }
  }

  /** No span of the piece exceeds `k`. */
  predicate SpansWithin(p: Piece, k: int)
    requires |p.blocks| > 0
  {
    forall ax :: Span(p, ax) <= k
  }

  /** A quarter turn permutes the spans, so a bound on all of them survives it. */
  lemma {:induction false} RotatedNSpans(p: Piece, rot: Rotation, n: nat, k: int)
    requires |p.blocks| > 0 && SpansWithin(p, k)
    ensures |RotatedN(p, rot, n).blocks| > 0 && SpansWithin(RotatedN(p, rot, n), k)
  {
    if n > 0 {
      RotatedNSpans(p, rot, n - 1, k);
      var q := RotatedN(p, rot, n - 1);
      forall ax
        ensures Span(Rotated(q, rot), ax) <= k
      {
        SpanRotated(q, rot, ax);
      }
    }
  }

  /** A piece whose relative coordinates all lie in [-1, 2] spans at most 4 cells on every axis. */
  lemma SmallPieceSpans(p: Piece)
    requires |p.blocks| > 0 && forall i :: 0 <= i < |p.blocks| ==> SmallPos(p.blocks[i].pos)
    ensures SpansWithin(p, 4)
  {
    forall ax
      ensures Span(p, ax) <= 4
    {
      var s := Coords(p.blocks, ax);
      var hi :| 0 <= hi < |s| && s[hi] == MaxOf(s);
      var lo :| 0 <= lo < |s| && s[lo] == MinOf(s);
      assert SmallPos(p.blocks[hi].pos) && SmallPos(p.blocks[lo].pos);
    }
  }

  /**
   * The draws from `start` on ask for exactly `n` turns: the loop test
   * `i < draw` holds for the draws before turn `n` and fails for the next one.
   */
  predicate TurnRun(draws: seq<int>, start: nat, n: nat)
  {
    && start + n < |draws|
    && draws[start + n] <= n
    && forall j :: start <= j < start + n ==> j - start < draws[j]
  }

  /**
   * The turning loop of randomTransformation for one axis: before each turn
   * a fresh count is drawn from [0, 4], and turning stops once the number of
   * turns made reaches the draw. It stops after at most four turns, having
   * used one draw more than the turns it made.
   */
  method ApplyTurns(p: Piece, axis: Axis, draws: seq<int>, start: nat) returns (q: Piece, turns: nat)
    requires start + 5 <= |draws| && forall j :: 0 <= j < |draws| ==> 0 <= draws[j] <= 4
    ensures turns <= 4
    ensures q == RotatedN(p, Rotation(axis, CCW), turns)
    ensures TurnRun(draws, start, turns)
  {
    q := p;
    turns := 0;
    while turns < draws[start + turns]
      invariant 0 <= turns <= 4
      invariant q == RotatedN(p, Rotation(axis, CCW), turns)
      invariant forall j :: start <= j < start + turns ==> j - start < draws[j]
      decreases 4 - turns
    {
      q := Rotated(q, Rotation(axis, CCW));
      turns := turns + 1;
    }
  }

  /**
   * The three turning loops of randomTransformation: counter-clockwise
   * quarter turns about X, then Y, then Z, each run reading its draws where
   * the previous one stopped.
   */
  method TurnAll(p: Piece, draws: seq<int>) returns (q: Piece, nx: nat, ny: nat, nz: nat)
    requires |draws| >= 15 && forall j :: 0 <= j < |draws| ==> 0 <= draws[j] <= 4
    ensures nx <= 4 && ny <= 4 && nz <= 4
    ensures TurnRun(draws, 0, nx) && TurnRun(draws, nx + 1, ny) && TurnRun(draws, nx + ny + 2, nz)
    ensures q == Turned(p, nx, ny, nz)
  {
    var q1, q2;
    q1, nx := ApplyTurns(p, X, draws, 0);
    q2, ny := ApplyTurns(q1, Y, draws, nx + 1);
    q, nz := ApplyTurns(q2, Z, draws, nx + ny + 2);
  }

  /**
   * randomTransformation: the three turn runs of `TurnAll`, each count drawn
   * as in `ApplyTurns` from the draws that are left, and finally
   * translateToBounds. Fifteen draws cover the longest run.
   */
  method RandomTransformation(box: GameBox, p: Piece, draws: seq<int>)
    returns (r: Piece, nx: nat, ny: nat, nz: nat)
    requires |p.blocks| > 0
    requires |draws| >= 15 && forall j :: 0 <= j < |draws| ==> 0 <= draws[j] <= 4
    ensures nx <= 4 && ny <= 4 && nz <= 4
    ensures TurnRun(draws, 0, nx) && TurnRun(draws, nx + 1, ny) && TurnRun(draws, nx + ny + 2, nz)
    ensures |Turned(p, nx, ny, nz).blocks| > 0 && r == TranslateToBounds(box, Turned(p, nx, ny, nz))
  {
    var q;
    q, nx, ny, nz := TurnAll(p, draws);
    r := TranslateToBounds(box, q);
  }

  /**
   * nextPiece: the drawn prototype with the drawn material, moved to the
   * spawn point and then transformed. The result has four blocks, all of
   * the drawn material, shaped like the prototype turned `nx`, `ny`, `nz`
   * times; in a box at least 4 cells wide on every axis it lies inside the
   * box with its highest block in the top layer.
   */
  method NextPiece(box: GameBox, protoDraw: int, materialDraw: int, turnDraws: seq<int>)
    returns (r: Piece, nx: nat, ny: nat, nz: nat)
    requires 0 <= protoDraw < NumberOfPrototypes && 0 <= materialDraw < NumberOfMaterials
    requires |turnDraws| >= 15 && forall j :: 0 <= j < |turnDraws| ==> 0 <= turnDraws[j] <= 4
    ensures nx <= 4 && ny <= 4 && nz <= 4
    ensures |r.blocks| == 4
    ensures forall i :: 0 <= i < 4 ==> r.blocks[i].material == materialDraw
    ensures var spawned := Translated(PrototypeToPiece(Prototype(protoDraw), materialDraw), SpawnOffset(box));
      |spawned.blocks| == 4 && r == TranslateToBounds(box, Turned(spawned, nx, ny, nz))
    ensures r.blocks == RotatedN(RotatedN(RotatedN(PrototypeToPiece(Prototype(protoDraw), materialDraw),
      Rotation(X, CCW), nx), Rotation(Y, CCW), ny), Rotation(Z, CCW), nz).blocks
    ensures 4 <= box.dims.x && 4 <= box.dims.y && 4 <= box.dims.z ==>
      box.ContainsPiece(r) && GetExtent(r, Z, 1) == box.dims.z - 1
  {
    var proto := PrototypeToPiece(Prototype(protoDraw), materialDraw);
    var c := PrototypePiece(protoDraw, materialDraw);
    var spawned := Translated(proto, SpawnOffset(box));
    r, nx, ny, nz := RandomTransformation(box, spawned, turnDraws);
    TurnedFacts(proto, SpawnOffset(box), nx, ny, nz);
    if 4 <= box.dims.x && 4 <= box.dims.y && 4 <= box.dims.z {
      SmallPieceSpans(spawned);
      SpawnedFits(box, spawned, nx, ny, nz, c);
    }
  }

  /**
   * The piece built from prototype `k`: four blocks of material `m`, all
   * coordinates in [-1, 2], and block `c` at the center.
   */
  lemma PrototypePiece(k: int, m: int) returns (c: int)
    requires 0 <= k < NumberOfPrototypes
    ensures var p := PrototypeToPiece(Prototype(k), m);
      && |p.blocks| == 4 && 0 <= c < 4 && p.blocks[c].pos == Origin
      && (forall i :: 0 <= i < 4 ==> p.blocks[i].material == m && SmallPos(p.blocks[i].pos))
  {
    c := PrototypeShape(k);
  }

  /** The three rotation runs composed. */
  function Turned(p: Piece, nx: nat, ny: nat, nz: nat): (r: Piece)
    ensures |r.blocks| == |p.blocks|
  {
    RotatedNKeeps(p, Rotation(X, CCW), nx);
    RotatedNKeeps(RotatedN(p, Rotation(X, CCW), nx), Rotation(Y, CCW), ny);
    RotatedNKeeps(RotatedN(RotatedN(p, Rotation(X, CCW), nx), Rotation(Y, CCW), ny), Rotation(Z, CCW), nz);
    RotatedN(RotatedN(RotatedN(p, Rotation(X, CCW), nx), Rotation(Y, CCW), ny), Rotation(Z, CCW), nz)
  }

  /** Turning a translated piece turns the same relative blocks; the blocks keep their count and materials. */
  lemma {:induction false} TurnedFacts(p: Piece, d: Pos3d, nx: nat, ny: nat, nz: nat)
    ensures Turned(Translated(p, d), nx, ny, nz).blocks == Turned(p, nx, ny, nz).blocks
    ensures |Turned(p, nx, ny, nz).blocks| == |p.blocks|
    ensures forall i :: 0 <= i < |p.blocks| ==> Turned(p, nx, ny, nz).blocks[i].material == p.blocks[i].material
  {
    TurnedTranslated(p, d, Rotation(X, CCW), nx);
    var p1, q1 := RotatedN(Translated(p, d), Rotation(X, CCW), nx), RotatedN(p, Rotation(X, CCW), nx);
    TurnedTranslated(q1, d, Rotation(Y, CCW), ny);
    var p2, q2 := RotatedN(p1, Rotation(Y, CCW), ny), RotatedN(q1, Rotation(Y, CCW), ny);
    TurnedTranslated(q2, d, Rotation(Z, CCW), nz);
    RotatedNKeeps(p, Rotation(X, CCW), nx);
    RotatedNKeeps(q1, Rotation(Y, CCW), ny);
    RotatedNKeeps(q2, Rotation(Z, CCW), nz);
  }

  /** Turns commute with translations. */
  lemma {:induction false} TurnedTranslated(p: Piece, d: Pos3d, rot: Rotation, n: nat)
    ensures RotatedN(Translated(p, d), rot, n) == Translated(RotatedN(p, rot, n), d)
  {
    if n > 0 {
      TurnedTranslated(p, d, rot, n - 1);
      TranslatedRotatedCommute(RotatedN(p, rot, n - 1), d, rot);
    }
  }

  /** The three runs of turns keep a bound on the spans. */
  lemma TurnedSpans(p: Piece, nx: nat, ny: nat, nz: nat, k: int)
    requires |p.blocks| > 0 && SpansWithin(p, k)
    ensures |Turned(p, nx, ny, nz).blocks| > 0 && SpansWithin(Turned(p, nx, ny, nz), k)
  {
    var p1 := RotatedN(p, Rotation(X, CCW), nx);
    var p2 := RotatedN(p1, Rotation(Y, CCW), ny);
    RotatedNSpans(p, Rotation(X, CCW), nx, k);
    RotatedNSpans(p1, Rotation(Y, CCW), ny, k);
    RotatedNSpans(p2, Rotation(Z, CCW), nz, k);
  }

  /** The three runs of turns keep the center and a block at the center. */
  lemma TurnedKeepsCenterBlock(p: Piece, nx: nat, ny: nat, nz: nat, c: int)
    requires 0 <= c < |p.blocks| && p.blocks[c].pos == Origin
    ensures var t := Turned(p, nx, ny, nz);
      t.center == p.center && |t.blocks| == |p.blocks| && t.blocks[c].pos == Origin
  {
    var p1 := RotatedN(p, Rotation(X, CCW), nx);
    var p2 := RotatedN(p1, Rotation(Y, CCW), ny);
    RotatedNKeeps(p, Rotation(X, CCW), nx);
    RotatedNKeeps(p1, Rotation(Y, CCW), ny);
    RotatedNKeeps(p2, Rotation(Z, CCW), nz);
  }

  /**
   * A piece spanning at most 4 cells on every axis, with a block at its
   * center five layers above the top of a box at least 4 wide on every axis,
   * ends inside the box after its turns and translateToBounds, with its
   * highest block in the top layer.
   */
  lemma {:induction false} SpawnedFits(box: GameBox, p: Piece, nx: nat, ny: nat, nz: nat, c: int)
    requires 4 <= box.dims.x && 4 <= box.dims.y && 4 <= box.dims.z
    requires 0 <= c < |p.blocks| && p.blocks[c].pos == Origin && SpansWithin(p, 4)
    requires p.center.z == box.dims.z + 5
    ensures var t := Turned(p, nx, ny, nz);
      |t.blocks| > 0 && box.ContainsPiece(TranslateToBounds(box, t))
      && GetExtent(TranslateToBounds(box, t), Z, 1) == box.dims.z - 1
  {
    var t := Turned(p, nx, ny, nz);
    TurnedSpans(p, nx, ny, nz, 4);
    TurnedKeepsCenterBlock(p, nx, ny, nz, c);
    ExtentBounds(t, Z, 1);
    assert GetBlocks(t)[c].pos.z == box.dims.z + 5;
    TranslateToBoundsContains(box, t);
    TranslateToBoundsTouchesFarSide(box, t, Z);
  }
}
