# 3dtris core in Dafny

This project models the integer core of 3dtris, a falling-block puzzle played
in a 3D box, and proves properties of that model. It covers:

- **Geometry** (`geometry.dfy`): positions, the exact quarter turn about X, Y
  or Z, and blocks (a position plus a material tag).
- **Pieces** (`piece.dfy`): a piece is a center plus blocks placed relative to
  it. Translation moves the center and rotation turns the relative blocks, so
  a piece turns about its own center.
- **The game box** (`game_box.dfy`): point and piece containment, and
  `translateToBounds`, which clamps a piece into the box one axis at a time.
- **The cemented block array** (`cemented.dfy`): a dense occupancy and
  material grid with flat indexing, set/clear/query, full-layer test, layer
  removal and ordered enumeration.
- **The piece generator** (`piece_generator.dfy`): eight four-block
  prototypes, one material, a spawn translation, 0–4 counter-clockwise turns
  per axis, then clamping. The values drawn from the random engine are
  parameters.
- **The Android game controller** (`game_controller.dfy`): a five-state
  tracking machine and the frame-time clamp in front of `Game::tick`.
- **The JavaScript prototypes**: `js_pieces.dfy` for `pieces.js` and
  `js_game.dfy` for `game.js`, with lemmas showing that they agree with the
  C++ model, and with each other once the material is erased.
- **Keyboard dispatch** (`controls.dfy`) of `controls.js`.

`outcomes.dfy` holds the `Option` and `Result` types. An `abort()` in the
C++ or a `throw` in JavaScript becomes an `Err`. Mutating methods are pure
functions that return the new value. A loop is written as a `method` where
the loop itself is the thing being proved.

Two details of the code, as modelled:

- `removeLayer(z)` rewrites layer `z` from layer `z+1` only
  (`cpp/src/cemented-block-array.cpp:45-53`).
- A generated piece's material is drawn from [0, 10)
  (`cpp/src/piece-generator.cpp:93-98`).

`Piece::translatedBeyond` and `Piece::getExtent` are declared in
`cpp/include/piece.hpp:26-27`, but their bodies are not part of this model.
They are specified by the JavaScript `translateBeyond` (`pieces.js:79-101`):

- direction +1 raises the minimum extent to the limit when it lies below it;
- direction −1 lowers the maximum extent when it lies above it.

## Model

| member | source | states |
|---|---|---|
| Geometry.SumIsCommutativeMonoid | cpp/include/piece.hpp:36-38 | component-wise sum has the origin as identity on both sides, is commutative and is associative |
| Geometry.SumExample | cpp/test/testsuite.cpp:6-12 | (1,2,3)+(0,−2,2) = (1,0,5) |
| Geometry.RotatePos | cpp/src/piece.cpp:4-39 | a quarter turn keeps the coordinate on its axis and sends the ordered pair (Y,Z), (Z,X) or (X,Y) from (a,b) to (−s·b, s·a), s = +1 for CCW and −1 for CW, given as the six explicit cases |
| Geometry.RotatePosInverse | cpp/src/piece.cpp:28-36 | the opposite turn about the same axis undoes a turn |
| Geometry.RotatePosFourTimes | cpp/src/piece.cpp:28-36 | four equal quarter turns are the identity |
| Geometry.RotatePosOrigin | cpp/src/piece.cpp:31-38 | the origin is fixed by every turn |
| Geometry.BlockExamples | cpp/test/testsuite.cpp:14-46 | translating (1,2,3)/100 by (1,−3,5) gives (2,−1,8)/100; turning it about X gives (1,−3,2) for CCW and (1,3,−2) for CW, material kept |
| Extrema.MaxOf | pieces.js:89 | the reduction with max returns an element of the list that is at least every element |
| Extrema.MinOf | pieces.js:89 | the reduction with min returns an element of the list that is at most every element |
| Pieces.GetBlocks | cpp/src/piece.cpp:82-87 | same length and order as the stored blocks; entry i is relative block i moved by the center, material kept |
| Pieces.FromBlocks | cpp/include/piece.hpp:13-17 | the blocks-only constructor reports exactly the blocks it was given |
| Pieces.Translated | cpp/src/piece.cpp:68-73 | only the center changes, by the offset; the relative blocks are untouched |
| Pieces.Rotated | cpp/src/piece.cpp:75-80 | the center is untouched; each relative block keeps its material and its coordinate on the turn's axis |
| Pieces.TranslatedMovesBlocks | cpp/src/piece.cpp:68-87 | every absolute block of the translated piece is the old absolute block moved by the offset |
| Pieces.TranslatedTwice | cpp/src/piece.cpp:68-73 | translating by a and then b equals translating by a+b, including the absolute blocks |
| Pieces.TranslatedRotatedCommute | cpp/src/piece.cpp:68-80 | translating then turning equals turning then translating |
| Pieces.TranslatedByOrigin | cpp/include/piece.hpp:13-17 | translating by the origin is the identity, and a piece built from its own relative blocks reports them unchanged |
| Pieces.RotatedInverse | cpp/src/piece.cpp:75-80 | a piece turned and turned back about the same axis is the same piece |
| Pieces.RotatedFourTimes | cpp/src/piece.cpp:75-80 | four equal turns restore a piece |
| Pieces.PieceScenario | cpp/test/testsuite.cpp:48-70 | center (1,2,3) with blocks (0,0,0)/100 and (0,1,0)/101, translated by (−1,0,1) and turned CCW about X, yields (0,2,4)/100 and (0,2,5)/101 |
| Pieces.ExtentBounds | cpp/include/piece.hpp:27 | the extent on an axis is the coordinate of some absolute block and bounds all of them (maximum for +1, minimum for −1) |
| Pieces.TranslatedExtent | cpp/include/piece.hpp:27 | translating shifts each extent on an axis by the offset's coordinate on that axis |
| Pieces.ExtentOnlyAlongAxis | cpp/src/game-box.cpp:18-27 | extents on an axis depend only on the relative blocks and the center's coordinate on that axis, so a shift along one axis leaves the others' extents alone |
| Pieces.TranslatedBeyond | pieces.js:79-101 | only the center moves, and only along the axis; for +1 a minimum below the limit becomes the limit, for −1 a maximum above the limit becomes the limit; otherwise the piece is unchanged |
| Pieces.SpanRotated | cpp/src/piece.cpp:4-39 | a turn permutes the spans: the span on an axis afterwards is the old span on the axis the turn moved onto it |
| Pieces.RotatedKeepsCenterBlock | cpp/src/piece.cpp:75-80 | a block at the center stays at the center |
| Boxes.ContainsAxisWise | cpp/src/game-box.cpp:3-7 | a position is contained iff 0 ≤ coordinate < dimension on every axis |
| Boxes.ContainsPieceIffExtents | cpp/src/game-box.cpp:9-14 | a non-empty piece is contained iff on every axis its minimum extent is ≥ 0 and its maximum < the dimension |
| Boxes.RaiseIntoIsTranslation | cpp/src/game-box.cpp:19-21 | the raise step translates along its axis by the gap of a negative minimum, and by nothing otherwise |
| Boxes.LowerIntoIsTranslation | cpp/src/game-box.cpp:23-26 | the lower step translates along its axis by dim−1−max when max ≥ dim, and by nothing otherwise |
| Boxes.ClampAxisIsTranslation | cpp/src/game-box.cpp:18-27 | one axis step, raise then lower, is a single translation along that axis |
| Boxes.ClampOffsetFacts | cpp/src/game-box.cpp:18-27 | after an axis step the maximum is ≤ dim−1, and the minimum is ≥ 0 when the span fits; a contained axis does not move; an overshooting axis that fits ends at dim−1; a second step does nothing |
| Boxes.TranslateToBounds | cpp/src/game-box.cpp:16-29 | the result has exactly the input's relative blocks: only translation happens |
| Boxes.TranslateToBoundsFacts | cpp/src/game-box.cpp:16-29 | on every axis the result's maximum is ≤ dim−1, its minimum is ≥ 0 when the span fits, and an already contained piece is returned unchanged |
| Boxes.TranslateToBoundsIsOffset | cpp/src/game-box.cpp:16-29 | the X, Y, Z passes together equal one translation, each axis's offset computed from the input's own extents (the passes are independent) |
| Boxes.TranslateToBoundsIsTranslation | cpp/src/game-box.cpp:16-29 | the three axis passes, raise then lower on X, Y and Z in turn, amount to one translation of the input piece |
| Boxes.TranslateToBoundsIdempotent | cpp/src/game-box.cpp:19-26 | clamping a clamped piece changes nothing |
| Boxes.TranslateToBoundsContains | cpp/src/game-box.cpp:19-26 | a piece whose span on each axis is at most the dimension ends inside the box |
| Boxes.TranslateToBoundsTouchesFarSide | cpp/src/game-box.cpp:23-26 | a fitting piece that overshoots the far side of an axis ends with its maximum at dim−1 |
| Boxes.TranslateToBoundsScenario | tests/game.js:10-28 | blocks (−2,0,0) and (0,−1,0) moved by (0,10,0) in a box with 3 ≤ dims.x and 2 ≤ dims.y ≤ 10 end at (0, dims.y−1) and (2, dims.y−2) |
| Boxes.TranslateToBoundsScenarioFits | tests/game.js:10-28 | that piece is outside the box before clamping and inside after |
| Cemented.Init | cpp/src/cemented-block-array.cpp:3-8 | a fresh array is well formed for its box, one slot per cell |
| Cemented.InitIsEmpty | cpp/src/cemented-block-array.cpp:3-8 | every cell of a fresh array is empty |
| Cemented.IndexByLayer | cpp/src/cemented-block-array.cpp:10-12 | the flat index is the layer number in whole layers plus the index within the layer, and size() is the number of layers times the layer size |
| Cemented.PosToIndexInRange | cpp/src/cemented-block-array.cpp:10-12 | the index of a contained position lies in [0, size()) |
| Cemented.PosToIndexInjective | cpp/src/cemented-block-array.cpp:10-12 | two contained positions share an index iff they are equal |
| Cemented.BeforeIsIndexOrder | cpp/src/cemented-block-array.cpp:10-12 | index order on contained positions is z first, then y, then x |
| Cemented.HasBlock | cpp/src/cemented-block-array.cpp:31-34 | aborts (Err) exactly for positions outside the box; otherwise reports whether the cell is occupied |
| Cemented.GetBlockMaterial | cpp/src/cemented-block-array.cpp:18-21 | aborts outside the box and on an empty cell; otherwise returns the stored material |
| Cemented.SetBlock | cpp/src/cemented-block-array.cpp:23-29 | aborts exactly when the position is outside the box; otherwise the array stays well formed for the same box |
| Cemented.SetBlockCells | cpp/src/cemented-block-array.cpp:23-29 | after setBlock the cell holds the block's material and every other cell is unchanged |
| Cemented.ClearBlock | cpp/src/cemented-block-array.cpp:14-16 | clearing keeps the array well formed and leaves the stored materials alone |
| Cemented.ClearBlockCells | cpp/src/cemented-block-array.cpp:14-16 | after clearBlock the cell is empty and every other cell is unchanged |
| Cemented.IsLayerFull | cpp/src/cemented-block-array.cpp:36-43 | for a layer in the box, true iff every (x,y) cell of it is occupied; for a layer outside the box, an abort unless the layer has no cells, in which case true |
| Cemented.RemoveLayer | cpp/src/cemented-block-array.cpp:45-53 | each cell of layer z takes the occupancy and material of the cell above it, or becomes empty in the top layer; every other layer is unchanged |
| Cemented.RemovedLayerFull | cpp/src/cemented-block-array.cpp:45-53 | after removal, layer z below the top is full iff layer z+1 was; the top layer of a box with cells is never full afterwards |
| Cemented.ListedStep | cpp/src/cemented-block-array.cpp:60-62 | visiting one more cell, and appending it when occupied, keeps the listing sound, complete and ordered up to the next cell |
| Cemented.ScanRow | cpp/src/cemented-block-array.cpp:59-63 | scanning a row extends a sound, complete, ordered listing to the start of the next row |
| Cemented.GetNonEmptyBlocks | cpp/src/cemented-block-array.cpp:55-67 | lists exactly the occupied cells, each with its stored material, in strictly increasing (z, y, x) order, hence each once |
| Cemented.FreshArrayListsNothing | cpp/src/cemented-block-array.cpp:3-67 | a freshly constructed array lists no blocks |
| Generator.PrototypeShape | cpp/src/piece-generator.cpp:17-66 | each of the 8 prototypes has 4 positions, one of them at the center, all coordinates in [−1, 2] |
| Generator.PrototypeToPiece | cpp/src/piece-generator.cpp:4-8 | one block per position, in order, each with the given material, center at the origin |
| Generator.PrototypePiece | cpp/src/piece-generator.cpp:4-8 | a prototype's piece has four blocks of the one material, one of them at the center |
| Generator.RotatedNKeeps | cpp/src/piece-generator.cpp:85-89 | repeated turns keep the center, the block count, the materials and a block at the center |
| Generator.RotatedNSpans | cpp/src/piece-generator.cpp:85-89 | repeated turns keep every span within a common bound |
| Generator.SmallPieceSpans | cpp/src/piece-generator.cpp:17-66 | a piece whose relative coordinates lie in [−1, 2] spans at most 4 cells on every axis |
| Generator.ApplyTurns | cpp/src/piece-generator.cpp:86-88 | the loop, which redraws its bound from [0, 4] before every turn, makes n ≤ 4 counter-clockwise turns about the axis, where n is the first count whose draw is at most n, every earlier draw exceeding its count |
| Generator.TurnAll | cpp/src/piece-generator.cpp:85-89 | the X, Y and Z runs read consecutive stretches of the draws, each starting one past where the previous run stopped, and together turn the piece nx, ny, nz times |
| Generator.RandomTransformation | cpp/src/piece-generator.cpp:82-91 | turns about X, then Y, then Z, each count read from the next unused draws, and then translateToBounds of the turned piece |
| Generator.NextPiece | cpp/src/piece-generator.cpp:69-80 | the drawn prototype with the drawn material is moved to (dims.x/2, dims.y/2, dims.z+5) and transformed; the result has 4 blocks of that material shaped like the turned prototype; in a box at least 4 wide on every axis it is inside the box with its highest block in layer dims.z−1 |
| Generator.TurnedFacts | cpp/src/piece-generator.cpp:82-91 | the turns act only on the relative blocks, so a spawn translation does not affect them; count and materials are kept |
| Generator.TurnedTranslated | cpp/src/piece-generator.cpp:85-89 | repeated turns commute with a translation |
| Generator.TurnedSpans | cpp/src/piece-generator.cpp:85-89 | the three turn runs keep every span within a common bound |
| Generator.TurnedKeepsCenterBlock | cpp/src/piece-generator.cpp:85-89 | the three turn runs keep a block at the center |
| Generator.SpawnedFits | cpp/src/piece-generator.cpp:75-90 | a piece spawned above a box at least 4 wide on every axis, with a block at its center and spans at most 4, ends inside the box after turning and clamping, touching the top layer |
| Controller.OnTrackingState | android_ar/app/src/main/cpp/game_controller.cc:24-52 | a tracking report never changes the phase (setup, playing, over) and selects its tracked state (WAITING_FOR_BOX or RUNNING) when tracking and its untracked state (WAITING_FOR_PLANE or PAUSED_TRACKING_LOST) when not; OVER and the timestamp are kept |
| Controller.LatestTrackingReportWins | android_ar/app/src/main/cpp/game_controller.cc:24-52 | two tracking reports in a row act like the second alone, so a loss followed by a recovery is undone and repeated reports are idempotent |
| Controller.OnBoxFound | android_ar/app/src/main/cpp/game_controller.cc:54-57 | from any state the game runs |
| Controller.WrappedInterval | android_ar/app/src/main/cpp/game_controller.cc:62 | the uint64 difference read as int64: the true difference when it fits in int64, otherwise off by exactly 2^64 |
| Controller.FrameMilliseconds | android_ar/app/src/main/cpp/game_controller.cc:63-65 | the result is in [0, 100]; negative intervals give 0, intervals of 0.1 s or more give 100, anything between gives the whole milliseconds |
| Controller.OnFrame | android_ar/app/src/main/cpp/game_controller.cc:59-71 | tick is called iff the state is RUNNING, with a value in [0, 100]: the whole milliseconds since the previous frame, 0 if the clock went back, 100 after a gap of 0.1 s or more; otherwise false; the state is kept and the timestamp always recorded |
| Controller.NeverOver | android_ar/app/src/main/cpp/game_controller.cc:24-71 | no sequence of events leads into OVER from another state |
| Controller.OverUnreachable | android_ar/app/src/main/cpp/game_controller.cc:18-71 | from the constructor, OVER is never reached |
| Controller.PlayingAfter | android_ar/app/src/main/cpp/game_controller.cc:24-71 | outside OVER, the game is playing after a sequence of events iff it was before or a box was found among them |
| Controller.PlayingIffBoxFound | android_ar/app/src/main/cpp/game_controller.cc:18-71 | from the constructor, the state is RUNNING or PAUSED_TRACKING_LOST exactly when onBoxFound has been called |
| JsPieces.Rotated | pieces.js:18-34 | throws exactly for an axis other than "x", "y", "z"; otherwise keeps the material and the coordinate on the axis |
| JsPieces.RotatedAgreesWithCpp | pieces.js:18-34 | with sign 1 for CCW and −1 for CW, Block.rotated is the C++ block rotation |
| JsPieces.RotatedExamples | tests.js:1-16 | (1,2,3) about "x" gives (1,−3,2) with sign 1 and (1,3,−2) with sign −1; an unknown axis throws |
| JsPieces.RotatedInverse | pieces.js:18-34 | a turn with sign ±1 is undone by the opposite sign |
| JsPieces.Rotate | pieces.js:53-57 | throws exactly when there are blocks and the axis is unknown; otherwise keeps the center and turns each relative block as Block.rotated does |
| JsPieces.TranslatedAgreesWithCpp | pieces.js:36-38 | Block.translated is the C++ block translation: position moved by the offset, material kept |
| JsPieces.Translate | pieces.js:59-67 | moves the center by (dx,dy,dz) and leaves the relative blocks |
| JsPieces.NewPieceBlocks | pieces.js:40-51 | a piece made from blocks alone reports those blocks |
| JsPieces.RotateAgreesWithCpp | pieces.js:53-57 | Piece.rotate is the C++ Piece::rotated |
| JsPieces.TranslateAgreesWithCpp | pieces.js:59-67 | Piece.translate is the C++ Piece::translated |
| JsPieces.GetBlocksAgreesWithCpp | pieces.js:70-72 | Piece.getBlocks is the C++ getBlocks, block by block |
| JsPieces.ReduceBounds | pieces.js:89 | reducing defined numbers with Math.min (Math.max) yields a list element below (above) all of them |
| JsPieces.ReduceIsExtreme | pieces.js:81-89 | that reduction equals the minimum (maximum) of the list |
| JsPieces.ReducedExtent | pieces.js:89 | on a coordinate key the reduction is the extent opposite to the direction |
| JsPieces.TranslateBeyond | pieces.js:79-101 | throws exactly for a direction other than ±1 or a piece without blocks; only the center's coordinate on the named axis can change; reporting false means unchanged; a key that is not an axis never moves the piece and reports true only for "material" |
| JsPieces.TranslateBeyondAgreesWithCpp | pieces.js:79-101 | on an axis key translateBeyond is the C++ model's translatedBeyond and reports true exactly when the piece moved |
| JsPieces.MaterialKeyNeverMoves | pieces.js:89-97 | with the key "material" the piece never moves |
| JsPieces.MaterialKeyExample | pieces.js:89-97 | a one-block piece of material 5 "moved beyond" 7 along "material" reports true but is unchanged |
| JsGame.Rotated | game.js:16-32 | throws exactly for an unknown axis; otherwise keeps the coordinate on the axis |
| JsGame.NewPiece | game.js:38-45 | the center starts at the origin and the blocks are the given ones |
| JsGame.Rotate | game.js:47-51 | throws exactly when there are blocks and the axis is unknown; otherwise keeps the center and turns each block |
| JsGame.Translate | game.js:53-61 | moves only the center |
| JsGame.TranslateBeyond | game.js:69-91 | throws exactly for a bad direction or no blocks; only the named axis of the center can move; a key that is not an axis changes nothing and reports false |
| JsGame.RotatedAgrees | game.js:16-32 | Block.rotated of game.js is that of pieces.js with the material erased, throwing alike |
| JsGame.RotateAgrees | game.js:47-51 | Piece.rotate agrees with pieces.js after erasing materials |
| JsGame.TranslatedAgrees | game.js:34-36 | Block.translated of game.js is that of pieces.js with the material erased |
| JsGame.TranslateAgrees | game.js:53-61 | Piece.translate agrees with pieces.js after erasing materials |
| JsGame.GetBlocksAgrees | game.js:64-66 | getBlocks agrees with pieces.js after erasing materials |
| JsGame.FieldValuesAgree | game.js:79 | on every key but "material" both variants read the same values |
| JsGame.TranslateBeyondAgrees | game.js:69-91 | on every key but "material" translateBeyond agrees with pieces.js, result and error alike |
| JsGame.MaterialKeyIsUndefined | game.js:79-90 | with the key "material" the comparison is with NaN, so the result is false and the piece unchanged |
| Controls.CommandFor | controls.js:3-44 | a key issues a command iff it is one of the 15 bound keys |
| Controls.ExecuteAction | controls.js:1-45 | unbound keys give null; space always gives true; every other bound key gives the controls' answer to its command |
| Controls.ArrowKeysAlias | controls.js:23-37 | ArrowLeft/a move by (−1,0), ArrowRight/d by (1,0), ArrowUp/w by (0,−1), ArrowDown/s by (0,1) |
| Controls.MoveIsUnitStep | controls.js:23-37 | every move is a unit step along exactly one of x and y |
| Controls.TurnKeysPairUp | controls.js:5-21 | q/e turn about y, x/2 about x, r/t about z, in opposite directions; no other key turns |
| Controls.InversePairCancels | controls.js:5-21 | the two commands of a pair are opposite quarter turns: `Pieces.Rotated` by one and then the other is the identity |

## Left out

- The game engine: tick countdown, dropping, scoring, layer-clearing loop,
  fit test, cementing and game over. The only implementation,
  `cpp/src/game.cpp`, aborts in every method, and `cpp/include/game.hpp` and
  `game-private.hpp` are an older interface.
- `Game::tick` is a function parameter of `Controller.OnFrame`; its effect on
  the game is not modelled. The logging calls and the time-based random seed
  of the controller's constructor are left out too.
- The random engine (`std::mt19937`) and the uniform distributions are not
  modelled. Their outputs are parameters, constrained to the distributions'
  ranges.
- The C++ leaves unspecified whether `nextPiece` draws the prototype or the
  material first. The model takes both draws as separate parameters.
- `Generator.RandomTransformation` takes 15 draws, enough for the longest
  run. It does not model the engine state that the draws leave behind.
- The gesture rotation controller, every renderer, the AR session glue, the
  Android activity and JNI layer, the emscripten bindings and the JavaScript
  timing loops are not modelled. They are float geometry, platform calls or
  callbacks.
- The jQuery side effect on the space key in `controls.js` is not modelled.
- Integer widths: C++ `int` arithmetic on coordinates, products and indices
  is unbounded here. `GameBox::size()` and `posToIndex` multiply the
  dimensions, so a box of 2^31 cells or more (1291 × 1291 × 1291, say)
  overflows a 32-bit `int`, which is undefined behaviour. `Cemented.Init`'s
  one slot per cell and `Cemented.PosToIndexInRange` describe the source
  only for boxes under 2^31 cells.
- The controller's uint64 timestamps are exact, with their wrap-around
  written out in `Controller.WrappedInterval`.
- Pieces.GetExtent: requires a piece with blocks. On an empty piece the
  JavaScript `reduce` throws, and the C++ body is not part of this model.
- Pieces.TranslatedBeyond: requires a piece with blocks, for the same reason.
- Boxes.TranslateToBounds: requires a piece with blocks, because it calls
  getExtent.
- Cemented.Init: requires every dimension to be ≥ 0. The source also builds
  an array when two dimensions are negative and the product is not, such as
  (−1, −1, 1). On such a box `isLayerFull` is true and `getNonEmptyBlocks` is
  empty, but the model does not cover it.
- Cemented.RemoveLayer: requires 0 ≤ z < dims.z. For z ≥ dims.z or z < −1,
  the first `hasBlock` of the layer above aborts before any write. For
  z = −1, an empty cell above leads to `clearBlock` at a negative index,
  outside the arrays (undefined behaviour), and an occupied one makes
  `setBlock` abort. No cell inside the box is rewritten in any of these
  cases. In a box with no columns or no rows the loops never run, and
  nothing happens for any z.
- Cemented.ClearBlock: requires the position to be in the box. The source's
  `clearBlock` does not check it, and outside the box its write is undefined
  behaviour.
- JavaScript numbers are doubles; the model uses integers. Passing a
  non-integer sign or limit is not modelled.
- JavaScript object lookups also find inherited properties such as
  "constructor" or "toString". The model treats every axis key other than
  "x", "y" and "z" as invalid.
- `translateDict` with a dictionary that lacks a key would add NaN. It is
  only ever called with complete dictionaries, so the model takes a position.
- `Piece.copy`, `Block.assign` and the deep copies in the JavaScript `Piece`
  constructor exist to avoid aliasing. Values here are immutable, so a copy
  is the value itself and there is nothing further to state.
- JsPieces.GetBlocks: its own contract gives only the length. The contents
  are stated through `JsPieces.GetBlocksAgreesWithCpp` and
  `Pieces.GetBlocks`.
