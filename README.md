# minecraft-2d core, modelled in Dafny

minecraft-2d is a small 2D block game written in Go on top of the pixel
library. This project models the three parts of it that hold logic:

- **chunks** (`chunks/chunk.go`): a `Chunk` is a block of `Size.X` by `Size.Y` cells of the world; the two sizes are independent. It holds
  a grid of references to tiles (nil for an empty cell), its location, its size in tiles, the tile size and a
  cached render batch. It offers `Set`, `Get`, `Fill`, `ValidLocation`,
  `Visible`, `Reload`, and `Draw`, which builds the batch once and then reuses it.
- **tiles** (`tiles/tile.go`): the global `TileMap` from tile id to sprite-sheet frame, and
  `NewTile`. It also holds `LoadAndCacheTiles`, which packs every tile
  texture side by side into one 256×256 sprite sheet (`drawImage`) and records
  each tile's frame in `TileMap`.
- **ui** (`ui/ui.go`): `Parse`, which turns an already decoded YAML layout document into
  an `Instruction`. It contains `parseElement`, `parseFactory` and the
  `"A*B"` matrix splitter.

Modules: `Wrappers` (Option, Result), `Geometry` (pixel.Vec and pixel.Rect),
`Tiles`, `Chunks` and `Ui`.

Modelling conventions:

- State the Go code updates in place is modelled imperatively:
  - the chunk becomes the class `Chunks.Chunk`;
  - the tile grid becomes an `array2`;
  - `TileMap` becomes the `map` field of `Tiles.TileTable`;
  - the sprite-sheet canvas becomes an `array2<Color>`.
- Loops become methods with invariants, each proved against a specification function. These functions are:
  - `GridBatch` for `Draw`, and `RowBatch` for its inner loop `RowSprites`;
  - `Blit` for `drawImage`;
  - `Painted` and `Record` for the packer;
  - `Matrix` for the splitter.
- The parser's functions are specified the same way:
  - `ElementPanic` and `Texture` for `ParseElement`;
  - `FactoryPanic` and `ParsedFactory` for `ParseFactory`;
  - `SceneAccepts` and `ParsedScene` for `Parse`.
- Go panics in the parser become the `Failure` of a `Result`, carrying a `Panic` value. These are the failed type assertions, the explicit `panic(...)` calls and the splitter's `output[index]` past its two entries.
- The grid indexing of `Get`, `Set` and `Fill` is different: Go checks it at run time, and the model makes it a precondition (see "## Left out").
- Iterating over a Go map is a nondeterministic choice of the next key, so every contract holds for every iteration order.
- Calls that cannot be seen become inputs:
  - the manifest read from `resources/tiles.json`;
  - the decoded PNG files;
  - the error, if any, of writing the sprite sheet;
  - the YAML document;
  - the result of `rand.IntN(4)` for each cell.

The model keeps these behaviours of the code as written, although its names suggest otherwise:

- `ValidLocation` is a disjunction (`X-1 < Size.X || Y-1 < Size.Y`), not a bounds check. Its consequences are proved in `Chunks.ValidLocationIsPermissive`.
- `Set` and `Fill` do not clear the cached batch: only `Reload` does.
- `Visible` uses `Size.X` for the vertical extent. `Chunks.VisibleIgnoresHeight` exhibits a chunk that overlaps the window but is reported invisible.
- `Draw` places cell (x, y) at `Location + (y·tileSize.Y, x·tileSize.X)`, with the axes swapped.
- `drawImage` copies an inclusive range of `Dx()+1` by `Dy()+1` points.

## Model

| member | source | states |
|---|---|---|
| Tiles.TileTable.constructor | tiles/tile.go:20 | the tile map starts empty |
| Tiles.Lookup | tiles/tile.go:35 | a known id gives its recorded tile data; an unknown id gives the Go zero value, a zero frame without rotation |
| Tiles.NewTile | tiles/tile.go:32-38 | a new tile keeps its meta, sits at the zero world position, and uses the frame recorded for its id, or the zero rectangle when the id is unknown |
| Tiles.DrawImage | tiles/tile.go:40-47 | every canvas point in the inclusive range [p, p + (Dx, Dy)] takes the image's colour at the offset, the image's outside colour past its bounds; every other canvas point keeps its old colour |
| Tiles.Decoded | tiles/tile.go:85-97 | the packed images are the successfully decoded prefix of the textures, and packing stops at the first failure |
| Tiles.LoadAndCacheTiles | tiles/tile.go:58-118 | a manifest error is returned as is and an empty manifest yields "" with nothing drawn or recorded; otherwise the canvas is 256×256 and holds the decoded images packed left to right. The tile map gains one frame per packed tile. The result is the first texture error, else the error of saving the sheet, else the name "spritesheet.png" |
| Tiles.PackStep | tiles/tile.go:99-102 | one loop pass draws the next image at the cursor, advances the cursor by its width and records its frame |
| Tiles.DecodedStopsAt | tiles/tile.go:87-96 | a prefix that decodes and is followed by a failure (or by nothing) is exactly the packed prefix |
| Tiles.CursorStep | tiles/tile.go:100 | the cursor advances by each image's width |
| Tiles.CursorMonotone | tiles/tile.go:100 | the cursor never moves back |
| Tiles.FrameLayout | tiles/tile.go:102 | a tile's frame starts at the cursor before it, is as wide and as high as its image, hangs down from y = 256, and ends where the next tile's frame starts |
| Tiles.RecordedEntry | tiles/tile.go:85-102 | with distinct ids, every packed tile's id maps to its own frame and rotation flag after the loop |
| Tiles.RecordKeepsOthers | tiles/tile.go:102 | ids not in the manifest keep their previous entry, or stay absent |
| Tiles.PaintedKeepsTile | tiles/tile.go:99 | inside its column band, the sheet shows each tile's own pixels, because later images do not overwrite earlier ones there |
| Tiles.NewTileAfterPacking | tiles/tile.go:32-38 | a tile created after packing gets the sprite-sheet frame holding its texture |
| Chunks.Place | chunks/chunk.go:49-55 | a placement keeps its cell and tile, and turns by a whole number of quarter turns, which is 0 for tiles without ApplyRotation |
| Chunks.Chunk.constructor | chunks/chunk.go:22-29 | a new chunk shares the given grid, keeps location, size and tile size, and has zero chunk position and no cached batch |
| Chunks.Chunk.ValidLocation | chunks/chunk.go:70-72 | a location passes exactly when one coordinate is at most the chunk size on that axis, so every cell of the chunk passes |
| Chunks.Chunk.Visible | chunks/chunk.go:63-68 | the chunk is visible exactly when its box overlaps the window on both axes, the vertical extent taken as Size.X cells; a visible chunk starts left of and below the window's far edges |
| Chunks.Chunk.Get | chunks/chunk.go:83-88 | a location that fails ValidLocation reads as nil |
| Chunks.Chunk.Set | chunks/chunk.go:74-81 | a location passing ValidLocation gets the tile and the chunk is returned; otherwise nil is returned and nothing changes. No other cell and not the cached batch changes |
| Chunks.Chunk.Fill | chunks/chunk.go:90-110 | when both corners pass ValidLocation, exactly the cells of the half-open box from `from` towards `to` that pass ValidLocation get the tile; otherwise nil and nothing changes. The cached batch is kept |
| Chunks.Chunk.Reload | chunks/chunk.go:112-115 | the cached batch is dropped and the chunk returned |
| Chunks.Chunk.Draw | chunks/chunk.go:31-61 | a cached batch is submitted unchanged; otherwise the batch of every non-nil cell within Size, row after row, is built from the current grid, cached and submitted |
| Chunks.Chunk.RowSprites | chunks/chunk.go:40-57 | the inner loop yields the sprites of one row's non-nil cells within Size, in column order |
| Chunks.RowBatchCells | chunks/chunk.go:40-48 | one row's placements lie in that row, below the column bound |
| Chunks.RowBatchSound | chunks/chunk.go:40-55 | every placement in a row comes from a non-nil grid cell, placed by Place |
| Chunks.RowBatchComplete | chunks/chunk.go:40-55 | every non-nil in-range cell of the row is placed |
| Chunks.RowBatchOrdered | chunks/chunk.go:40 | a row's placements are in increasing column order |
| Chunks.GridBatchRows | chunks/chunk.go:39 | the batch only holds cells of rows below the row bound |
| Chunks.GridBatchSound | chunks/chunk.go:39-55 | every placement in the batch comes from a non-nil cell within Size, placed by Place |
| Chunks.GridBatchComplete | chunks/chunk.go:39-55 | every non-nil cell within Size and the grid is placed |
| Chunks.GridBatchOrdered | chunks/chunk.go:39-40 | the batch is in row-major order, so each cell is drawn once |
| Chunks.PlaceInjective | chunks/chunk.go:49 | with positive tile sizes, distinct cells land at distinct positions |
| Chunks.FillExcludesEnd | chunks/chunk.go:104-105 | Fill never reaches the `to` row or column, and a degenerate box fills nothing |
| Chunks.ValidLocationIsPermissive | chunks/chunk.go:70-72 | ValidLocation holds exactly when one coordinate is at most the size, so (Size.X, Size.Y) and any point with one in-range coordinate pass |
| Chunks.FillWholeChunk | chunks/chunk.go:90-110 | filling a 16×16 chunk from (0,0) to (16,16) covers exactly its grid |
| Chunks.VisibleWhenSquare | chunks/chunk.go:63-68 | for a square chunk, Visible is exactly "the chunk's box overlaps the window" |
| Chunks.VisibleIgnoresHeight | chunks/chunk.go:67 | a 1×100 chunk overlapping a 1024×768 window is reported invisible, because the vertical extent uses Size.X |
| Chunks.FarChunkCulled | chunks/chunk.go:64 | a chunk starting right of the window is not visible |
| Ui.Atoi | ui/ui.go:111 | a string is accepted exactly when it is a non-empty run of decimal digits, or a sign followed by one; the value is the decimal value, negated after '-' |
| Ui.DigitsDenote | ui/ui.go:111 | the decimal digits of n are non-empty and denote n |
| Ui.AtoiItoa | ui/ui.go:111 | Atoi reads back any number written in decimal |
| Ui.ParseMatrix | ui/ui.go:106-122 | the splitter loop returns exactly what Matrix specifies: the numbers or the panic |
| Ui.CutsPrefix | ui/ui.go:109-120 | the segments completed while reading a prefix are the first segments of the whole string |
| Ui.StoreAllFails | ui/ui.go:111-115 | once storing one segment panics, the splitter panics with that value |
| Ui.StoreAllOutcome | ui/ui.go:107-117 | storing succeeds exactly for at most two segments that are all numbers, and fills the output in order with the rest 0 |
| Ui.MatrixOutcome | ui/ui.go:106-122 | a matrix string is accepted exactly when it has one or two '*'-separated segments that Atoi accepts; the result is [A, B], or [A, 0] for one segment |
| Ui.MatrixPair | ui/ui.go:107 | an accepted matrix always has two entries |
| Ui.SplitWithoutStar | ui/ui.go:109-120 | a string without '*' is a single segment |
| Ui.SplitAtStar | ui/ui.go:110 | a '*' separates the segments on its left from those on its right |
| Ui.EmptySegment | ui/ui.go:109-113 | "", a leading or trailing '*', and "**" produce an empty segment, which Atoi rejects |
| Ui.ItoaHasNoStar | ui/ui.go:110 | a decimal number never contains '*' |
| Ui.SplitPair | ui/ui.go:109-120 | "A*B" made of two decimal numbers splits into exactly those two numerals |
| Ui.MatrixRoundTrip | ui/ui.go:106-122 | "A*B" parses to [A, B] and "A" to [A, 0] |
| Ui.ParseElement | ui/ui.go:66-86 | an element needs "texture" to be a string, panics with "texture"+Errors[0] otherwise, panics when the texture is missing or empty, and gets a zero rectangle |
| Ui.ParsedFactory | ui/ui.go:87-130 | once some accepted keys are handled, the type is kept unless "type" was seen; a handled payload gives a zero-rectangle element with a non-empty texture; a handled matrix has two entries |
| Ui.ParseFactory | ui/ui.go:87-130 | the factory is accepted exactly when no entry raises. On success each present key sets its field (type to 0), and absent keys keep theirs. On failure, the panic is the one some entry raises |
| Ui.ParsedScene | ui/ui.go:131-151 | a parsed scene has container 0, factory type 0, a zero element rectangle, and the zero factory when "factory" is absent |
| Ui.Parse | ui/ui.go:61-152 | a missing or non-map "scene" fails the type assertion. Otherwise the parse succeeds exactly when every "align" and "factory" entry is well typed, returns ParsedScene, and any panic is one some entry raises |

## Left out

- `main.go`, the window loop and world generation are not part of this model. The same holds for `UIManager`, `Init`, `loadPicture` and the rest of `ui/ui.go` after `Parse`.
- File reading, JSON/YAML/PNG decoding and PNG encoding are inputs:
  - the manifest, as a Result;
  - one Result per texture file;
  - an optional error for creating and encoding `spritesheet.png`.
- The pixel library is not modelled:
  - `pixel.Batch`, `Sprite.Draw` and `Target` are abstracted: a batch is the sequence of placements submitted, in drawing order;
  - the rotation matrix is kept as a quarter-turn count.
- `rand.IntN(4)` is a per-cell function in the renderer that each `Draw` call receives. A rebuild after `Reload` may therefore pick other turns. The model does not capture that the choice is uniformly random.
- Floating point: `pixel.Vec` coordinates, tile sizes and window bounds are integers. The model does not capture `int(...)` truncation of fractional locations, or the float comparison in Fill's `x != to.X` loop. That loop steps by ±1 and never ends when `to.X − from.X` is not a whole number.
- The tile grid is a rectangular `array2`. The Go `[][]` may be ragged. The batch specification reads a grid whose rows may differ in length, as `Draw`'s per-row length check allows. But a chunk's own grid, read through `Snapshot`, always has rows of equal length.
- Chunks.Chunk.Get: requires that a location passing ValidLocation lies inside the grid. The Go code panics with an index out of range there, and that panic is not modelled.
- Chunks.Chunk.Set: same requirement as Get, for the same reason.
- Chunks.Chunk.Fill: requires that every cell it would write lies inside the grid, for the same reason.
- Tiles are values: the identity and aliasing of `*tiles.Tile` is not modelled, so a tile shared between cells is two equal values.
- Ui.Atoi: `strconv.Atoi` range errors for numbers beyond 64 bits are not modelled.
- Strings are sequences of characters, so the model does not capture the byte indices of `range` over a string with multi-byte characters.
- `sync.WaitGroup`, the deferred `wg.Done()` and `file.Close()`, and all `fmt` logging are left out, because they do not affect results.
- Tiles.LoadAndCacheTiles: requires one texture result per manifest entry and distinct ids, as the keys of a Go map are. A decoded image is a rectangular pixel array whose outside colour stands for `img.At` beyond its bounds. Points drawn past the 256×256 canvas are dropped, as `image.RGBA.Set` drops them.
