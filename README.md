# tileUtil: connected tilemaps, tile covers and tilemap cloning

This project models the core of `tileUtil`, an extension to the MakeCode
Arcade tile engine, in Dafny, and proves properties of the model. The
extension adds three things:

- a registry of two-way **connections** between tilemaps, keyed by the
  source map and a connection number;
- a store of **covers**, which are substitute images shown over single cells
  of the loaded tilemap and dropped when the tilemap changes;
- a few operations on the loaded tilemap: reading its size properties,
  cloning it, and replacing every tile of one kind with another.

The host engine is reduced to what the extension uses (`engine.dfy`):

- A `TileMap` class with identity, a width (columns), a height (rows), a
  scale, a tile grid and a wall grid (`array2`), and a tileset.
- A `Scene` class whose optional renderer holds the loaded tilemap and its
  `enabled` flag.

The extension's global state (`_state()`) and the host's current scene are
explicit parameters of the operations.

Files and modules:

- `int32.dfy` (`Int32`): the host language's 32-bit `<<` and `>>`.
- `grids.dfy` (`Grids`): cells, tile kinds, and the tile grid as a map, with
  the replacement lemmas.
- `engine.dfy` (`Engine`): the host's tilemap data and scene.
- `tilemap_properties.dfy` (`TilemapProperties`): `tilemapProperty`, both as
  written and corrected.
- `connections.dfy` (`Connections`): the registry as a value, with what
  connecting promises.
- `covers.dfy` (`Covers`): the cover store as a value.
- `extension_state.dfy` (`ExtensionState`): the state object holding the
  registry and the cover store.
- `tile_util.dfy` (`TileUtil`): the extension's operations.

## Model

| member | source | states |
|---|---|---|
| `Int32.ShiftRight` | api.ts:23-25 | the host's `a >> b`, valued ToInt32(a) / 2^(b mod 32), which rounds towards negative infinity as the sign-propagating shift does. Its contract: the result is a signed 32-bit integer, between 0 and ToInt32(a) when that is non-negative and between ToInt32(a) and 0 otherwise. `Int32.ShiftRightIsDivision` states it for non-negative operands |
| `Int32.ShiftLeft` | api.ts:31 | the host's `a << b`, valued ToInt32(ToInt32(a) × 2^(b mod 32)). Its contract: the result is a signed 32-bit integer. `Int32.ShiftLeftIsMultiplication` states it without overflow |
| `Int32.ShiftRightIsDivision` | api.ts:23-25 | for a non-negative 32-bit width or height, `>>` by the scale is division by 2^scale |
| `Int32.ShiftLeftIsMultiplication` | api.ts:31 | without 32-bit overflow, `<<` by the scale is multiplication by 2^scale |
| `Int32.ToInt32` | api.ts:23 | the host's conversion of a shift operand lands in the signed 32-bit range, agrees with the operand modulo 2^32, and is the identity on that range |
| `TilemapProperties.TilemapPropertyAsWritten` | api.ts:20-33 | tilemapProperty as written: Columns = width >> scale, Rows = height >> scale, PixelWidth = width, PixelHeight = height, TileWidth = 1 << scale. Its contract: Columns, Rows and TileWidth are signed 32-bit integers, and Columns lies between 0 and the width. The lemmas `AsWrittenWithinOneTile`, `AsWrittenMiscountsColumns` and `AsWrittenExample` state its properties |
| `TilemapProperties.TilemapProperty` | api.ts:20-33 | tilemapProperty corrected: Columns = width, Rows = height, PixelWidth = width << scale, PixelHeight = height << scale, TileWidth = 1 << scale. Its contract: Columns is the column count of the map's grids, and the pixel sizes and tile width are signed 32-bit integers. `Geometry` and `TileWidthIsPowerOfTwo` state its properties |
| `TilemapProperties.TileWidthIsPowerOfTwo` | api.ts:30-31 | below scale 31, the tile width is 2^scale pixels |
| `TilemapProperties.AsWrittenWithinOneTile` | api.ts:20-33 | as written: Columns × TileWidth ≤ PixelWidth < (Columns + 1) × TileWidth, and likewise for rows and PixelHeight |
| `TilemapProperties.AsWrittenMiscountsColumns` | api.ts:22-27 | as written: once tiles are wider than one pixel, Columns is below the number of columns in the map's grids, and PixelWidth is below columns × tile width |
| `TilemapProperties.AsWrittenExample` | api.ts:22-27 | a map 10 columns wide with 16-pixel tiles reports 0 columns and a pixel width of 10; the corrected PixelWidth is 160 |
| `TilemapProperties.Geometry` | api.ts:20-33 | corrected: Columns and Rows are the grid's column and row counts, and without overflow PixelWidth = Columns × TileWidth and PixelHeight = Rows × TileWidth |
| `Connections.Lookup` | api.ts:61-72 | getConnectedMap returns the target of the edge (map, id) when there is one; otherwise, or without a map, it returns none |
| `Connections.ConnectsKeepsOtherIds` | api.ts:57-59 | connecting by one id leaves every connection by another id as it was |
| `Connections.ConnectsPreservesSymmetry` | api.ts:45-47 | connecting maps that are still free by that id keeps every connection two-way: each edge has its mirror |
| `ExtensionState.State.ConnectMaps` | api.ts:45-59 | connectMaps creates (a, id) → b and (b, id) → a and creates no other edge. Other edges are kept, except edges by the same id into a or b, which may be dropped. Covers are untouched |
| `ExtensionState.State.CoverTile` | api.ts:183 | the store's coverTile shows the cover at the given cell and keeps every other cover |
| `ExtensionState.State.ClearCovers` | api.ts:161-162 | unloading the tilemap drops every cover |
| `Covers.CoverAllShows` | api.ts:175-177 | after covering a set of cells, each of them shows the new cover and every other cell keeps its cover or lack of one |
| `Covers.CoverNothing` | api.ts:175-177 | covering no cell changes nothing |
| `Covers.CoverStep` | api.ts:175-176 | covering one more cell is covering the set extended by that cell |
| `Covers.CoverTwice` | api.ts:175-177 | covering in two rounds is covering the union at once, so the order of the locations does not matter |
| `Covers.CoverAllCount` | api.ts:171-178 | covering N cells in an empty store makes exactly N entries, one at each of those cells, each with the cover |
| `TileUtil.CoverTile` | api.ts:180-184 | coverTile adds the cover at the location while the scene has an enabled tilemap and changes nothing otherwise; covers still exist only while a tilemap is loaded |
| `TileUtil.CoverAllTiles` | api.ts:171-178 | coverAllTiles covers exactly the cells holding the tile kind while the scene has an enabled tilemap, and changes nothing otherwise |
| `TileUtil.SetTileMapLevel` | api.ts:161-162 | loading a level drops every cover, and the loaded map becomes the scene's enabled tilemap |
| `TileUtil.LoadConnectedMap` | api.ts:82-87 | loads the target of the connection from the current tilemap when there is one; with no current tilemap or no such connection the scene and the covers are unchanged; connections never change |
| `TileUtil.CurrentTilemap` | api.ts:209-213 | none when the scene has no tilemap, otherwise that tilemap's data |
| `TileUtil.CloneMap` | api.ts:116-136 | a fresh map with its own fresh grids, the same width, height, scale and tileset, and the same tile and wall at every cell; the original is not written |
| `TileUtil.FreshMapIsUnconnected` | api.ts:107-108 | a map made after the registry last changed, such as a clone, has no connection by any id |
| `TileUtil.ReplaceAllTiles` | api.ts:197-201 | replaceAllTiles leaves the loaded grid equal to the old grid with `to` in place of `from` |
| `Grids.OverwriteStep` | api.ts:198-199 | writing `to` at one more cell extends the set of overwritten cells by that cell |
| `Grids.OverwriteKindIsReplace` | api.ts:197-201 | writing `to` at exactly the cells the engine reports for `from` is the replacement of `from` by `to` |
| `Grids.ReplaceKeepsOthers` | api.ts:197-201 | replacement keeps the grid's cells, and a cell that did not hold `from` keeps its tile |
| `Grids.ReplaceClearsKind` | api.ts:197-201 | after replacing `from` by a different tile, no cell holds `from` |
| `Grids.ReplaceGathersKind` | api.ts:197-201 | after replacement, the cells holding `to` are exactly those that held `from` or `to` |
| `Grids.ReplaceKeepsOtherKinds` | api.ts:197-201 | the cells of every third tile kind are unchanged |
| `Grids.ReplaceIdempotent` | api.ts:197-201 | replacing twice is replacing once |
| `Engine.TileMap.TilesByType` | api.ts:175 | the engine's getTilesByType reports exactly the cells of the map holding the kind |
| `Engine.TileMap.Create` | api.ts:121-126 | createTilemap allocates a map of the given size, scale and tileset with fresh grids, tile 0 and no wall everywhere |
| `Engine.TileMap.GetTile` | api.ts:130 | getTile returns the tile the map's grid holds at that cell |
| `Engine.TileMap.IsWall` | api.ts:131 | isWall returns whether the map's wall grid holds a wall at that cell |
| `Engine.TileMap.SetTile` | api.ts:130 | setTile changes the tile at that one cell only |
| `Engine.TileMap.SetWall` | api.ts:131 | setWall changes the wall at that one cell only |

## Findings

| source | as written | input that shows it | evidently intended | confidence | as-written member | corrected member |
|---|---|---|---|---|---|---|
| api.ts:22-29 | Columns = `width >> scale`, Rows = `height >> scale`, PixelWidth = `width`, PixelHeight = `height`: width and height are read as pixel sizes. In the same file, cloneMap (api.ts:117-133) reads them as column and row counts | a map 10 columns wide with 16-pixel tiles (width 10, scale 4) reports Columns 0 and PixelWidth 10 | Columns = `width`, Rows = `height`, PixelWidth = `width << scale`, PixelHeight = `height << scale` (10 and 160 here) | high; not executed | `TilemapProperties.AsWrittenMiscountsColumns` | `TilemapProperties.Geometry` |

The corrected function is `TilemapProperties.TilemapProperty`. The as-written
one is `TilemapProperties.TilemapPropertyAsWritten`, which
`TilemapProperties.AsWrittenWithinOneTile` and
`TilemapProperties.AsWrittenExample` also describe.

## Left out

- ExtensionState.State.ConnectMaps: deliberately weaker than its body. It does not say whether an edge by the same id that led into either map survives a reconnection. The old partner's back-edge is the case in point and stays an open question. The body keeps such edges.
- ExtensionState.State.CoverTile: the store keeps one cover per cell, the latest. Whether the extension's store keeps earlier covers of a cell underneath is not part of this model.
- The internals of the extension's state object (`_state()`) are not part of this model. The model keeps only the registry and cover store that its callers rely on, and its lazy creation is not modelled. The object is an explicit parameter here.
- The extension's own listener for the tilemap-unloaded event is modelled inside `TileUtil.SetTileMapLevel`, which runs it before the new map is installed. User callbacks registered through `onMapLoaded`/`onMapUnloaded` (api.ts:145-158) are not modelled: they go through the host's event bus.
- `TileUtil.SetTileMapLevel` assumes that the host enables the scene's renderer when it sets a level. Other ways of enabling or disabling the renderer are not modelled.
- `TileUtil.LoadConnectedMap`: with no current tilemap, the source passes `undefined` to the registry. The model reads that as "no connection". How the state object treats `undefined` is not part of this model.
- Tile kinds are tileset indices. The engine's translation of an image to its index is not modelled, including `setTileAt` adding an unknown image to the tileset.
- The engine's getTilesByType is a set of cells. Both loops over it take the cells in any order, and `Covers.CoverTwice` and the grid lemmas show that the order does not matter. With no tilemap it reports no cell.
- Engine tile and wall accessors require an in-bounds cell: their behaviour outside the map is engine code that is not part of this model, and every call the core makes is in bounds.
- `Int32` models `<<` and `>>` with 32-bit wrap-around. The lemmas about tilemap properties assume scale < 31 and no overflow (for the as-written code, width and height below 2^31). Outside that range the functions still model the wrap-around, but nothing is proved about it.
- cloneMap's buffer header (`control.createBuffer`, `NumberFormat.UInt16LE`, api.ts:117-119) and `image.create` (api.ts:123) are host encodings. `Engine.TileMap.Create` stands for `tiles.createTilemap` as an allocation of an empty map. The 16-bit limit that header puts on width and height is not modelled.
- The clone's tileset is a separate `seq` value in a fresh object. Copying it therefore cannot alias the original's; `slice()` on a host array gives the same independence.
- `createSpritesOnTiles` (api.ts:237-254): sprites, the physics engine and created-handler callbacks.
- `centerCameraOnTile` (api.ts:222-224): camera.
- `_connectionKind` and `createSmallMap` (api.ts:41-43, api.ts:103-105): identity functions that exist for the block editor; connection ids are plain integers here.
- Block annotations (`//%` lines) and the rendering of covers, which the host's render path does.
