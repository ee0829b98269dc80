/**
 * tilemapProperty: the numeric properties of a tilemap, derived from its
 * width, height and scale by 32-bit shifts.
 *
 * The map's `width` and `height` count columns and rows: the tile and wall
 * grids of a `TileMap` have exactly that many, and cloneMap visits exactly
 * that many. The code as written nevertheless treats them as pixel sizes
 * (`Columns` is `width >> scale`, `PixelWidth` is `width`).
 * `TilemapPropertyAsWritten` models that code; `TilemapProperty` is the
 * corrected definition, with `Columns` = `width` and
 * `PixelWidth` = `width << scale`.
 */
module TilemapProperties {
  import opened Int32
  import opened Engine

  datatype Property = Columns | Rows | PixelWidth | PixelHeight | TileWidth

  /** The shifts as the source writes them. */
  function TilemapPropertyAsWritten(data: TileMap, prop: Property): (r: int)
    ensures prop in {Columns, Rows, TileWidth} ==> -TWO31 <= r < TWO31
    ensures prop == Columns ==> 0 <= r <= ToInt32(data.width) || ToInt32(data.width) <= r < 0
  {
    match prop
    case Columns => ShiftRight(data.width, data.scale)
    case Rows => ShiftRight(data.height, data.scale)
    case PixelWidth => data.width
    case PixelHeight => data.height
    case TileWidth => ShiftLeft(1, data.scale)
  }

  /** The corrected definition: sizes in tiles are the grid's, sizes in pixels are scaled by the tile width. */
  function TilemapProperty(data: TileMap, prop: Property): (r: int)
    ensures prop in {PixelWidth, PixelHeight, TileWidth} ==> -TWO31 <= r < TWO31
    ensures data.Valid() && prop == Columns ==> r == data.tiles.Length0
  {
    match prop
    case Columns => data.width
    case Rows => data.height
    case PixelWidth => ShiftLeft(data.width, data.scale)
    case PixelHeight => ShiftLeft(data.height, data.scale)
    case TileWidth => ShiftLeft(1, data.scale)
  }

  /** Within 32-bit range, a tile is 2^scale pixels wide under either definition. */
  lemma TileWidthIsPowerOfTwo(data: TileMap)
    requires data.scale < 31
    ensures TilemapPropertyAsWritten(data, TileWidth) == Pow2(data.scale)
    ensures TilemapProperty(data, TileWidth) == Pow2(data.scale)
  {
    Pow2Below31(data.scale);
    ShiftLeftIsMultiplication(1, data.scale);
  }

  /** As written: the column count times the tile width is the width rounded down to whole tiles (likewise for rows). */
  lemma AsWrittenWithinOneTile(data: TileMap)
    requires data.width < TWO31 && data.height < TWO31 && data.scale < 31
    ensures var cols, w := TilemapPropertyAsWritten(data, Columns), TilemapPropertyAsWritten(data, TileWidth);
      cols * w <= TilemapPropertyAsWritten(data, PixelWidth) < (cols + 1) * w
    ensures var rows, w := TilemapPropertyAsWritten(data, Rows), TilemapPropertyAsWritten(data, TileWidth);
      rows * w <= TilemapPropertyAsWritten(data, PixelHeight) < (rows + 1) * w
  {
    TileWidthIsPowerOfTwo(data);
    ShiftRightIsDivision(data.width, data.scale);
    ShiftRightIsDivision(data.height, data.scale);
    DivisionBounds(data.width, Pow2(data.scale));
    DivisionBounds(data.height, Pow2(data.scale));
  }

  /**
   * As written, a map whose tiles are wider than one pixel reports fewer
   * columns than its grid has, and a pixel width smaller than its columns
   * times its tile width.
   */
  lemma AsWrittenMiscountsColumns(data: TileMap)
    requires data.Valid()
    requires 0 < data.width && data.width * Pow2(data.scale) < TWO31 && 0 < data.scale < 31
    ensures TilemapPropertyAsWritten(data, Columns) < data.tiles.Length0
    ensures TilemapPropertyAsWritten(data, PixelWidth) < data.tiles.Length0 * TilemapPropertyAsWritten(data, TileWidth)
  {
    var p := Pow2(data.scale);
    TileWidthIsPowerOfTwo(data);
    ShiftRightIsDivision(data.width, data.scale);
    assert p >= 2;
    MultipleGrows(data.width, p);
  }

  /** The map from which the discrepancy is read: 10 columns of 16-pixel tiles. */
  lemma AsWrittenExample(data: TileMap)
    requires data.Valid() && data.width == 10 && data.scale == 4
    ensures TilemapPropertyAsWritten(data, Columns) == 0 && data.tiles.Length0 == 10
    ensures TilemapPropertyAsWritten(data, PixelWidth) == 10 && TilemapProperty(data, PixelWidth) == 160
  {
    assert Pow2(4) == 16;
  }

  /**
   * Corrected: the columns and rows are those of the map's grids, and where
   * nothing overflows the pixel size is exactly the tile count times the tile width.
   */
  lemma Geometry(data: TileMap)
    requires data.Valid() && data.scale < 31
    requires data.width * Pow2(data.scale) < TWO31 && data.height * Pow2(data.scale) < TWO31
    ensures TilemapProperty(data, Columns) == data.tiles.Length0
    ensures TilemapProperty(data, Rows) == data.tiles.Length1
    ensures TilemapProperty(data, PixelWidth) == TilemapProperty(data, Columns) * TilemapProperty(data, TileWidth)
    ensures TilemapProperty(data, PixelHeight) == TilemapProperty(data, Rows) * TilemapProperty(data, TileWidth)
  {
    TileWidthIsPowerOfTwo(data);
    ShiftLeftIsMultiplication(data.width, data.scale);
    ShiftLeftIsMultiplication(data.height, data.scale);
  }
}
