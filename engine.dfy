/**
 * The part of the host tile engine the extension relies on: tilemap data
 * (an object with identity, a tile grid, a wall grid and a tileset) and the
 * current scene's tilemap renderer.
 */
module Engine {
  import opened Grids

  datatype Option<T> = None | Some(value: T)

  /**
   * The host's tiles.TileMapData: `width` columns by `height` rows, each
   * tile `2^scale` pixels wide. Identity is by reference.
   */
  class TileMap {
    const width: nat
    const height: nat
    const scale: nat
    const tiles: array2<Tile>
    const walls: array2<bool>
    var tileset: seq<Image>

    ghost predicate Valid()
    {
      tiles.Length0 == width && tiles.Length1 == height &&
      walls.Length0 == width && walls.Length1 == height
    }

    /** The host's tiles.createTilemap: a map of the given size with tile 0 and no wall everywhere. */
    constructor Create(width: nat, height: nat, tileset: seq<Image>, scale: nat)
      ensures Valid() && fresh(tiles) && fresh(walls)
      ensures this.width == width && this.height == height && this.scale == scale
      ensures this.tileset == tileset
      ensures forall x, y :: 0 <= x < width && 0 <= y < height ==> tiles[x, y] == 0 && !walls[x, y]
    {
      this.width, this.height, this.scale := width, height, scale;
      this.tileset := tileset;
      tiles := new Tile[width, height]((x, y) => 0);
      walls := new bool[width, height]((x, y) => false);
    }

    predicate Contains(x: int, y: int)
    {
      0 <= x < width && 0 <= y < height
    }

    /** The tile grid as a value. */
    ghost function Cells(): (g: Grid)
      reads tiles
      requires Valid()
    {
      map l | l in Area(width, height) :: tiles[l.column, l.row]
    }

    /** The wall grid as a value. */
    ghost function WallCells(): (w: map<Location, bool>)
      reads walls
      requires Valid()
    {
      map l | l in Area(width, height) :: walls[l.column, l.row]
    }

    /** The host's getTile: the tile the grid holds at that cell. */
    function GetTile(x: int, y: int): (t: Tile)
      reads tiles
      requires Valid() && Contains(x, y)
      ensures Location(x, y) in Cells() && t == Cells()[Location(x, y)]
    {
      tiles[x, y]
    }

    /** The host's isWall: whether the wall grid holds a wall at that cell. */
    function IsWall(x: int, y: int): (w: bool)
      reads walls
      requires Valid() && Contains(x, y)
      ensures Location(x, y) in WallCells() && w == WallCells()[Location(x, y)]
    {
      walls[x, y]
    }

    method SetTile(x: int, y: int, t: Tile)
      requires Valid() && Contains(x, y)
      modifies tiles
      ensures Cells() == old(Cells())[Location(x, y) := t]
      ensures tiles[x, y] == t
      ensures forall i, j :: Contains(i, j) && (i != x || j != y) ==> tiles[i, j] == old(tiles[i, j])
    {
      tiles[x, y] := t;
      assert Cells().Keys == old(Cells())[Location(x, y) := t].Keys;
    }

    method SetWall(x: int, y: int, w: bool)
      requires Valid() && Contains(x, y)
      modifies walls
      ensures walls[x, y] == w
      ensures forall i, j :: Contains(i, j) && (i != x || j != y) ==> walls[i, j] == old(walls[i, j])
    {
      walls[x, y] := w;
    }

    /** The host's getTilesByType on this map: exactly the cells holding `kind`. */
    function TilesByType(kind: Tile): (r: set<Location>)
      reads tiles
      requires Valid()
      ensures r == OfKind(Cells(), kind)
    {
      set x, y | 0 <= x < width && 0 <= y < height && tiles[x, y] == kind :: Location(x, y)
    }
  }

  /** The renderer of the current scene (game.currentScene().tileMap): the data it shows and whether it is enabled. */
  datatype LoadedMap = LoadedMap(data: TileMap, enabled: bool)

  /** The current scene, as far as the extension reads and changes it. */
  class Scene {
    var tileMap: Option<LoadedMap>

    constructor ()
      ensures tileMap == None
    {
      tileMap := None;
    }

    /** The guard of the cover operations: a tilemap is present and enabled. */
    predicate HasEnabledTileMap()
      reads this
    {
      tileMap.Some? && tileMap.value.enabled
    }
  }
}
