/**
 * The extension's operations (the `tileUtil` namespace). The host's current
 * scene and the extension's state, both globals in the extension, are
 * explicit parameters here.
 */
module TileUtil {
  import opened Grids
  import opened Engine
  import opened Connections
  import opened Covers
  import opened ExtensionState

  /** The scene's tilemap, if any, is well formed. */
  ghost predicate SceneValid(scene: Scene)
    reads scene
  {
    scene.tileMap.Some? ==> scene.tileMap.value.data.Valid()
  }

  /**
   * The invariant tying the scene to the extension's state: covers exist
   * only while a tilemap is loaded, and every tilemap involved is well formed.
   */
  ghost predicate Consistent(scene: Scene, st: State)
    reads scene, st
  {
    && SceneValid(scene)
    && st.TargetsValid()
    && (st.covers != map[] ==> scene.tileMap.Some?)
  }

  /** currentTilemap: the data of the scene's tilemap, or none when the scene has no tilemap. */
  function CurrentTilemap(scene: Scene): (r: Option<TileMap>)
    reads scene
    ensures r.None? <==> scene.tileMap.None?
    ensures r.Some? ==> r.value == scene.tileMap.value.data
  {
    if scene.tileMap.None? then None else Some(scene.tileMap.value.data)
  }

  /**
   * The host's scene.setTileMapLevel, with the extension's listener for the
   * tilemap-unloaded event: the loaded map, if any, is unloaded, which drops
   * every cover, and `next` becomes the scene's enabled tilemap.
   */
  method SetTileMapLevel(scene: Scene, st: State, next: TileMap)
    requires Consistent(scene, st) && next.Valid()
    modifies scene, st`covers
    ensures scene.tileMap == Some(LoadedMap(next, true))
    ensures st.covers == map[]
    ensures Consistent(scene, st)
  {
    if scene.tileMap.Some? {
      st.ClearCovers();
    }
    scene.tileMap := Some(LoadedMap(next, true));
  }

  /**
   * loadConnectedMap: follow the connection `connection` from the current
   * tilemap and load its target; when there is no current tilemap or no such
   * connection, nothing changes. Connections are never changed.
   */
  method LoadConnectedMap(scene: Scene, st: State, connection: int)
    requires Consistent(scene, st)
    modifies scene, st`covers
    ensures var next := Lookup(old(st.connections), old(CurrentTilemap(scene)), connection);
      if next.Some? then
        scene.tileMap == Some(LoadedMap(next.value, true)) && st.covers == map[]
      else
        scene.tileMap == old(scene.tileMap) && st.covers == old(st.covers)
    ensures st.connections == old(st.connections)
    ensures Consistent(scene, st)
  {
    var nextMap := Lookup(st.connections, CurrentTilemap(scene), connection);
    if nextMap.Some? {
      SetTileMapLevel(scene, st, nextMap.value);
    }
  }

  /**
   * coverTile: cover one cell, but only while the scene has an enabled
   * tilemap; otherwise nothing changes.
   */
  method CoverTile(scene: Scene, st: State, location: Location, cover: Image)
    requires Consistent(scene, st)
    modifies st`covers
    ensures st.covers == if scene.HasEnabledTileMap() then CoverAll(old(st.covers), {location}, cover) else old(st.covers)
    ensures Consistent(scene, st)
  {
    if !scene.HasEnabledTileMap() {
      return;
    }
    st.CoverTile(location.column, location.row, cover);
  }

  /**
   * coverAllTiles: while the scene has an enabled tilemap, cover every cell
   * holding `tileKind` with `cover`; otherwise nothing changes.
   */
  method CoverAllTiles(scene: Scene, st: State, tileKind: Tile, cover: Image)
    requires Consistent(scene, st)
    modifies st`covers
    ensures st.covers == if scene.HasEnabledTileMap()
      then CoverAll(old(st.covers), OfKind(scene.tileMap.value.data.Cells(), tileKind), cover)
      else old(st.covers)
    ensures Consistent(scene, st)
  {
    if !scene.HasEnabledTileMap() {
      return;
    }
    var locations := scene.tileMap.value.data.TilesByType(tileKind);
    ghost var all, before := locations, st.covers;
    CoverNothing(before, cover);
    while locations != {}
      invariant locations <= all
      invariant st.covers == CoverAll(before, all - locations, cover)
      decreases locations
    {
      var location :| location in locations;
      CoverTwice(before, all - locations, {location}, cover);
      st.CoverTile(location.column, location.row, cover);
      assert (all - locations) + {location} == all - (locations - {location});
      locations := locations - {location};
    }
  }

  /**
   * replaceAllTiles: put tile `to` at every cell of the loaded tilemap holding
   * tile `from`; every other cell keeps its tile. Without a tilemap there is
   * no such cell.
   */
  method ReplaceAllTiles(scene: Scene, from: Tile, to: Tile)
    requires SceneValid(scene)
    modifies if scene.tileMap.Some? then {scene.tileMap.value.data.tiles} else {}
    ensures scene.tileMap.Some? ==>
      scene.tileMap.value.data.Cells() == Replace(old(scene.tileMap.value.data.Cells()), from, to)
  {
    if scene.tileMap.None? {
      return;
    }
    var m := scene.tileMap.value.data;
    var locations := m.TilesByType(from);
    ghost var all, before := locations, m.Cells();
    assert Overwrite(before, {}, to) == before by {
      assert Overwrite(before, {}, to).Keys == before.Keys;
    }
    while locations != {}
      invariant locations <= all
      invariant m.Cells() == Overwrite(before, all - locations, to)
      decreases locations
    {
      var location :| location in locations;
      OverwriteStep(before, all - locations, location, to);
      m.SetTile(location.column, location.row, to);
      assert (all - locations) + {location} == all - (locations - {location});
      locations := locations - {location};
    }
    OverwriteKindIsReplace(before, from, to);
  }

  /**
   * cloneMap: a fresh tilemap with the same size, scale and tileset and the
   * same tile and wall at every cell. Only the clone is written, so `m` is
   * unchanged, and the clone's grids are its own.
   */
  method CloneMap(m: TileMap) returns (r: TileMap)
    requires m.Valid()
    ensures fresh(r) && fresh(r.tiles) && fresh(r.walls) && r.Valid()
    ensures r.width == m.width && r.height == m.height && r.scale == m.scale
    ensures r.tileset == m.tileset
    ensures r.Cells() == m.Cells() && r.WallCells() == m.WallCells()
  {
    r := new TileMap.Create(m.width, m.height, m.tileset, m.scale);
    for x := 0 to m.width
      invariant r.tileset == m.tileset
      invariant forall i, j :: 0 <= i < x && 0 <= j < m.height ==>
        r.tiles[i, j] == m.tiles[i, j] && r.walls[i, j] == m.walls[i, j]
    {
      for y := 0 to m.height
        invariant r.tileset == m.tileset
        invariant forall i, j :: 0 <= i < x && 0 <= j < m.height ==>
          r.tiles[i, j] == m.tiles[i, j] && r.walls[i, j] == m.walls[i, j]
        invariant forall j :: 0 <= j < y ==> r.tiles[x, j] == m.tiles[x, j] && r.walls[x, j] == m.walls[x, j]
      {
        r.SetTile(x, y, m.GetTile(x, y));
        r.SetWall(x, y, m.IsWall(x, y));
      }
    }
    assert r.Cells().Keys == m.Cells().Keys;
    assert r.WallCells().Keys == m.WallCells().Keys;
  }

  /** A map allocated after the registry was last changed, such as a clone, has no connection. */
  twostate lemma FreshMapIsUnconnected(st: State, new r: TileMap, id: int)
    requires fresh(r) && unchanged(st)
    ensures Lookup(st.connections, Some(r), id) == None
  {
  }
}
