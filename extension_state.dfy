/**
 * The extension's process-wide state (the object `_state()` returns): the
 * connection registry and the cover store of the loaded tilemap.
 */
module ExtensionState {
  import opened Grids
  import opened Engine
  import opened Connections
  import opened Covers

  class State {
    var connections: Connections
    var covers: CoverStore

    constructor ()
      ensures connections == map[] && covers == map[]
    {
      connections := map[];
      covers := map[];
    }

    /** Every map the registry leads to is well formed. */
    ghost predicate TargetsValid()
      reads this
    {
      forall k :: k in connections ==> connections[k].Valid()
    }

    /** connectMaps: connect `a` and `b` by `id`, both ways. The covers are not touched. */
    method ConnectMaps(a: TileMap, b: TileMap, id: int)
      requires TargetsValid() && a.Valid() && b.Valid()
      modifies this`connections
      ensures Connects(old(connections), connections, a, b, id)
      ensures Lookup(connections, Some(a), id) == Some(b) && Lookup(connections, Some(b), id) == Some(a)
      ensures TargetsValid()
    {
      connections := connections[(a, id) := b][(b, id) := a];
    }

    /** Record `cover` over the cell (column, row). */
    method CoverTile(column: int, row: int, cover: Image)
      modifies this`covers
      ensures covers == CoverAll(old(covers), {Location(column, row)}, cover)
    {
      CoverStep(covers, {}, Location(column, row), cover);
      CoverNothing(covers, cover);
      covers := covers[Location(column, row) := cover];
    }

    /** The listener for the host's tilemap-unloaded event: drop every cover. */
    method ClearCovers()
      modifies this`covers
      ensures covers == map[]
    {
      covers := map[];
    }
  }
}
