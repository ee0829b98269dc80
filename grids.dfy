/**
 * Values shared by the host tile engine and the extension: cell locations,
 * tile kinds, images, and a tile grid viewed as a map from location to tile.
 */
module Grids {

  /** A tile kind: the tileset index a cell of a tile grid holds. */
  type Tile = int

  /** An image handle. Images are compared by identity, modelled by an id. */
  type Image = int

  /** A cell of a tilemap, by column and row (the host's tiles.Location). */
  datatype Location = Location(column: int, row: int)

  /** The abstract value of a tile grid: the tile at each of its cells. */
  type Grid = map<Location, Tile>

  /** All cells of a grid `width` columns wide and `height` rows high. */
  function Area(width: nat, height: nat): (s: set<Location>)
    ensures forall l :: l in s <==> 0 <= l.column < width && 0 <= l.row < height
  {
    set x, y | 0 <= x < width && 0 <= y < height :: Location(x, y)
  }

  /** The cells holding tile `kind` (what the host's getTilesByType reports). */
  ghost function OfKind(g: Grid, kind: Tile): (s: set<Location>)
    ensures s <= g.Keys
  {
    set l | l in g && g[l] == kind
  }

  /** The grid with tile `to` in place of tile `from`, everywhere. */
  ghost function Replace(g: Grid, from: Tile, to: Tile): (r: Grid)
    ensures r.Keys == g.Keys
  {
    map l | l in g :: if g[l] == from then to else g[l]
  }

  /** The grid with tile `t` written at the given cells: the work done so far by a loop over them. */
  ghost function Overwrite(g: Grid, cells: set<Location>, t: Tile): (r: Grid)
    ensures r.Keys == g.Keys
  {
    map l | l in g :: if l in cells then t else g[l]
  }

  /** Writing `t` at one more cell of the grid extends the overwritten set by that cell. */
  lemma OverwriteStep(g: Grid, cells: set<Location>, l: Location, t: Tile)
    requires l in g
    ensures Overwrite(g, cells, t)[l := t] == Overwrite(g, cells + {l}, t)
  {
    var lhs, rhs := Overwrite(g, cells, t)[l := t], Overwrite(g, cells + {l}, t);
    assert lhs.Keys == rhs.Keys;
    forall k | k in lhs
      ensures lhs[k] == rhs[k]
    {
    }
  }

  /** Writing `to` at exactly the cells of kind `from` is replacing `from` by `to`. */
  lemma OverwriteKindIsReplace(g: Grid, from: Tile, to: Tile)
    ensures Overwrite(g, OfKind(g, from), to) == Replace(g, from, to)
  {
    var lhs, rhs := Overwrite(g, OfKind(g, from), to), Replace(g, from, to);
    assert lhs.Keys == rhs.Keys;
    forall k | k in lhs
      ensures lhs[k] == rhs[k]
    {
      assert k in OfKind(g, from) <==> g[k] == from;
    }
  }

  /** Replacing keeps the grid's cells, and every cell not holding `from` keeps its tile. */
  lemma ReplaceKeepsOthers(g: Grid, from: Tile, to: Tile, l: Location)
    requires l in g
    ensures Replace(g, from, to).Keys == g.Keys
    ensures Replace(g, from, to)[l] == if g[l] == from then to else g[l]
  {
  }

  /** After a replacement with a different tile, no cell holds `from` any more. */
  lemma ReplaceClearsKind(g: Grid, from: Tile, to: Tile)
    requires from != to
    ensures OfKind(Replace(g, from, to), from) == {}
  {
    var r := Replace(g, from, to);
    forall l | l in r
      ensures r[l] != from
    {
    }
  }

  /** After a replacement, the cells holding `to` are those that held `from` or `to` before. */
  lemma ReplaceGathersKind(g: Grid, from: Tile, to: Tile)
    ensures OfKind(Replace(g, from, to), to) == OfKind(g, from) + OfKind(g, to)
  {
    var r := Replace(g, from, to);
    forall l
      ensures l in OfKind(r, to) <==> l in OfKind(g, from) + OfKind(g, to)
    {
      if l in g {
        assert r[l] == (if g[l] == from then to else g[l]);
      }
    }
  }

  /** A replacement leaves the cells of every third kind alone. */
  lemma ReplaceKeepsOtherKinds(g: Grid, from: Tile, to: Tile, kind: Tile)
    requires kind != from && kind != to
    ensures OfKind(Replace(g, from, to), kind) == OfKind(g, kind)
  {
    var r := Replace(g, from, to);
    forall l
      ensures l in OfKind(r, kind) <==> l in OfKind(g, kind)
    {
      if l in g {
        assert r[l] == (if g[l] == from then to else g[l]);
      }
    }
  }

  /** Replacing twice is replacing once. */
  lemma ReplaceIdempotent(g: Grid, from: Tile, to: Tile)
    ensures Replace(Replace(g, from, to), from, to) == Replace(g, from, to)
  {
    var once := Replace(g, from, to);
    var twice := Replace(once, from, to);
    assert twice.Keys == once.Keys;
    forall l | l in once
      ensures twice[l] == once[l]
    {
    }
  }
}
