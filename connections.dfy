/**
 * The connection registry as a value: directed edges keyed by
 * (source tilemap, connection id), created in pairs by connectMaps.
 */
module Connections {
  import opened Engine

  type Connections = map<(TileMap, int), TileMap>

  /** getConnectedMap: the target of the edge (m, id), or none when there is no such edge or no map. */
  function Lookup(c: Connections, m: Option<TileMap>, id: int): (r: Option<TileMap>)
    ensures r.Some? <==> m.Some? && (m.value, id) in c
    ensures r.Some? ==> c[(m.value, id)] == r.value
  {
    if m.Some? && (m.value, id) in c then Some(c[(m.value, id)]) else None
  }

  /**
   * An edge that connecting `a` and `b` by `id` leaves undecided: an edge by
   * the same id from another map into `a` or `b`, such as the back-edge of a
   * partner `a` or `b` had before. It may survive or disappear.
   */
  ghost predicate Undecided(before: Connections, a: TileMap, b: TileMap, id: int, k: (TileMap, int))
    requires k in before
  {
    k.1 == id && (before[k] == a || before[k] == b)
  }

  /**
   * What connectMaps(a, b, id) promises: the connection works both ways,
   * no other edge is created, and every other edge is kept unchanged except
   * the undecided ones, which may only be dropped.
   */
  ghost predicate Connects(before: Connections, after: Connections, a: TileMap, b: TileMap, id: int)
  {
    && (a, id) in after && after[(a, id)] == b
    && (b, id) in after && after[(b, id)] == a
    && (forall k :: k in after && k != (a, id) && k != (b, id) ==> k in before && after[k] == before[k])
    && (forall k :: k in before && k != (a, id) && k != (b, id) && !Undecided(before, a, b, id, k) ==> k in after)
  }

  /** Every edge has its mirror: a connection can be followed back to where it came from. */
  ghost predicate Symmetric(c: Connections)
  {
    forall k :: k in c ==> (c[k], k.1) in c && c[(c[k], k.1)] == k.0
  }

  /** Map `m` has no edge by `id`, or its edge by `id` already leads to `partner`. */
  ghost predicate FreeFor(c: Connections, m: TileMap, partner: TileMap, id: int)
  {
    (m, id) !in c || c[(m, id)] == partner
  }

  /** Connections by other ids are not affected. */
  lemma ConnectsKeepsOtherIds(before: Connections, after: Connections, a: TileMap, b: TileMap, id: int,
                              m: TileMap, other: int)
    requires Connects(before, after, a, b, id) && other != id
    ensures Lookup(after, Some(m), other) == Lookup(before, Some(m), other)
  {
    if (m, other) in before {
      assert !Undecided(before, a, b, id, (m, other));
    }
  }

  /**
   * Connecting two maps that are free for each other keeps every connection
   * two-way: both maps remember the connection and no stale edge is left.
   */
  lemma {:induction false} ConnectsPreservesSymmetry(before: Connections, after: Connections,
                                                    a: TileMap, b: TileMap, id: int)
    requires Symmetric(before)
    requires FreeFor(before, a, b, id) && FreeFor(before, b, a, id)
    requires Connects(before, after, a, b, id)
    ensures Symmetric(after)
  {
    forall k | k in after
      ensures (after[k], k.1) in after && after[(after[k], k.1)] == k.0
    {
      if k != (a, id) && k != (b, id) {
        var t := before[k];
        assert (t, k.1) in before && before[(t, k.1)] == k.0;
        assert k.1 == id ==> t != a && t != b;
        if (t, k.1) == (a, id) {
          assert false;
        } else if (t, k.1) == (b, id) {
          assert false;
        } else {
          assert !Undecided(before, a, b, id, (t, k.1));
        }
      }
    }
  }
}
