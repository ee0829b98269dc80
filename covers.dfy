/**
 * The cover store as a value: the cover image shown over each covered cell
 * of the loaded tilemap.
 */
module Covers {
  import opened Grids

  type CoverStore = map<Location, Image>

  /** The store after covering each of `cells` with `cover`. */
  function CoverAll(covers: CoverStore, cells: set<Location>, cover: Image): (r: CoverStore)
    ensures r.Keys == covers.Keys + cells
  {
    map l | l in covers.Keys + cells :: if l in cells then cover else covers[l]
  }

  /** Every covered cell shows the new cover; every other cell keeps what it had, cover or none. */
  lemma CoverAllShows(covers: CoverStore, cells: set<Location>, cover: Image, l: Location)
    ensures l in cells ==> l in CoverAll(covers, cells, cover) && CoverAll(covers, cells, cover)[l] == cover
    ensures l !in cells ==> (l in CoverAll(covers, cells, cover) <==> l in covers)
    ensures l !in cells && l in covers ==> CoverAll(covers, cells, cover)[l] == covers[l]
  {
  }

  /** Covering nothing changes nothing. */
  lemma CoverNothing(covers: CoverStore, cover: Image)
    ensures CoverAll(covers, {}, cover) == covers
  {
    assert CoverAll(covers, {}, cover).Keys == covers.Keys;
  }

  /** Covering one more cell extends the covered set by that cell: the step of a loop over the cells. */
  lemma CoverStep(covers: CoverStore, cells: set<Location>, l: Location, cover: Image)
    ensures CoverAll(covers, cells, cover)[l := cover] == CoverAll(covers, cells + {l}, cover)
  {
    var lhs, rhs := CoverAll(covers, cells, cover)[l := cover], CoverAll(covers, cells + {l}, cover);
    assert lhs.Keys == rhs.Keys;
    forall k | k in lhs
      ensures lhs[k] == rhs[k]
    {
    }
  }

  /** Covering in two rounds is covering the union at once. */
  lemma CoverTwice(covers: CoverStore, first: set<Location>, second: set<Location>, cover: Image)
    ensures CoverAll(CoverAll(covers, first, cover), second, cover) == CoverAll(covers, first + second, cover)
  {
    var lhs, rhs := CoverAll(CoverAll(covers, first, cover), second, cover), CoverAll(covers, first + second, cover);
    assert lhs.Keys == rhs.Keys;
    forall k | k in lhs
      ensures lhs[k] == rhs[k]
    {
    }
  }

  /**
   * Covering N cells of an empty store makes exactly N entries, one at each
   * of those cells, each holding the cover.
   */
  lemma CoverAllCount(cells: set<Location>, cover: Image)
    ensures CoverAll(map[], cells, cover).Keys == cells
    ensures |CoverAll(map[], cells, cover)| == |cells|
    ensures forall l :: l in cells ==> CoverAll(map[], cells, cover)[l] == cover
  {
    var r := CoverAll(map[], cells, cover);
    assert r.Keys == cells;
    assert |r| == |r.Keys|;
  }
}
