/** The sharp layer's tile cache (`_draw_viewport_only`): a redraw first
    recentres the view if asked, skips itself when an unforced redraw finds
    the view still well inside the cached tile, otherwise computes a new
    tile box around the view, and renders only when the draw key changed,
    no sharp image exists yet, or the redraw is forced. The pixels rendered
    are not modelled. */
module TileCache {
  import opened Common
  import opened ViewGeometry

  /** What identifies a sharp render: the zoom, the tile box, whether it
      came from the drag path, and the margin and step it was computed
      with. */
  datatype DrawKey = DrawKey(zoom: real, box: Box, dragging: bool, margin: int, quant: int)

  /** The tile box (`_tile_box`), the key of the last render
      (`_last_draw_key`), whether a sharp image exists (`_tk_image is not
      None`) and whether the last render came from the drag path
      (`_last_was_preview`). */
  datatype Cache = Cache(tileBox: Option<Box>, drawKey: Option<DrawKey>, hasImage: bool, lastWasPreview: bool)

  predicate TileInside(tile: Option<Box>, w: int, h: int)
  {
    tile.Some? ==> InsideImage(tile.value, w, h)
  }

  /** `invalidate_cache`: forgets the tile box and the draw key. */
  function Invalidated(c: Cache): (c': Cache)
    ensures c'.tileBox.None? && c'.drawKey.None?
    ensures c'.hasImage == c.hasImage && c'.lastWasPreview == c.lastWasPreview
  {
    c.(tileBox := None, drawKey := None)
  }

  /** The margin and quantisation step, in screen pixels, of a tile: the
      zoom-scaled drag values while dragging, else 160 and 1. */
  function MarginAndQuant(dragging: bool, z: real): (mq: (int, int))
    ensures IdleMarginScreen <= mq.0 <= 420 && 1 <= mq.1 <= 64
    ensures !dragging ==> mq == (IdleMarginScreen, 1)
  {
    if dragging then (ScaledDragParams(z).margin, ScaledDragParams(z).quant)
    else (IdleMarginScreen, 1)
  }

  /** The view after a redraw, the cache after it, and whether it
      rendered. */
  datatype Drawn = Drawn(view: View, cache: Cache, rendered: bool)

  /** The skip test of `_draw_viewport_only`. */
  predicate CacheHit(vis: Rect, c: Cache, z: real, force: bool)
  {
    !force && c.tileBox.Some? && CoveredWithInnerPad(vis, c.tileBox.value, z)
  }

  function SharpDraw(v: View, c: Cache, dragging: bool, recenter: bool, force: bool): (d: Drawn)
    requires Sane(v)
    ensures d.view == if recenter then Recentered(v) else v
    ensures TileInside(c.tileBox, v.w, v.h) ==> TileInside(d.cache.tileBox, v.w, v.h)
    // a render records its key and its path
    ensures d.rendered ==> d.cache.hasImage && d.cache.drawKey.Some? && d.cache.lastWasPreview == dragging
    // without a render only the tile box can change
    ensures !d.rendered ==> d.cache.(tileBox := c.tileBox) == c
  {
    var view := if recenter then Recentered(v) else v;
    var vis := VisibleRect(view);
    if CacheHit(vis, c, v.z, force) then Drawn(view, c, false)
    else
      var (margin, quant) := MarginAndQuant(dragging, v.z);
      match TileBoxFor(view, margin, quant)
      case None => Drawn(view, c, false)
      case Some(box) =>
        var key := DrawKey(v.z, box, dragging, margin, quant);
        if c.drawKey == Some(key) && c.hasImage && !force then
          Drawn(view, c.(tileBox := Some(box)), false)
        else
          Drawn(view, Cache(Some(box), Some(key), true, dragging), true)
  }

  /** An unforced redraw that finds the view, shrunk by the inner pad,
      inside the tile leaves the cache alone and renders nothing. */
  lemma CacheHitKeepsCache(v: View, c: Cache, dragging: bool, recenter: bool)
    requires Sane(v)
    requires c.tileBox.Some?
    requires CoveredWithInnerPad(VisibleRect(if recenter then Recentered(v) else v), c.tileBox.value, v.z)
    ensures SharpDraw(v, c, dragging, recenter, false) == Drawn(if recenter then Recentered(v) else v, c, false)
  {
  }

  /** When the grown view misses the image the redraw keeps its cache. */
  lemma DegenerateKeepsCache(v: View, c: Cache, dragging: bool, recenter: bool, force: bool)
    requires Sane(v)
    requires var view := if recenter then Recentered(v) else v;
      var (margin, quant) := MarginAndQuant(dragging, v.z);
      TileBoxFor(view, margin, quant).None?
    ensures SharpDraw(v, c, dragging, recenter, force).cache == c
  {
  }

  /** A forced redraw renders whenever it computes a tile box. */
  lemma ForcedRenders(v: View, c: Cache, dragging: bool, recenter: bool)
    requires Sane(v)
    requires var view := if recenter then Recentered(v) else v;
      var (margin, quant) := MarginAndQuant(dragging, v.z);
      TileBoxFor(view, margin, quant).Some?
    ensures SharpDraw(v, c, dragging, recenter, true).rendered
  {
  }

  /** After a redraw of a view that shows some of the image, at a zoom of
      at most 16, there is a tile and the view is not outside it. */
  lemma DrawnTileCoversView(v: View, c: Cache, dragging: bool, recenter: bool, force: bool)
    requires Sane(v) && v.z <= ZoomMax
    requires var vis := VisibleRect(if recenter then Recentered(v) else v);
      vis.l < vis.r && vis.t < vis.b
    ensures var d := SharpDraw(v, c, dragging, recenter, force);
      d.cache.tileBox.Some? && !OutsideTile(VisibleRect(d.view), d.cache.tileBox)
  {
    var view := if recenter then Recentered(v) else v;
    var vis := VisibleRect(view);
    if !CacheHit(vis, c, v.z, force) {
      var (margin, quant) := MarginAndQuant(dragging, v.z);
      TileExistsWhenVisible(view, margin, quant);
      TileContainsVisible(view, margin, quant);
    }
  }

  /** Recentring depends only on the image, zoom, pad and canvas size, so
      doing it twice is doing it once. */
  lemma RecenteredTwice(v: View)
    ensures Recentered(Recentered(v)) == Recentered(v)
  {
    var c := Recentered(v);
    assert c.(left := v.left, top := v.top) == v;
  }

  /** A second unforced redraw of an unchanged view renders nothing and
      changes nothing: redraws are deduplicated. */
  lemma RedrawIdempotent(v: View, c: Cache, dragging: bool, recenter: bool, force: bool)
    requires Sane(v)
    ensures var d := SharpDraw(v, c, dragging, recenter, force);
      var d2 := SharpDraw(d.view, d.cache, dragging, recenter, false);
      d2 == Drawn(d.view, d.cache, false)
  {
    var view := if recenter then Recentered(v) else v;
    if recenter {
      RecenteredTwice(v);
    }
    var d := SharpDraw(v, c, dragging, recenter, force);
    assert (if recenter then Recentered(d.view) else d.view) == view;
  }
}
