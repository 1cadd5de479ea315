/** The plain arithmetic of the pan/zoom viewport: the zoom clamp and the
    zoom-dependent drag knobs, the visible part of the image in image pixel
    coordinates, the cached tile box computed around it, and the tests the
    drag logic makes against that box. Screen and canvas coordinates are
    exact reals here; canvas sizes and tile edges are the integers the
    source uses. */
module ViewGeometry {
  import opened Common

  const ZoomMin := 0.5
  const ZoomMax := 16.0
  /** Below `ZoomLow` the drag knobs take their low-zoom values, above
      `ZoomHigh` their high-zoom values, and between they are eased. */
  const ZoomLow := 2.5
  const ZoomHigh := 10.0
  /** The margin, in screen pixels, added around the view for a tile drawn
      while not dragging. */
  const IdleMarginScreen := 160
  /** How far, in screen pixels, the view must stay inside the tile for an
      unforced redraw to be skipped. */
  const InnerPadScreen := 140
  /** How close, in screen pixels, to the tile's edge the view counts as
      near it. */
  const EdgeTriggerScreen := 140
  /** The overflow, in screen pixels, past the tile that lets a frozen drag
      escape into a sharp redraw. */
  const EscapeScreen := 130.0

  /** `max(0.5, min(16.0, z))`. */
  function ClampZoom(z: real): (c: real)
    ensures ZoomMin <= c <= ZoomMax
    ensures ZoomMin <= z <= ZoomMax ==> c == z
    ensures z < ZoomMin ==> c == ZoomMin
    ensures z > ZoomMax ==> c == ZoomMax
  {
    ClampR(z, ZoomMin, ZoomMax)
  }

  /** The cubic ease `u * u * (3 - 2u)`. */
  function Smoothstep(u: real): real
  {
    u * u * (3.0 - 2.0 * u)
  }

  lemma SmoothstepRange(u: real)
    requires 0.0 <= u <= 1.0
    ensures 0.0 <= Smoothstep(u) <= 1.0
  {
    MulNonNegative(u, u);
    MulNonNegative(u * u, 3.0 - 2.0 * u);
    MulNonNegative(1.0 - u, 1.0 - u);
    MulNonNegative((1.0 - u) * (1.0 - u), 1.0 + 2.0 * u);
    assert 1.0 - Smoothstep(u) == (1.0 - u) * (1.0 - u) * (1.0 + 2.0 * u);
  }

  /** `_zoom_t`: 0 up to `ZoomLow`, 1 from `ZoomHigh` on, and the eased
      position of `z` between the two in between. */
  function ZoomT(z: real): (t: real)
    ensures 0.0 <= t <= 1.0
    ensures z <= ZoomLow ==> t == 0.0
    ensures z >= ZoomHigh ==> t == 1.0
  {
    if z <= ZoomLow then 0.0
    else if z >= ZoomHigh then 1.0
    else
      var u := (z - ZoomLow) / (ZoomHigh - ZoomLow);
      SmoothstepRange(u);
      Smoothstep(u)
  }

  lemma SmoothstepMonotonic(a: real, b: real)
    requires 0.0 <= a <= b <= 1.0
    ensures Smoothstep(a) <= Smoothstep(b)
  {
    SmoothstepDiff(a, b);
    SlopeNonNegative(a, b);
    MulNonNegative(b - a, Slope(a, b));
  }

  /** What `Smoothstep(b) - Smoothstep(a)` is, divided by `b - a`. */
  function Slope(a: real, b: real): real
  {
    3.0 * (a + b) - 2.0 * (a * a + a * b + b * b)
  }

  lemma SmoothstepDiff(a: real, b: real)
    ensures Smoothstep(b) - Smoothstep(a) == (b - a) * Slope(a, b)
  {
    var d := b - a;
    assert d * (a + b) == b * b - a * a;
    assert d * (a * a + a * b + b * b) == b * b * b - a * a * a;
    assert d * Slope(a, b) == 3.0 * (d * (a + b)) - 2.0 * (d * (a * a + a * b + b * b));
  }

  lemma SlopeNonNegative(a: real, b: real)
    requires 0.0 <= a <= b <= 1.0
    ensures Slope(a, b) >= 0.0
  {
    ProductsAtMost(a, b);
    SlopeOfBounds(a, b, a * a, a * b, b * b);
  }

  /** On [0, 1] the three products of `Slope` are at most a factor. */
  lemma ProductsAtMost(a: real, b: real)
    requires 0.0 <= a <= b <= 1.0
    ensures a * a <= a && a * b <= a && b * b <= b
  {
    MulAtMostOne(a, a);
    MulAtMostOne(a, b);
    MulAtMostOne(b, b);
  }

  /** The linear step of `SlopeNonNegative`, with the three products as
      plain numbers. */
  lemma SlopeOfBounds(a: real, b: real, aa: real, ab: real, bb: real)
    requires a <= b && aa <= a && ab <= a && bb <= b
    ensures 3.0 * (a + b) - 2.0 * (aa + ab + bb) >= 0.0
  {
  }

  lemma MulAtMostOne(x: real, y: real)
    requires x >= 0.0 && 0.0 <= y <= 1.0
    ensures x * y <= x && y * x <= x
  {
    MulNonNegative(x, 1.0 - y);
    assert x * (1.0 - y) == x - x * y;
  }

  lemma MulNonNegative(x: real, y: real)
    requires x >= 0.0 && y >= 0.0
    ensures x * y >= 0.0
  {
  }

  /** The knobs never decrease as the zoom grows. */
  lemma {:induction false} ZoomTMonotonic(z1: real, z2: real)
    requires z1 <= z2
    ensures ZoomT(z1) <= ZoomT(z2)
  {
    if ZoomLow < z1 && z2 < ZoomHigh {
      SmoothstepMonotonic((z1 - ZoomLow) / (ZoomHigh - ZoomLow), (z2 - ZoomLow) / (ZoomHigh - ZoomLow));
    }
  }

  /** The tile margin and the quantisation step, in screen pixels, and the
      edge debounce in milliseconds, that a drag uses at a given zoom. */
  datatype DragParams = DragParams(margin: int, quant: int, debounce: int)

  /** `_scaled_drag_params`: the margin eases from 260 to 420, the step from
      32 to 64 and the debounce from 18 to 40 as the zoom goes from
      `ZoomLow` to `ZoomHigh`; the final clamps (80..900, 8..256, 8..200)
      never bind. */
  function ScaledDragParams(z: real): (p: DragParams)
    ensures 260 <= p.margin <= 420 && 32 <= p.quant <= 64 && 18 <= p.debounce <= 40
    ensures z <= ZoomLow ==> p == DragParams(260, 32, 18)
    ensures z >= ZoomHigh ==> p == DragParams(420, 64, 40)
  {
    var t := ZoomT(z);
    var margin := RoundHalfEven(260.0 + (420.0 - 260.0) * t);
    var quant := RoundHalfEven(32.0 + (64.0 - 32.0) * t);
    var debounce := RoundHalfEven(18.0 * (1.0 + 1.2 * t));
    RoundHalfEvenWithin(260.0 + (420.0 - 260.0) * t, 260, 420);
    RoundHalfEvenWithin(32.0 + (64.0 - 32.0) * t, 32, 64);
    RoundHalfEvenWithin(18.0 * (1.0 + 1.2 * t), 18, 40);
    DragParams(Max(80, Min(900, margin)), Max(8, Min(256, quant)), Max(8, Min(200, debounce)))
  }

  /** The padding setting: `"auto"`, a string holding an integer, or any
      other string. */
  datatype PadMode = Auto | Pixels(n: int) | Unparsable

  /** `_compute_pad`: the empty canvas space around the image, on every
      side. */
  function ComputePad(mode: PadMode, canvasW: int, canvasH: int): (pad: int)
    ensures mode.Pixels? ==> pad == mode.n
    ensures !mode.Pixels? ==> pad >= canvasW && pad >= canvasH && (pad == canvasW || pad == canvasH)
  {
    if mode.Pixels? then mode.n else Max(canvasW, canvasH)
  }

  /** `_clamp01`. */
  function Clamp01(v: real): (c: real)
    ensures 0.0 <= c <= 1.0
    ensures 0.0 <= v <= 1.0 ==> c == v
    ensures v < 0.0 ==> c == 0.0
    ensures v > 1.0 ==> c == 1.0
  {
    if v < 0.0 then 0.0 else if v > 1.0 then 1.0 else v
  }

  /** `_screen_to_image_px`: how many image pixels `px` screen pixels span
      at zoom `z`, never less than one. */
  function ScreenToImagePx(px: int, z: real): (n: int)
    ensures n >= 1
    ensures px >= 0 && z >= 0.000000001 ==>
      (n == 1 || n as real * z <= px as real) && px as real < (n as real + 1.0) * z
  {
    var n := Max(1, Trunc(px as real / MaxR(0.000000001, z)));
    if px >= 0 && z >= 0.000000001 then
      WholePixels(px, z);
      n
    else n
  }

  lemma WholePixels(px: int, z: real)
    requires px >= 0 && z >= 0.000000001
    ensures var n := Max(1, Trunc(px as real / MaxR(0.000000001, z)));
      (n == 1 || n as real * z <= px as real) && px as real < (n as real + 1.0) * z
  {
    assert MaxR(0.000000001, z) == z;
    var x := px as real / z;
    assert x * z == px as real;
    SpanBounds(px as real, z, x, Trunc(x));
  }

  lemma SpanBounds(p: real, z: real, x: real, t: int)
    requires z > 0.0 && x * z == p && 0 <= t && t as real <= x < t as real + 1.0
    ensures t >= 1 ==> t as real * z <= p
    ensures p < (Max(1, t) as real + 1.0) * z
  {
    var m := Max(1, t) as real + 1.0;
    assert x < m;
    MulLtR(x, m, z);
    assert p < m * z;
    if t >= 1 {
      MulLeR(t as real, x, z);
      assert t as real * z <= p;
    }
  }

  lemma MulLtR(a: real, b: real, z: real)
    requires a < b && z > 0.0
    ensures a * z < b * z
  {
    MulZero(b - a, z);
    assert (b - a) * z == b * z - a * z;
  }

  lemma MulLeR(a: real, b: real, z: real)
    requires a <= b && z >= 0.0
    ensures a * z <= b * z
  {
    MulNonNegative(b - a, z);
    assert (b - a) * z == b * z - a * z;
  }

  /** `_quantize_floor`: the largest multiple of `q` not above `v`. */
  function QuantizeFloor(v: int, q: int): (r: int)
    requires q > 0
    ensures r % q == 0 && v - q < r <= v
    ensures v >= 0 ==> r >= 0
  {
    var k := v / q;
    DivUnique(k * q, q, k, 0);
    k * q
  }

  /** `_quantize_ceil`: the smallest multiple of `q` not below `v`. */
  function QuantizeCeil(v: int, q: int): (r: int)
    requires q > 0
    ensures r % q == 0 && v <= r < v + q
  {
    var k := (v + q - 1) / q;
    DivUnique(k * q, q, k, 0);
    k * q
  }

  /** A rectangle in image pixel coordinates. */
  datatype Rect = Rect(l: real, t: real, r: real, b: real)

  /** A tile box `(crop_l, crop_t, crop_r, crop_b)`: integer image pixel
      edges, right and bottom exclusive. */
  datatype Box = Box(l: int, t: int, r: int, b: int)

  /** A box that holds at least one pixel and lies inside a `w` x `h`
      image. */
  predicate InsideImage(box: Box, w: int, h: int)
  {
    0 <= box.l < box.r <= w && 0 <= box.t < box.b <= h
  }

  predicate Contains(box: Box, vis: Rect)
  {
    && box.l as real <= vis.l && box.t as real <= vis.t
    && vis.r <= box.r as real && vis.b <= box.b as real
  }

  /** What the geometry reads from the canvas: the image size, the zoom,
      the padding, the canvas coordinates of the view's top-left corner
      (`canvasx(0)`, `canvasy(0)`) and the canvas size in screen pixels
      (`max(1, winfo_width())`, `max(1, winfo_height())`). The image is
      drawn at canvas position (`pad`, `pad`). */
  datatype View = View(w: nat, h: nat, z: real, pad: int, left: real, top: real, cw: int, ch: int)

  predicate Sane(v: View)
  {
    v.z > 0.0 && v.cw >= 1 && v.ch >= 1
  }

  lemma DivLeR(a: real, b: real, z: real)
    requires a <= b && z > 0.0
    ensures a / z <= b / z
  {
    assert b / z - a / z == (b - a) / z;
  }

  lemma ClampMonotonic(a: real, b: real, lo: real, hi: real)
    requires a <= b && lo <= hi
    ensures ClampR(a, lo, hi) <= ClampR(b, lo, hi)
  {
  }

  /** One axis of the view grown by `margin` screen pixels at each end:
      the view starts `start` screen pixels past the image's edge and is
      `len` long; the result is in image pixels, clipped to the image's `n`
      pixels. */
  function GrownSpan(start: real, len: real, margin: real, z: real, n: nat): (g: (real, real))
    requires z > 0.0 && len >= 0.0 && margin >= 0.0
    ensures 0.0 <= g.0 <= g.1 <= n as real
  {
    DivLeR(start - margin, start + len + margin, z);
    ClampMonotonic((start - margin) / z, (start + len + margin) / z, 0.0, n as real);
    (ClampR((start - margin) / z, 0.0, n as real), ClampR((start + len + margin) / z, 0.0, n as real))
  }

  /** Growing the view by more screen pixels never shrinks it. */
  lemma GrownWidens(start: real, len: real, margin: real, z: real, n: nat)
    requires z > 0.0 && len >= 0.0 && margin >= 0.0
    ensures var g, vis := GrownSpan(start, len, margin, z, n), GrownSpan(start, len, 0.0, z, n);
      g.0 <= vis.0 && vis.1 <= g.1
  {
    DivLeR(start - margin, start - 0.0, z);
    DivLeR(start + len + 0.0, start + len + margin, z);
    ClampMonotonic((start - margin) / z, (start - 0.0) / z, 0.0, n as real);
    ClampMonotonic((start + len + 0.0) / z, (start + len + margin) / z, 0.0, n as real);
  }

  /** The view grown by `margin` screen pixels on every side, in image
      pixel coordinates and clipped to the image. */
  function ImageRect(v: View, margin: real): (m: Rect)
    requires Sane(v) && margin >= 0.0
    ensures 0.0 <= m.l <= m.r <= v.w as real
    ensures 0.0 <= m.t <= m.b <= v.h as real
  {
    var x := GrownSpan(v.left - v.pad as real, v.cw as real, margin, v.z, v.w);
    var y := GrownSpan(v.top - v.pad as real, v.ch as real, margin, v.z, v.h);
    Rect(x.0, y.0, x.1, y.1)
  }

  /** `_visible_rect_image_coords`: the part of the image the view shows. */
  function VisibleRect(v: View): (vis: Rect)
    requires Sane(v)
    ensures 0.0 <= vis.l <= vis.r <= v.w as real
    ensures 0.0 <= vis.t <= vis.b <= v.h as real
  {
    ImageRect(v, 0.0)
  }

  /** The crop rectangle `_preview_rect_and_offsets` computes from the
      view's corner and its size divided by the zoom: it is the visible
      rectangle. */
  function PreviewCrop(v: View): (c: Rect)
    requires Sane(v)
    ensures c == VisibleRect(v)
  {
    var w, h := v.w as real, v.h as real;
    var x0, y0 := v.left - v.pad as real, v.top - v.pad as real;
    var l0, t0 := x0 / v.z, y0 / v.z;
    var r0 := l0 + v.cw as real / v.z;
    var b0 := t0 + v.ch as real / v.z;
    assert l0 == (x0 - 0.0) / v.z && t0 == (y0 - 0.0) / v.z;
    assert r0 == (x0 + v.cw as real + 0.0) / v.z;
    assert b0 == (y0 + v.ch as real + 0.0) / v.z;
    Rect(ClampR(l0, 0.0, w), ClampR(t0, 0.0, h), ClampR(r0, 0.0, w), ClampR(b0, 0.0, h))
  }

  /** One axis of a tile box from one axis of the grown view: the low edge
      truncated (`int(l)`) and, when the step `q` exceeds one image pixel,
      floored to it; the high edge rounded up (`int(r + 0.999)`) and ceiled
      to the step; then the high edge cut to the image but kept past the
      low one. */
  function TileEdges(lo: real, hi: real, q: int, n: nat): (e: (int, int))
    requires 0.0 <= lo < hi <= n as real
    ensures 0 <= e.0 < e.1 <= n
    ensures q > 1 ==> e.0 % q == 0 && (e.1 % q == 0 || e.1 == n || e.1 == e.0 + 1)
  {
    var l0, r0 := Trunc(lo), Trunc(hi + 0.999);
    var l := if q > 1 then QuantizeFloor(l0, q) else l0;
    var r := if q > 1 then QuantizeCeil(r0, q) else r0;
    (l, Max(l + 1, Min(n, r)))
  }

  /** The tile-box computation of `_draw_viewport_only`: the view grown by
      `margin` screen pixels and clipped to the image; nothing when that is
      empty; otherwise each axis's edges as `TileEdges` rounds them, with
      the quantisation step converted to image pixels. */
  function TileBoxFor(v: View, margin: int, quant: int): (tb: Option<Box>)
    requires Sane(v) && margin >= 0
    ensures tb.None? <==>
      (var m := ImageRect(v, margin as real); m.r <= m.l || m.b <= m.t)
    ensures tb.Some? ==> InsideImage(tb.value, v.w, v.h)
    ensures tb.Some? && ScreenToImagePx(quant, v.z) > 1 ==>
      var q := ScreenToImagePx(quant, v.z);
      && tb.value.l % q == 0 && tb.value.t % q == 0
      && (tb.value.r % q == 0 || tb.value.r == v.w || tb.value.r == tb.value.l + 1)
      && (tb.value.b % q == 0 || tb.value.b == v.h || tb.value.b == tb.value.t + 1)
  {
    var m := ImageRect(v, margin as real);
    if m.r <= m.l || m.b <= m.t then None
    else
      var q := ScreenToImagePx(quant, v.z);
      var x, y := TileEdges(m.l, m.r, q, v.w), TileEdges(m.t, m.b, q, v.h);
      Some(Box(x.0, y.0, x.1, y.1))
  }

  /** The tile covers everything visible: a margin of at least one screen
      pixel at a zoom of at most 16 is more than the 0.001 image pixel the
      rounding of the high edges may lose. */
  lemma TileContainsVisible(v: View, margin: int, quant: int)
    requires Sane(v) && v.z <= ZoomMax && margin >= 1
    requires TileBoxFor(v, margin, quant).Some?
    ensures Contains(TileBoxFor(v, margin, quant).value, VisibleRect(v))
  {
    var q := ScreenToImagePx(quant, v.z);
    AxisCovers(v.left - v.pad as real, v.cw as real, margin as real, v.z, v.w, q);
    AxisCovers(v.top - v.pad as real, v.ch as real, margin as real, v.z, v.h, q);
  }

  /** Along one axis, the tile edges computed from the view grown by at
      least one screen pixel, at a zoom of at most 16, enclose the view. */
  lemma AxisCovers(start: real, len: real, mr: real, z: real, n: nat, q: int)
    requires z > 0.0 && z <= ZoomMax && len >= 0.0 && mr >= 1.0
    requires GrownSpan(start, len, mr, z, n).0 < GrownSpan(start, len, mr, z, n).1
    ensures var g, vis := GrownSpan(start, len, mr, z, n), GrownSpan(start, len, 0.0, z, n);
      var e := TileEdges(g.0, g.1, q, n);
      e.0 as real <= vis.0 && vis.1 <= e.1 as real
  {
    var g := GrownSpan(start, len, mr, z, n);
    var l0, r0 := Trunc(g.0), Trunc(g.1 + 0.999);
    var l := if q > 1 then QuantizeFloor(l0, q) else l0;
    var r := if q > 1 then QuantizeCeil(r0, q) else r0;
    GrownWidens(start, len, mr, z, n);
    HighEdgeCovers(start + len + 0.0, start + len + mr, mr, z, n, l, r);
  }

  /** A high tile edge computed with margin `mr` lies at or past the
      visible edge. */
  lemma HighEdgeCovers(x: real, xm: real, mr: real, z: real, n: nat, low: int, edge: int)
    requires z > 0.0 && z <= ZoomMax && mr >= 1.0 && xm == x + mr
    requires 0 <= low < n
    requires edge >= Trunc(ClampR(xm / z, 0.0, n as real) + 0.999)
    ensures ClampR(x / z, 0.0, n as real) <= Max(low + 1, Min(n, edge)) as real
  {
    var grown := mr / z;
    assert grown >= 1.0 / 16.0 by {
      assert grown * z == mr;
      MulLeR(z, ZoomMax, grown);
    }
    assert xm / z == x / z + grown;
  }

  /** Whenever any of the image is visible the tile computation yields a
      box; it yields none only for a view that shows no image at all. */
  lemma TileExistsWhenVisible(v: View, margin: int, quant: int)
    requires Sane(v) && margin >= 0
    requires VisibleRect(v).l < VisibleRect(v).r && VisibleRect(v).t < VisibleRect(v).b
    ensures TileBoxFor(v, margin, quant).Some?
  {
    GrownWidens(v.left - v.pad as real, v.cw as real, margin as real, v.z, v.w);
    GrownWidens(v.top - v.pad as real, v.ch as real, margin as real, v.z, v.h);
  }

  /** `_viewport_outside_tile`: some of the visible rectangle lies past the
      tile, or there is no tile. */
  predicate OutsideTile(vis: Rect, tile: Option<Box>)
  {
    || tile.None?
    || vis.l < tile.value.l as real || vis.t < tile.value.t as real
    || vis.r > tile.value.r as real || vis.b > tile.value.b as real
  }

  /** An overflow in screen pixels; `Unbounded` is the source's infinity. */
  datatype Overflow = Unbounded | Amount(px: real)

  /** The largest of the four edge overflows, in image pixels; zero
      exactly when nothing visible lies past the box. */
  function MaxOverflow(vis: Rect, b: Box): (over: real)
    ensures over >= 0.0
    ensures b.l as real - vis.l <= over && b.t as real - vis.t <= over
    ensures vis.r - b.r as real <= over && vis.b - b.b as real <= over
    ensures over == 0.0 || over == b.l as real - vis.l || over == b.t as real - vis.t
         || over == vis.r - b.r as real || over == vis.b - b.b as real
    ensures over == 0.0 <==> !OutsideTile(vis, Some(b))
  {
    var overL := MaxR(0.0, b.l as real - vis.l);
    var overT := MaxR(0.0, b.t as real - vis.t);
    var overR := MaxR(0.0, vis.r - b.r as real);
    var overB := MaxR(0.0, vis.b - b.b as real);
    MaxR(MaxR(MaxR(overL, overT), overR), overB)
  }

  /** `_outside_amount_screen_px`: how far, in screen pixels, the visible
      rectangle reaches past the tile on its worst side (the largest edge
      overflow times the zoom), or `Unbounded` without a tile. */
  function OutsideAmount(vis: Rect, tile: Option<Box>, z: real): (o: Overflow)
    ensures o.Unbounded? <==> tile.None?
  {
    match tile
    case None => Unbounded
    case Some(b) => Amount(MaxOverflow(vis, b) * z)
  }

  /** With a tile, the overflow is never negative, and it is zero exactly
      when the view is not outside the tile. */
  lemma OutsideAmountZero(vis: Rect, b: Box, z: real)
    requires z > 0.0
    ensures var a := OutsideAmount(vis, Some(b), z).px;
      a >= 0.0 && (a == 0.0 <==> !OutsideTile(vis, Some(b)))
  {
    var over := MaxOverflow(vis, b);
    assert OutsideAmount(vis, Some(b), z).px == over * z;
    MulZero(over, z);
  }

  lemma MulZero(x: real, z: real)
    requires x >= 0.0 && z > 0.0
    ensures x * z >= 0.0 && (x * z == 0.0 <==> x == 0.0)
  {
    if x > 0.0 {
      MulLeR(0.0, x, z);
      assert x * z > 0.0;
    }
  }

  /** The test a frozen drag makes before it lets a sharp redraw through:
      there is no tile, or the view is outside it by at least
      `EscapeScreen` screen pixels. */
  function FreezeEscapes(vis: Rect, tile: Option<Box>, z: real): (e: bool)
    ensures e && z > 0.0 ==> OutsideTile(vis, tile)
    ensures z > 0.0 && tile.Some? ==> (e <==> OutsideAmount(vis, tile, z).px >= EscapeScreen)
  {
    if tile.None? then true
    else
      var e := OutsideTile(vis, tile) && OutsideAmount(vis, tile, z).px >= EscapeScreen;
      if z > 0.0 then OutsideAmountZero(vis, tile.value, z); e else e
  }

  /** The cache-hit test of `_draw_viewport_only`: the visible rectangle,
      shrunk by the inner pad, lies inside the tile. */
  function CoveredWithInnerPad(vis: Rect, box: Box, z: real): (c: bool)
    ensures c ==> !OutsideTile(vis, Some(box))
  {
    var inner := ScreenToImagePx(InnerPadScreen, z) as real;
    && vis.l >= box.l as real + inner && vis.t >= box.t as real + inner
    && vis.r <= box.r as real - inner && vis.b <= box.b as real - inner
  }

  /** `_near_tile_edge`: the view comes within the edge trigger of the
      tile's edge, or there is no tile. The trigger equals the inner pad,
      so this is exactly the negation of the cache-hit test. */
  function NearTileEdge(vis: Rect, tile: Option<Box>, z: real): (near: bool)
    ensures tile.None? ==> near
    ensures tile.Some? ==> (near <==> !CoveredWithInnerPad(vis, tile.value, z))
  {
    if tile.None? then true
    else
      var b := tile.value;
      var edge := ScreenToImagePx(EdgeTriggerScreen, z) as real;
      || vis.l < b.l as real + edge || vis.t < b.t as real + edge
      || vis.r > b.r as real - edge || vis.b > b.b as real - edge
  }

  /** `max(1, int(n * z))`: an image dimension at zoom `z` in screen
      pixels. */
  function ZoomedSize(n: nat, z: real): (s: int)
    ensures s >= 1
  {
    Max(1, Trunc(n as real * z))
  }

  /** `_scrollregion_wh` along one axis: the zoomed image plus the padding
      on both sides. */
  function ScrollSize(n: nat, z: real, pad: int): int
  {
    ZoomedSize(n, z) + 2 * pad
  }

  /** `xview_moveto(_clamp01(x / max(1.0, scroll)))`: the canvas
      coordinate asked of Tk for the view's edge, before Tk confines the
      view to the scroll region. */
  function MoveTo(x: real, scroll: int): (o: real)
    ensures 0.0 <= o <= MaxR(1.0, scroll as real)
    ensures 0.0 <= x <= scroll as real ==> o == x
  {
    var s := MaxR(1.0, scroll as real);
    MoveToFraction(x, s);
    Clamp01(x / s) * s
  }

  /** Moving to a fraction of the scroll region clamps the target to it. */
  lemma MoveToFraction(x: real, s: real)
    requires s > 0.0
    ensures Clamp01(x / s) * s == ClampR(x, 0.0, s)
  {
    if x < 0.0 {
      assert x / s < 0.0;
    } else if x > s {
      assert x / s > 1.0;
    } else {
      assert x / s * s == x;
      MulLeR(x, s, 1.0 / s);
    }
  }

  /** The recentring step of `_draw_viewport_only`: the view moved so that
      its centre is on the centre of the zoomed image, as far as the scroll
      region allows. */
  function Recentered(v: View): (c: View)
    ensures c.(left := v.left, top := v.top) == v
  {
    var zw, zh := ZoomedSize(v.w, v.z), ZoomedSize(v.h, v.z);
    var targetLeft := v.pad as real + zw as real / 2.0 - v.cw as real / 2.0;
    var targetTop := v.pad as real + zh as real / 2.0 - v.ch as real / 2.0;
    v.(left := MoveTo(targetLeft, ScrollSize(v.w, v.z, v.pad)),
       top := MoveTo(targetTop, ScrollSize(v.h, v.z, v.pad)))
  }

  /** With a pad of at least half the canvas (the automatic pad is the
      larger canvas side) the scroll region never stops the recentring:
      afterwards the centre of the view is the centre of the zoomed image. */
  lemma RecenterCentres(v: View)
    requires Sane(v) && 2 * v.pad >= v.cw && 2 * v.pad >= v.ch
    ensures Recentered(v).left + v.cw as real / 2.0 == v.pad as real + ZoomedSize(v.w, v.z) as real / 2.0
    ensures Recentered(v).top + v.ch as real / 2.0 == v.pad as real + ZoomedSize(v.h, v.z) as real / 2.0
  {
    var zw, zh := ZoomedSize(v.w, v.z), ZoomedSize(v.h, v.z);
    var targetLeft := v.pad as real + zw as real / 2.0 - v.cw as real / 2.0;
    var targetTop := v.pad as real + zh as real / 2.0 - v.ch as real / 2.0;
    assert 0.0 <= targetLeft <= ScrollSize(v.w, v.z, v.pad) as real;
    assert 0.0 <= targetTop <= ScrollSize(v.h, v.z, v.pad) as real;
  }

  /** The canvas coordinate that `wheel_zoom` asks to put at the view's
      edge along one axis: the image point under the cursor at `c`, placed
      back under the cursor at the new zoom. */
  function WheelTarget(origin: real, c: int, pad: int, oldZ: real, newZ: real): real
    requires oldZ > 0.0
  {
    var ix := (origin + c as real - pad as real) / oldZ;
    pad as real + ix * newZ - c as real
  }

  /** Where the view's edge lands after `wheel_zoom` along one axis. */
  function WheelOrigin(origin: real, c: int, pad: int, oldZ: real, newZ: real, scroll: int): real
    requires oldZ > 0.0
  {
    MoveTo(WheelTarget(origin, c, pad, oldZ, newZ), scroll)
  }

  /** Zooming with the wheel keeps the image point under the cursor under
      the cursor, unless the scroll region stops the move. */
  lemma WheelKeepsCursorPoint(origin: real, c: int, pad: int, oldZ: real, newZ: real, scroll: int)
    requires oldZ > 0.0 && newZ > 0.0
    requires 0.0 <= WheelTarget(origin, c, pad, oldZ, newZ) <= scroll as real
    ensures (WheelOrigin(origin, c, pad, oldZ, newZ, scroll) + c as real - pad as real) / newZ
         == (origin + c as real - pad as real) / oldZ
  {
    var ix := (origin + c as real - pad as real) / oldZ;
    assert WheelOrigin(origin, c, pad, oldZ, newZ, scroll) + c as real - pad as real == ix * newZ;
  }

  /** `wheel_zoom`'s delta after its normalisation: nothing for a delta
      within 1e-9 of zero, and a Linux step of 1 treated as one notch of
      120. */
  function WheelDelta(d: real): (n: Option<real>)
    ensures n.None? <==> -0.000000001 < d < 0.000000001
    ensures d == 1.0 ==> n == Some(120.0)
    ensures d == -1.0 ==> n == Some(-120.0)
    ensures n.Some? && d != 1.0 && d != -1.0 ==> n == Some(d)
  {
    var a := if d < 0.0 then -d else d;
    if a < 0.000000001 then None
    else if a == 1.0 then Some(if d > 0.0 then 120.0 else -120.0)
    else Some(d)
  }

  /** The zoom `zoom_fit` chooses: the largest that shows the whole image
      in the canvas, clamped to the zoom range. */
  function FitZoom(cw: int, ch: int, iw: int, ih: int): (z: real)
    requires cw >= 1 && ch >= 1 && iw > 0 && ih > 0
    ensures ZoomMin <= z <= ZoomMax
  {
    ClampZoom(MinR(cw as real / iw as real, ch as real / ih as real))
  }

  /** Unless the lower clamp binds, the fitted image fits in the canvas;
      unless either clamp binds, it fills the canvas along one side. */
  lemma FitZoomFits(cw: int, ch: int, iw: int, ih: int)
    requires cw >= 1 && ch >= 1 && iw > 0 && ih > 0
    ensures var z := FitZoom(cw, ch, iw, ih);
      var fit := MinR(cw as real / iw as real, ch as real / ih as real);
      && (fit >= ZoomMin ==> z * iw as real <= cw as real && z * ih as real <= ch as real)
      && (ZoomMin <= fit <= ZoomMax ==> z * iw as real == cw as real || z * ih as real == ch as real)
  {
    var z := FitZoom(cw, ch, iw, ih);
    var fx, fy := cw as real / iw as real, ch as real / ih as real;
    DivTimes(cw as real, iw as real);
    DivTimes(ch as real, ih as real);
    var fit := MinR(fx, fy);
    assert fit == fx || fit == fy;
    if fit >= ZoomMin {
      FitsSide(z, fx, iw as real, cw as real);
      FitsSide(z, fy, ih as real, ch as real);
    }
    if ZoomMin <= fit <= ZoomMax {
      assert z == fit;
    }
  }

  lemma DivTimes(c: real, n: real)
    requires n > 0.0
    ensures (c / n) * n == c
  {
  }

  /** A zoom at most `f`, where `f * n == c`, scales `n` to at most `c`. */
  lemma FitsSide(z: real, f: real, n: real, c: real)
    requires z <= f && n > 0.0 && f * n == c
    ensures z * n <= c
  {
    MulLeR(z, f, n);
  }
}
