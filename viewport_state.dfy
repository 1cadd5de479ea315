/** The state of a `ViewportCanvas` as a value, and what each of its
    methods does to it. Tk's `after` queue, with the three handle fields,
    is part of the state (module `AfterQueue`). The clock is a parameter
    (`now`, in milliseconds); the canvas scroll position after a drag is a
    parameter too, since Tk's `scan_dragto` computes it. */
module ViewportState {
  import opened Common
  import opened ViewGeometry
  import opened TileCache
  import opened Pyramid
  import opened AfterQueue

  /** The size of the image shown (the PIL image itself is not modelled). */
  datatype Size = Size(w: nat, h: nat)

  const InitialZoom := 4.0
  const HqDelayMs := 120
  const PreviewMinIntervalMs := 18.0
  const EscapeIntervalLowMs := 0.0
  const EscapeIntervalHighMs := 75.0
  const DragIntervalLowMs := 0.0
  const DragIntervalHighMs := 55.0
  const DragOutsideIntervalHighMs := 70.0
  const ScrollRedrawDelayMs := 16

  /** The zoom, the pad setting, the canvas size (`winfo_width()`,
      `winfo_height()`) and its scroll position (`canvasx(0)`,
      `canvasy(0)`). */
  datatype Geom = Geom(zoom: real, padMode: PadMode, canvasW: int, canvasH: int, left: real, top: real)

  /** `_is_dragging`, `_user_panned`, `_force_next_draw`,
      `_drag_escape_pending` and `_drag_freeze_enabled`. */
  datatype Flags = Flags(isDragging: bool, userPanned: bool, forceNextDraw: bool, escapePending: bool, freezeEnabled: bool)

  /** `_preview_enabled`, `_preview_visible` and `_preview_last_ms`. */
  datatype Preview = Preview(enabled: bool, visible: bool, lastMs: real)

  /** `_drag_last_escape_redraw_ms` and `_drag_last_redraw_ms`. */
  datatype Clocks = Clocks(lastEscapeMs: real, dragLastRedrawMs: real)

  datatype ViewState = ViewState(
    image: Option<Size>,
    pyr: seq<Level>,
    geom: Geom,
    cache: Cache,
    flags: Flags,
    preview: Preview,
    queue: Queue,
    clocks: Clocks)

  function PyramidOf(image: Option<Size>): seq<Level>
  {
    if image.None? then [] else PyramidFor(image.value.w, image.value.h)
  }

  /** The zoom stays within its clamp, the pyramid belongs to the image,
      a cached tile lies inside the image, and the queue keeps its own
      invariant. */
  ghost predicate Inv(s: ViewState)
  {
    && ZoomMin <= s.geom.zoom <= ZoomMax
    && s.pyr == PyramidOf(s.image)
    && (s.cache.tileBox.Some? ==>
          s.image.Some? && InsideImage(s.cache.tileBox.value, s.image.value.w, s.image.value.h))
    && QueueOk(s.queue)
  }

  /** A new viewport on a canvas of the given size: zoom 4, no image, no
      tile, nothing pending, freeze and preview on, automatic padding. */
  function Initial(canvasW: int, canvasH: int): (s: ViewState)
    ensures Inv(s)
    ensures s.geom.zoom == InitialZoom && s.image.None? && s.cache.tileBox.None?
    ensures forall cb :: Pending(s.queue, cb).None?
  {
    ViewState(None, [], Geom(InitialZoom, Auto, canvasW, canvasH, 0.0, 0.0),
      Cache(None, None, false, false), Flags(false, false, false, false, true),
      Preview(true, false, 0.0), Empty(), Clocks(0.0, 0.0))
  }

  function Pad(s: ViewState): int
  {
    ComputePad(s.geom.padMode, Max(1, s.geom.canvasW), Max(1, s.geom.canvasH))
  }

  /** The geometry the viewport reads from the canvas. */
  function CanvasView(s: ViewState): (v: View)
    requires s.image.Some? && s.geom.zoom > 0.0
    ensures Sane(v)
  {
    View(s.image.value.w, s.image.value.h, s.geom.zoom, Pad(s), s.geom.left, s.geom.top,
      Max(1, s.geom.canvasW), Max(1, s.geom.canvasH))
  }

  /** `schedule_redraw`: the pending sharp redraw, if any, is replaced by
      one after `delayMs`, and the force flag is set to `force`. */
  function ScheduleRedraw(s: ViewState, delayMs: int, force: bool): (s': ViewState)
    ensures s'.flags.forceNextDraw == force
    ensures Pending(s'.queue, SharpRedraw) == Some(Job(SharpRedraw, delayMs))
    ensures s'.(queue := s.queue, flags := s.flags) == s
    ensures s'.flags.(forceNextDraw := s.flags.forceNextDraw) == s.flags
  {
    s.(flags := s.flags.(forceNextDraw := force), queue := Reschedule(s.queue, SharpRedraw, delayMs))
  }

  /** `invalidate_cache`. */
  function InvalidateCache(s: ViewState): (s': ViewState)
    ensures s'.cache.tileBox.None? && s'.cache.drawKey.None?
  {
    s.(cache := Invalidated(s.cache))
  }

  /** `_draw_viewport_only`: the scroll position (when recentred) and the
      cache are all it changes. */
  function DrawViewportOnly(s: ViewState, recenter: bool, force: bool): (s': ViewState)
    requires s.geom.zoom > 0.0
    ensures s'.(geom := s.geom, cache := s.cache) == s
    ensures s'.geom.(left := s.geom.left, top := s.geom.top) == s.geom
  {
    if s.image.None? then s
    else
      var d := SharpDraw(CanvasView(s), s.cache, s.flags.isDragging, recenter, force);
      s.(geom := s.geom.(left := d.view.left, top := d.view.top), cache := d.cache)
  }

  /** Whether `_do_redraw` is held back by the drag freeze. */
  predicate Frozen(s: ViewState)
  {
    s.flags.isDragging && s.flags.freezeEnabled && !s.flags.forceNextDraw && !s.flags.escapePending
  }

  /** `_do_redraw`: it clears its handle; frozen, it then only clears the
      force flag; otherwise it draws (recentring unless the user panned)
      and clears the force flag and the pending escape. */
  function DoRedraw(s: ViewState): (s': ViewState)
    requires s.geom.zoom > 0.0
    ensures Handle(s'.queue, SharpRedraw).None? && !s'.flags.forceNextDraw
    ensures Frozen(s) ==> s' == s.(queue := s'.queue, flags := s.flags.(forceNextDraw := false))
    ensures !Frozen(s) ==> !s'.flags.escapePending
    ensures !Frozen(s) && s.image.Some? ==>
      s'.cache == SharpDraw(CanvasView(s), s.cache, s.flags.isDragging, !s.flags.userPanned, s.flags.forceNextDraw).cache
    ensures s'.queue == WithHandle(s.queue, SharpRedraw, None) && s'.flags.isDragging == s.flags.isDragging
  {
    var s0 := s.(queue := WithHandle(s.queue, SharpRedraw, None));
    if Frozen(s0) then s0.(flags := s0.flags.(forceNextDraw := false))
    else
      var s1 := DrawViewportOnly(s0, !s0.flags.userPanned, s0.flags.forceNextDraw);
      s1.(flags := s1.flags.(forceNextDraw := false, escapePending := false))
  }

  /** `_hq_redraw_now`: it clears its handle, then asks for an unforced
      sharp redraw, but only when not dragging and the last sharp render
      came from the drag path. */
  function HqRedrawNow(s: ViewState): (s': ViewState)
    ensures Handle(s'.queue, HqRedraw).None?
    ensures (!s.flags.isDragging && s.cache.lastWasPreview) ==>
      Pending(s'.queue, SharpRedraw) == Some(Job(SharpRedraw, 0)) && !s'.flags.forceNextDraw
    ensures !(!s.flags.isDragging && s.cache.lastWasPreview) ==>
      s' == s.(queue := WithHandle(s.queue, HqRedraw, None))
  {
    var s0 := s.(queue := WithHandle(s.queue, HqRedraw, None));
    if s0.flags.isDragging then s0
    else if !s0.cache.lastWasPreview then s0
    else ScheduleRedraw(s0, 0, false)
  }

  /** `_draw_preview_now`: the preview layer is shown while dragging with
      the preview on and an image present; nothing else changes. */
  function DrawPreviewNow(s: ViewState): (s': ViewState)
    ensures s' == s.(preview := s.preview.(visible := s'.preview.visible))
    ensures s'.preview.visible <==> s.preview.visible || (s.preview.enabled && s.image.Some? && s.flags.isDragging)
  {
    if !s.preview.enabled || s.image.None? then s
    else if !s.flags.isDragging then s
    else s.(preview := s.preview.(visible := true))
  }

  /** `_schedule_preview_redraw`: draws the preview now when
      `PreviewMinIntervalMs` have passed since the last one; otherwise
      defers it by the remainder (at least 1 ms), unless a deferred job is
      already pending. */
  function SchedulePreviewRedraw(s: ViewState, now: real): (s': ViewState)
    ensures now - s.preview.lastMs >= PreviewMinIntervalMs ==>
      s' == DrawPreviewNow(s.(preview := s.preview.(lastMs := now)))
    ensures now - s.preview.lastMs < PreviewMinIntervalMs && Handle(s.queue, PreviewRedraw).Some? ==> s' == s
    ensures now - s.preview.lastMs < PreviewMinIntervalMs && Handle(s.queue, PreviewRedraw).None? ==>
      && s' == s.(queue := s'.queue)
      && Pending(s'.queue, PreviewRedraw).Some?
      && 1 <= Pending(s'.queue, PreviewRedraw).value.delayMs
      && (now >= s.preview.lastMs ==> Pending(s'.queue, PreviewRedraw).value.delayMs <= 18)
    ensures s'.(queue := s.queue, preview := s.preview) == s
    ensures s'.preview.enabled == s.preview.enabled
  {
    var elapsed := now - s.preview.lastMs;
    if elapsed >= PreviewMinIntervalMs then DrawPreviewNow(s.(preview := s.preview.(lastMs := now)))
    else
      var delay := Trunc(MaxR(1.0, PreviewMinIntervalMs - elapsed));
      if Handle(s.queue, PreviewRedraw).None? then DeferPreview(s, delay)
      else s
  }

  /** `after(delay, _preview_after_fire)` into the preview handle. */
  function DeferPreview(s: ViewState, delayMs: int): (s': ViewState)
    ensures s' == s.(queue := s'.queue)
    ensures Pending(s'.queue, PreviewRedraw) == Some(Job(PreviewRedraw, delayMs))
  {
    s.(queue := Reschedule(s.queue, PreviewRedraw, delayMs))
  }

  /** `_preview_after_fire`: it clears its handle, stamps the time and
      draws the preview. */
  function PreviewAfterFire(s: ViewState, now: real): (s': ViewState)
    ensures Handle(s'.queue, PreviewRedraw).None? && s'.preview.lastMs == now
    ensures s'.queue == WithHandle(s.queue, PreviewRedraw, None)
  {
    DrawPreviewNow(s.(queue := WithHandle(s.queue, PreviewRedraw, None), preview := s.preview.(lastMs := now)))
  }

  /** The throttle shared by the escape and fallback drag redraws: an
      unforced sharp redraw now when `minMs` have passed since `last`,
      otherwise one deferred by what is left of the interval. The first
      component tells whether it went now. */
  function Throttled(s: ViewState, minMs: real, last: real, now: real): (r: (bool, ViewState))
    ensures r.0 <==> now - last >= minMs
    ensures r.0 ==> r.1 == ScheduleRedraw(s, 0, false)
    ensures !r.0 ==> var d := Trunc(minMs - (now - last));
      r.1 == ScheduleRedraw(s, d, false) && 0 <= d && d as real <= minMs - (now - last)
  {
    var elapsed := now - last;
    if elapsed >= minMs then (true, ScheduleRedraw(s, 0, false))
    else (false, ScheduleRedraw(s, Trunc(MaxR(0.0, minMs - elapsed)), false))
  }

  /** `_schedule_drag_escape_redraw`: the minimum interval eases from 0 to
      75 ms with the zoom; an unforced sharp redraw is always left pending,
      either at once (and the time stamped) or after the rest of the
      interval. */
  function ScheduleDragEscapeRedraw(s: ViewState, z: real, now: real): (s': ViewState)
    ensures Pending(s'.queue, SharpRedraw).Some? && !s'.flags.forceNextDraw
    ensures 0 <= Pending(s'.queue, SharpRedraw).value.delayMs
    ensures now >= s.clocks.lastEscapeMs ==> Pending(s'.queue, SharpRedraw).value.delayMs <= 75
    ensures s'.clocks.lastEscapeMs == now || s'.clocks.lastEscapeMs == s.clocks.lastEscapeMs
    ensures Pending(s'.queue, SharpRedraw).value.delayMs == 0 || s'.clocks.lastEscapeMs == s.clocks.lastEscapeMs
  {
    var (atOnce, s1) := Throttled(s, EscapeMinMs(z), s.clocks.lastEscapeMs, now);
    if atOnce then s1.(clocks := s1.clocks.(lastEscapeMs := now)) else s1
  }

  /** The escape throttle's interval: 0 ms up to zoom 2.5, 75 ms from zoom
      10, eased between. */
  function EscapeMinMs(z: real): (ms: real)
    ensures EscapeIntervalLowMs <= ms <= EscapeIntervalHighMs
    ensures z <= ZoomLow ==> ms == EscapeIntervalLowMs
    ensures z >= ZoomHigh ==> ms == EscapeIntervalHighMs
  {
    EscapeIntervalLowMs + (EscapeIntervalHighMs - EscapeIntervalLowMs) * ZoomT(z)
  }

  /** The fallback throttle's interval: 0 to 55 ms eased with the zoom, or
      up to 70 ms when the view is outside the tile. */
  function DragMinMs(z: real, outsideTile: bool): (ms: real)
    ensures 0.0 <= ms <= DragOutsideIntervalHighMs
    ensures !outsideTile ==> ms <= DragIntervalHighMs
    ensures z <= ZoomLow ==> ms == 0.0
    ensures z >= ZoomHigh ==> ms == (if outsideTile then DragOutsideIntervalHighMs else DragIntervalHighMs)
  {
    var t := ZoomT(z);
    var base := DragIntervalLowMs + (DragIntervalHighMs - DragIntervalLowMs) * t;
    if outsideTile then MaxR(base, DragOutsideIntervalHighMs * t) else base
  }

  /** `_schedule_drag_redraw`: the fallback throttle when the freeze is
      off, easing from 0 to 55 ms with the zoom, or to 70 ms when the
      view is already outside the tile. */
  function ScheduleDragRedraw(s: ViewState, z: real, outsideTile: bool, now: real): (s': ViewState)
    ensures Pending(s'.queue, SharpRedraw).Some? && !s'.flags.forceNextDraw
    ensures 0 <= Pending(s'.queue, SharpRedraw).value.delayMs
    ensures now >= s.clocks.dragLastRedrawMs ==> Pending(s'.queue, SharpRedraw).value.delayMs <= 70
    ensures now >= s.clocks.dragLastRedrawMs && !outsideTile ==> Pending(s'.queue, SharpRedraw).value.delayMs <= 55
  {
    var (atOnce, s1) := Throttled(s, DragMinMs(z, outsideTile), s.clocks.dragLastRedrawMs, now);
    if atOnce then s1.(clocks := s1.clocks.(dragLastRedrawMs := now)) else s1
  }

  /** `pan_begin`: with an image, cancels the deferred HQ and preview jobs,
      starts dragging and shows the preview layer. */
  function PanBegin(s: ViewState): (s': ViewState)
    ensures s.image.None? ==> s' == s
    ensures s.image.Some? ==>
      && s'.flags.isDragging && s'.flags.userPanned
      && Pending(s'.queue, HqRedraw).None? && Pending(s'.queue, PreviewRedraw).None?
      && (s.preview.enabled ==> s'.preview.visible)
  {
    if s.image.None? then s
    else
      var s1 := s.(queue := Cancel(Cancel(s.queue, HqRedraw), PreviewRedraw),
        flags := s.flags.(isDragging := true, userPanned := true));
      if s1.preview.enabled then s1.(preview := s1.preview.(visible := true)) else s1
  }

  /** `pan_move` after Tk has scrolled the view to (`left`, `top`): the
      preview is refreshed (throttled), then `SharpAfterMove` decides about
      the sharp layer. */
  function PanMove(s: ViewState, left: real, top: real, now: real): (s': ViewState)
    requires s.geom.zoom > 0.0
    ensures s.image.None? || !s.flags.isDragging ==> s' == s
  {
    if s.image.None? || !s.flags.isDragging then s
    else
      var s1 := s.(flags := s.flags.(userPanned := true), geom := s.geom.(left := left, top := top));
      var s2 := if s1.preview.enabled then SchedulePreviewRedraw(s1, now) else s1;
      SharpAfterMove(s2, now)
  }

  /** The sharp-layer half of `pan_move`: with no tile an escape is marked
      and scheduled; with the freeze on a sharp redraw is let through only
      when the view overflows the tile by at least `EscapeScreen` screen
      pixels; with it off, a sharp redraw is scheduled when the view leaves
      the tile or nears its edge. */
  function SharpAfterMove(s: ViewState, now: real): (s': ViewState)
    requires s.geom.zoom > 0.0 && s.image.Some?
    // under the freeze, an escape or nothing at all
    ensures s.flags.freezeEnabled ==>
      if FreezeEscapes(VisibleRect(CanvasView(s)), s.cache.tileBox, s.geom.zoom) then
        s' == ScheduleDragEscapeRedraw(s.(flags := s.flags.(escapePending := true)), s.geom.zoom, now)
      else s' == s
    // with no tile, always an escape
    ensures s.cache.tileBox.None? ==>
      s' == ScheduleDragEscapeRedraw(s.(flags := s.flags.(escapePending := true)), s.geom.zoom, now)
  {
    var z := s.geom.zoom;
    if s.cache.tileBox.None? then
      ScheduleDragEscapeRedraw(s.(flags := s.flags.(escapePending := true)), z, now)
    else
      var vis := VisibleRect(CanvasView(s));
      var outside := OutsideTile(vis, s.cache.tileBox);
      if s.flags.freezeEnabled then
        if outside then
          if OutsideAmount(vis, s.cache.tileBox, z).px >= EscapeScreen then
            ScheduleDragEscapeRedraw(s.(flags := s.flags.(escapePending := true)), z, now)
          else s
        else s
      else if outside then ScheduleDragRedraw(s, z, true, now)
      else if NearTileEdge(vis, s.cache.tileBox, z) then ScheduleDragRedraw(s, z, false, now)
      else s
  }

  /** `pan_end`: stops dragging, cancels every pending job, asks for a
      forced sharp redraw at once and the HQ check after `HqDelayMs`, and
      hides the preview layer. */
  function PanEnd(s: ViewState): (s': ViewState)
    ensures !s.flags.isDragging ==> s' == s
    ensures s.flags.isDragging ==>
      && !s'.flags.isDragging && !s'.flags.escapePending && s'.flags.forceNextDraw
      && Pending(s'.queue, SharpRedraw) == Some(Job(SharpRedraw, 0))
      && Pending(s'.queue, HqRedraw) == Some(Job(HqRedraw, HqDelayMs))
      && Pending(s'.queue, PreviewRedraw).None?
      && (s.preview.enabled ==> !s'.preview.visible)
  {
    if !s.flags.isDragging then s
    else
      var q := Cancel(Cancel(Cancel(s.queue, SharpRedraw), PreviewRedraw), HqRedraw);
      var s1 := s.(flags := s.flags.(isDragging := false, escapePending := false), queue := q);
      var s2 := ScheduleRedraw(s1, 0, true);
      var s3 := s2.(queue := Enqueue(s2.queue, HqRedraw, HqDelayMs));
      if s3.preview.enabled then s3.(preview := s3.preview.(visible := false)) else s3
  }

  /** `set_image`: the new image and its pyramid, the cache invalidated,
      and a sharp redraw (forced unless asked not to) pending. */
  function SetImage(s: ViewState, image: Option<Size>, recenter: bool, force: bool): (s': ViewState)
    ensures s'.image == image && s'.pyr == PyramidOf(image)
    ensures s'.cache.tileBox.None? && s'.cache.drawKey.None?
    ensures s'.flags.forceNextDraw == force && Pending(s'.queue, SharpRedraw) == Some(Job(SharpRedraw, 0))
    ensures recenter ==> !s'.flags.userPanned
  {
    var s1 := s.(image := image, pyr := PyramidOf(image));
    var s2 := if recenter then s1.(flags := s1.flags.(userPanned := false)) else s1;
    ScheduleRedraw(InvalidateCache(s2), 0, force)
  }

  /** The zoom `set_zoom` asks for: `z or 1.0`, clamped. */
  function RequestedZoom(z: real): (c: real)
    ensures ZoomMin <= c <= ZoomMax
    ensures z == 0.0 ==> c == 1.0
    ensures z != 0.0 && ZoomMin <= z <= ZoomMax ==> c == z
  {
    ClampZoom(if z == 0.0 then 1.0 else z)
  }

  /** The source's `abs(a - b) < 1e-9`. */
  predicate NearlyEqual(a: real, b: real)
  {
    -0.000000001 < a - b < 0.000000001
  }

  /** The common tail of `set_zoom`, `zoom_fit` and `wheel_zoom`: the new
      zoom, the cache invalidated and a forced sharp redraw at once. */
  function ZoomChanged(s: ViewState, z: real): (s': ViewState)
    ensures s'.geom == s.geom.(zoom := z)
    ensures s'.cache.tileBox.None? && s'.cache.drawKey.None?
    ensures s'.flags.forceNextDraw && Pending(s'.queue, SharpRedraw) == Some(Job(SharpRedraw, 0))
    ensures s'.flags.userPanned == s.flags.userPanned
  {
    ScheduleRedraw(InvalidateCache(s.(geom := s.geom.(zoom := z))), 0, true)
  }

  /** `set_zoom`: nothing happens when the clamped zoom equals the current
      one and the change is not forced; otherwise the zoom is set, the cache
      invalidated and a forced sharp redraw left pending. */
  function SetZoom(s: ViewState, z: real, recenter: bool, force: bool): (s': ViewState)
    ensures NearlyEqual(RequestedZoom(z), s.geom.zoom) && !force ==> s' == s
    ensures !(NearlyEqual(RequestedZoom(z), s.geom.zoom) && !force) ==>
      && s'.geom.zoom == RequestedZoom(z)
      && s'.cache.tileBox.None? && s'.cache.drawKey.None?
      && s'.flags.forceNextDraw && Pending(s'.queue, SharpRedraw) == Some(Job(SharpRedraw, 0))
      && (recenter ==> !s'.flags.userPanned)
  {
    var z1 := RequestedZoom(z);
    if NearlyEqual(z1, s.geom.zoom) && !force then s
    else ZoomChanged(if recenter then s.(flags := s.flags.(userPanned := false)) else s, z1)
  }

  /** `zoom_fit`: with a non-empty image, the fitting zoom, the view to be
      recentred, the cache invalidated and a forced sharp redraw pending. */
  function ZoomFit(s: ViewState): (s': ViewState)
    ensures (s.image.None? || s.image.value.w == 0 || s.image.value.h == 0) ==> s' == s
    ensures s.image.Some? && s.image.value.w > 0 && s.image.value.h > 0 ==>
      && s'.geom.zoom == FitZoom(Max(1, s.geom.canvasW), Max(1, s.geom.canvasH), s.image.value.w, s.image.value.h)
      && !s'.flags.userPanned && s'.cache.tileBox.None? && s'.cache.drawKey.None?
      && s'.flags.forceNextDraw && Pending(s'.queue, SharpRedraw) == Some(Job(SharpRedraw, 0))
  {
    if s.image.None? then s
    else
      var cw, ch := Max(1, s.geom.canvasW), Max(1, s.geom.canvasH);
      var iw, ih := s.image.value.w, s.image.value.h;
      if iw <= 0 || ih <= 0 then s
      else ZoomChanged(s.(flags := s.flags.(userPanned := false)), FitZoom(cw, ch, iw, ih))
  }

  /** The zoom a wheel step asks for, or nothing when the step is ignored:
      a zero delta, or a clamped zoom equal to the old one. `power(x)`
      stands for the float power `1.125 ** x`. */
  function WheelZoomTarget(oldZ: real, delta: real, power: real -> real): (target: Option<real>)
    ensures WheelDelta(delta).None? ==> target.None?
    ensures target.Some? ==> ZoomMin <= target.value <= ZoomMax && !NearlyEqual(target.value, oldZ)
    // a step that moves the zoom by at least 1e-9 is taken
    ensures WheelDelta(delta).Some? && !NearlyEqual(WheelScaled(oldZ, power(WheelDelta(delta).value / 120.0)), oldZ) ==>
      target == Some(WheelScaled(oldZ, power(WheelDelta(delta).value / 120.0)))
  {
    match WheelDelta(delta)
    case None => None
    case Some(d) =>
      var newZ := WheelScaled(oldZ, power(d / 120.0));
      if NearlyEqual(newZ, oldZ) then None else Some(newZ)
  }

  /** The old zoom times the wheel factor, clamped. */
  function WheelScaled(oldZ: real, factor: real): (z: real)
    ensures ZoomMin <= z <= ZoomMax
  {
    ClampZoom(oldZ * factor)
  }

  /** The scroll position after a wheel step from `oldZ` to `newZ` with
      the cursor at (`cx`, `cy`): the image point under the cursor stays
      under it. */
  function WheelScroll(s: ViewState, cx: int, cy: int, oldZ: real, newZ: real): (g: Geom)
    requires s.image.Some? && oldZ > 0.0
    ensures g.(left := s.geom.left, top := s.geom.top) == s.geom
  {
    var pad, img := Pad(s), s.image.value;
    s.geom.(left := WheelOrigin(s.geom.left, cx, pad, oldZ, newZ, ScrollSize(img.w, newZ, pad)),
            top := WheelOrigin(s.geom.top, cy, pad, oldZ, newZ, ScrollSize(img.h, newZ, pad)))
  }

  /** `wheel_zoom` with the cursor at (`cx`, `cy`) on the canvas: the zoom
      is multiplied by `power(d / 120)` and clamped; with an image the view
      is then moved so that the image point under the cursor stays under
      it. */
  function WheelZoom(s: ViewState, cx: int, cy: int, delta: real, power: real -> real): (s': ViewState)
    requires s.geom.zoom > 0.0
    ensures WheelZoomTarget(s.geom.zoom, delta, power).None? ==> s' == s
    ensures WheelZoomTarget(s.geom.zoom, delta, power).Some? ==>
      && s'.geom.zoom == WheelZoomTarget(s.geom.zoom, delta, power).value
      && s'.cache.tileBox.None? && s'.cache.drawKey.None?
      && s'.flags.forceNextDraw && Pending(s'.queue, SharpRedraw) == Some(Job(SharpRedraw, 0))
      && (s.image.Some? ==> s'.flags.userPanned)
  {
    match WheelZoomTarget(s.geom.zoom, delta, power)
    case None => s
    case Some(newZ) =>
      if s.image.None? then ZoomChanged(s, newZ)
      else
        var g := WheelScroll(s, cx, cy, s.geom.zoom, newZ);
        ZoomChanged(s.(geom := g, flags := s.flags.(userPanned := true)), newZ)
  }

  /** `_on_xscroll` / `_on_yscroll`: outside a drag, an unforced sharp
      redraw after 16 ms. */
  function OnScroll(s: ViewState): (s': ViewState)
    ensures s.flags.isDragging ==> s' == s
    ensures !s.flags.isDragging ==>
      Pending(s'.queue, SharpRedraw) == Some(Job(SharpRedraw, ScrollRedrawDelayMs)) && !s'.flags.forceNextDraw
  {
    if s.flags.isDragging then s else ScheduleRedraw(s, ScrollRedrawDelayMs, false)
  }

  /** `_on_configure` for a canvas now `width` x `height`: a forced sharp
      redraw, and the preview redrawn while dragging. */
  function OnConfigure(s: ViewState, width: int, height: int): (s': ViewState)
    ensures s'.geom.canvasW == width && s'.geom.canvasH == height
    ensures s'.flags.forceNextDraw && Pending(s'.queue, SharpRedraw) == Some(Job(SharpRedraw, 0))
  {
    var s1 := ScheduleRedraw(s.(geom := s.geom.(canvasW := width, canvasH := height)), 0, true);
    if s1.flags.isDragging && s1.preview.enabled then DrawPreviewNow(s1) else s1
  }

  /** Tk running the pending job `id`: the job leaves the queue and its
      callback runs. */
  function Fire(s: ViewState, id: nat, now: real): (s': ViewState)
    requires id in s.queue.jobs && s.geom.zoom > 0.0
  {
    var s0 := s.(queue := s.queue.(jobs := s.queue.jobs - {id}));
    match s.queue.jobs[id].callback
    case SharpRedraw => DoRedraw(s0)
    case PreviewRedraw => PreviewAfterFire(s0, now)
    case HqRedraw => HqRedrawNow(s0)
  }

  /** While dragging with the freeze on and a tile cached, a move asks for
      a sharp redraw exactly when the view overflows the tile by at least
      `EscapeScreen` screen pixels; otherwise the pending sharp job, the
      force and escape flags and the cache stay as they were. */
  lemma PanMoveUnderFreeze(s: ViewState, left: real, top: real, now: real)
    requires Inv(s) && s.image.Some? && s.flags.isDragging && s.flags.freezeEnabled && s.cache.tileBox.Some?
    ensures var s' := PanMove(s, left, top, now);
      var vis := VisibleRect(CanvasView(s.(geom := s.geom.(left := left, top := top))));
      if FreezeEscapes(vis, s.cache.tileBox, s.geom.zoom) then
        s'.flags.escapePending && Pending(s'.queue, SharpRedraw).Some? && !s'.flags.forceNextDraw
      else
        && s'.cache == s.cache && s'.flags.escapePending == s.flags.escapePending
        && s'.flags.forceNextDraw == s.flags.forceNextDraw
        && Pending(s'.queue, SharpRedraw) == Pending(s.queue, SharpRedraw)
  {
    var s1 := s.(flags := s.flags.(userPanned := true), geom := s.geom.(left := left, top := top));
    var s2 := if s1.preview.enabled then SchedulePreviewRedraw(s1, now) else s1;
    if s1.preview.enabled {
      SchedulePreviewRedrawKeepsInv(s1, now);
    }
    assert CanvasView(s2) == CanvasView(s1);
    assert Pending(s2.queue, SharpRedraw) == Pending(s.queue, SharpRedraw);
  }

  /** A move while dragging with no tile cached always marks an escape and
      leaves an unforced sharp redraw pending. */
  lemma PanMoveWithoutTile(s: ViewState, left: real, top: real, now: real)
    requires s.geom.zoom > 0.0 && s.image.Some? && s.flags.isDragging && s.cache.tileBox.None?
    ensures var s' := PanMove(s, left, top, now);
      s'.flags.escapePending && Pending(s'.queue, SharpRedraw).Some? && !s'.flags.forceNextDraw
  {
    var s1 := s.(flags := s.flags.(userPanned := true), geom := s.geom.(left := left, top := top));
    var s2 := if s1.preview.enabled then SchedulePreviewRedraw(s1, now) else s1;
    assert s2.cache == s.cache;
  }

  /** After a release nothing is pending but the forced sharp redraw and
      the HQ check, under the next two ids. */
  lemma PanEndLeavesTwoJobs(s: ViewState)
    requires Inv(s) && s.flags.isDragging
    ensures PanEnd(s).queue.jobs ==
      map[s.queue.nextId := Job(SharpRedraw, 0), s.queue.nextId + 1 := Job(HqRedraw, HqDelayMs)]
  {
    CancelAllEmpties(s.queue);
    var q := Cancel(Cancel(Cancel(s.queue, SharpRedraw), PreviewRedraw), HqRedraw);
    assert Reschedule(q, SharpRedraw, 0).jobs == map[s.queue.nextId := Job(SharpRedraw, 0)];
  }

  /** The sharp redraw a release leaves pending is not held back by the
      freeze, and when it runs the view is inside the new tile, provided
      the view shows some of the image. */
  lemma ReleaseRedrawCoversView(s: ViewState, now: real)
    requires Inv(s) && s.flags.isDragging && s.image.Some?
    requires var s1 := PanEnd(s);
      var vis := VisibleRect(if !s1.flags.userPanned then Recentered(CanvasView(s1)) else CanvasView(s1));
      vis.l < vis.r && vis.t < vis.b
    ensures var s1 := PanEnd(s);
      && Handle(s1.queue, SharpRedraw).Some? && Handle(s1.queue, SharpRedraw).value in s1.queue.jobs
      && var s2 := Fire(s1, Handle(s1.queue, SharpRedraw).value, now);
         s2.cache.tileBox.Some? && !OutsideTile(VisibleRect(CanvasView(s2)), s2.cache.tileBox)
  {
    var s1 := PanEnd(s);
    var id := Handle(s1.queue, SharpRedraw).value;
    var s0 := s1.(queue := s1.queue.(jobs := s1.queue.jobs - {id}));
    assert !Frozen(s0);
    var r := s0.(queue := WithHandle(s0.queue, SharpRedraw, None));
    DrawnTileCoversView(CanvasView(r), r.cache, r.flags.isDragging, !r.flags.userPanned, r.flags.forceNextDraw);
    var d := SharpDraw(CanvasView(r), r.cache, r.flags.isDragging, !r.flags.userPanned, r.flags.forceNextDraw);
    assert CanvasView(Fire(s1, id, now)) == d.view;
  }

  /** Asking twice for the same zoom, unforced, does the work once. */
  lemma SetZoomSettles(s: ViewState, z: real, recenter: bool)
    ensures var s1 := SetZoom(s, z, recenter, false);
      SetZoom(s1, z, recenter, false) == s1
  {
  }

  // Every step keeps the invariant.

  /** `schedule_redraw` keeps the invariant and leaves the preview and HQ
      jobs alone. */
  lemma ScheduleRedrawKeepsInv(s: ViewState, delayMs: int, force: bool)
    requires Inv(s)
    ensures Inv(ScheduleRedraw(s, delayMs, force))
    ensures forall other :: other != SharpRedraw ==> Pending(ScheduleRedraw(s, delayMs, force).queue, other) == Pending(s.queue, other)
  {
    RescheduleKeepsOk(s.queue, SharpRedraw, delayMs);
  }

  lemma InvalidateCacheKeepsInv(s: ViewState)
    requires Inv(s)
    ensures Inv(InvalidateCache(s))
  {
  }

  lemma DrawViewportOnlyKeepsInv(s: ViewState, recenter: bool, force: bool)
    requires s.geom.zoom > 0.0 && Inv(s)
    ensures Inv(DrawViewportOnly(s, recenter, force))
  {
  }

  lemma DeferPreviewKeepsInv(s: ViewState, delayMs: int)
    requires Inv(s)
    ensures Inv(DeferPreview(s, delayMs))
    ensures forall other :: other != PreviewRedraw ==> Pending(DeferPreview(s, delayMs).queue, other) == Pending(s.queue, other)
  {
    RescheduleKeepsOk(s.queue, PreviewRedraw, delayMs);
  }

  /** `_schedule_preview_redraw` keeps the invariant and leaves the sharp
      and HQ jobs alone. */
  lemma SchedulePreviewRedrawKeepsInv(s: ViewState, now: real)
    requires Inv(s)
    ensures Inv(SchedulePreviewRedraw(s, now))
    ensures forall other :: other != PreviewRedraw ==> Pending(SchedulePreviewRedraw(s, now).queue, other) == Pending(s.queue, other)
  {
    var elapsed := now - s.preview.lastMs;
    if elapsed < PreviewMinIntervalMs && Handle(s.queue, PreviewRedraw).None? {
      DeferPreviewKeepsInv(s, Trunc(MaxR(1.0, PreviewMinIntervalMs - elapsed)));
    }
  }

  lemma ThrottledKeepsInv(s: ViewState, minMs: real, last: real, now: real)
    requires Inv(s)
    ensures Inv(Throttled(s, minMs, last, now).1)
  {
    ScheduleRedrawKeepsInv(s, 0, false);
    ScheduleRedrawKeepsInv(s, Trunc(MaxR(0.0, minMs - (now - last))), false);
  }

  lemma ScheduleDragEscapeRedrawKeepsInv(s: ViewState, z: real, now: real)
    requires Inv(s)
    ensures Inv(ScheduleDragEscapeRedraw(s, z, now))
  {
    ThrottledKeepsInv(s, EscapeMinMs(z), s.clocks.lastEscapeMs, now);
  }

  lemma ScheduleDragRedrawKeepsInv(s: ViewState, z: real, outsideTile: bool, now: real)
    requires Inv(s)
    ensures Inv(ScheduleDragRedraw(s, z, outsideTile, now))
  {
    ThrottledKeepsInv(s, DragMinMs(z, outsideTile), s.clocks.dragLastRedrawMs, now);
  }

  /** `pan_begin` keeps the invariant and leaves the sharp job alone. */
  lemma PanBeginKeepsInv(s: ViewState)
    requires Inv(s)
    ensures Inv(PanBegin(s))
    ensures Pending(PanBegin(s).queue, SharpRedraw) == Pending(s.queue, SharpRedraw)
  {
    if s.image.Some? {
      CancelKeepsOk(s.queue, HqRedraw);
      CancelKeepsOk(Cancel(s.queue, HqRedraw), PreviewRedraw);
    }
  }

  lemma PanMoveKeepsInv(s: ViewState, left: real, top: real, now: real)
    requires s.geom.zoom > 0.0 && Inv(s)
    ensures Inv(PanMove(s, left, top, now))
  {
    if s.image.Some? && s.flags.isDragging {
      var s1 := s.(flags := s.flags.(userPanned := true), geom := s.geom.(left := left, top := top));
      var s2 := if s1.preview.enabled then SchedulePreviewRedraw(s1, now) else s1;
      if s1.preview.enabled {
        SchedulePreviewRedrawKeepsInv(s1, now);
      }
      SharpAfterMoveKeepsInv(s2, now);
    }
  }

  lemma SharpAfterMoveKeepsInv(s: ViewState, now: real)
    requires s.geom.zoom > 0.0 && s.image.Some? && Inv(s)
    ensures Inv(SharpAfterMove(s, now))
  {
    var escaping := s.(flags := s.flags.(escapePending := true));
    var esc := ScheduleDragEscapeRedraw(escaping, s.geom.zoom, now);
    var follow, near := ScheduleDragRedraw(s, s.geom.zoom, true, now), ScheduleDragRedraw(s, s.geom.zoom, false, now);
    ScheduleDragEscapeRedrawKeepsInv(escaping, s.geom.zoom, now);
    ScheduleDragRedrawKeepsInv(s, s.geom.zoom, true, now);
    ScheduleDragRedrawKeepsInv(s, s.geom.zoom, false, now);
    var r := SharpAfterMove(s, now);
    assert r == s || r == esc || r == follow || r == near;
  }

  lemma PanEndKeepsInv(s: ViewState)
    requires Inv(s)
    ensures Inv(PanEnd(s))
  {
    if s.flags.isDragging {
      var q1 := Cancel(s.queue, SharpRedraw);
      var q2 := Cancel(q1, PreviewRedraw);
      var q := Cancel(q2, HqRedraw);
      CancelKeepsOk(s.queue, SharpRedraw);
      CancelKeepsOk(q1, PreviewRedraw);
      CancelKeepsOk(q2, HqRedraw);
      var s1 := s.(flags := s.flags.(isDragging := false, escapePending := false), queue := q);
      var s2 := ScheduleRedraw(s1, 0, true);
      RescheduleKeepsOk(q, SharpRedraw, 0);
      EnqueueKeepsOk(s2.queue, HqRedraw, HqDelayMs);
    }
  }

  lemma SetImageKeepsInv(s: ViewState, image: Option<Size>, recenter: bool, force: bool)
    requires Inv(s)
    ensures Inv(SetImage(s, image, recenter, force))
  {
    var s1 := s.(image := image, pyr := PyramidOf(image));
    var s2 := if recenter then s1.(flags := s1.flags.(userPanned := false)) else s1;
    ScheduleRedrawKeepsInv(InvalidateCache(s2), 0, force);
  }

  lemma ZoomChangedKeepsInv(s: ViewState, z: real)
    requires Inv(s) && ZoomMin <= z <= ZoomMax
    ensures Inv(ZoomChanged(s, z))
  {
    ScheduleRedrawKeepsInv(InvalidateCache(s.(geom := s.geom.(zoom := z))), 0, true);
  }

  lemma SetZoomKeepsInv(s: ViewState, z: real, recenter: bool, force: bool)
    requires Inv(s)
    ensures Inv(SetZoom(s, z, recenter, force))
  {
    ZoomChangedKeepsInv(if recenter then s.(flags := s.flags.(userPanned := false)) else s, RequestedZoom(z));
  }

  lemma ZoomFitKeepsInv(s: ViewState)
    requires Inv(s)
    ensures Inv(ZoomFit(s))
  {
    if s.image.Some? && s.image.value.w > 0 && s.image.value.h > 0 {
      var z := FitZoom(Max(1, s.geom.canvasW), Max(1, s.geom.canvasH), s.image.value.w, s.image.value.h);
      ZoomChangedKeepsInv(s.(flags := s.flags.(userPanned := false)), z);
    }
  }

  lemma WheelZoomKeepsInv(s: ViewState, cx: int, cy: int, delta: real, power: real -> real)
    requires s.geom.zoom > 0.0 && Inv(s)
    ensures Inv(WheelZoom(s, cx, cy, delta, power))
  {
    var target := WheelZoomTarget(s.geom.zoom, delta, power);
    if target.Some? {
      var newZ := target.value;
      if s.image.None? {
        ZoomChangedKeepsInv(s, newZ);
        assert WheelZoom(s, cx, cy, delta, power) == ZoomChanged(s, newZ);
      } else {
        var moved := s.(geom := WheelScroll(s, cx, cy, s.geom.zoom, newZ), flags := s.flags.(userPanned := true));
        ZoomChangedKeepsInv(moved, newZ);
        assert WheelZoom(s, cx, cy, delta, power) == ZoomChanged(moved, newZ);
      }
    }
  }

  lemma OnScrollKeepsInv(s: ViewState)
    requires Inv(s)
    ensures Inv(OnScroll(s))
  {
    ScheduleRedrawKeepsInv(s, ScrollRedrawDelayMs, false);
  }

  lemma OnConfigureKeepsInv(s: ViewState, width: int, height: int)
    requires Inv(s)
    ensures Inv(OnConfigure(s, width, height))
  {
    ScheduleRedrawKeepsInv(s.(geom := s.geom.(canvasW := width, canvasH := height)), 0, true);
  }

  /** Taking a job off the queue and clearing its handle keeps the
      invariant. */
  lemma RunKeepsInv(s: ViewState, id: nat)
    requires id in s.queue.jobs
    ensures var s0 := s.(queue := s.queue.(jobs := s.queue.jobs - {id}));
      Inv(s) ==> Inv(s0.(queue := WithHandle(s0.queue, s.queue.jobs[id].callback, None)))
  {
    var s0 := s.(queue := s.queue.(jobs := s.queue.jobs - {id}));
    assert WithHandle(s0.queue, s.queue.jobs[id].callback, None) == Run(s.queue, id);
    if Inv(s) {
      RunKeepsOk(s.queue, id);
    }
  }

  lemma SharpJobKeepsInv(s0: ViewState)
    requires s0.geom.zoom > 0.0
    ensures Inv(s0.(queue := WithHandle(s0.queue, SharpRedraw, None))) ==> Inv(DoRedraw(s0))
  {
    var r := s0.(queue := WithHandle(s0.queue, SharpRedraw, None));
    if !Frozen(r) {
      var r1 := DrawViewportOnly(r, !r.flags.userPanned, r.flags.forceNextDraw);
      assert DoRedraw(s0) == r1.(flags := r1.flags.(forceNextDraw := false, escapePending := false));
      if Inv(r) {
        DrawViewportOnlyKeepsInv(r, !r.flags.userPanned, r.flags.forceNextDraw);
      }
    }
  }

  lemma HqJobKeepsInv(s0: ViewState)
    ensures Inv(s0.(queue := WithHandle(s0.queue, HqRedraw, None))) ==> Inv(HqRedrawNow(s0))
  {
    var r := s0.(queue := WithHandle(s0.queue, HqRedraw, None));
    assert HqRedrawNow(s0) == r || HqRedrawNow(s0) == ScheduleRedraw(r, 0, false);
    if Inv(r) {
      ScheduleRedrawKeepsInv(r, 0, false);
    }
  }

  /** Running a job keeps the invariant, and afterwards no job of its
      callback is pending unless the callback scheduled one itself (only
      `_hq_redraw_now` does, and only a sharp redraw). */
  lemma FireKeepsInv(s: ViewState, id: nat, now: real)
    requires id in s.queue.jobs && s.geom.zoom > 0.0 && Inv(s)
    ensures Inv(Fire(s, id, now))
    ensures s.queue.jobs[id].callback != HqRedraw ==> Pending(Fire(s, id, now).queue, s.queue.jobs[id].callback).None?
  {
    var s0 := s.(queue := s.queue.(jobs := s.queue.jobs - {id}));
    RunKeepsInv(s, id);
    match s.queue.jobs[id].callback
    case SharpRedraw => SharpJobKeepsInv(s0);
    case PreviewRedraw =>
    case HqRedraw => HqJobKeepsInv(s0);
  }
}
