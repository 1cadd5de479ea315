/** `ViewportCanvas` as an object: the fields the source updates in place,
    grouped as `ViewportState` groups them (geometry, cache, flags,
    preview, clocks), and its methods written statement by statement as
    the source has them. Each method is proved to move the object's state
    exactly as the matching step function of `ViewportState` does, and the
    public ones to keep its invariant; what those functions promise is
    proved there. Tk's `after` and `after_cancel` act on the `jobs` map;
    Tk running a job is the method `Fire`. The scroll position Tk's
    `scan_dragto` leaves and the clock are parameters. */
module Viewport {
  import opened Common
  import opened ViewGeometry
  import opened TileCache
  import opened Pyramid
  import opened AfterQueue
  import opened ViewportState

  class ViewportCanvas {
    var image: Option<Size>               // _pil (its size)
    var pyr: seq<Level>                   // _pyr (level sizes and scales)
    var geom: Geom                        // _zoom, _pad_mode, the canvas size and scroll position
    var cache: Cache                      // _tile_box, _last_draw_key, _tk_image, _last_was_preview
    var flags: Flags                      // _is_dragging, _user_panned, _force_next_draw, ...
    var preview: Preview                  // _preview_enabled, _preview_visible, _preview_last_ms
    var jobs: map<nat, Job>               // Tk's pending `after` jobs
    var nextId: nat                       // the next id Tk hands out
    var viewAfterId: Option<nat>          // _view_after_id
    var previewAfterId: Option<nat>       // _preview_after_id
    var hqAfterId: Option<nat>            // _hq_after_id
    var clocks: Clocks                    // _drag_last_escape_redraw_ms, _drag_last_redraw_ms

    /** Tk's queue together with the three handle fields. */
    function Q(): Queue
      reads this
    {
      Queue(jobs, nextId, viewAfterId, previewAfterId, hqAfterId)
    }

    function State(): ViewState
      reads this
    {
      ViewState(image, pyr, geom, cache, flags, preview, Q(), clocks)
    }

    ghost predicate Valid()
      reads this
    {
      Inv(State())
    }

    constructor(width: int, height: int)
      ensures State() == Initial(width, height)
      ensures Valid()
    {
      image, pyr := None, [];
      geom := Geom(InitialZoom, Auto, width, height, 0.0, 0.0);
      cache := Cache(None, None, false, false);
      flags := Flags(false, false, false, false, true);
      preview := Preview(true, false, 0.0);
      jobs, nextId := map[], 0;
      viewAfterId, previewAfterId, hqAfterId := None, None, None;
      clocks := Clocks(0.0, 0.0);
    }

    /** Tk's `after(delayMs, cb)`. */
    method After(cb: Callback, delayMs: int) returns (id: nat)
      modifies this`jobs, this`nextId
      ensures id == old(nextId) && nextId == old(nextId) + 1
      ensures jobs == old(jobs)[id := Job(cb, delayMs)]
    {
      id := nextId;
      jobs := jobs[id := Job(cb, delayMs)];
      nextId := nextId + 1;
    }

    /** Tk's `after_cancel(id)`. */
    method AfterCancel(id: nat)
      modifies this`jobs
      ensures jobs == old(jobs) - {id}
    {
      jobs := jobs - {id};
    }

    /** The source's recurring `if handle is not None: after_cancel(handle);
        handle = None`. */
    method CancelPending(cb: Callback)
      modifies this`jobs, this`viewAfterId, this`previewAfterId, this`hqAfterId
      ensures Q() == Cancel(old(Q()), cb)
    {
      match cb
      case SharpRedraw =>
        if viewAfterId.Some? {
          AfterCancel(viewAfterId.value);
          viewAfterId := None;
        }
      case PreviewRedraw =>
        if previewAfterId.Some? {
          AfterCancel(previewAfterId.value);
          previewAfterId := None;
        }
      case HqRedraw =>
        if hqAfterId.Some? {
          AfterCancel(hqAfterId.value);
          hqAfterId := None;
        }
    }

    /** `_build_pyramid`: level 0 is the image, then up to four halvings,
        stopping at the first level whose smaller side is at most 256. */
    method BuildPyramid(img: Option<Size>)
      modifies this`pyr
      ensures pyr == PyramidOf(img)
    {
      pyr := [];
      if img.None? {
        return;
      }
      pyr := [Level(1.0, img.value.w, img.value.h)];
      var w: nat, h: nat, scale := img.value.w, img.value.h, 1.0;
      var n := Max(0, PyrLevels - 1);
      var i := 0;
      while i < n
        invariant 0 <= i <= n
        invariant pyr + LevelsAfter(Level(scale, w, h), n - i) == PyramidFor(img.value.w, img.value.h)
      {
        if Min(w, h) <= PyrMinDim {
          break;
        }
        ghost var before := Level(scale, w, h);
        w := Max(1, w / 2);
        h := Max(1, h / 2);
        scale := scale * 0.5;
        assert Level(scale, w, h) == Halved(before);
        pyr := pyr + [Level(scale, w, h)];
        i := i + 1;
      }
    }

    /** `invalidate_cache`. */
    method InvalidateCache()
      modifies this`cache
      ensures State() == ViewportState.InvalidateCache(old(State()))
    {
      cache := cache.(drawKey := None);
      cache := cache.(tileBox := None);
    }

    /** `schedule_redraw`. */
    method ScheduleRedraw(delayMs: int, force: bool)
      modifies this`flags, this`jobs, this`nextId, this`viewAfterId
      ensures State() == ViewportState.ScheduleRedraw(old(State()), delayMs, force)
    {
      flags := flags.(forceNextDraw := force);
      if viewAfterId.Some? {
        AfterCancel(viewAfterId.value);
      }
      var id := After(SharpRedraw, delayMs);
      viewAfterId := Some(id);
    }

    /** `set_image`. */
    method SetImage(img: Option<Size>, recenter: bool, force: bool)
      requires Valid()
      modifies this
      ensures State() == ViewportState.SetImage(old(State()), img, recenter, force)
      ensures Valid()
    {
      SetImageKeepsInv(State(), img, recenter, force);
      image := img;
      BuildPyramid(img);
      if recenter {
        flags := flags.(userPanned := false);
      }
      InvalidateCache();
      ScheduleRedraw(0, force);
    }

    /** `set_zoom`. */
    method SetZoom(z: real, recenter: bool, force: bool)
      requires Valid()
      modifies this
      ensures State() == ViewportState.SetZoom(old(State()), z, recenter, force)
      ensures Valid()
    {
      SetZoomKeepsInv(State(), z, recenter, force);
      var z1 := RequestedZoom(z);
      if NearlyEqual(z1, geom.zoom) && !force {
        return;
      }
      geom := geom.(zoom := z1);
      if recenter {
        flags := flags.(userPanned := false);
      }
      InvalidateCache();
      ScheduleRedraw(0, true);
    }

    /** `zoom_fit`. */
    method ZoomFit()
      requires Valid()
      modifies this
      ensures State() == ViewportState.ZoomFit(old(State()))
      ensures Valid()
    {
      ZoomFitKeepsInv(State());
      if image.None? {
        return;
      }
      var cw, ch := Max(1, geom.canvasW), Max(1, geom.canvasH);
      var iw, ih := image.value.w, image.value.h;
      if iw <= 0 || ih <= 0 {
        return;
      }
      geom := geom.(zoom := FitZoom(cw, ch, iw, ih));
      flags := flags.(userPanned := false);
      InvalidateCache();
      ScheduleRedraw(0, true);
    }

    /** `wheel_zoom`; `power(x)` stands for `1.125 ** x`. */
    method WheelZoom(cx: int, cy: int, delta: real, power: real -> real)
      requires Valid()
      modifies this
      ensures State() == ViewportState.WheelZoom(old(State()), cx, cy, delta, power)
      ensures Valid()
    {
      WheelZoomKeepsInv(State(), cx, cy, delta, power);
      var target := WheelZoomTarget(geom.zoom, delta, power);
      if target.None? {
        return;
      }
      var oldZ, newZ := geom.zoom, target.value;
      if image.None? {
        geom := geom.(zoom := newZ);
        InvalidateCache();
        ScheduleRedraw(0, true);
        return;
      }
      var pad := Pad(State());
      var img := image.value;
      geom := geom.(zoom := newZ);
      InvalidateCache();
      var newLeft := WheelOrigin(geom.left, cx, pad, oldZ, newZ, ScrollSize(img.w, newZ, pad));
      var newTop := WheelOrigin(geom.top, cy, pad, oldZ, newZ, ScrollSize(img.h, newZ, pad));
      geom := geom.(left := newLeft, top := newTop);
      flags := flags.(userPanned := true);
      ScheduleRedraw(0, true);
    }

    /** `pan_begin`. */
    method PanBegin()
      requires Valid()
      modifies this
      ensures State() == ViewportState.PanBegin(old(State()))
      ensures Valid()
    {
      PanBeginKeepsInv(State());
      if image.None? {
        return;
      }
      CancelPending(HqRedraw);
      CancelPending(PreviewRedraw);
      flags := flags.(isDragging := true, userPanned := true);
      if preview.enabled {
        preview := preview.(visible := true);
      }
    }

    /** `pan_move`, with the scroll position Tk's `scan_dragto` leaves. */
    method PanMove(newLeft: real, newTop: real, now: real)
      requires Valid()
      modifies this
      ensures State() == ViewportState.PanMove(old(State()), newLeft, newTop, now)
      ensures Valid()
    {
      PanMoveKeepsInv(State(), newLeft, newTop, now);
      if image.None? || !flags.isDragging {
        return;
      }
      flags := flags.(userPanned := true);
      geom := geom.(left := newLeft, top := newTop);
      if preview.enabled {
        SchedulePreviewRedraw(now);
      }
      SharpAfterMove(now);
    }

    /** The sharp-layer half of `pan_move`. */
    method SharpAfterMove(now: real)
      requires geom.zoom > 0.0 && image.Some?
      modifies this`flags, this`jobs, this`nextId, this`viewAfterId, this`clocks
      ensures State() == ViewportState.SharpAfterMove(old(State()), now)
    {
      var z := geom.zoom;
      if cache.tileBox.None? {
        flags := flags.(escapePending := true);
        ScheduleDragEscapeRedraw(z, now);
        return;
      }
      var vis := VisibleRect(CanvasView(State()));
      var outside := OutsideTile(vis, cache.tileBox);
      if flags.freezeEnabled {
        if outside {
          var over := OutsideAmount(vis, cache.tileBox, z);
          if over.px >= EscapeScreen {
            flags := flags.(escapePending := true);
            ScheduleDragEscapeRedraw(z, now);
          }
        }
        return;
      }
      if outside {
        ScheduleDragRedraw(z, true, now);
        return;
      }
      if NearTileEdge(vis, cache.tileBox, z) {
        ScheduleDragRedraw(z, false, now);
      }
    }

    /** `pan_end`. */
    method PanEnd()
      requires Valid()
      modifies this
      ensures State() == ViewportState.PanEnd(old(State()))
      ensures Valid()
    {
      PanEndKeepsInv(State());
      if !flags.isDragging {
        return;
      }
      ghost var s := State();
      flags := flags.(isDragging := false, escapePending := false);
      CancelPending(SharpRedraw);
      CancelPending(PreviewRedraw);
      CancelPending(HqRedraw);
      assert State() == s.(flags := flags, queue := Cancel(Cancel(Cancel(s.queue, SharpRedraw), PreviewRedraw), HqRedraw));
      ScheduleRedraw(0, true);
      var id := After(HqRedraw, HqDelayMs);
      hqAfterId := Some(id);
      if preview.enabled {
        preview := preview.(visible := false);
      }
    }

    /** `_draw_viewport_only`: the render decision of `SharpDraw` applied
        to the fields. */
    method DrawViewportOnly(recenter: bool, force: bool)
      requires geom.zoom > 0.0
      modifies this`geom, this`cache
      ensures State() == ViewportState.DrawViewportOnly(old(State()), recenter, force)
    {
      if image.None? {
        return;
      }
      var d := SharpDraw(CanvasView(State()), cache, flags.isDragging, recenter, force);
      geom := geom.(left := d.view.left, top := d.view.top);
      cache := d.cache;
    }

    /** `_do_redraw`. */
    method DoRedraw()
      requires geom.zoom > 0.0
      modifies this`viewAfterId, this`flags, this`geom, this`cache
      ensures State() == ViewportState.DoRedraw(old(State()))
    {
      viewAfterId := None;
      if flags.isDragging && flags.freezeEnabled && !flags.forceNextDraw && !flags.escapePending {
        flags := flags.(forceNextDraw := false);
        return;
      }
      DrawViewportOnly(!flags.userPanned, flags.forceNextDraw);
      flags := flags.(forceNextDraw := false, escapePending := false);
    }

    /** `_hq_redraw_now`. */
    method HqRedrawNow()
      modifies this`hqAfterId, this`flags, this`jobs, this`nextId, this`viewAfterId
      ensures State() == ViewportState.HqRedrawNow(old(State()))
    {
      hqAfterId := None;
      if flags.isDragging {
        return;
      }
      if !cache.lastWasPreview {
        return;
      }
      ScheduleRedraw(0, false);
    }

    /** `_draw_preview_now`: only whether the preview layer is shown. */
    method DrawPreviewNow()
      modifies this`preview
      ensures State() == ViewportState.DrawPreviewNow(old(State()))
    {
      if !preview.enabled || image.None? {
        return;
      }
      if !flags.isDragging {
        return;
      }
      preview := preview.(visible := true);
    }

    /** `_schedule_preview_redraw`. */
    method SchedulePreviewRedraw(now: real)
      modifies this`preview, this`jobs, this`nextId, this`previewAfterId
      ensures State() == ViewportState.SchedulePreviewRedraw(old(State()), now)
    {
      var elapsed := now - preview.lastMs;
      if elapsed >= PreviewMinIntervalMs {
        preview := preview.(lastMs := now);
        DrawPreviewNow();
      } else {
        var delay := Trunc(MaxR(1.0, PreviewMinIntervalMs - elapsed));
        if previewAfterId.None? {
          var id := After(PreviewRedraw, delay);
          previewAfterId := Some(id);
        }
      }
    }

    /** `_preview_after_fire`. */
    method PreviewAfterFire(now: real)
      modifies this`previewAfterId, this`preview
      ensures State() == ViewportState.PreviewAfterFire(old(State()), now)
    {
      previewAfterId := None;
      preview := preview.(lastMs := now);
      DrawPreviewNow();
    }

    /** `_schedule_drag_escape_redraw`. */
    method ScheduleDragEscapeRedraw(z: real, now: real)
      modifies this`clocks, this`flags, this`jobs, this`nextId, this`viewAfterId
      ensures State() == ViewportState.ScheduleDragEscapeRedraw(old(State()), z, now)
    {
      var minMs := EscapeMinMs(z);
      var elapsed := now - clocks.lastEscapeMs;
      if elapsed >= minMs {
        clocks := clocks.(lastEscapeMs := now);
        ScheduleRedraw(0, false);
      } else {
        ScheduleRedraw(Trunc(MaxR(0.0, minMs - elapsed)), false);
      }
    }

    /** `_schedule_drag_redraw`. */
    method ScheduleDragRedraw(z: real, outsideTile: bool, now: real)
      modifies this`clocks, this`flags, this`jobs, this`nextId, this`viewAfterId
      ensures State() == ViewportState.ScheduleDragRedraw(old(State()), z, outsideTile, now)
    {
      var minMs := DragMinMs(z, outsideTile);
      var elapsed := now - clocks.dragLastRedrawMs;
      if elapsed >= minMs {
        clocks := clocks.(dragLastRedrawMs := now);
        ScheduleRedraw(0, false);
      } else {
        ScheduleRedraw(Trunc(MaxR(0.0, minMs - elapsed)), false);
      }
    }

    /** `_on_xscroll` / `_on_yscroll`. */
    method OnScroll()
      requires Valid()
      modifies this
      ensures State() == ViewportState.OnScroll(old(State()))
      ensures Valid()
    {
      OnScrollKeepsInv(State());
      if !flags.isDragging {
        ScheduleRedraw(ScrollRedrawDelayMs, false);
      }
    }

    /** `_on_configure`, for a canvas now `width` x `height`. */
    method OnConfigure(width: int, height: int)
      requires Valid()
      modifies this
      ensures State() == ViewportState.OnConfigure(old(State()), width, height)
      ensures Valid()
    {
      OnConfigureKeepsInv(State(), width, height);
      geom := geom.(canvasW := width, canvasH := height);
      ScheduleRedraw(0, true);
      if flags.isDragging && preview.enabled {
        DrawPreviewNow();
      }
    }

    /** Tk running the pending job `id`. */
    method Fire(id: nat, now: real)
      requires Valid() && id in jobs
      modifies this
      ensures State() == ViewportState.Fire(old(State()), id, now)
      ensures Valid()
    {
      FireKeepsInv(State(), id, now);
      var cb := jobs[id].callback;
      jobs := jobs - {id};
      match cb
      case SharpRedraw => DoRedraw();
      case PreviewRedraw => PreviewAfterFire(now);
      case HqRedraw => HqRedrawNow();
    }
  }
}
