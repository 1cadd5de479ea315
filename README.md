# TIM codec and pan/zoom viewport, modelled in Dafny

This project models two parts of a small PlayStation TIM sprite tool.

**The TIM codec** (`timlib.py`):

- little-endian 16- and 32-bit reads;
- parsing a TIM file's bytes into a `TimImage` with every truncation error;
- the 15-bit BGR555 colour conversion;
- cutting the CLUT (palette) block into rows;
- unpacking 4bpp and 8bpp indices, and packing edited indices back;
- converting the word width to and from a pixel width;
- rendering to a row-major RGBA raster;
- detecting frame strips and slicing them;
- the grey ramp palette;
- rebuilding the file bytes.

The two round trips are proved: decoding packed indices gives the indices back masked to 4 or 8 bits, and parsing built bytes gives the image back.

**The discrete core of the viewport's `ViewportCanvas`** (`viewport.py`):

- the zoom clamp;
- the resolution pyramid's level sizes and scales;
- the quantised tile box of the sharp layer, and its cache;
- the outside-tile, overflow and near-edge predicates;
- the drag / freeze / escape scheduler, with its three Tk `after` slots: sharp, preview and high quality.

The canvas is the class `Viewport.ViewportCanvas`. Its methods change its fields in place. Each method is proved equal to a step function on the value `ViewportState.ViewState`. The properties are proved about those step functions, along with the invariant every public method keeps:

- the zoom lies in [0.5, 16];
- the pyramid belongs to the image;
- the cached tile lies inside the image;
- each of the three handles names its one pending job.

Modules:

- `Common`: Option/Result, clamps, truncation, rounding.
- `LittleEndian`: byte reads and writes.
- `TimColor`, `TimFile`, `TimClut`, `TimIndices`, `TimRender`, `TimFrames`: the codec.
- `ViewGeometry`: the viewport's pure helpers, over `real`.
- `Pyramid`, `TileCache`: the pyramid and the sharp layer's tile cache.
- `AfterQueue`: Tk's `after` bookkeeping.
- `ViewportState`: the step functions.
- `Viewport`: the class.

Inputs the model takes where the source uses something outside it:

- the file's bytes, in place of the `open`/`read` of `parse_tim`;
- the view's new canvas origin after `scan_dragto`;
- the current time in milliseconds, in place of `_now_ms()`;
- the wheel's growth function, in place of `1.125 ** (d / 120)`.

## Model

| member | source | states |
|---|---|---|
| LittleEndian.U16 | timlib.py:18-19 | the value is below 2^16, with the low byte first |
| LittleEndian.U32 | timlib.py:15-16 | the value is below 2^32; its low and high halves are the 16-bit reads at `off` and `off + 2` |
| LittleEndian.U16OfLe16 | timlib.py:18-19 | reading back a written 16-bit value gives the value, wherever it sits in a byte sequence |
| LittleEndian.U32OfLe32 | timlib.py:15-16 | reading back a written 32-bit value gives the value, wherever it sits |
| LittleEndian.Le32OfU32 | timlib.py:15-16 | writing a 32-bit read gives back the four bytes read |
| TimColor.Expand5 | timlib.py:30-32 | `(c5 << 3) \| (c5 >> 2)` is `8*c5 + c5/4`: its top five bits are `c5` and its low three are the top three bits of `c5` |
| TimColor.Expand5Range | timlib.py:30-32 | 0 widens to 0, 31 to 255, and the widening keeps order |
| TimColor.Ps1ToRgba | timlib.py:21-35 | each channel is its 5-bit field `c5` widened to `8*c5 + c5/4`, i.e. `(c5 << 3) \| (c5 >> 2)`, with red from the low bits and blue from the high ones; alpha is 0 exactly when the low 15 bits are 0, otherwise 255 |
| TimColor.Ps1ToRgbaKeepsLow15Bits | timlib.py:21-35 | the three channels' top bits reassemble the colour's low 15 bits, so no colour information is lost |
| TimColor.Ps1ToRgbaIgnoresBit15 | timlib.py:21-35 | setting bit 15 does not change the result |
| TimFile.PixelWidthFor | timlib.py:77-87 | a non-negative word count gives a non-negative pixel width; the per-mode pixels-per-word table is pinned by its inverse `WordsForWidthPixels` through `TimIndices.WordsOfPixelWidth` |
| TimFile.ParseTim | timlib.py:94-151 | each of the six errors happens under exactly its condition: file under 8 bytes, magic not 0x10, CLUT header truncated, CLUT length too large, image header truncated, image length too large. Success happens exactly when none of them does; the result's fields are the parsed ones |
| TimFile.ParsedFromUnique | timlib.py:94-151 | the parsed fields determine the image |
| TimFile.BuildTimBytes | timlib.py:436-450 | fails exactly when the CLUT flag is set with no CLUT block, or a field does not fit its width; otherwise returns the file bytes |
| TimFile.BuiltFields | timlib.py:436-450 | the built bytes hold the magic, the flags, the CLUT block, the image block's length and header fields, and the payload, at their offsets |
| TimFile.BuiltIsParsed | timlib.py:94-151 | the built bytes of a well-formed image pass every parse check and parse to that image's fields |
| TimFile.ParseOfBuild | timlib.py:436-450 | parsing the built bytes gives back the image, with `original_bytes` set to those bytes |
| TimFile.BuildOfParse | timlib.py:94-151 | a file whose image block runs exactly to the end rebuilds to the same bytes |
| TimFile.RebuildParsed | timlib.py:436-450 | an image parsed from such a file rebuilds to that file |
| TimClut.ClutPayload | timlib.py:168 | the payload's length is the declared length, cut to the block, less the 12-byte header, and at least 0 |
| TimClut.Words | timlib.py:171-174 | there are half as many words as payload bytes, rounded down |
| TimClut.RowCount | timlib.py:181-182 | the row count fits the words, unless it is the single row of a payload shorter than one row |
| TimClut.ExtractCluts | timlib.py:153-201 | the method's result is `ExtractedCluts` |
| TimClut.CutRows | timlib.py:184-201 | the row loop builds the grid's first `h` rows |
| TimClut.ExtractedClutsEmpty | timlib.py:157-182 | the result is empty exactly when the guards fail or the declared height is 0 |
| TimClut.ExtractedClutsRows | timlib.py:176-201 | there are `clut_h` rows when the words fill them, else `max(1, words // w)`. Row `i` has index and row `i`, the width, and `min(w, words)` words read from its place in the block; its colours are those words converted |
| TimIndices.DecodedIndices | timlib.py:208-231 | fails exactly for non-indexed modes; the length is `pixel_width * img_h`; 4bpp values are at most 15; 8bpp values are the bytes, then zeros past the data |
| TimIndices.DecodeIndices | timlib.py:208-231 | the method's result is `DecodedIndices` |
| TimIndices.Unpack4 | timlib.py:213-223 | the 4bpp loop writes each byte's low nibble, then its high nibble, over zeros, and stops when the output is full |
| TimIndices.CopiedOverZeros | timlib.py:225-229 | the 8bpp slice assignment over zeros is the 8bpp unpacking |
| TimIndices.WordsForWidthPixels | timlib.py:376-387 | rejects 4bpp widths not a multiple of 4, 8bpp widths not a multiple of 2, and modes above 2; on success `pixel_width` maps the result back to the width |
| TimIndices.WordsOfPixelWidth | timlib.py:77-87 | converting a word width to pixels and back gives the word width |
| TimIndices.PackedIndices | timlib.py:389-405 | fails exactly on a count other than `w*h` or an unsupported mode. At 8bpp: one byte per index, masked to 8 bits. At 4bpp: `ceil(n/2)` bytes, the even index in the low nibble and the odd one, or 0, in the high nibble |
| TimIndices.PackIndicesForSize | timlib.py:389-405 | the method's result is `PackedIndices` |
| TimIndices.IndexAtPacked4 | timlib.py:397-403 | the 4bpp reading of pixel `k` from packed bytes is index `k` masked to 4 bits |
| TimIndices.DecodeOfPack | timlib.py:389-405 | decoding an image whose width, height and payload are set from packed indices gives the indices masked to 4 or 8 bits |
| TimIndices.GrayscalePaletteEntries | timlib.py:331-339 | there are 768 entries; entry `i` is the grey triple `round(i*255/(n-1))` for `i < n`, else 0 |
| TimIndices.MakeGrayscalePalette | timlib.py:331-339 | the method's result is `GrayscalePalette` |
| TimIndices.GrayRamps | timlib.py:331-339 | with 16 entries, level `i` is `17*i`; with 256 entries it is `i` |
| TimRender.Words16 | timlib.py:239-242 | the words are the payload's whole words, cut to `img_w_words * img_h` |
| TimRender.Rendered | timlib.py:233-277 | fails exactly for modes above 2; otherwise the image is `pixel_width` by `img_h` with that many pixels |
| TimRender.Rendered16 | timlib.py:238-251 | a 16bpp pixel is its word converted, or transparent black past the words |
| TimRender.RenderedIndexed | timlib.py:253-275 | an indexed pixel is grey `(v, v, v, 255)` without a CLUT; with one it is the palette colour, or magenta past the palette |
| TimRender.FillRaster | timlib.py:247-250 | the nested loops fill the raster row by row |
| TimRender.RenderTimToImage | timlib.py:233-277 | the method's result is `Rendered` |
| TimFrames.AutoDetectFrames | timlib.py:284-300 | a vertical strip has frames of `sheet_w` squared, with `count*fh = sheet_h`; a horizontal strip has frames of `sheet_h` squared, with `count*fw = sheet_w`; anything else is one whole-sheet frame. The vertical test comes first |
| TimFrames.SliceFramesFixed | timlib.py:302-324 | the method's result is `SlicedFrames` |
| TimFrames.SlicedFramesShape | timlib.py:315-322 | `max(1, dim // step)` frames, each `frame_w` by `frame_h`, at `i*step` along the strip and inside the sheet when one fits |
| TimFrames.DetectedFramesTileSheet | timlib.py:284-324 | the detected frames lie inside the sheet, there are `count` of them, and the last one ends at the sheet's edge |
| ViewGeometry.ClampZoom | viewport.py:169 | zoom clamped to [0.5, 16] |
| ViewGeometry.ZoomT | viewport.py:593-599 | `_zoom_t` lies in [0, 1]; it is 0 at zoom 2.5 or below and 1 at zoom 10 or above |
| ViewGeometry.ZoomTMonotonic | viewport.py:593-599 | `_zoom_t` never decreases with the zoom |
| ViewGeometry.SmoothstepMonotonic | viewport.py:598-599 | smoothstep is monotonic on [0, 1] |
| ViewGeometry.ScaledDragParams | viewport.py:601-619 | margin in [260, 420], step in [32, 64], debounce in [18, 40]; the low values at zoom 2.5 or below and the high values at zoom 10 or above |
| ViewGeometry.ComputePad | viewport.py:727-733 | a numeric pad mode is used as given; otherwise the pad is the larger canvas side |
| ViewGeometry.Clamp01 | viewport.py:970-976 | the value clamped to [0, 1] |
| ViewGeometry.ScreenToImagePx | viewport.py:735-736 | at least 1; otherwise the whole number of image pixels in `px` screen pixels at zoom `z` |
| ViewGeometry.QuantizeFloor | viewport.py:738-739 | a multiple of `q` with `v - q < r <= v` |
| ViewGeometry.QuantizeCeil | viewport.py:741-742 | a multiple of `q` with `v <= r < v + q` |
| ViewGeometry.VisibleRect | viewport.py:744-770 | the visible rectangle lies inside the image |
| ViewGeometry.PreviewCrop | viewport.py:403-447 | the preview's crop rectangle is the visible rectangle |
| ViewGeometry.TileBoxFor | viewport.py:867-907 | none exactly when the grown, clipped view is empty. Otherwise the box holds a pixel and lies inside the image. When the step exceeds one pixel, the low edges are multiples of it, and each high edge is a multiple of it, the image edge, or the low edge plus one |
| ViewGeometry.TileContainsVisible | viewport.py:867-907 | with a margin of one screen pixel or more and a zoom of at most 16, the tile box contains the visible rectangle |
| ViewGeometry.AxisCovers | viewport.py:878-905 | along one axis, the rounded tile edges enclose the visible span |
| ViewGeometry.TileExistsWhenVisible | viewport.py:883-888 | a tile box exists whenever some of the image is visible |
| ViewGeometry.MaxOverflow | viewport.py:789-796 | the non-negative maximum of the four edge overflows; 0 exactly when the view is inside the tile |
| ViewGeometry.OutsideAmount | viewport.py:782-796 | unbounded exactly when there is no tile |
| ViewGeometry.OutsideAmountZero | viewport.py:782-796 | the amount is non-negative, and 0 exactly when the view is not outside the tile |
| ViewGeometry.FreezeEscapes | viewport.py:295-308 | an escape needs the view to be outside the tile; with a tile, it happens exactly when the overflow is at least 130 screen pixels |
| ViewGeometry.CoveredWithInnerPad | viewport.py:853-858 | a view covered with the inner pad is not outside the tile |
| ViewGeometry.NearTileEdge | viewport.py:798-816 | with no tile the view is near the edge; with one, exactly when it is not covered with the inner pad |
| ViewGeometry.MoveTo | viewport.py:845-846 | the fraction passed to `xview_moveto`, scaled back, gives a clamped origin; an origin inside the scroll region is kept |
| ViewGeometry.Recentered | viewport.py:838-850 | recentring moves only the view's origin |
| ViewGeometry.RecenterCentres | viewport.py:838-846 | the recentred view's centre is the zoomed image's centre |
| ViewGeometry.WheelKeepsCursorPoint | viewport.py:228-246 | the image point under the cursor stays under it across a wheel zoom, when the new origin lies inside the scroll region |
| ViewGeometry.WheelDelta | viewport.py:199-211 | a delta of +1 or -1 becomes +120 or -120; a delta within 1e-9 of zero is ignored; others are kept |
| ViewGeometry.FitZoom | viewport.py:190-191 | the zoom that fits lies in [0.5, 16] |
| ViewGeometry.FitZoomFits | viewport.py:190-191 | when the fit is at least 0.5 the image fits the canvas; when it is within the clamp, one side fills it |
| Pyramid.PyramidShape | viewport.py:661-677 | level 0 is the image at scale 1. There are at most 5 levels; each further one is the previous one halved, never below 1 pixel, and is added only while the previous one's smaller side exceeds 256. Fewer than 5 levels means the last one's smaller side is at most 256 |
| Pyramid.PyramidScales | viewport.py:661-677 | level `i` has scale 1/2^i |
| Pyramid.PyramidExamples | viewport.py:661-677 | 64x64 gives one level; 4096x4096 gives five, down to 256x256 at scale 1/16 |
| TileCache.Invalidated | viewport.py:362-364 | clears the tile box and the draw key and keeps the rest |
| TileCache.MarginAndQuant | viewport.py:860-865 | the drag values while dragging, else margin 160 and step 1 |
| TileCache.SharpDraw | viewport.py:819-965 | the view is recentred when asked; a tile inside the image stays inside it. A render records its key and its drag path; without a render only the tile box can change |
| TileCache.CacheHitKeepsCache | viewport.py:852-858 | an unforced redraw whose view, shrunk by the inner pad, lies inside the tile changes nothing and renders nothing |
| TileCache.DegenerateKeepsCache | viewport.py:887-888 | an empty grown view leaves the cache unchanged |
| TileCache.ForcedRenders | viewport.py:932-933 | a forced redraw renders whenever it computes a tile box |
| TileCache.DrawnTileCoversView | viewport.py:819-907 | after a redraw of a view that shows some of the image, there is a tile and the view is not outside it |
| TileCache.RecenteredTwice | viewport.py:838-850 | recentring twice is recentring once |
| TileCache.RedrawIdempotent | viewport.py:924-933 | a second unforced redraw of an unchanged view renders nothing and changes nothing |
| AfterQueue.AtMostOnePending | viewport.py:366-373 | under the queue invariant, each callback has at most one pending job |
| AfterQueue.CancelKeepsOk | viewport.py:327-348 | cancelling a handle keeps the queue invariant; it drops exactly that callback's job and leaves the other handles and jobs alone |
| AfterQueue.EnqueueKeepsOk | viewport.py:354 | a new `after` job under a cleared handle keeps the invariant and keeps every other job |
| AfterQueue.RescheduleKeepsOk | viewport.py:366-373 | cancel-and-replace keeps the invariant and leaves the other callbacks' handles and jobs alone |
| AfterQueue.RunKeepsOk | viewport.py:375-376 | running a job and clearing its own handle keeps the invariant |
| AfterQueue.CancelAllEmpties | viewport.py:326-348 | cancelling all three handles leaves no job pending |
| ViewportState.Initial | viewport.py:26-157 | a new viewport keeps the invariant: zoom 4, no image, no tile, nothing pending |
| ViewportState.ScheduleRedraw | viewport.py:366-373 | sets the force flag and replaces the pending sharp job with one at the given delay; nothing else changes |
| ViewportState.InvalidateCache | viewport.py:362-364 | clears the tile box and the draw key |
| ViewportState.DrawViewportOnly | viewport.py:819-965 | changes only the cache and the view's origin |
| ViewportState.DoRedraw | viewport.py:375-390 | clears its handle and the force flag. While frozen it changes nothing else; otherwise it clears the escape flag and draws as `SharpDraw` with the force flag it found |
| ViewportState.HqRedrawNow | viewport.py:392-398 | clears its handle; when not dragging and the last render came from the drag path, it schedules an unforced sharp redraw at 0 ms, otherwise it changes nothing else |
| ViewportState.DrawPreviewNow | viewport.py:469-570 | changes only the preview's visibility, which is set exactly while dragging with the preview on and an image |
| ViewportState.SchedulePreviewRedraw | viewport.py:453-462 | draws now, and stamps the time, once 18 ms have passed; otherwise keeps a pending preview job, or defers one by 1 to 18 ms |
| ViewportState.PreviewAfterFire | viewport.py:464-467 | clears its handle and stamps the time |
| ViewportState.Throttled | viewport.py:632-638 | schedules at once when the interval has passed, otherwise after the remainder, never dropping the request |
| ViewportState.ScheduleDragEscapeRedraw | viewport.py:643-656 | always leaves an unforced sharp job pending, due within 75 ms when the clock has not gone back; the time is stamped only when it is immediate |
| ViewportState.EscapeMinMs | viewport.py:643-649 | the escape interval lies in [0, 75] ms, with 0 at zoom 2.5 or below and 75 at zoom 10 or above |
| ViewportState.DragMinMs | viewport.py:625-632 | the drag interval lies in [0, 70] ms, and in [0, 55] inside the tile; 0 at zoom 2.5 or below, and at zoom 10 or above 70 outside the tile and 55 inside |
| ViewportState.ScheduleDragRedraw | viewport.py:625-638 | always leaves an unforced sharp job pending, due within 70 ms, or 55 ms inside the tile, when the clock has not gone back |
| ViewportState.PanBegin | viewport.py:254-279 | without an image nothing changes; with one, it starts dragging, marks a user pan, cancels the HQ and preview jobs, and shows the preview when it is enabled |
| ViewportState.PanMove | viewport.py:281-318 | without an image or a drag nothing changes |
| ViewportState.SharpAfterMove | viewport.py:293-318 | under the freeze, it marks and schedules an escape exactly when `FreezeEscapes` holds, and otherwise changes nothing; with no tile it always schedules an escape |
| ViewportState.PanMoveUnderFreeze | viewport.py:293-308 | a frozen drag move over a tile either escapes, or leaves the cache, the flags and the pending sharp job as they were |
| ViewportState.PanMoveWithoutTile | viewport.py:293-318 | a drag move with no tile always schedules an escape |
| ViewportState.PanEnd | viewport.py:320-357 | after a drag: not dragging, no escape pending, preview hidden, nothing in the preview slot, a forced sharp redraw at 0 ms and the HQ job at its delay. Without a drag nothing changes |
| ViewportState.PanEndLeavesTwoJobs | viewport.py:320-357 | after a drag, exactly two jobs are pending: the sharp redraw and the HQ pass |
| ViewportState.ReleaseRedrawCoversView | viewport.py:320-390 | the sharp redraw pending after a drag, when run, leaves a tile that covers the view |
| ViewportState.SetImage | viewport.py:159-165 | the image and its pyramid are set, the cache is cleared, a sharp redraw is scheduled with the given force, and recentring clears the user-pan flag |
| ViewportState.RequestedZoom | viewport.py:168-169 | zoom 0 counts as 1, then the value is clamped to [0.5, 16] |
| ViewportState.SetZoom | viewport.py:167-176 | a request within 1e-9 of the current zoom, unforced, changes nothing. Otherwise the clamped zoom is set, the cache cleared and a forced redraw scheduled |
| ViewportState.SetZoomSettles | viewport.py:167-176 | repeating an unforced `set_zoom` changes nothing |
| ViewportState.ZoomFit | viewport.py:181-195 | with an image of positive size, sets the clamped fit zoom, clears the user-pan flag and the cache, and schedules a forced redraw; otherwise nothing changes |
| ViewportState.WheelZoomTarget | viewport.py:197-226 | no step for an ignored delta; a step lands in [0.5, 16], moves the zoom by at least 1e-9, and is taken whenever it does |
| ViewportState.WheelZoom | viewport.py:197-249 | without a step nothing changes; with one, the new zoom is set, the cache cleared, a forced redraw scheduled and the user-pan flag set |
| ViewportState.OnScroll | viewport.py:575-583 | while dragging nothing changes; otherwise an unforced sharp redraw is scheduled at 16 ms |
| ViewportState.OnConfigure | viewport.py:585-588 | records the canvas size and schedules a forced redraw |
| ViewportState.SetZoomKeepsInv | viewport.py:167-176 | `set_zoom` keeps the invariant |
| ViewportState.WheelZoomKeepsInv | viewport.py:197-249 | `wheel_zoom` keeps the invariant |
| ViewportState.PanMoveKeepsInv | viewport.py:281-318 | `pan_move` keeps the invariant |
| ViewportState.PanEndKeepsInv | viewport.py:320-357 | `pan_end` keeps the invariant |
| ViewportState.FireKeepsInv | viewport.py:375-467 | running any pending job keeps the invariant; a sharp or preview job leaves its own slot empty |
| Viewport.ViewportCanvas.constructor | viewport.py:26-157 | the new canvas is the initial state and keeps the invariant |
| Viewport.ViewportCanvas.CancelPending | viewport.py:259-272 | `after_cancel` of a handle, and the handle cleared |
| Viewport.ViewportCanvas.BuildPyramid | viewport.py:661-677 | the loop builds the image's pyramid |
| Viewport.ViewportCanvas.InvalidateCache | viewport.py:362-364 | the new state is `InvalidateCache` of the old |
| Viewport.ViewportCanvas.ScheduleRedraw | viewport.py:366-373 | the new state is `ScheduleRedraw` of the old |
| Viewport.ViewportCanvas.SetImage | viewport.py:159-165 | the new state is `SetImage` of the old, and the invariant holds |
| Viewport.ViewportCanvas.SetZoom | viewport.py:167-176 | the new state is `SetZoom` of the old, and the invariant holds |
| Viewport.ViewportCanvas.ZoomFit | viewport.py:181-195 | the new state is `ZoomFit` of the old, and the invariant holds |
| Viewport.ViewportCanvas.WheelZoom | viewport.py:197-249 | the new state is `WheelZoom` of the old, and the invariant holds |
| Viewport.ViewportCanvas.PanBegin | viewport.py:254-279 | the new state is `PanBegin` of the old, and the invariant holds |
| Viewport.ViewportCanvas.PanMove | viewport.py:281-318 | the new state is `PanMove` of the old, and the invariant holds |
| Viewport.ViewportCanvas.PanEnd | viewport.py:320-357 | the new state is `PanEnd` of the old, and the invariant holds |
| Viewport.ViewportCanvas.DrawViewportOnly | viewport.py:819-965 | the new state is `DrawViewportOnly` of the old |
| Viewport.ViewportCanvas.DoRedraw | viewport.py:375-390 | the new state is `DoRedraw` of the old |
| Viewport.ViewportCanvas.HqRedrawNow | viewport.py:392-398 | the new state is `HqRedrawNow` of the old |
| Viewport.ViewportCanvas.SchedulePreviewRedraw | viewport.py:453-462 | the new state is `SchedulePreviewRedraw` of the old |
| Viewport.ViewportCanvas.PreviewAfterFire | viewport.py:464-467 | the new state is `PreviewAfterFire` of the old |
| Viewport.ViewportCanvas.ScheduleDragEscapeRedraw | viewport.py:643-656 | the new state is `ScheduleDragEscapeRedraw` of the old |
| Viewport.ViewportCanvas.ScheduleDragRedraw | viewport.py:625-638 | the new state is `ScheduleDragRedraw` of the old |
| Viewport.ViewportCanvas.OnScroll | viewport.py:575-583 | the new state is `OnScroll` of the old, and the invariant holds |
| Viewport.ViewportCanvas.OnConfigure | viewport.py:585-588 | the new state is `OnConfigure` of the old, and the invariant holds |
| Viewport.ViewportCanvas.Fire | viewport.py:375-467 | Tk running a pending job: the new state is `Fire` of the old, and the invariant holds |

## Left out

- File, PNG and JSON I/O: the read in `parse_tim`, `export_indices_png_and_meta` and `import_indices_from_png_resize_tim`. These are I/O; the pure helpers they call are modelled.
- 24bpp TIM images, which the source itself leaves unimplemented; mode 3 is rendered as unsupported, as the source does.
- Pillow and Tk pixel work: resampling, crops, `PhotoImage` and canvas items. Pyramid levels and sharp renders are modelled by their sizes, scales and cache bookkeeping only.
- `get_zoom`, `_ensure_scrollregion` and the scrollbar `set` calls: plain reads and Tk calls.
- `_pick_pyr_level` and `_pick_pyr_level_preview`: their level choice rests on floating-point `log`.
- The preview's paste offsets, which round floats.
- `ViewportState.DrawPreviewNow`: models only whether the preview is shown, not its image or its paste offsets.
- `ViewportState.WheelZoomTarget`: the growth `1.125 ** (d / 120)` is a parameter; floating-point `pow` is not modelled.
- `ViewportState.WheelZoom`: a delta that `float()` cannot parse is not modelled; the delta is a real.
- `TileCache.SharpDraw`: the draw key leaves out `id(pil)` and the pyramid level fields. These change only with `set_image`, which clears the key anyway.
- `ViewportState.PanMove`: `scan_dragto` is Tk's; the canvas origin it produces is an input.
- Tk's rounding of the canvas origin to whole pixels after `xview_moveto`: origins are reals.
- ViewGeometry.MoveTo: clamps the requested origin to [0, scroll]; Tk then confines the view to [0, scroll minus the canvas size], which is not modelled. Near the scroll region's far edge, for example after a wheel step with the view at its right limit, the model's origin can lie past the one Tk shows.
- `_now_ms`: the clock is a parameter `now`.
- `ViewportState.ScheduleDragEscapeRedraw` and `ViewportState.ScheduleDragRedraw`: bound the delay only when the clock has not gone backwards, since the source's delay grows without bound otherwise.
- Tk's event loop: when a pending `after` job runs is not modelled; `Fire` runs any pending job.
- Floating-point rounding in general: the geometry is stated over exact reals.
- The class groups the source's flat attributes into records (`Geom`, `Cache`, `Flags`, `Preview`, `Clocks`). The field contents are the source's own.
