/** Animation helpers: guessing how a sprite sheet splits into frames
    (`auto_detect_frames`) and the frame rectangles `slice_frames_fixed`
    crops. Directions are the strings the program passes around. */
module TimFrames {
  import opened Common

  const Vertical := "vertical"
  const Horizontal := "horizontal"

  /** A frame size, the strip direction and the frame count. */
  datatype Detection = Detection(frameW: int, frameH: int, direction: string, count: nat)

  /** `auto_detect_frames`: a tall sheet whose height is a multiple of its
      width is a vertical strip of square frames, a wide sheet whose width
      is a multiple of its height a horizontal strip; anything else is one
      frame the size of the sheet. */
  function AutoDetectFrames(sheetW: int, sheetH: int): (d: Detection)
    ensures d.count >= 1
    ensures d.direction == Vertical || d.direction == Horizontal
    // a vertical strip of square frames as wide as the sheet
    ensures d.direction == Vertical ==>
      sheetW > 0 && d.frameW == d.frameH == sheetW && d.count * d.frameH == sheetH
    // a horizontal strip of square frames as tall as the sheet, or the whole sheet as one frame
    ensures d.direction == Horizontal ==>
      || (sheetH > 0 && d.frameW == d.frameH == sheetH && d.count * d.frameW == sheetW)
      || (d.frameW == sheetW && d.frameH == sheetH && d.count == 1)
    // which case applies: the vertical test is made first
    ensures sheetW > 0 && sheetH > 0 && sheetH % sheetW == 0 ==> d.direction == Vertical
    ensures sheetW > 0 && sheetH > 0 && sheetH % sheetW != 0 && sheetW % sheetH == 0 ==>
      d.direction == Horizontal && d.frameW == sheetH
    ensures !(sheetW > 0 && sheetH > 0 && (sheetH % sheetW == 0 || sheetW % sheetH == 0)) ==>
      d == Detection(sheetW, sheetH, Horizontal, 1)
  {
    MultipleAtLeast(sheetH, sheetW);
    MultipleAtLeast(sheetW, sheetH);
    if sheetW > 0 && sheetH > 0 && sheetH % sheetW == 0 && sheetH >= sheetW then
      ExactQuotient(sheetH, sheetW);
      Detection(sheetW, sheetW, Vertical, Max(1, sheetH / sheetW))
    else if sheetW > 0 && sheetH > 0 && sheetW % sheetH == 0 && sheetW >= sheetH then
      ExactQuotient(sheetW, sheetH);
      Detection(sheetH, sheetH, Horizontal, Max(1, sheetW / sheetH))
    else
      Detection(sheetW, sheetH, Horizontal, 1)
  }

  /** A positive multiple of `q` is at least `q`. */
  lemma MultipleAtLeast(p: int, q: int)
    ensures p > 0 && q > 0 && p % q == 0 ==> p >= q
  {
    if p > 0 && q > 0 && p % q == 0 {
      var k := p / q;
      assert p == k * q;
    }
  }

  /** A multiple of `q` (at least `q`) is its quotient times `q`. */
  lemma ExactQuotient(p: int, q: int)
    requires q > 0 && p >= q && p % q == 0
    ensures p / q >= 1 && p / q * q == p
  {
    DivUnique(p, q, p / q, 0);
  }

  /** A frame `slice_frames_fixed` returns: the sheet itself, or the
      `w` x `h` rectangle at (`x`, `y`) cropped from it and padded with
      transparent pixels where it runs past the sheet. */
  datatype Frame = WholeSheet | Cell(x: int, y: int, w: int, h: int)

  /** The frames `slice_frames_fixed` returns for a `sheetW` x `sheetH`
      sheet. */
  function SlicedFrames(sheetW: nat, sheetH: nat, frameW: int, frameH: int, direction: string): seq<Frame>
  {
    if frameW <= 0 || frameH <= 0 then [WholeSheet]
    else if direction == Vertical then
      seq(Max(1, sheetH / frameH), i => Cell(0, i * frameH, frameW, frameH))
    else
      seq(Max(1, sheetW / frameW), i => Cell(i * frameW, 0, frameW, frameH))
  }

  /** `slice_frames_fixed`: a loop appending one cropped frame per step
      along the strip. */
  method SliceFramesFixed(sheetW: nat, sheetH: nat, frameW: int, frameH: int, direction: string)
    returns (frames: seq<Frame>)
    ensures frames == SlicedFrames(sheetW, sheetH, frameW, frameH, direction)
  {
    if frameW <= 0 || frameH <= 0 {
      return [WholeSheet];
    }
    frames := [];
    if direction == Vertical {
      var count := Max(1, sheetH / frameH);
      var i := 0;
      while i < count
        invariant 0 <= i <= count
        invariant frames == seq(i, k => Cell(0, k * frameH, frameW, frameH))
      {
        frames := frames + [Cell(0, i * frameH, frameW, frameH)];
        i := i + 1;
      }
    } else {
      var count := Max(1, sheetW / frameW);
      var i := 0;
      while i < count
        invariant 0 <= i <= count
        invariant frames == seq(i, k => Cell(k * frameW, 0, frameW, frameH))
      {
        frames := frames + [Cell(i * frameW, 0, frameW, frameH)];
        i := i + 1;
      }
    }
    if frames == [] {
      frames := [WholeSheet];
    }
  }

  /** With a positive frame size there are `max(1, sheet_dim // frame_dim)`
      frames along the strip, each exactly `frameW` x `frameH`, each
      starting where the previous one ends; when the sheet holds at least
      one frame they all lie inside it. */
  lemma {:induction false} SlicedFramesShape(sheetW: nat, sheetH: nat, frameW: int, frameH: int, direction: string)
    requires frameW > 0 && frameH > 0
    ensures var frames := SlicedFrames(sheetW, sheetH, frameW, frameH, direction);
      var vertical := direction == Vertical;
      var dim, step := if vertical then sheetH else sheetW, if vertical then frameH else frameW;
      && |frames| == Max(1, dim / step)
      && forall i :: 0 <= i < |frames| ==>
           && frames[i].Cell? && frames[i].w == frameW && frames[i].h == frameH
           && (if vertical then frames[i].x == 0 && frames[i].y == i * step
               else frames[i].y == 0 && frames[i].x == i * step)
           && (dim >= step ==> 0 <= i * step && i * step + step <= dim)
  {
    var vertical := direction == Vertical;
    var dim, step := if vertical then sheetH else sheetW, if vertical then frameH else frameW;
    var frames := SlicedFrames(sheetW, sheetH, frameW, frameH, direction);
    forall i | 0 <= i < |frames|
      ensures dim >= step ==> 0 <= i * step && i * step + step <= dim
    {
      if dim >= step {
        assert i + 1 <= dim / step;
        MulBelow(i + 1, dim / step, step);
        assert (dim / step) * step <= dim;
      }
    }
  }

  lemma MulBelow(a: nat, b: nat, c: nat)
    requires a <= b
    ensures a * c <= b * c
  {
  }

  /** Slicing a sheet with the frames detected for it splits it exactly:
      the detected number of frames, every one inside the sheet, the last
      one ending at the sheet's far edge. */
  lemma DetectedFramesTileSheet(sheetW: nat, sheetH: nat)
    requires sheetW > 0 && sheetH > 0
    ensures var d := AutoDetectFrames(sheetW, sheetH);
      var frames := SlicedFrames(sheetW, sheetH, d.frameW, d.frameH, d.direction);
      && |frames| == d.count
      && (forall i :: 0 <= i < |frames| ==>
            && frames[i].Cell? && 0 <= frames[i].x && frames[i].x + frames[i].w <= sheetW
            && 0 <= frames[i].y && frames[i].y + frames[i].h <= sheetH)
      && frames[|frames| - 1].x + frames[|frames| - 1].w == sheetW
      && frames[|frames| - 1].y + frames[|frames| - 1].h == sheetH
  {
    var d := AutoDetectFrames(sheetW, sheetH);
    SlicedFramesShape(sheetW, sheetH, d.frameW, d.frameH, d.direction);
    var frames := SlicedFrames(sheetW, sheetH, d.frameW, d.frameH, d.direction);
    if d.direction == Vertical {
      assert sheetH / sheetW == d.count;
    } else if d.count > 1 {
      assert sheetW / sheetH == d.count;
    } else {
      assert d.frameW == sheetW;
      assert sheetW / d.frameW == 1;
    }
    var last := |frames| - 1;
    assert last * (if d.direction == Vertical then d.frameH else d.frameW)
      + (if d.direction == Vertical then d.frameH else d.frameW) == d.count * (if d.direction == Vertical then d.frameH else d.frameW);
  }
}
