/** Rendering a TIM image to an RGBA pixel grid (`render_tim_to_image`).
    An image is its width, its height and its pixels in row-major order. */
module TimRender {
  import opened Common
  import opened LittleEndian
  import opened TimColor
  import opened TimFile
  import opened TimIndices

  datatype Image = Image(width: nat, height: nat, pixels: seq<Rgba>)

  datatype RenderError = ModeNotSupported(mode: nat)

  const Transparent := Rgba(0, 0, 0, 0)
  /** The colour of an index past the end of the palette. */
  const Magenta := Rgba(255, 0, 255, 255)

  /** The payload read as 16-bit words (a trailing odd byte is dropped),
      cut to the `expected` words of the image. */
  function Words16(data: seq<byte>, expected: nat): (words: seq<nat>)
    ensures |words| == Min(|data| / 2, expected)
  {
    seq(Min(|data| / 2, expected), i requires 0 <= i < Min(|data| / 2, expected) => U16(data, 2 * i))
  }

  /** Pixel `i` of a 16bpp image: its word converted, or transparent black
      once the words run out. */
  function Pixel16(words: seq<nat>, i: nat): Rgba
  {
    if i < |words| then Ps1ToRgba(words[i]) else Transparent
  }

  /** An index shown as grey without a palette: `v = index & 0xFF`. */
  function Gray(index: int): Rgba
  {
    var v := index % 256;
    Rgba(v, v, v, 255)
  }

  /** An index looked up in a palette; indices past its end are magenta.
      (The indices `decode_indices` produces are never negative.) */
  function PaletteColor(palette: seq<Rgba>, index: int): Rgba
  {
    if 0 <= index < |palette| then palette[index] else Magenta
  }

  /** The pixel at position `i` of a raster whose pixels are given by `f`. */
  function Raster(n: nat, f: nat -> Rgba): (px: seq<Rgba>)
    ensures |px| == n
  {
    seq(n, i requires 0 <= i < n => f(i))
  }

  /** What `render_tim_to_image` returns for `tim` and an optional palette. */
  function Rendered(tim: TimImage, palette: Option<seq<Rgba>>): (r: Result<Image, RenderError>)
    ensures r.Err? <==> tim.bppMode > 2
    ensures r.Ok? ==>
      && r.value.width == tim.PixelWidth() && r.value.height == tim.imgH
      && |r.value.pixels| == tim.PixelWidth() * tim.imgH
  {
    var w, h := tim.PixelWidth(), tim.imgH;
    if tim.bppMode == 2 then
      var words := Words16(tim.imgData, tim.imgWWords * tim.imgH);
      Ok(Image(w, h, Raster(w * h, (i: nat) => Pixel16(words, i))))
    else if tim.bppMode == 0 || tim.bppMode == 1 then
      var indices := DecodedIndices(tim).value;
      if palette.None? then
        Ok(Image(w, h, Raster(w * h, (i: nat) => if i < |indices| then Gray(indices[i]) else Transparent)))
      else
        var pal := palette.value;
        Ok(Image(w, h, Raster(w * h, (i: nat) => if i < |indices| then PaletteColor(pal, indices[i]) else Transparent)))
    else
      Err(ModeNotSupported(tim.bppMode))
  }

  /** The rows-then-columns loop of `render_tim_to_image`, writing pixel
      `y * w + x` of a new image from `f`. */
  method FillRaster(w: nat, h: nat, f: nat -> Rgba) returns (px: seq<Rgba>)
    ensures px == Raster(w * h, f)
  {
    var out := new Rgba[w * h](_ => Transparent);
    var y := 0;
    while y < h
      invariant 0 <= y <= h
      invariant forall k :: 0 <= k < y * w ==> out[k] == f(k)
    {
      var x := 0;
      var base := y * w;
      assert base + w == (y + 1) * w <= h * w;
      while x < w
        invariant 0 <= x <= w
        invariant forall k :: 0 <= k < base + x ==> out[k] == f(k)
      {
        out[base + x] := f(base + x);
        x := x + 1;
      }
      y := y + 1;
    }
    px := out[..];
  }

  /** `render_tim_to_image`. */
  method RenderTimToImage(tim: TimImage, palette: Option<seq<Rgba>>) returns (r: Result<Image, RenderError>)
    ensures r == Rendered(tim, palette)
  {
    var w, h := tim.PixelWidth(), tim.imgH;
    if tim.bppMode == 2 {
      var words := Words16(tim.imgData, tim.imgWWords * tim.imgH);
      var px := FillRaster(w, h, (i: nat) => Pixel16(words, i));
      return Ok(Image(w, h, px));
    }
    if tim.bppMode == 0 || tim.bppMode == 1 {
      var decoded := DecodeIndices(tim);
      var indices := decoded.value;
      if palette.None? {
        var px := FillRaster(w, h, (i: nat) => if i < |indices| then Gray(indices[i]) else Transparent);
        return Ok(Image(w, h, px));
      }
      var pal := palette.value;
      var px := FillRaster(w, h, (i: nat) => if i < |indices| then PaletteColor(pal, indices[i]) else Transparent);
      return Ok(Image(w, h, px));
    }
    return Err(ModeNotSupported(tim.bppMode));
  }

  /** A 16bpp image shows pixel `i` as the colour of the 16-bit word at
      byte `2i` of the payload, and as transparent black where the payload
      has no such word. */
  lemma Rendered16(tim: TimImage, palette: Option<seq<Rgba>>, i: nat)
    requires tim.bppMode == 2 && i < tim.PixelWidth() * tim.imgH
    ensures var px := Rendered(tim, palette).value.pixels;
      && (2 * i + 2 <= |tim.imgData| ==> px[i] == Ps1ToRgba(U16(tim.imgData, 2 * i)))
      && (2 * i + 2 > |tim.imgData| ==> px[i] == Transparent)
  {
  }

  /** An indexed image without a palette shows index `v` as the opaque grey
      `(v & 0xFF, v & 0xFF, v & 0xFF, 255)`; with a palette it shows the
      palette entry, or magenta for an index past the palette's end. */
  lemma RenderedIndexed(tim: TimImage, palette: Option<seq<Rgba>>, i: nat)
    requires (tim.bppMode == 0 || tim.bppMode == 1) && i < tim.PixelWidth() * tim.imgH
    ensures var px := Rendered(tim, palette).value.pixels;
      var v := DecodedIndices(tim).value[i];
      && 0 <= v
      && (palette.None? ==> px[i] == Rgba(v % 256, v % 256, v % 256, 255))
      && (palette.Some? && v < |palette.value| ==> px[i] == palette.value[v])
      && (palette.Some? && v >= |palette.value| ==> px[i] == Magenta)
  {
  }
}
