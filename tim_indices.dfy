/** Palette indices of 4bpp and 8bpp TIM images: unpacking them from the
    image payload, converting a pixel width back to 16-bit words, packing
    edited indices into a payload again, and the grey ramp the index PNG
    export uses as its palette. */
module TimIndices {
  import opened Common
  import opened LittleEndian
  import opened TimFile

  datatype IndexError =
    | NonIndexedMode      // decode_indices on a mode other than 4bpp or 8bpp
    | NotMultipleOf4      // a 4bpp width must be a multiple of 4 pixels
    | NotMultipleOf2      // an 8bpp width must be a multiple of 2 pixels
    | UnsupportedMode     // only 4bpp, 8bpp and 16bpp widths can be converted
    | CountMismatch       // the index count is not width * height
    | PackUnsupported     // only 4bpp and 8bpp indices can be packed

  /** The index of pixel `k`: at 4bpp byte `k / 2` holds two pixels, the
      even one in its low nibble; at 8bpp byte `k` is the index. Pixels past
      the payload are 0. */
  function IndexAt(mode: nat, data: seq<byte>, k: nat): int
  {
    if mode == 0 then
      (if k / 2 < |data| then (if k % 2 == 0 then data[k / 2] % 16 else data[k / 2] / 16) else 0)
    else
      (if k < |data| then data[k] else 0)
  }

  /** The first `n` pixel indices read from `data` in the given mode. */
  function Unpacked(mode: nat, data: seq<byte>, n: nat): seq<int>
  {
    seq(n, k requires 0 <= k => IndexAt(mode, data, k))
  }

  /** What `decode_indices` returns for `tim`. */
  function DecodedIndices(tim: TimImage): (r: Result<seq<int>, IndexError>)
    ensures r.Ok? <==> tim.bppMode == 0 || tim.bppMode == 1
    ensures r.Ok? ==> |r.value| == tim.PixelWidth() * tim.imgH
    ensures r.Ok? && tim.bppMode == 0 ==> forall k :: 0 <= k < |r.value| ==> 0 <= r.value[k] <= 15
    ensures r.Ok? && tim.bppMode == 1 ==>
      forall k :: 0 <= k < |r.value| ==> r.value[k] == (if k < |tim.imgData| then tim.imgData[k] else 0)
  {
    if tim.bppMode == 0 || tim.bppMode == 1 then
      Ok(Unpacked(tim.bppMode, tim.imgData, tim.PixelWidth() * tim.imgH))
    else
      Err(NonIndexedMode)
  }

  /** `decode_indices`: at 4bpp a loop over the payload bytes writes the low
      then the high nibble of each into a zero-filled list, stopping when the
      list is full; at 8bpp the leading bytes are copied over the zeros. */
  method DecodeIndices(tim: TimImage) returns (r: Result<seq<int>, IndexError>)
    ensures r == DecodedIndices(tim)
  {
    var n := tim.PixelWidth() * tim.imgH;
    var data := tim.imgData;
    if tim.bppMode == 0 {
      var out := Unpack4(data, n);
      return Ok(out);
    }
    if tim.bppMode == 1 {
      var m := Min(n, |data|);
      var out := data[..m] + seq(n - m, _ => 0);
      CopiedOverZeros(data, n);
      return Ok(out);
    }
    return Err(NonIndexedMode);
  }

  /** `out[:m] = data[:m]` over `n` zeros, with `m` the smaller length, is
      the 8bpp unpacking. */
  lemma CopiedOverZeros(data: seq<byte>, n: nat)
    ensures var m := Min(n, |data|);
      data[..m] + seq(n - m, _ => 0) == Unpacked(1, data, n)
  {
    var m := Min(n, |data|);
    var out := data[..m] + seq(n - m, _ => 0);
    forall k | 0 <= k < n ensures out[k] == IndexAt(1, data, k) {
      if k < m {
        assert out[k] == data[k];
      } else {
        assert out[k] == seq(n - m, _ => 0)[k - m];
      }
    }
  }

  /** The 4bpp loop of `decode_indices`: the low then the high nibble of
      each payload byte into a zero-filled array of `n`, stopping when it is
      full. */
  method Unpack4(data: seq<byte>, n: nat) returns (indices: seq<int>)
    ensures indices == Unpacked(0, data, n)
  {
    var out := new int[n](_ => 0);
    var o := 0;
    var j := 0;
    while j < |data|
      invariant 0 <= j <= |data|
      invariant o == 2 * j <= n
      invariant forall k :: 0 <= k < o ==> out[k] == IndexAt(0, data, k)
      invariant forall k :: o <= k < n ==> out[k] == 0
    {
      if o >= n { break; }
      out[o] := data[j] % 16;
      o := o + 1;
      if o >= n { break; }
      out[o] := data[j] / 16;
      o := o + 1;
      j := j + 1;
    }
    assert out[..] == Unpacked(0, data, n);
    return out[..];
  }

  /** `words_for_width_pixels`: the 16-bit word count of a row `widthPx`
      pixels wide. */
  function WordsForWidthPixels(mode: nat, widthPx: nat): (r: Result<nat, IndexError>)
    ensures r == Err(NotMultipleOf4) <==> mode == 0 && widthPx % 4 != 0
    ensures r == Err(NotMultipleOf2) <==> mode == 1 && widthPx % 2 != 0
    ensures r == Err(UnsupportedMode) <==> mode > 2
    ensures r.Ok? ==> PixelWidthFor(mode, r.value) == widthPx
  {
    if mode == 0 then
      (if widthPx % 4 != 0 then Err(NotMultipleOf4) else Ok(widthPx / 4))
    else if mode == 1 then
      (if widthPx % 2 != 0 then Err(NotMultipleOf2) else Ok(widthPx / 2))
    else if mode == 2 then Ok(widthPx)
    else Err(UnsupportedMode)
  }

  /** Converting the pixel width of `words` words back gives `words`. */
  lemma WordsOfPixelWidth(mode: nat, words: nat)
    requires mode <= 2
    ensures WordsForWidthPixels(mode, PixelWidthFor(mode, words)) == Ok(words)
  {
  }

  /** The 4bpp packing of `indices`: byte `i` holds index `2i` in its low
      nibble and index `2i + 1` (or 0 past the end) in its high nibble. */
  function Packed4(indices: seq<int>): seq<byte>
  {
    seq((|indices| + 1) / 2, i requires 0 <= i < (|indices| + 1) / 2 =>
      indices[2 * i] % 16 + (if 2 * i + 1 < |indices| then indices[2 * i + 1] % 16 else 0) * 16)
  }

  /** What `pack_indices_for_size` returns. */
  function PackedIndices(indices: seq<int>, mode: nat, widthPx: nat, heightPx: nat): (r: Result<seq<byte>, IndexError>)
    ensures r == Err(CountMismatch) <==> |indices| != widthPx * heightPx
    ensures r == Err(PackUnsupported) <==> |indices| == widthPx * heightPx && mode != 0 && mode != 1
    ensures r.Ok? && mode == 1 ==>
      |r.value| == |indices| && forall k :: 0 <= k < |indices| ==> r.value[k] == indices[k] % 256
    ensures r.Ok? && mode == 0 ==>
      && |r.value| == (|indices| + 1) / 2
      && (forall i :: 0 <= i < |r.value| ==> r.value[i] % 16 == indices[2 * i] % 16)
      && (forall i :: 0 <= i < |r.value| ==>
            r.value[i] / 16 == (if 2 * i + 1 < |indices| then indices[2 * i + 1] % 16 else 0))
  {
    if |indices| != widthPx * heightPx then Err(CountMismatch)
    else if mode == 1 then Ok(Packed8(indices))
    else if mode == 0 then
      Packed4Nibbles(indices);
      Ok(Packed4(indices))
    else Err(PackUnsupported)
  }

  /** `bytes(v & 0xFF for v in indices)`. */
  function Packed8(indices: seq<int>): (p: seq<byte>)
    ensures |p| == |indices| && forall k :: 0 <= k < |indices| ==> p[k] == indices[k] % 256
  {
    seq(|indices|, k requires 0 <= k < |indices| => indices[k] % 256)
  }

  /** Two nibbles packed into a byte come back out by `% 16` and `/ 16`. */
  lemma NibblePair(lo: int, hi: int)
    requires 0 <= lo < 16 && 0 <= hi < 16
    ensures (lo + hi * 16) % 16 == lo && (lo + hi * 16) / 16 == hi
  {
  }

  lemma Packed4Nibbles(indices: seq<int>)
    ensures var p := Packed4(indices);
      && (forall i :: 0 <= i < |p| ==> p[i] % 16 == indices[2 * i] % 16)
      && (forall i :: 0 <= i < |p| ==> p[i] / 16 == (if 2 * i + 1 < |indices| then indices[2 * i + 1] % 16 else 0))
  {
    var p := Packed4(indices);
    forall i | 0 <= i < |p|
      ensures p[i] % 16 == indices[2 * i] % 16
      ensures p[i] / 16 == (if 2 * i + 1 < |indices| then indices[2 * i + 1] % 16 else 0)
    {
      NibblePair(indices[2 * i] % 16, if 2 * i + 1 < |indices| then indices[2 * i + 1] % 16 else 0);
    }
  }

  /** `pack_indices_for_size`: the count is checked first; at 4bpp a loop
      over the even positions appends one byte per pair of indices. */
  method PackIndicesForSize(indices: seq<int>, mode: nat, widthPx: nat, heightPx: nat)
    returns (r: Result<seq<byte>, IndexError>)
    ensures r == PackedIndices(indices, mode, widthPx, heightPx)
  {
    if |indices| != widthPx * heightPx {
      return Err(CountMismatch);
    }
    if mode == 1 {
      return Ok(seq(|indices|, k requires 0 <= k < |indices| => indices[k] % 256));
    }
    if mode == 0 {
      var out: seq<byte> := [];
      var i := 0;
      while i < |indices|
        invariant i % 2 == 0 && 0 <= i <= |indices| + 1
        invariant |out| == i / 2
        invariant out == Packed4(indices)[..i / 2]
      {
        var a := indices[i] % 16;
        var b := if i + 1 < |indices| then indices[i + 1] % 16 else 0;
        out := out + [a + b * 16];
        i := i + 2;
      }
      assert out == Packed4(indices);
      return Ok(out);
    }
    return Err(PackUnsupported);
  }

  /** The index an edited pixel keeps through packing: its low 4 bits at
      4bpp and its low 8 bits at 8bpp. */
  function Masked(mode: nat, v: int): int
  {
    if mode == 0 then v % 16 else v % 256
  }

  /** Unpacking one packed 4bpp position gives the masked index back. */
  lemma IndexAtPacked4(indices: seq<int>, k: nat)
    requires k < |indices|
    ensures IndexAt(0, Packed4(indices), k) == indices[k] % 16
  {
    var p := Packed4(indices);
    var i := k / 2;
    var lo := indices[2 * i] % 16;
    var hi := if 2 * i + 1 < |indices| then indices[2 * i + 1] % 16 else 0;
    assert p[i] == lo + hi * 16;
    NibblePair(lo, hi);
  }

  /** Re-sizing an indexed image to `widthPx` x `heightPx` with edited
      indices, as the index PNG import does (the width converted to words,
      the height set, the indices packed), then decoding the image gives
      the edited indices back, masked to the mode's index width. */
  lemma {:induction false} DecodeOfPack(tim: TimImage, indices: seq<int>, widthPx: nat, heightPx: nat)
    requires tim.bppMode == 0 || tim.bppMode == 1
    requires WordsForWidthPixels(tim.bppMode, widthPx).Ok?
    requires PackedIndices(indices, tim.bppMode, widthPx, heightPx).Ok?
    ensures var resized := tim.(imgWWords := WordsForWidthPixels(tim.bppMode, widthPx).value,
                                imgH := heightPx,
                                imgData := PackedIndices(indices, tim.bppMode, widthPx, heightPx).value);
      DecodedIndices(resized) == Ok(seq(|indices|, k requires 0 <= k < |indices| => Masked(tim.bppMode, indices[k])))
  {
    var mode := tim.bppMode;
    var data := PackedIndices(indices, mode, widthPx, heightPx).value;
    var resized := tim.(imgWWords := WordsForWidthPixels(mode, widthPx).value, imgH := heightPx, imgData := data);
    assert resized.PixelWidth() == widthPx;
    assert resized.PixelWidth() * resized.imgH == |indices|;
    var got := DecodedIndices(resized).value;
    var want := seq(|indices|, k requires 0 <= k < |indices| => Masked(mode, indices[k]));
    assert |got| == |want|;
    forall k | 0 <= k < |indices|
      ensures got[k] == want[k]
    {
      if mode == 0 {
        IndexAtPacked4(indices, k);
      } else {
        assert got[k] == data[k] == indices[k] % 256;
      }
    }
    assert got == want;
  }

  /** Grey level `i` of an `n`-entry ramp from 0 to 255: `round(i * 255 /
      (n - 1))`, or 0 for a one-entry ramp. */
  function GrayLevel(i: nat, n: int): (v: int)
    ensures i < n ==> 0 <= v <= 255
  {
    if n > 1 then
      if i < n then
        RoundDivMonotonic(0, i * 255, n - 1);
        RoundDivMonotonic(i * 255, 255 * (n - 1), n - 1);
        RoundDivExact(0, n - 1);
        RoundDivExact(255, n - 1);
        RoundDiv(i * 255, n - 1)
      else RoundDiv(i * 255, n - 1)
    else 0
  }

  /** The levels of an `n`-entry ramp padded with black to 256 entries. */
  function GrayLevels(n: int): seq<int>
  {
    seq(256, i requires 0 <= i => if i < n then GrayLevel(i, n) else 0)
  }

  /** Each level repeated as an (r, g, b) triple. */
  function Triples(s: seq<int>): (t: seq<int>)
    ensures |t| == 3 * |s|
  {
    if s == [] then [] else
      var v := s[|s| - 1];
      Triples(s[..|s| - 1]) + [v, v, v]
  }

  lemma {:induction false} TriplesAt(s: seq<int>, k: nat)
    requires k < 3 * |s|
    ensures Triples(s)[k] == s[k / 3]
  {
    var init := s[..|s| - 1];
    if k < 3 * |init| {
      TriplesAt(init, k);
    }
  }

  /** The 768-entry RGB palette `make_grayscale_palette` returns. */
  function GrayscalePalette(n: int): seq<int>
  {
    Triples(GrayLevels(n))
  }

  /** Entry `i` of the palette is grey level `i` of the ramp in all three
      channels for the first `n` entries, and black after them. */
  lemma GrayscalePaletteEntries(n: int, i: nat)
    requires i < 256
    ensures |GrayscalePalette(n)| == 768
    ensures var v := if i < n then GrayLevel(i, n) else 0;
      && 0 <= v <= 255
      && GrayscalePalette(n)[3 * i] == v
      && GrayscalePalette(n)[3 * i + 1] == v
      && GrayscalePalette(n)[3 * i + 2] == v
  {
    TriplesAt(GrayLevels(n), 3 * i);
    TriplesAt(GrayLevels(n), 3 * i + 1);
    TriplesAt(GrayLevels(n), 3 * i + 2);
  }

  /** `make_grayscale_palette`: a loop over the 256 entries appending three
      equal channels each. */
  method MakeGrayscalePalette(n: int) returns (pal: seq<int>)
    ensures pal == GrayscalePalette(n)
  {
    ghost var levels := GrayLevels(n);
    pal := [];
    var i := 0;
    while i < 256
      invariant 0 <= i <= 256
      invariant pal == Triples(levels[..i])
    {
      var v := if i < n then GrayLevel(i, n) else 0;
      assert levels[..i + 1][..i] == levels[..i];
      pal := pal + [v, v, v];
      i := i + 1;
    }
    assert levels[..256] == levels;
  }

  /** The 4bpp export ramp has steps of 17 (0, 17, ..., 255) and the 8bpp
      ramp is the identity. */
  lemma GrayRamps(i: nat)
    ensures i < 16 ==> GrayLevel(i, 16) == 17 * i
    ensures i < 256 ==> GrayLevel(i, 256) == i
  {
    RoundDivExact(17 * i, 15);
    assert i * 255 == 17 * i * 15;
    RoundDivExact(i, 255);
  }
}
