/** The TIM container of timlib.py: the 8-byte header (magic 0x10 and the
    flags word), the optional CLUT block kept as raw bytes, and the image
    block (length word, x, y, width in 16-bit words, height, payload).
    Parsing works on the file's bytes after they have been read. */
module TimFile {
  import opened Common
  import opened LittleEndian

  const TimMagic: nat := 0x10
  /** Length word plus x, y, width and height: 4 + 4 * 2 bytes. */
  const BlockHeaderLen: nat := 12

  /** The parsed file (`TimImage`). `path` is carried through unchanged;
      `applied_clut`, which only the application sets, is not modelled. */
  datatype TimImage = TimImage(
    path: string,
    originalBytes: seq<byte>,
    flags: nat,
    bppMode: nat,
    hasClut: bool,
    imgX: nat,
    imgY: nat,
    imgWWords: nat,
    imgH: nat,
    imgData: seq<byte>,
    clutBlockRaw: Option<seq<byte>>)
  {
    /** `pixel_width()`: the width in pixels of an image whose header gives
        it in 16-bit words. */
    function PixelWidth(): nat
    {
      PixelWidthFor(bppMode, imgWWords)
    }
  }

  /** Pixels per row for `words` 16-bit words in the given bpp mode: four
      pixels per word at 4bpp, two at 8bpp, one at 16bpp; mode 3 (24bpp,
      which the tool does not implement) is taken as two, any other mode
      as one. */
  function PixelWidthFor(mode: int, words: int): (w: int)
    ensures words >= 0 ==> w >= 0
  {
    if mode == 0 then words * 4
    else if mode == 1 then words * 2
    else if mode == 2 then words
    else if mode == 3 then words * 2
    else words
  }

  datatype ParseError =
    | FileTooSmall
    | BadMagic
    | ClutTruncated
    | ClutLengthTooLarge
    | ImageTruncated
    | ImageLengthTooLarge

  /** Bit 3 of the flags word: a CLUT block follows the header. */
  predicate FlagsHaveClut(flags: nat)
  {
    (flags / 8) % 2 == 1
  }

  /** Where the image block starts, given that the header has been read. */
  function ImageBlockOffset(data: seq<byte>): nat
    requires |data| >= 8
  {
    if FlagsHaveClut(U32(data, 4)) && |data| >= 8 + 12 then 8 + U32(data, 8) else 8
  }

  /** The header is present with the TIM magic, and an announced CLUT block
      fits in the file. */
  predicate HeaderFits(data: seq<byte>)
  {
    && |data| >= 8 && U32(data, 0) == TimMagic
    && (FlagsHaveClut(U32(data, 4)) ==> |data| >= 8 + 12 && 8 + U32(data, 8) <= |data|)
  }

  /** What a successful parse reads from `data`: the header words, the CLUT
      block as raw bytes, and the image block's fields and payload. */
  predicate ParsedFrom(t: TimImage, path: string, data: seq<byte>)
  {
    && |data| >= 8
    && t.path == path && t.originalBytes == data
    && t.flags == U32(data, 4)
    && t.bppMode == t.flags % 8
    && t.hasClut == FlagsHaveClut(t.flags)
    && var off := ImageBlockOffset(data);
       && off + BlockHeaderLen <= |data|
       && off + U32(data, off) <= |data|
       && (t.hasClut ==> t.clutBlockRaw == Some(data[8..off]))
       && (!t.hasClut ==> t.clutBlockRaw == None)
       && t.imgX == U16(data, off + 4) && t.imgY == U16(data, off + 6)
       && t.imgWWords == U16(data, off + 8) && t.imgH == U16(data, off + 10)
       && t.imgData == (if U32(data, off) >= BlockHeaderLen
                        then data[off + BlockHeaderLen..off + U32(data, off)] else [])
  }

  /** `parse_tim`, applied to the bytes of the file. */
  function ParseTim(path: string, data: seq<byte>): (r: Result<TimImage, ParseError>)
    ensures r == Err(FileTooSmall) <==> |data| < 8
    ensures r == Err(BadMagic) <==> |data| >= 8 && U32(data, 0) != TimMagic
    ensures r == Err(ClutTruncated) <==>
      |data| >= 8 && U32(data, 0) == TimMagic && FlagsHaveClut(U32(data, 4)) && |data| < 8 + 12
    ensures r == Err(ClutLengthTooLarge) <==>
      |data| >= 8 + 12 && U32(data, 0) == TimMagic && FlagsHaveClut(U32(data, 4))
      && |data| < 8 + U32(data, 8)
    ensures r == Err(ImageTruncated) <==>
      HeaderFits(data) && |data| < ImageBlockOffset(data) + BlockHeaderLen
    ensures r == Err(ImageLengthTooLarge) <==>
      HeaderFits(data) && ImageBlockOffset(data) + BlockHeaderLen <= |data|
      && |data| < ImageBlockOffset(data) + U32(data, ImageBlockOffset(data))
    ensures r.Ok? <==>
      HeaderFits(data) && ImageBlockOffset(data) + BlockHeaderLen <= |data|
      && ImageBlockOffset(data) + U32(data, ImageBlockOffset(data)) <= |data|
    ensures r.Ok? ==> ParsedFrom(r.value, path, data)
  {
    if |data| < 8 then Err(FileTooSmall)
    else if U32(data, 0) != TimMagic then Err(BadMagic)
    else
      var flags := U32(data, 4);
      var hasClut := FlagsHaveClut(flags);
      if hasClut && |data| < 8 + 12 then Err(ClutTruncated)
      else if hasClut && |data| < 8 + U32(data, 8) then Err(ClutLengthTooLarge)
      else
        var off := if hasClut then 8 + U32(data, 8) else 8;
        if |data| < off + BlockHeaderLen then Err(ImageTruncated)
        else
          var blockLen := U32(data, off);
          if |data| < off + blockLen then Err(ImageLengthTooLarge)
          else
            // a declared length under 12 gives an empty payload slice
            var payload := if blockLen >= BlockHeaderLen
                           then data[off + BlockHeaderLen..off + blockLen] else [];
            Ok(TimImage(path, data, flags, flags % 8, hasClut,
                        U16(data, off + 4), U16(data, off + 6), U16(data, off + 8), U16(data, off + 10),
                        payload, if hasClut then Some(data[8..off]) else None))
  }

  datatype BuildError =
    | MissingClut      // has_clut is set but clut_block_raw is None or empty
    | PackOutOfRange   // struct.pack refuses a field that does not fit its width

  /** The fields of `tim` fit the widths `build_tim_bytes` packs them into,
      and a CLUT block is present when the flags announce one. */
  predicate Encodable(tim: TimImage)
  {
    && tim.flags < 0x1_0000_0000
    && (tim.hasClut ==> tim.clutBlockRaw.Some? && tim.clutBlockRaw.value != [])
    && BlockHeaderLen + |tim.imgData| < 0x1_0000_0000
    && tim.imgX < 0x1_0000 && tim.imgY < 0x1_0000
    && tim.imgWWords < 0x1_0000 && tim.imgH < 0x1_0000
  }

  /** The image block: length word, x, y, width in words, height, payload. */
  function ImageBlockBytes(tim: TimImage): (s: seq<byte>)
    requires Encodable(tim)
    ensures |s| == BlockHeaderLen + |tim.imgData|
  {
    Le32(BlockHeaderLen + |tim.imgData|)
    + (Le16(tim.imgX) + (Le16(tim.imgY) + (Le16(tim.imgWWords) + (Le16(tim.imgH) + tim.imgData))))
  }

  /** The layout of a TIM file: header, the raw CLUT block when the flags
      announce one, then the image block. */
  function TimFileBytes(tim: TimImage): seq<byte>
    requires Encodable(tim)
  {
    Le32(TimMagic) + (Le32(tim.flags)
    + ((if tim.hasClut then tim.clutBlockRaw.value else []) + ImageBlockBytes(tim)))
  }

  /** `build_tim_bytes`: the header, the CLUT block and the image block
      appended in turn to an output buffer. */
  method BuildTimBytes(tim: TimImage) returns (r: Result<seq<byte>, BuildError>)
    ensures r.Ok? <==> Encodable(tim)
    ensures r.Ok? ==> r.value == TimFileBytes(tim)
    ensures r == Err(MissingClut) <==>
      tim.flags < 0x1_0000_0000 && tim.hasClut && (tim.clutBlockRaw.None? || tim.clutBlockRaw.value == [])
  {
    var out: seq<byte> := [];
    out := out + Le32(TimMagic);
    if tim.flags >= 0x1_0000_0000 {
      return Err(PackOutOfRange);
    }
    out := out + Le32(tim.flags);
    if tim.hasClut {
      if tim.clutBlockRaw.None? || tim.clutBlockRaw.value == [] {
        return Err(MissingClut);
      }
      out := out + tim.clutBlockRaw.value;
    }
    var blockLen := BlockHeaderLen + |tim.imgData|;
    if blockLen >= 0x1_0000_0000 {
      return Err(PackOutOfRange);
    }
    out := out + Le32(blockLen);
    if tim.imgX >= 0x1_0000 || tim.imgY >= 0x1_0000 || tim.imgWWords >= 0x1_0000 || tim.imgH >= 0x1_0000 {
      return Err(PackOutOfRange);
    }
    out := out + Le16(tim.imgX) + Le16(tim.imgY) + Le16(tim.imgWWords) + Le16(tim.imgH);
    out := out + tim.imgData;
    return Ok(out);
  }

  /** What a parse produces and the builder expects: the mode and CLUT bit
      agree with the flags, and a CLUT block starts with its own length. */
  predicate WellFormed(tim: TimImage)
  {
    && tim.bppMode == tim.flags % 8
    && tim.hasClut == FlagsHaveClut(tim.flags)
    && (tim.hasClut ==>
          tim.clutBlockRaw.Some? && |tim.clutBlockRaw.value| >= 4
          && U32(tim.clutBlockRaw.value, 0) == |tim.clutBlockRaw.value|)
    && (!tim.hasClut ==> tim.clutBlockRaw == None)
  }

  /** Reading a 32-bit word only depends on the four bytes it covers. */
  lemma U32Local(a: seq<byte>, i: nat, b: seq<byte>, j: nat)
    requires i + 4 <= |a| && j + 4 <= |b|
    requires a[i..i + 4] == b[j..j + 4]
    ensures U32(a, i) == U32(b, j)
  {
    assert a[i] == a[i..i + 4][0] && a[i + 1] == a[i..i + 4][1];
    assert a[i + 2] == a[i..i + 4][2] && a[i + 3] == a[i..i + 4][3];
  }

  /** Where each field sits in a built image block. */
  lemma {:induction false} BlockFields(tim: TimImage)
    requires Encodable(tim)
    ensures var blk := ImageBlockBytes(tim);
      && U32(blk, 0) == BlockHeaderLen + |tim.imgData|
      && U16(blk, 4) == tim.imgX && U16(blk, 6) == tim.imgY
      && U16(blk, 8) == tim.imgWWords && U16(blk, 10) == tim.imgH
      && blk[BlockHeaderLen..] == tim.imgData
  {
    var l4 := Le32(BlockHeaderLen + |tim.imgData|);
    var x, y, w, h := Le16(tim.imgX), Le16(tim.imgY), Le16(tim.imgWWords), Le16(tim.imgH);
    var b4 := h + tim.imgData;
    var b3 := w + b4;
    var b2 := y + b3;
    var b1 := x + b2;
    assert ImageBlockBytes(tim) == l4 + b1;
    U32Head(BlockHeaderLen + |tim.imgData|, b1);
    U16Head(tim.imgX, b2);
    U16Shift(l4, b1, 0);
    U16Head(tim.imgY, b3);
    U16Shift(x, b2, 0);
    U16Shift(l4, b1, 2);
    U16Head(tim.imgWWords, b4);
    U16Shift(y, b3, 0);
    U16Shift(x, b2, 2);
    U16Shift(l4, b1, 4);
    U16Head(tim.imgH, tim.imgData);
    U16Shift(w, b4, 0);
    U16Shift(y, b3, 2);
    U16Shift(x, b2, 4);
    U16Shift(l4, b1, 6);
  }

  /** Where each field of a built file sits. */
  lemma {:induction false} BuiltFields(tim: TimImage)
    requires Encodable(tim)
    ensures var data := TimFileBytes(tim);
      var clut: seq<byte> := if tim.hasClut then tim.clutBlockRaw.value else [];
      var off := 8 + |clut|;
      && |data| == off + BlockHeaderLen + |tim.imgData|
      && U32(data, 0) == TimMagic && U32(data, 4) == tim.flags
      && data[8..off] == clut
      && U32(data, off) == BlockHeaderLen + |tim.imgData|
      && U16(data, off + 4) == tim.imgX && U16(data, off + 6) == tim.imgY
      && U16(data, off + 8) == tim.imgWWords && U16(data, off + 10) == tim.imgH
      && data[off + BlockHeaderLen..] == tim.imgData
  {
    var clut: seq<byte> := if tim.hasClut then tim.clutBlockRaw.value else [];
    var blk := ImageBlockBytes(tim);
    var m, f := Le32(TimMagic), Le32(tim.flags);
    var data := TimFileBytes(tim);
    var header := m + f + clut;
    assert data == header + blk;
    BlockFields(tim);
    FieldsAfter(header, blk);
    U32Head(TimMagic, f + (clut + blk));
    U32Head(tim.flags, clut + blk);
    U32Shift(m, f + (clut + blk), 0);
    assert data[8..8 + |clut|] == header[8..] == clut;
  }

  /** The fields of an image block read the same after any prefix. */
  lemma FieldsAfter(pre: seq<byte>, blk: seq<byte>)
    requires BlockHeaderLen <= |blk|
    ensures var data := pre + blk;
      && U32(data, |pre|) == U32(blk, 0)
      && U16(data, |pre| + 4) == U16(blk, 4) && U16(data, |pre| + 6) == U16(blk, 6)
      && U16(data, |pre| + 8) == U16(blk, 8) && U16(data, |pre| + 10) == U16(blk, 10)
      && data[|pre| + BlockHeaderLen..] == blk[BlockHeaderLen..]
  {
    U32Shift(pre, blk, 0);
    U16Shift(pre, blk, 4);
    U16Shift(pre, blk, 6);
    U16Shift(pre, blk, 8);
    U16Shift(pre, blk, 10);
  }

  /** Parsing the built bytes of a well-formed image gives the image back
      (with the built bytes as its original bytes). */
  lemma {:induction false} ParseOfBuild(tim: TimImage)
    requires Encodable(tim) && WellFormed(tim)
    ensures ParseTim(tim.path, TimFileBytes(tim)) == Ok(tim.(originalBytes := TimFileBytes(tim)))
  {
    var data := TimFileBytes(tim);
    BuiltIsParsed(tim);
    var r := ParseTim(tim.path, data);
    ParsedFromUnique(r.value, tim.(originalBytes := data), tim.path, data);
  }

  /** What a parse of the built bytes of a well-formed image reads. */
  lemma BuiltIsParsed(tim: TimImage)
    requires Encodable(tim) && WellFormed(tim)
    ensures var data := TimFileBytes(tim);
      var off := ImageBlockOffset(data);
      && HeaderFits(data) && off + BlockHeaderLen <= |data| && off + U32(data, off) <= |data|
      && ParsedFrom(tim.(originalBytes := data), tim.path, data)
  {
    var data := TimFileBytes(tim);
    BuiltFields(tim);
    var clut: seq<byte> := if tim.hasClut then tim.clutBlockRaw.value else [];
    var off := 8 + |clut|;
    if tim.hasClut {
      assert data[8..12] == clut[0..4];
      U32Local(data, 8, clut, 0);
    }
    assert ImageBlockOffset(data) == off;
    assert data[off + BlockHeaderLen..off + U32(data, off)] == tim.imgData;
  }

  /** A parse result is determined by the bytes it was read from. */
  lemma ParsedFromUnique(t1: TimImage, t2: TimImage, path: string, data: seq<byte>)
    requires ParsedFrom(t1, path, data) && ParsedFrom(t2, path, data)
    ensures t1 == t2
  {
  }

  /** A byte string whose fields read as those of `tim` is its image block. */
  lemma {:induction false} BlockOfFields(tim: TimImage, blk: seq<byte>)
    requires Encodable(tim)
    requires |blk| == BlockHeaderLen + |tim.imgData| && U32(blk, 0) == |blk|
    requires U16(blk, 4) == tim.imgX && U16(blk, 6) == tim.imgY
    requires U16(blk, 8) == tim.imgWWords && U16(blk, 10) == tim.imgH
    requires blk[BlockHeaderLen..] == tim.imgData
    ensures ImageBlockBytes(tim) == blk
  {
    Le32OfU32(blk, 0);
    Le16OfU16(blk, 4);
    Le16OfU16(blk, 6);
    Le16OfU16(blk, 8);
    Le16OfU16(blk, 10);
    assert blk == blk[..4] + (blk[4..6] + (blk[6..8] + (blk[8..10] + (blk[10..12] + blk[12..]))));
  }

  /** Rebuilding a parsed file gives its bytes back when nothing follows the
      image block, the image block declares at least its header, and a
      CLUT block, when announced, is not empty. */
  lemma {:induction false} BuildOfParse(path: string, data: seq<byte>)
    requires ParseTim(path, data).Ok?
    requires var off := ImageBlockOffset(data);
      && off + BlockHeaderLen <= |data|
      && U32(data, off) >= BlockHeaderLen && |data| == off + U32(data, off)
    requires var t := ParseTim(path, data).value; t.hasClut ==> t.clutBlockRaw.value != []
    ensures Encodable(ParseTim(path, data).value)
    ensures TimFileBytes(ParseTim(path, data).value) == data
  {
    var t := ParseTim(path, data).value;
    assert U32(data, 0) == TimMagic;
    RebuildParsed(t, path, data);
  }

  /** The bytes of a parsed image, when nothing follows its image block, are
      the bytes `build_tim_bytes` would write for it. */
  lemma {:induction false} RebuildParsed(t: TimImage, path: string, data: seq<byte>)
    requires ParsedFrom(t, path, data) && U32(data, 0) == TimMagic
    requires var off := ImageBlockOffset(data);
      U32(data, off) >= BlockHeaderLen && |data| == off + U32(data, off)
    requires t.hasClut ==> t.clutBlockRaw.value != []
    ensures Encodable(t) && TimFileBytes(t) == data
  {
    var off := ImageBlockOffset(data);
    var clut: seq<byte> := if t.hasClut then t.clutBlockRaw.value else [];
    var pre, blk := data[..off], data[off..];
    assert data == pre + blk;
    FieldsAfter(pre, blk);
    BlockOfFields(t, blk);
    Le32OfU32(data, 0);
    Le32OfU32(data, 4);
    Reassemble(data, off, Le32(TimMagic), Le32(t.flags), clut, blk);
  }

  /** A byte string is the concatenation of its consecutive pieces. */
  lemma Reassemble(data: seq<byte>, off: nat, a: seq<byte>, b: seq<byte>, c: seq<byte>, d: seq<byte>)
    requires 8 <= off <= |data|
    requires data[..4] == a && data[4..8] == b && data[8..off] == c && data[off..] == d
    ensures data == a + (b + (c + d))
  {
    assert data == data[..4] + (data[4..8] + (data[8..off] + data[off..]));
  }
}
