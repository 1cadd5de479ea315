/** Splitting the raw CLUT block of a TIM file into palette rows
    (`extract_cluts_from_raw_block`). A CLUT block has the same 12-byte
    header as an image block (length, x, y, width, height); its payload is
    a grid of 16-bit colour words, one palette per row. */
module TimClut {
  import opened Common
  import opened LittleEndian
  import opened TimColor
  import opened TimFile

  /** One palette row (`TimClut`). */
  datatype Clut = Clut(
    sourcePath: string,
    clutIndex: nat,
    colors: seq<Rgba>,
    raw15bit: seq<nat>,
    width: nat,
    height: nat,
    row: nat)

  /** `blk[12:clut_block_len]` with Python's slice clamping: the declared
      length is cut to the block, and a length under 12 gives nothing. */
  function ClutPayload(blk: seq<byte>): (raw: seq<byte>)
    requires |blk| >= BlockHeaderLen
    ensures |raw| <= |blk| - BlockHeaderLen
    ensures |raw| == Max(0, Min(U32(blk, 0), |blk|) - BlockHeaderLen)
  {
    var declared := U32(blk, 0);
    var end := if declared < BlockHeaderLen then BlockHeaderLen else Min(declared, |blk|);
    blk[BlockHeaderLen..end]
  }

  /** The payload read as 16-bit words; a trailing odd byte is dropped. */
  function Words(raw: seq<byte>): (words: seq<nat>)
    ensures |words| == |raw| / 2
  {
    var even := if |raw| % 2 != 0 then raw[..|raw| - 1] else raw;
    seq(|even| / 2, i requires 0 <= i < |even| / 2 => U16(even, 2 * i))
  }

  /** The number of rows: the declared height, or as many rows of `w` words
      as there are words (at least one) when the declared grid does not fit. */
  function RowCount(n: nat, w: nat, declaredH: nat): (h: nat)
    requires w > 0
    ensures h * w <= n || (h == 1 && n < w)
  {
    if n < w * declaredH then
      (if n / w >= 1 then n / w else 1)
    else declaredH
  }

  /** Palette row `i`: words `i*w` up to `i*w + w`, clamped to the words
      that exist. */
  function ClutRow(path: string, words: seq<nat>, w: nat, h: nat, i: nat): Clut
  {
    var n := |words|;
    var rowWords := words[Min(i * w, n)..Min(i * w + w, n)];
    Clut(path, i, ColorsOf(rowWords), rowWords, w, h, i)
  }

  /** `[ps1_15bit_to_rgba(c) for c in row_words]`. */
  function ColorsOf(rowWords: seq<nat>): (colors: seq<Rgba>)
    ensures |colors| == |rowWords|
  {
    seq(|rowWords|, j requires 0 <= j < |rowWords| => Ps1ToRgba(rowWords[j]))
  }

  /** Whether `extract_cluts_from_raw_block` reaches its row loop, and the
      geometry it then uses. */
  predicate HasRows(tim: TimImage)
  {
    && tim.hasClut && tim.clutBlockRaw.Some?
    && |tim.clutBlockRaw.value| >= BlockHeaderLen
    && |ClutPayload(tim.clutBlockRaw.value)| >= 2
    && U16(tim.clutBlockRaw.value, 8) > 0
  }

  /** What `extract_cluts_from_raw_block` returns for `tim`. */
  function ExtractedCluts(tim: TimImage): seq<Clut>
  {
    if !HasRows(tim) then []
    else
      var blk := tim.clutBlockRaw.value;
      var words := Words(ClutPayload(blk));
      var w := U16(blk, 8);
      var h := RowCount(|words|, w, U16(blk, 10));
      Rows(tim.path, words, w, h, h)
  }

  /** The first `count` palette rows of a grid of `h` rows. */
  function Rows(path: string, words: seq<nat>, w: nat, h: nat, count: nat): (rows: seq<Clut>)
    ensures |rows| == count
  {
    if count == 0 then [] else Rows(path, words, w, h, count - 1) + [ClutRow(path, words, w, h, count - 1)]
  }

  lemma {:induction false} RowsAt(path: string, words: seq<nat>, w: nat, h: nat, count: nat, i: nat)
    requires i < count
    ensures Rows(path, words, w, h, count)[i] == ClutRow(path, words, w, h, i)
  {
    if i < count - 1 {
      RowsAt(path, words, w, h, count - 1, i);
    }
  }

  /** `extract_cluts_from_raw_block`: after the guards, a loop over the rows
      takes the next `w` words for each. */
  method ExtractCluts(tim: TimImage) returns (cluts: seq<Clut>)
    ensures cluts == ExtractedCluts(tim)
  {
    if !tim.hasClut || tim.clutBlockRaw.None? || tim.clutBlockRaw.value == [] {
      return [];
    }
    var blk := tim.clutBlockRaw.value;
    if |blk| < BlockHeaderLen {
      return [];
    }
    var clutW := U16(blk, 8);
    var clutH := U16(blk, 10);
    var raw := ClutPayload(blk);
    if |raw| < 2 {
      return [];
    }
    var words := Words(raw);
    var w := clutW;
    var h := clutH;
    if w <= 0 {
      return [];
    }
    if |words| < w * h {
      h := Max(1, |words| / w);
    }
    assert h == RowCount(|words|, w, clutH);
    ExtractedClutsGrid(tim);
    cluts := CutRows(tim.path, words, w, h);
  }

  /** The row loop of `extract_cluts_from_raw_block`: each step takes the
      next `w` words, clamped to the words that exist. */
  method CutRows(path: string, words: seq<nat>, w: nat, h: nat) returns (cluts: seq<Clut>)
    ensures cluts == Rows(path, words, w, h, h)
  {
    cluts := [];
    var idx := 0;
    var row := 0;
    while row < h
      invariant 0 <= row <= h
      invariant idx == row * w
      invariant cluts == Rows(path, words, w, h, row)
    {
      var n := |words|;
      var rowWords := words[Min(idx, n)..Min(idx + w, n)];
      idx := idx + w;
      var rgba := ColorsOf(rowWords);
      assert idx == (row + 1) * w;
      cluts := cluts + [Clut(path, row, rgba, rowWords, w, h, row)];
      row := row + 1;
    }
  }

  /** A 16-bit read inside a slice is a read of the whole at the shifted
      offset. */
  lemma U16Slice(s: seq<byte>, a: nat, b: nat, k: nat)
    requires a <= b <= |s| && k + 2 <= b - a
    ensures U16(s[a..b], k) == U16(s, a + k)
  {
    assert s[a..b][k] == s[a + k] && s[a..b][k + 1] == s[a + k + 1];
  }

  /** Word `k` of the payload is the 16-bit word at byte `12 + 2k` of the
      block. */
  lemma WordAt(blk: seq<byte>, k: nat)
    requires |blk| >= BlockHeaderLen && k < |Words(ClutPayload(blk))|
    ensures Words(ClutPayload(blk))[k] == U16(blk, BlockHeaderLen + 2 * k)
  {
    var raw := ClutPayload(blk);
    var even := if |raw| % 2 != 0 then raw[..|raw| - 1] else raw;
    var end := BlockHeaderLen + |raw|;
    assert raw == blk[BlockHeaderLen..end];
    assert even == blk[BlockHeaderLen..BlockHeaderLen + |even|];
    U16Slice(blk, BlockHeaderLen, BlockHeaderLen + |even|, 2 * k);
  }

  /** The result is empty exactly when the flags announce no CLUT, the
      block is missing, empty or shorter than its header, its payload holds
      less than one word, the declared width is 0, or the declared height is
      0 while the declared grid fits. */
  lemma ExtractedClutsEmpty(tim: TimImage)
    ensures ExtractedCluts(tim) == [] <==>
      !HasRows(tim)
      || (var blk := tim.clutBlockRaw.value;
          U16(blk, 10) == 0)
  {
    if HasRows(tim) {
      var blk := tim.clutBlockRaw.value;
      var n := |Words(ClutPayload(blk))|;
      var w := U16(blk, 8);
      var h := RowCount(n, w, U16(blk, 10));
      if U16(blk, 10) == 0 {
        assert n >= w * 0;
        assert h == 0;
      } else {
        assert h >= 1;
        assert |ExtractedCluts(tim)| == h;
      }
    }
  }

  /** `raw` is the run of 16-bit words of `blk` starting at byte `base`. */
  predicate WordsAt(raw: seq<nat>, blk: seq<byte>, base: nat)
  {
    && base + 2 * |raw| <= |blk|
    && forall j :: 0 <= j < |raw| ==> raw[j] == U16(blk, base + 2 * j)
  }

  /** A slice of a run of words is the run starting further on. */
  lemma WordsAtSlice(raw: seq<nat>, blk: seq<byte>, base: nat, a: nat, b: nat)
    requires WordsAt(raw, blk, base) && a <= b <= |raw|
    ensures WordsAt(raw[a..b], blk, base + 2 * a)
  {
    forall j | 0 <= j < b - a ensures raw[a..b][j] == U16(blk, base + 2 * a + 2 * j) {
      assert raw[a..b][j] == raw[a + j];
    }
  }

  /** Row `i` of a grid of `h` rows of `w` words taken from `blk`, which
      holds `n` words: it is numbered by its position, carries the width
      and the row count, holds `w` words (all of them when there are fewer
      than `w`), which are the 16-bit words at its place in the block, and
      its colours are those words converted. */
  predicate RowReads(c: Clut, blk: seq<byte>, i: nat, w: nat, h: nat, n: nat)
  {
    && c.clutIndex == i && c.row == i && c.width == w && c.height == h
    && |c.raw15bit| == Min(w, n)
    && WordsAt(c.raw15bit, blk, BlockHeaderLen + 2 * (i * w))
    && c.colors == ColorsOf(c.raw15bit)
  }

  /** The row count is the declared height when the declared grid of words
      exists, and otherwise the number of whole rows (at least one); each
      row reads its words from its place in the block. */
  lemma ExtractedClutsRows(tim: TimImage)
    requires HasRows(tim)
    ensures var blk := tim.clutBlockRaw.value;
      var n := |Words(ClutPayload(blk))|;
      var w := U16(blk, 8);
      var h := |ExtractedCluts(tim)|;
      && (n >= w * U16(blk, 10) ==> h == U16(blk, 10))
      && (n < w * U16(blk, 10) ==> h == Max(1, n / w))
      && forall i :: 0 <= i < h ==> RowReads(ExtractedCluts(tim)[i], blk, i, w, h, n)
  {
    var blk := tim.clutBlockRaw.value;
    var words := Words(ClutPayload(blk));
    var w := U16(blk, 8);
    var h := RowCount(|words|, w, U16(blk, 10));
    ExtractedClutsGrid(tim);
    forall i | 0 <= i < h
      ensures RowReads(Rows(tim.path, words, w, h, h)[i], blk, i, w, h, |words|)
    {
      RowShape(tim.path, blk, i);
    }
  }

  /** With the guards passed, the result is the grid's rows. */
  lemma ExtractedClutsGrid(tim: TimImage)
    requires HasRows(tim)
    ensures var blk := tim.clutBlockRaw.value;
      var words := Words(ClutPayload(blk));
      var h := RowCount(|words|, U16(blk, 8), U16(blk, 10));
      ExtractedCluts(tim) == Rows(tim.path, words, U16(blk, 8), h, h)
  {
  }

  /** Row `i` of the grid cut from `blk`'s words reads its words from its
      place in the block. */
  lemma RowShape(path: string, blk: seq<byte>, i: nat)
    requires |blk| >= BlockHeaderLen && U16(blk, 8) > 0
    requires i < RowCount(|Words(ClutPayload(blk))|, U16(blk, 8), U16(blk, 10))
    ensures var words := Words(ClutPayload(blk));
      var w := U16(blk, 8);
      var h := RowCount(|words|, w, U16(blk, 10));
      RowReads(Rows(path, words, w, h, h)[i], blk, i, w, h, |words|)
  {
    var words := Words(ClutPayload(blk));
    var w := U16(blk, 8);
    var h := RowCount(|words|, w, U16(blk, 10));
    RowsAt(path, words, w, h, h, i);
    WordsRead(blk);
    RowFits(|words|, w, U16(blk, 10), i);
    RowOfWords(path, words, blk, w, h, i);
  }

  /** The payload's words are the run of 16-bit words after the header. */
  lemma WordsRead(blk: seq<byte>)
    requires |blk| >= BlockHeaderLen
    ensures WordsAt(Words(ClutPayload(blk)), blk, BlockHeaderLen)
  {
    var words := Words(ClutPayload(blk));
    forall k | 0 <= k < |words| ensures words[k] == U16(blk, BlockHeaderLen + 2 * k) {
      WordAt(blk, k);
    }
  }

  /** Row `i`, as `ClutRow` cuts it from words read from `blk`, reads its
      words from its place in the block. */
  lemma RowOfWords(path: string, words: seq<nat>, blk: seq<byte>, w: nat, h: nat, i: nat)
    requires WordsAt(words, blk, BlockHeaderLen)
    requires i * w <= |words| && Min(i * w + w, |words|) - i * w == Min(w, |words|)
    ensures RowReads(ClutRow(path, words, w, h, i), blk, i, w, h, |words|)
  {
    var n, start := |words|, i * w;
    WordsAtSlice(words, blk, BlockHeaderLen, start, Min(start + w, n));
  }

  /** Row `i` of the grid starts inside the words and is full unless there
      are fewer words than one row. */
  lemma RowFits(n: nat, w: nat, declaredH: nat, i: nat)
    requires w > 0 && i < RowCount(n, w, declaredH)
    ensures i * w <= n
    ensures Min(i * w + w, n) - i * w == Min(w, n)
  {
    var h := RowCount(n, w, declaredH);
    if n < w {
      assert h == 1 && i == 0;
    } else {
      assert h * w <= n;
      MulMonotonic(i + 1, h, w);
    }
  }

  lemma MulMonotonic(a: nat, b: nat, w: nat)
    requires a <= b
    ensures a * w <= b * w
  {
  }
}
