/** The resolution pyramid the viewport keeps for an image
    (`_build_pyramid`): level 0 is the image itself at scale 1, and each
    further level halves both sides (never below one pixel) and the scale,
    as long as the previous level's smaller side exceeds `PyrMinDim`, up to
    `PyrLevels` levels. Only the sizes and scales are modelled. */
module Pyramid {
  import opened Common

  const PyrMinDim := 256
  const PyrLevels := 5

  /** A level's scale relative to the image and its size in pixels. */
  datatype Level = Level(scale: real, w: nat, h: nat)

  /** The level one halving below `l`. */
  function Halved(l: Level): Level
  {
    Level(l.scale * 0.5, Max(1, l.w / 2), Max(1, l.h / 2))
  }

  /** The levels appended after `last` when `steps` appends are left. */
  function LevelsAfter(last: Level, steps: nat): seq<Level>
    decreases steps
  {
    if steps == 0 || Min(last.w, last.h) <= PyrMinDim then []
    else [Halved(last)] + LevelsAfter(Halved(last), steps - 1)
  }

  /** The pyramid of a `w` x `h` image. */
  function PyramidFor(w: nat, h: nat): seq<Level>
  {
    [Level(1.0, w, h)] + LevelsAfter(Level(1.0, w, h), Max(0, PyrLevels - 1))
  }

  /** A run of levels where each is the halving of the one before, made
      only while the one before was larger than `PyrMinDim`, and which stops
      either at `cap` levels or at a level whose smaller side is at most
      `PyrMinDim`. */
  predicate HalvingChain(p: seq<Level>, cap: nat)
  {
    && 1 <= |p| <= cap
    && (forall i :: 0 <= i < |p| - 1 ==> p[i + 1] == Halved(p[i]) && Min(p[i].w, p[i].h) > PyrMinDim)
    && (|p| < cap ==> Min(p[|p| - 1].w, p[|p| - 1].h) <= PyrMinDim)
  }

  lemma {:induction false} LevelsAfterChain(last: Level, steps: nat)
    ensures HalvingChain([last] + LevelsAfter(last, steps), steps + 1)
    decreases steps
  {
    var p := [last] + LevelsAfter(last, steps);
    if steps > 0 && Min(last.w, last.h) > PyrMinDim {
      LevelsAfterChain(Halved(last), steps - 1);
      var rest := [Halved(last)] + LevelsAfter(Halved(last), steps - 1);
      assert p == [last] + rest;
      forall i | 0 <= i < |p| - 1
        ensures p[i + 1] == Halved(p[i]) && Min(p[i].w, p[i].h) > PyrMinDim
      {
        if i > 0 {
          assert p[i + 1] == rest[i] && p[i] == rest[i - 1];
        }
      }
    }
  }

  /** At most five levels; the first is the image at scale 1; each further
      one is the previous halved, added only while the previous one's
      smaller side exceeds 256; and fewer than five levels means the last
      one's smaller side is at most 256. */
  lemma PyramidShape(w: nat, h: nat)
    ensures PyramidFor(w, h)[0] == Level(1.0, w, h)
    ensures HalvingChain(PyramidFor(w, h), PyrLevels)
  {
    LevelsAfterChain(Level(1.0, w, h), PyrLevels - 1);
  }

  /** Along a chain of halvings, level `i` has 1/2^i of the first level's
      scale. */
  lemma {:induction false} ChainScales(p: seq<Level>, cap: nat, i: nat)
    requires HalvingChain(p, cap) && i < |p|
    ensures p[i].scale * Pow2(i) as real == p[0].scale
  {
    if i > 0 {
      ChainScales(p, cap, i - 1);
      assert p[i] == Halved(p[i - 1]);
      assert p[i].scale * Pow2(i) as real == p[i - 1].scale * 0.5 * (2 * Pow2(i - 1)) as real;
    }
  }

  /** Level `i` of the pyramid has scale 1/2^i. */
  lemma PyramidScales(w: nat, h: nat, i: nat)
    requires i < |PyramidFor(w, h)|
    ensures PyramidFor(w, h)[i].scale * Pow2(i) as real == 1.0
  {
    PyramidShape(w, h);
    ChainScales(PyramidFor(w, h), PyrLevels, i);
  }

  function Pow2(i: nat): nat
  {
    if i == 0 then 1 else 2 * Pow2(i - 1)
  }

  /** A 64 x 64 image gets one level; a 4096 x 4096 image gets five, down
      to 256 x 256 at scale 1/16. */
  lemma PyramidExamples()
    ensures |PyramidFor(64, 64)| == 1
    ensures PyramidFor(4096, 4096) == [
      Level(1.0, 4096, 4096), Level(0.5, 2048, 2048), Level(0.25, 1024, 1024),
      Level(0.125, 512, 512), Level(0.0625, 256, 256)]
  {
    assert LevelsAfter(Level(1.0, 64, 64), 4) == [];
    var l1, l2 := Level(0.5, 2048, 2048), Level(0.25, 1024, 1024);
    var l3, l4 := Level(0.125, 512, 512), Level(0.0625, 256, 256);
    assert LevelsAfter(l4, 0) == [];
    assert LevelsAfter(l3, 1) == [l4];
    assert LevelsAfter(l2, 2) == [l3, l4];
    assert LevelsAfter(l1, 3) == [l2, l3, l4];
    assert LevelsAfter(Level(1.0, 4096, 4096), 4) == [l1, l2, l3, l4];
  }
}
