/** The palette fade of mdcolors.py (`MDFade`): fifteen frames, each the
    source tile with its colour channels mapped through a per-step byte map. */
module Fade {
  import opened Levels
  import opened ColorLut
  import opened Transform

  /** The four fade directions the caller may choose. */
  datatype FadeMode = CurrentToBlack | BlackToCurrent | CurrentToWhite | WhiteToCurrent

  /** Number of frames a fade produces. */
  const FadeSteps: nat := 15

  /** A complete byte map: one value per byte. */
  predicate IsByteMap(lut: seq<Byte>)
  {
    |lut| == 256
  }

  /** The byte map of one fade step: the source normal index of each byte
      read into the destination's normal value table. The step number and the
      fade direction take no part in it. */
  function FadeStepLUT(src: ColorMode, dst: ColorMode, fademode: FadeMode, step: nat): (lut: seq<Byte>)
    requires step < FadeSteps
    ensures IsByteMap(lut)
    ensures forall v :: 0 <= v < 256 ==> lut[v] in NormalLevels(dst)
  {
    var srclut := SelectSrcLUT(src);
    var dstlut := SelectDstLUT(dst);
    seq(256, ii requires 0 <= ii < 256 => dstlut[srclut[ii]])
  }

  /** Every fade step maps a byte to its normal value in the colour table
      built without shadow/highlight. */
  lemma FadeStepIsNormalValue(src: ColorMode, dst: ColorMode, fademode: FadeMode, step: nat, v: Byte)
    requires step < FadeSteps
    ensures FadeStepLUT(src, dst, fademode, step)[v] == BuildColorLUT(src, dst, false)[v].normal
  {
    IndexIsReused(src, dst, false, v);
  }

  /** All fifteen steps, under all four fade directions, use the same map. */
  lemma FadeStepsAllAlike(src: ColorMode, dst: ColorMode, m1: FadeMode, s1: nat, m2: FadeMode, s2: nat)
    requires s1 < FadeSteps && s2 < FadeSteps
    ensures FadeStepLUT(src, dst, m1, s1) == FadeStepLUT(src, dst, m2, s2)
  {
  }

  /** The faded pixel: the first three channels mapped, the others kept. */
  function FadedPixel(lut: seq<Byte>, pixel: seq<Byte>): (q: seq<Byte>)
    requires IsByteMap(lut)
    ensures |q| == |pixel|
    ensures forall k :: 0 <= k < |pixel| && k < 3 ==> q[k] == lut[pixel[k]]
    ensures forall k :: 3 <= k < |pixel| ==> q[k] == pixel[k]
  {
    seq(|pixel|, k requires 0 <= k < |pixel| => if k >= 3 then pixel[k] else lut[pixel[k]])
  }

  /** On a pixel with a full colour triple, a fade frame gives exactly what
      the colour conversion gives with shadow/highlight off. */
  lemma FadeIsShlOffConversion(src: ColorMode, dst: ColorMode, fademode: FadeMode, step: nat, pixel: seq<Byte>)
    requires step < FadeSteps && |pixel| >= 3
    ensures FadedPixel(FadeStepLUT(src, dst, fademode, step), pixel)
         == ConvertPixel(BuildColorLUT(src, dst, false), pixel)
  {
    var lut := BuildColorLUT(src, dst, false);
    var f := FadeStepLUT(src, dst, fademode, step);
    forall v | 0 <= v < 256 ensures f[v] == lut[v].normal {
      FadeStepIsNormalValue(src, dst, fademode, step, v);
    }
    NormalMapMatchesConversion(f, lut, pixel);
  }

  /** A byte map that gives each byte's normal value fades a pixel into what
      the colour conversion makes of it, when the pixel takes the normal
      path. */
  lemma NormalMapMatchesConversion(f: seq<Byte>, lut: seq<LutEntry>, pixel: seq<Byte>)
    requires IsByteMap(f) && IsColorLut(lut) && |pixel| >= 3
    requires forall v :: 0 <= v < 256 ==> f[v] == lut[v].normal
    requires !TakesFinePath(lut[pixel[0]], lut[pixel[1]], lut[pixel[2]])
    ensures FadedPixel(f, pixel) == ConvertPixel(lut, pixel)
  {
    var q, c := FadedPixel(f, pixel), ConvertPixel(lut, pixel);
    forall k | 0 <= k < |pixel| ensures q[k] == c[k] {
      if k < 3 {
        assert c[k] == c[..3][k];
      }
    }
  }

  /** Fades one pixel, channel by channel. */
  method FadePixel(lut: seq<Byte>, pixel: seq<Byte>) returns (res: seq<Byte>)
    requires IsByteMap(lut)
    ensures res == FadedPixel(lut, pixel)
  {
    res := [];
    var kk := 0;
    while kk < |pixel|
      invariant 0 <= kk <= |pixel|
      invariant res == FadedPixel(lut, pixel)[..kk]
    {
      if kk >= 3 {
        res := res + [pixel[kk]];
      } else {
        res := res + [lut[pixel[kk]]];
      }
      kk := kk + 1;
    }
  }

  /** Fades every pixel of the source tile into the same position of the
      destination tile. */
  method FadeTile(lut: seq<Byte>, srcTile: array2<seq<Byte>>, dstTile: array2<seq<Byte>>)
    requires IsByteMap(lut) && srcTile != dstTile
    requires dstTile.Length0 == srcTile.Length0 && dstTile.Length1 == srcTile.Length1
    modifies dstTile
    ensures forall i, j :: 0 <= i < srcTile.Length0 && 0 <= j < srcTile.Length1 ==>
      dstTile[i, j] == FadedPixel(lut, srcTile[i, j])
  {
    var ii := 0;
    while ii < srcTile.Length0
      invariant 0 <= ii <= srcTile.Length0
      invariant forall i, j :: 0 <= i < ii && 0 <= j < srcTile.Length1 ==>
        dstTile[i, j] == FadedPixel(lut, srcTile[i, j])
    {
      var jj := 0;
      while jj < srcTile.Length1
        invariant 0 <= jj <= srcTile.Length1
        invariant forall i, j :: 0 <= i < ii && 0 <= j < srcTile.Length1 ==>
          dstTile[i, j] == FadedPixel(lut, srcTile[i, j])
        invariant forall j :: 0 <= j < jj ==> dstTile[ii, j] == FadedPixel(lut, srcTile[ii, j])
      {
        var pixel := srcTile[ii, jj];
        var res := FadePixel(lut, pixel);
        dstTile[ii, jj] := res;
        jj := jj + 1;
      }
      ii := ii + 1;
    }
  }

  /** The fade: for each of the fifteen steps, a new tile of the source's
      size whose every pixel is the source pixel faded by that step's map.
      The frames are fresh and distinct; the source tile is only read. */
  method MDFade(src: ColorMode, dst: ColorMode, fademode: FadeMode, tile: array2<seq<Byte>>)
    returns (frames: seq<array2<seq<Byte>>>)
    ensures |frames| == FadeSteps
    ensures forall s :: 0 <= s < FadeSteps ==>
      fresh(frames[s]) && frames[s].Length0 == tile.Length0 && frames[s].Length1 == tile.Length1
    ensures forall s, t :: 0 <= s < t < FadeSteps ==> frames[s] != frames[t]
    ensures forall s, i, j :: 0 <= s < FadeSteps && 0 <= i < tile.Length0 && 0 <= j < tile.Length1 ==>
      frames[s][i, j] == FadedPixel(FadeStepLUT(src, dst, fademode, s), tile[i, j])
  {
    frames := [];
    var step := 0;
    while step < FadeSteps
      invariant 0 <= step <= FadeSteps && |frames| == step
      invariant forall s :: 0 <= s < step ==>
        fresh(frames[s]) && frames[s].Length0 == tile.Length0 && frames[s].Length1 == tile.Length1
      invariant forall s, t :: 0 <= s < t < step ==> frames[s] != frames[t]
      invariant forall s, i, j :: 0 <= s < step && 0 <= i < tile.Length0 && 0 <= j < tile.Length1 ==>
        frames[s][i, j] == FadedPixel(FadeStepLUT(src, dst, fademode, s), tile[i, j])
    {
      var lut := FadeStepLUT(src, dst, fademode, step);
      var frame := new seq<Byte>[tile.Length0, tile.Length1];
      FadeTile(lut, tile, frame);
      frames := frames + [frame];
      step := step + 1;
    }
  }
}
