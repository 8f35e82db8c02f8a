/** The per-pixel shadow/highlight consensus rule and the two places
    `MDColors` applies it: the indexed-palette loop and the tile pixel loop. */
module Transform {
  import opened Levels
  import opened ColorLut

  /** A pixel takes the shadow/highlight values only when all three channels
      are shadow candidates or all three are highlight candidates. */
  predicate TakesFinePath(e1: LutEntry, e2: LutEntry, e3: LutEntry)
  {
    (e1.shadow && e2.shadow && e3.shadow) || (e1.highlight && e2.highlight && e3.highlight)
  }

  /** The converted colour triple of one pixel or palette entry: the three
      fine values on consensus, otherwise the three normal values; never a
      mixture of the two. */
  function Transform3(lut: seq<LutEntry>, r: Byte, g: Byte, b: Byte): (t: seq<Byte>)
    requires IsColorLut(lut)
    ensures |t| == 3
  {
    if TakesFinePath(lut[r], lut[g], lut[b]) then
      [lut[r].fine, lut[g].fine, lut[b].fine]
    else
      [lut[r].normal, lut[g].normal, lut[b].normal]
  }

  /** The destination's shadow/highlight levels at three indices. */
  function FineTriple(dst: ColorMode, i: nat, j: nat, k: nat): seq<Byte>
    requires i < 15 && j < 15 && k < 15
  {
    [FineLevels(dst)[i], FineLevels(dst)[j], FineLevels(dst)[k]]
  }

  /** The destination's normal levels at the source normal indices of three
      bytes. */
  function NormalTriple(src: ColorMode, dst: ColorMode, r: Byte, g: Byte, b: Byte): seq<Byte>
  {
    [NormalLevels(dst)[NormalIndex(src, r)], NormalLevels(dst)[NormalIndex(src, g)],
     NormalLevels(dst)[NormalIndex(src, b)]]
  }

  /** Three shadow/highlight indices agree on a side of the middle level 7:
      all at most 7 (shadow) or all at least 7 (highlight). */
  predicate SameSide(i: nat, j: nat, k: nat)
  {
    (i <= 7 && j <= 7 && k <= 7) || (i >= 7 && j >= 7 && k >= 7)
  }

  /** With shadow/highlight on, a pixel is converted to the destination's
      shadow/highlight levels at its three source shadow/highlight indices
      exactly when those indices are all at most 7 or all at least 7, and to
      the destination's normal levels at its source normal indices
      otherwise. */
  lemma ConsensusFromSourceIndices(src: ColorMode, dst: ColorMode, r: Byte, g: Byte, b: Byte)
    ensures var lut := BuildColorLUT(src, dst, true);
      var i := FineIndex(src, r); var j := FineIndex(src, g); var k := FineIndex(src, b);
      && (TakesFinePath(lut[r], lut[g], lut[b]) <==> SameSide(i, j, k))
      && Transform3(lut, r, g, b) ==
           if SameSide(i, j, k) then FineTriple(dst, i, j, k) else NormalTriple(src, dst, r, g, b)
  {
    var lut := BuildColorLUT(src, dst, true);
    var i, j, k := FineIndex(src, r), FineIndex(src, g), FineIndex(src, b);
    IndexIsReused(src, dst, true, r);
    IndexIsReused(src, dst, true, g);
    IndexIsReused(src, dst, true, b);
    var nt := NormalTriple(src, dst, r, g, b);
    var ft := FineTriple(dst, i, j, k);
    assert nt == [lut[r].normal, lut[g].normal, lut[b].normal];
    assert ft == [FineLevels(dst)[i], FineLevels(dst)[j], FineLevels(dst)[k]];
    ConsensusOnEntries(lut, r, g, b, i, j, k, FineLevels(dst));
  }

  /** The consensus rule on three entries whose flags and fine values come
      from the indices i, j, k into the fine table fd. */
  lemma ConsensusOnEntries(lut: seq<LutEntry>, r: Byte, g: Byte, b: Byte, i: nat, j: nat, k: nat, fd: seq<Byte>)
    requires IsColorLut(lut) && i < |fd| && j < |fd| && k < |fd|
    requires lut[r].shadow == (i <= 7) && lut[r].highlight == (i >= 7) && lut[r].fine == fd[i]
    requires lut[g].shadow == (j <= 7) && lut[g].highlight == (j >= 7) && lut[g].fine == fd[j]
    requires lut[b].shadow == (k <= 7) && lut[b].highlight == (k >= 7) && lut[b].fine == fd[k]
    ensures TakesFinePath(lut[r], lut[g], lut[b]) <==> SameSide(i, j, k)
    ensures Transform3(lut, r, g, b) ==
      if SameSide(i, j, k) then [fd[i], fd[j], fd[k]]
      else [lut[r].normal, lut[g].normal, lut[b].normal]
  {
  }

  /** With shadow/highlight off, every pixel is converted to the
      destination's normal levels at its three source normal indices. */
  lemma ShlOffTakesNormalPath(src: ColorMode, dst: ColorMode, r: Byte, g: Byte, b: Byte)
    ensures var lut := BuildColorLUT(src, dst, false);
      && !TakesFinePath(lut[r], lut[g], lut[b])
      && Transform3(lut, r, g, b) == NormalTriple(src, dst, r, g, b)
  {
    IndexIsReused(src, dst, false, r);
    IndexIsReused(src, dst, false, g);
    IndexIsReused(src, dst, false, b);
  }

  /** Every converted triple is representable on the destination: all three
      channels are normal levels, or (only with shadow/highlight on) all three
      are shadow/highlight levels. */
  lemma Transform3IsRepresentable(src: ColorMode, dst: ColorMode, shl: bool, r: Byte, g: Byte, b: Byte)
    ensures var t := Transform3(BuildColorLUT(src, dst, shl), r, g, b);
      (t[0] in NormalLevels(dst) && t[1] in NormalLevels(dst) && t[2] in NormalLevels(dst)) ||
      (shl && t[0] in FineLevels(dst) && t[1] in FineLevels(dst) && t[2] in FineLevels(dst))
  {
    var lut := BuildColorLUT(src, dst, shl);
    var t := Transform3(lut, r, g, b);
    if TakesFinePath(lut[r], lut[g], lut[b]) {
      assert shl;
      assert t == [lut[r].fine, lut[g].fine, lut[b].fine];
    } else {
      assert t == [lut[r].normal, lut[g].normal, lut[b].normal];
    }
  }

  /** Black is a shadow candidate on every channel, so with shadow/highlight
      on it maps through the fine values, to black. */
  lemma BlackTakesFinePath(src: ColorMode, dst: ColorMode)
    ensures var lut := BuildColorLUT(src, dst, true);
      TakesFinePath(lut[0], lut[0], lut[0]) && Transform3(lut, 0, 0, 0) == [0, 0, 0]
  {
    FindIndexOfLevel(FineLevels(src), 0);
    IndexIsReused(src, dst, true, 0);
  }

  /** (0x00, 0xFF, 0x00) mixes a shadow-only channel with a highlight-only
      one, so it maps through the normal values even with shadow/highlight
      on. */
  lemma MixedTakesNormalPath(src: ColorMode, dst: ColorMode)
    ensures var lut := BuildColorLUT(src, dst, true);
      && !TakesFinePath(lut[0x00], lut[0xFF], lut[0x00])
      && Transform3(lut, 0x00, 0xFF, 0x00) == [0, NormalLevels(dst)[7], 0]
  {
    var lut := BuildColorLUT(src, dst, true);
    FindIndexOfLevel(FineLevels(src), 0);
    FindIndexOfLevel(NormalLevels(src), 0);
    FindIndexAboveTop(0xFF, FineLevels(src));
    FindIndexAboveTop(0xFF, NormalLevels(src));
    assert !lut[0x00].highlight && !lut[0xFF].shadow;
    IndexIsReused(src, dst, true, 0x00);
    IndexIsReused(src, dst, true, 0xFF);
    assert lut[0x00].normal == 0 && lut[0xFF].normal == NormalLevels(dst)[7];
  }

  /** The converted pixel: the colour triple, then every further channel
      (such as alpha) unchanged. */
  function ConvertPixel(lut: seq<LutEntry>, pixel: seq<Byte>): (q: seq<Byte>)
    requires IsColorLut(lut) && |pixel| >= 3
    ensures |q| == |pixel|
    ensures q[..3] == Transform3(lut, pixel[0], pixel[1], pixel[2])
    ensures forall k :: 3 <= k < |pixel| ==> q[k] == pixel[k]
  {
    Transform3(lut, pixel[0], pixel[1], pixel[2]) + pixel[3..]
  }

  /** Converts one pixel: the triple, then the remaining channels appended
      one at a time. */
  method TransformPixel(lut: seq<LutEntry>, pixel: seq<Byte>) returns (res: seq<Byte>)
    requires IsColorLut(lut) && |pixel| >= 3
    ensures res == ConvertPixel(lut, pixel)
  {
    res := Transform3(lut, pixel[0], pixel[1], pixel[2]);
    // mdcolors.py guards the copy of the extra channels with this test; under
    // the precondition it always holds.
    if |pixel| >= 3 {
      var kk := 3;
      while kk < |pixel|
        invariant 3 <= kk <= |pixel|
        invariant res == Transform3(lut, pixel[0], pixel[1], pixel[2]) + pixel[3..kk]
      {
        res := res + [pixel[kk]];
        kk := kk + 1;
      }
    }
  }

  /** The converted colours of the first n palette entries, in entry order. */
  function ConvertPaletteEntries(lut: seq<LutEntry>, colormap: seq<Byte>, n: nat): (out: seq<Byte>)
    requires IsColorLut(lut) && 3 * n <= |colormap|
    ensures |out| == 3 * n
  {
    if n == 0 then []
    else
      ConvertPaletteEntries(lut, colormap, n - 1)
        + Transform3(lut, colormap[3 * n - 3], colormap[3 * n - 2], colormap[3 * n - 1])
  }

  /** Entry i of the converted palette is entry i of the colour map
      converted by the per-pixel rule. */
  lemma {:induction false} ConvertPaletteEntriesAt(lut: seq<LutEntry>, colormap: seq<Byte>, n: nat, i: nat)
    requires IsColorLut(lut) && 3 * n <= |colormap| && i < n
    ensures ConvertPaletteEntries(lut, colormap, n)[3 * i..3 * i + 3]
         == Transform3(lut, colormap[3 * i], colormap[3 * i + 1], colormap[3 * i + 2])
  {
    var prev := ConvertPaletteEntries(lut, colormap, n - 1);
    var last := Transform3(lut, colormap[3 * n - 3], colormap[3 * n - 2], colormap[3 * n - 1]);
    if i < n - 1 {
      ConvertPaletteEntriesAt(lut, colormap, n - 1, i);
    }
    TripleOfConcat(prev, last, 3 * i);
  }

  /** A three-byte window of a concatenation lies wholly in its left part or,
      when the left part ends where the window starts, is the right part. */
  lemma TripleOfConcat(prev: seq<Byte>, last: seq<Byte>, a: nat)
    requires a + 3 <= |prev| + |last|
    ensures a + 3 <= |prev| ==> (prev + last)[a..a + 3] == prev[a..a + 3]
    ensures a == |prev| && |last| == 3 ==> (prev + last)[a..a + 3] == last
  {
    if a + 3 <= |prev| {
      assert (prev + last)[a..a + 3] == prev[a..a + 3];
    }
    if a == |prev| && |last| == 3 {
      assert (prev + last)[a..a + 3] == last;
    }
  }

  /** The palette path of MDColors: the new colour map, built by appending the
      converted triple of every whole palette entry in turn. */
  method TransformPalette(lut: seq<LutEntry>, colormap: seq<Byte>) returns (ncolomap: seq<Byte>)
    requires IsColorLut(lut)
    ensures ncolomap == ConvertPaletteEntries(lut, colormap, |colormap| / 3)
  {
    ncolomap := [];
    var ii := 0;
    while ii < |colormap| / 3
      invariant 0 <= ii <= |colormap| / 3
      invariant ncolomap == ConvertPaletteEntries(lut, colormap, ii)
    {
      var t := Transform3(lut, colormap[3 * ii + 0], colormap[3 * ii + 1], colormap[3 * ii + 2]);
      ncolomap := ncolomap + t;
      ii := ii + 1;
    }
  }

  /** The palette path and the pixel path agree: a palette entry converts to
      the same three bytes as a pixel holding the same triple. */
  lemma PalettePathMatchesPixelPath(lut: seq<LutEntry>, colormap: seq<Byte>, i: nat, pixel: seq<Byte>)
    requires IsColorLut(lut) && i < |colormap| / 3
    requires |pixel| >= 3 && pixel[..3] == colormap[3 * i..3 * i + 3]
    ensures ConvertPaletteEntries(lut, colormap, |colormap| / 3)[3 * i..3 * i + 3]
         == ConvertPixel(lut, pixel)[..3]
  {
    var window := colormap[3 * i..3 * i + 3];
    assert pixel[0] == pixel[..3][0] == window[0] == colormap[3 * i];
    assert pixel[1] == pixel[..3][1] == window[1] == colormap[3 * i + 1];
    assert pixel[2] == pixel[..3][2] == window[2] == colormap[3 * i + 2];
    ConvertPaletteEntriesAt(lut, colormap, |colormap| / 3, i);
  }

  /** The tile path of MDColors: every pixel of the source tile is converted
      into the same position of the destination tile. */
  method TransformTile(lut: seq<LutEntry>, srcTile: array2<seq<Byte>>, dstTile: array2<seq<Byte>>)
    requires IsColorLut(lut) && srcTile != dstTile
    requires dstTile.Length0 == srcTile.Length0 && dstTile.Length1 == srcTile.Length1
    requires forall i, j :: 0 <= i < srcTile.Length0 && 0 <= j < srcTile.Length1 ==> |srcTile[i, j]| >= 3
    modifies dstTile
    ensures forall i, j :: 0 <= i < srcTile.Length0 && 0 <= j < srcTile.Length1 ==>
      dstTile[i, j] == ConvertPixel(lut, srcTile[i, j])
  {
    var ii := 0;
    while ii < srcTile.Length0
      invariant 0 <= ii <= srcTile.Length0
      invariant forall i, j :: 0 <= i < ii && 0 <= j < srcTile.Length1 ==>
        dstTile[i, j] == ConvertPixel(lut, srcTile[i, j])
    {
      var jj := 0;
      while jj < srcTile.Length1
        invariant 0 <= jj <= srcTile.Length1
        invariant forall i, j :: 0 <= i < ii && 0 <= j < srcTile.Length1 ==>
          dstTile[i, j] == ConvertPixel(lut, srcTile[i, j])
        invariant forall j :: 0 <= j < jj ==> dstTile[ii, j] == ConvertPixel(lut, srcTile[ii, j])
      {
        var pixel := srcTile[ii, jj];
        var res := TransformPixel(lut, pixel);
        dstTile[ii, jj] := res;
        jj := jj + 1;
      }
      ii := ii + 1;
    }
  }
}
