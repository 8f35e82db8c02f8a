/** The composite per-byte lookup table that converts a channel value from a
    source profile to a destination profile (mdcolors.py `BuildColorLUT`). */
module ColorLut {
  import opened Levels

  /** One table entry: the shadow/highlight value, the normal value, a flag
      that is true when the source shadow/highlight index is even (always
      true with shadow/highlight off), and whether the byte is a shadow
      candidate and a highlight candidate. */
  datatype LutEntry = LutEntry(fine: Byte, normal: Byte, even: bool, shadow: bool, highlight: bool)

  /** A complete table: one entry per byte value. */
  predicate IsColorLut(lut: seq<LutEntry>)
  {
    |lut| == 256
  }

  /** Index of a byte in the source profile's normal table: its entry in
      the source selector table. */
  function NormalIndex(m: ColorMode, v: Byte): (i: nat)
    ensures i < 8 && IsFirstNearest(v, NormalLevels(m), i)
  {
    SelectSrcLUT(m)[v]
  }

  /** Index of a byte in the source profile's shadow/highlight table: its
      entry in the source selector table. */
  function FineIndex(m: ColorMode, v: Byte): (i: nat)
    ensures i < 15 && IsFirstNearest(v, FineLevels(m), i)
  {
    SelectSrcLUTShl(m)[v]
  }

  /** The table for a source profile, a destination profile and the
      shadow/highlight switch. The source index is read straight into the
      destination's value table: the conversion never passes through the
      source's level value. */
  function BuildColorLUT(src: ColorMode, dst: ColorMode, shl: bool): (lut: seq<LutEntry>)
    ensures IsColorLut(lut)
    ensures forall v :: 0 <= v < 256 ==>
      lut[v].normal in NormalLevels(dst) && lut[v].fine in FineLevels(dst)
    ensures forall v, i :: 0 <= v < 256 && IsFirstNearest(v, NormalLevels(src), i) ==>
      lut[v].normal == NormalLevels(dst)[i]
    ensures shl ==> forall v, i :: 0 <= v < 256 && IsFirstNearest(v, FineLevels(src), i) ==>
      && lut[v].fine == FineLevels(dst)[i]
      && (lut[v].shadow <==> i <= 7)
      && (lut[v].highlight <==> i >= 7)
    ensures !shl ==> forall v :: 0 <= v < 256 ==>
      lut[v].fine == lut[v].normal && !lut[v].shadow && !lut[v].highlight
  {
    FirstNearestIsUnique(NormalLevels(src));
    FirstNearestIsUnique(FineLevels(src));
    forall i | 0 <= i < 8 ensures NormalLevels(dst)[i] in FineLevels(dst) {
      NormalLevelIsFineLevel(dst, i);
    }
    var srclut := SelectSrcLUT(src);
    var dstlut := SelectDstLUT(dst);
    if shl then
      var srclutshl := SelectSrcLUTShl(src);
      var dstlutshl := SelectDstLUTShl(dst);
      seq(256, ii requires 0 <= ii < 256 =>
        LutEntry(dstlutshl[srclutshl[ii]], dstlut[srclut[ii]],
                 srclutshl[ii] % 2 == 0, srclutshl[ii] <= 7, srclutshl[ii] >= 7))
    else
      seq(256, ii requires 0 <= ii < 256 =>
        LutEntry(dstlut[srclut[ii]], dstlut[srclut[ii]], true, false, false))
  }

  /** The normal value is the destination level at the source's normal
      index, and (with shadow/highlight on) the fine value is the destination
      level at the source's shadow/highlight index, whose position against 7
      sets the two flags. */
  lemma IndexIsReused(src: ColorMode, dst: ColorMode, shl: bool, v: Byte)
    ensures BuildColorLUT(src, dst, shl)[v].normal == NormalLevels(dst)[NormalIndex(src, v)]
    ensures shl ==> BuildColorLUT(src, dst, shl)[v].fine == FineLevels(dst)[FineIndex(src, v)]
    ensures shl ==> BuildColorLUT(src, dst, shl)[v].shadow == (FineIndex(src, v) <= 7)
    ensures shl ==> BuildColorLUT(src, dst, shl)[v].highlight == (FineIndex(src, v) >= 7)
  {
  }

  /** Converting a profile to itself leaves every normal level where it is,
      and with shadow/highlight on every shadow/highlight level too. */
  lemma SameProfileKeepsLevels(m: ColorMode, shl: bool, k: nat)
    requires k < 8
    ensures BuildColorLUT(m, m, shl)[NormalLevels(m)[k]].normal == NormalLevels(m)[k]
    ensures shl ==> forall j :: 0 <= j < 15 ==>
      BuildColorLUT(m, m, shl)[FineLevels(m)[j]].fine == FineLevels(m)[j]
  {
    var lut := BuildColorLUT(m, m, shl);
    var x := NormalLevels(m)[k];
    IndexIsReused(m, m, shl, x);
    FindIndexOfLevel(NormalLevels(m), k);
    if shl {
      forall j | 0 <= j < 15 ensures lut[FineLevels(m)[j]].fine == FineLevels(m)[j] {
        var y := FineLevels(m)[j];
        IndexIsReused(m, m, shl, y);
        FindIndexOfLevel(FineLevels(m), j);
      }
    }
  }

  /** Converting a profile to itself yields the profile's normal level
      nearest to the byte. */
  lemma SameProfileIsNearest(m: ColorMode, shl: bool, v: Byte)
    ensures forall k :: 0 <= k < 8 ==>
      Dist(BuildColorLUT(m, m, shl)[v].normal, v) <= Dist(NormalLevels(m)[k], v)
  {
    IndexIsReused(m, m, shl, v);
  }

  /** Brighter input never gives a darker normal value (nor, with
      shadow/highlight on, a darker fine value). */
  lemma ColorLutMonotonic(src: ColorMode, dst: ColorMode, shl: bool, a: Byte, b: Byte)
    requires a <= b
    ensures BuildColorLUT(src, dst, shl)[a].normal <= BuildColorLUT(src, dst, shl)[b].normal
    ensures shl ==> BuildColorLUT(src, dst, shl)[a].fine <= BuildColorLUT(src, dst, shl)[b].fine
  {
    IndexMonotonic(NormalLevels(src), NormalLevels(dst), a, b);
    IndexIsReused(src, dst, shl, a);
    IndexIsReused(src, dst, shl, b);
    if shl {
      IndexMonotonic(FineLevels(src), FineLevels(dst), a, b);
    }
  }

  /** Reading the nearest source index into an increasing destination table
      is monotonic in the byte. */
  lemma IndexMonotonic(from: seq<int>, to: seq<int>, a: int, b: int)
    requires |from| > 0 && |to| == |from|
    requires StrictlyIncreasing(from) && StrictlyIncreasing(to)
    requires a <= b
    ensures to[FindIndex(a, from)] <= to[FindIndex(b, from)]
  {
    FindIndexMonotonic(from, a, b);
  }

  /** Converting a byte's normal value from profile a to profile b and then
      back to a gives what converting a to itself gives: the normal index
      survives the trip exactly. */
  lemma RoundTripIsExact(a: ColorMode, b: ColorMode, shl: bool, v: Byte)
    ensures BuildColorLUT(b, a, shl)[BuildColorLUT(a, b, shl)[v].normal].normal
         == BuildColorLUT(a, a, shl)[v].normal
  {
    var i := NormalIndex(a, v);
    IndexIsReused(a, b, shl, v);
    var there := NormalLevels(b)[i];
    FindIndexOfLevel(NormalLevels(b), i);
    assert NormalIndex(b, there) == i;
    IndexIsReused(b, a, shl, there);
    IndexIsReused(a, a, shl, v);
  }

  /** The same exact round trip for the shadow/highlight value. */
  lemma FineRoundTripIsExact(a: ColorMode, b: ColorMode, v: Byte)
    ensures BuildColorLUT(b, a, true)[BuildColorLUT(a, b, true)[v].fine].fine
         == BuildColorLUT(a, a, true)[v].fine
  {
    var there := BuildColorLUT(a, b, true)[v].fine;
    var i := FineIndex(a, v);
    IndexIsReused(a, b, true, v);
    IndexIsReused(a, a, true, v);
    IndexIsReused(b, a, true, there);
    FindIndexOfLevel(FineLevels(b), i);
  }

  /** SKCollect to SKCollect without shadow/highlight takes 0x99 to 0x88: the
      tie between 0x88 and 0xAA goes to the lower level. */
  lemma SkCollectTieExample()
    ensures BuildColorLUT(SKCollect, SKCollect, false)[0x99].normal == 0x88
  {
    IndexIsReused(SKCollect, SKCollect, false, 0x99);
    TieGoesToLowerIndex();
  }
}
