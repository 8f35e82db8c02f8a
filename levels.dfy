/** Calibration profiles of the Mega Drive palette and the nearest-level search.
    Each profile owns an 8-entry "normal" level table and a 15-entry
    "shadow/highlight" level table; both are constants, strictly increasing. */
module Levels {

  /** An 8-bit channel value. */
  type Byte = x: int | 0 <= x < 256

  /** The three calibration profiles (`ColorMode` in mdcolors.py). */
  datatype ColorMode = SonMapEd | SKCollect | Measured

  // Normal mode valid colours per profile.
  const SmeNormal: seq<Byte> := [0x00, 0x20, 0x40, 0x60, 0x80, 0xA0, 0xC0, 0xE0]
  const SkcNormal: seq<Byte> := [0x00, 0x22, 0x44, 0x66, 0x88, 0xAA, 0xCC, 0xEE]
  const VdpNormal: seq<Byte> := [0x00, 0x34, 0x57, 0x74, 0x90, 0xAC, 0xCE, 0xFF]

  // Shadow/highlight mode valid colours per profile.
  const SmeShl: seq<Byte> := [0x00, 0x10, 0x20, 0x30, 0x40, 0x50, 0x60, 0x70, 0x80, 0x90, 0xA0, 0xB0, 0xC0, 0xD0, 0xE0]
  const SkcShl: seq<Byte> := [0x00, 0x11, 0x22, 0x33, 0x44, 0x55, 0x66, 0x77, 0x88, 0x99, 0xAA, 0xBB, 0xCC, 0xDD, 0xEE]
  const VdpShl: seq<Byte> := [0x00, 0x1D, 0x34, 0x46, 0x57, 0x65, 0x74, 0x82, 0x90, 0x9E, 0xAC, 0xBB, 0xCE, 0xE4, 0xFF]

  /** Each level is below the next one. */
  predicate AdjacentIncreasing(s: seq<int>)
  {
    forall i :: 0 <= i < |s| - 1 ==> s[i] < s[i + 1]
  }

  /** Any two levels are ordered by their indices. */
  predicate StrictlyIncreasing(s: seq<int>)
  {
    forall i, j :: 0 <= i < j < |s| ==> s[i] < s[j]
  }

  /** Checking neighbours is enough for a table to be strictly increasing. */
  lemma {:induction false} AdjacentIncreasingIsStrict(s: seq<int>)
    requires AdjacentIncreasing(s)
    ensures StrictlyIncreasing(s)
  {
    if |s| > 1 {
      var t := s[..|s| - 1];
      assert AdjacentIncreasing(t) by {
        forall i | 0 <= i < |t| - 1 ensures t[i] < t[i + 1] {
          assert t[i] == s[i] && t[i + 1] == s[i + 1];
        }
      }
      AdjacentIncreasingIsStrict(t);
      forall i, j | 0 <= i < j < |s| ensures s[i] < s[j] {
        if j < |s| - 1 {
          assert s[i] == t[i] && s[j] == t[j];
        } else if i < |s| - 2 {
          assert s[i] == t[i] && s[|s| - 2] == t[|s| - 2];
          assert t[i] < t[|s| - 2];
        }
      }
    }
  }

  /** The 8-entry normal level table of a profile (mdcolors.py lines 48-50). */
  function NormalLevels(m: ColorMode): (r: seq<Byte>)
    ensures |r| == 8 && r[0] == 0
    ensures StrictlyIncreasing(r)
  {
    var r := match m
      case SonMapEd => SmeNormal
      case SKCollect => SkcNormal
      case Measured => VdpNormal;
    AdjacentIncreasingIsStrict(r);
    r
  }

  /** The 15-entry shadow/highlight level table of a profile (lines 53-55). */
  function FineLevels(m: ColorMode): (r: seq<Byte>)
    ensures |r| == 15 && r[0] == 0
    ensures StrictlyIncreasing(r)
  {
    var r := match m
      case SonMapEd => SmeShl
      case SKCollect => SkcShl
      case Measured => VdpShl;
    AdjacentIncreasingIsStrict(r);
    r
  }

  /** Distance between a level and a channel value. */
  function Dist(level: int, v: int): nat
  {
    if level >= v then level - v else v - level
  }

  /** `j` is the first index of `vals` whose level is closest to `v`:
      no level is closer, and every earlier level is strictly farther. */
  predicate IsFirstNearest(v: int, vals: seq<int>, j: int)
  {
    && 0 <= j < |vals|
    && (forall k :: 0 <= k < |vals| ==> Dist(vals[j], v) <= Dist(vals[k], v))
    && (forall k :: 0 <= k < j ==> Dist(vals[j], v) < Dist(vals[k], v))
  }

  /** Index of the level closest to `v`; on a tie the lower index wins.
      This is `min` over the ascending index range keyed by distance, which
      replaces its running minimum only by a strictly smaller key. */
  function FindIndex(v: int, vals: seq<int>): (j: nat)
    requires |vals| > 0
    ensures IsFirstNearest(v, vals, j)
  {
    if |vals| == 1 then 0
    else
      var best := FindIndex(v, vals[..|vals| - 1]);
      if Dist(vals[|vals| - 1], v) < Dist(vals[best], v) then |vals| - 1 else best
  }

  /** The first nearest index is unique, so any index meeting the
      description is the one FindIndex returns. */
  lemma FirstNearestIsFindIndex(v: int, vals: seq<int>, j: int)
    requires IsFirstNearest(v, vals, j)
    ensures FindIndex(v, vals) == j
  {
  }

  /** Every index meeting the description is the one FindIndex returns. */
  lemma FirstNearestIsUnique(vals: seq<int>)
    requires |vals| > 0
    ensures forall v, j :: IsFirstNearest(v, vals, j) ==> FindIndex(v, vals) == j
  {
    forall v, j | IsFirstNearest(v, vals, j) ensures FindIndex(v, vals) == j {
      FirstNearestIsFindIndex(v, vals, j);
    }
  }

  /** On a strictly increasing table every level is found at its own index. */
  lemma FindIndexOfLevel(vals: seq<int>, k: nat)
    requires StrictlyIncreasing(vals)
    requires k < |vals|
    ensures FindIndex(vals[k], vals) == k
  {
  }

  /** A byte at or above a table's top level is nearest to that top level. */
  lemma FindIndexAboveTop(v: int, vals: seq<int>)
    requires |vals| > 0 && StrictlyIncreasing(vals)
    requires v >= vals[|vals| - 1]
    ensures FindIndex(v, vals) == |vals| - 1
  {
    FirstNearestIsFindIndex(v, vals, |vals| - 1);
  }

  /** Of two levels lo < hi, once a value strictly prefers hi, every larger
      value strictly prefers hi too. */
  lemma PreferenceMovesUp(lo: int, hi: int, a: int, b: int)
    ensures lo < hi && a <= b && Dist(hi, a) < Dist(lo, a) ==> Dist(hi, b) < Dist(lo, b)
  {
  }

  /** On a strictly increasing table the nearest index never decreases as
      the value grows. */
  lemma FindIndexMonotonic(vals: seq<int>, a: int, b: int)
    requires |vals| > 0 && StrictlyIncreasing(vals)
    requires a <= b
    ensures FindIndex(a, vals) <= FindIndex(b, vals)
  {
    var i, j := FindIndex(a, vals), FindIndex(b, vals);
    // Were j < i, a would strictly prefer the higher level vals[i] while b
    // weakly prefers the lower level vals[j]; that cannot happen with a <= b.
    PreferenceMovesUp(vals[j], vals[i], a, b);
  }

  /** Exact ties go to the lower index: 0x10 is as far from 0x00 as from 0x20
      in the SonMapEd table, and 0x99 as far from 0x88 as from 0xAA in the
      SKCollect table. */
  lemma TieGoesToLowerIndex()
    ensures FindIndex(0x10, NormalLevels(SonMapEd)) == 0
    ensures FindIndex(0x99, NormalLevels(SKCollect)) == 4
  {
    FirstNearestIsFindIndex(0x99, NormalLevels(SKCollect), 4);
  }

  /** In every profile the normal levels are the shadow/highlight levels at
      even indices, so each normal level is also a shadow/highlight level. */
  lemma NormalLevelIsFineLevel(m: ColorMode, i: nat)
    requires i < 8
    ensures NormalLevels(m)[i] == FineLevels(m)[2 * i]
    ensures NormalLevels(m)[i] in FineLevels(m)
  {
    var n, f := NormalLevels(m), FineLevels(m);
    assert n[i] == f[2 * i] by {
      match m
      case SonMapEd => assert n == SmeNormal && f == SmeShl;
      case SKCollect => assert n == SkcNormal && f == SkcShl;
      case Measured => assert n == VdpNormal && f == VdpShl;
    }
  }

  /** Source byte -> normal index table of a profile (lines 62-69, 82-88). */
  function SelectSrcLUT(m: ColorMode): (t: seq<nat>)
    ensures |t| == 256
    ensures forall v :: 0 <= v < 256 ==> t[v] < 8 && IsFirstNearest(v, NormalLevels(m), t[v])
  {
    seq(256, v requires 0 <= v < 256 => FindIndex(v, NormalLevels(m)))
  }

  /** Source byte -> shadow/highlight index table of a profile (lines 63-69, 90-96). */
  function SelectSrcLUTShl(m: ColorMode): (t: seq<nat>)
    ensures |t| == 256
    ensures forall v :: 0 <= v < 256 ==> t[v] < 15 && IsFirstNearest(v, FineLevels(m), t[v])
  {
    seq(256, v requires 0 <= v < 256 => FindIndex(v, FineLevels(m)))
  }

  /** Normal index -> value table of a profile (lines 73-80, 98-104): it holds
      exactly the profile's normal levels, in order. */
  function SelectDstLUT(m: ColorMode): (t: seq<Byte>)
    ensures t == NormalLevels(m)
  {
    seq(8, i requires 0 <= i < 8 => NormalLevels(m)[i])
  }

  /** Shadow/highlight index -> value table of a profile (lines 74-80, 106-112). */
  function SelectDstLUTShl(m: ColorMode): (t: seq<Byte>)
    ensures t == FineLevels(m)
  {
    seq(15, i requires 0 <= i < 15 => FineLevels(m)[i])
  }
}
