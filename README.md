# mdcolors: Mega Drive colour quantisation, modelled in Dafny

This project models the colour engine of `mdcolors.py`, a GIMP plug-in. The
plug-in converts image colours to the Mega Drive palette, which has 3 bits
per channel, plus an optional finer shadow/highlight grid. The model covers
five parts:

- **Levels** (`levels.dfy`). The three calibration profiles are SonMapEd,
  SKCollect and Measured. Each has an 8-entry normal level table and a
  15-entry shadow/highlight table. The module also holds the nearest-level
  search `FindIndex` and the four `Select*` table selectors. Python's
  `min(range, key=...)` keeps its first minimum, so `FindIndex` is a
  recursive function over prefixes. It replaces its best index only when a
  later level is strictly closer, so a tie goes to the lower index.
- **ColorLut** (`color_lut.dfy`). `BuildColorLUT` maps every byte to a
  `LutEntry`: fine value, normal value, an `even` flag, shadow flag and
  highlight flag. With shadow/highlight on, `even` says whether the source
  shadow/highlight index is even; with it off, `even` is always true. As in
  the code, the source profile's index is read straight into the
  destination's value table.
- **Transform** (`transform.dfy`). `Transform3` is the per-pixel consensus
  rule. `MDColors` has two loops: `TransformPalette` models the
  indexed-palette loop, and `TransformPixel` and `TransformTile` model the
  tile pixel loop. Each loop method is proved against a specification
  function: `ConvertPaletteEntries` or `ConvertPixel`.
- **Fade** (`fade.dfy`). `FadeStepLUT` is the byte map of one fade step.
  `FadePixel`, `FadeTile` and the 15-step loop `MDFade` apply it, proved
  against `FadedPixel`.

A tile is an `array2<seq<Byte>>`, indexed `[x, y]`; each pixel is a byte
string. A byte is `int` restricted to 0..255.

Three points of the code shape the model:

- The LUT takes `dstlut[srclut[ii]]` (mdcolors.py:121-124). It reads the
  source profile's nearest index straight into the destination's value
  table. So converting from profile a to profile b and back to a gives
  exactly what converting a to itself gives (`RoundTripIsExact`,
  `FineRoundTripIsExact`).
- `FadeMode` names four directions (mdcolors.py:41-45), and the plug-in's
  description speaks of a fade "with 16 steps" (mdcolors.py:284). The
  per-step map at mdcolors.py:234 reads neither `step` nor `fademode`, so
  all 15 frames are the same conversion. The model keeps both parameters
  and proves the maps equal (`FadeStepsAllAlike`).
- In `MDFade` the pixel loop maps the channels at positions below 3 and
  copies the rest, whatever the pixel's length. So `FadedPixel` accepts a
  pixel of any length. `MDColors` reads `pixel[2]` unconditionally, so
  `ConvertPixel` requires at least three channels. Its later test
  `len(pixel) >= 3` (mdcolors.py:205) therefore always holds.

## Model

| member | source | states |
|---|---|---|
| `Levels.AdjacentIncreasingIsStrict` | mdcolors.py:48-55 | a level table whose neighbouring entries increase is strictly increasing throughout, so every table below is ordered |
| `Levels.NormalLevels` | mdcolors.py:48-50 | each profile's normal table has 8 entries, starts at 0 and is strictly increasing |
| `Levels.FineLevels` | mdcolors.py:53-55 | each profile's shadow/highlight table has 15 entries, starts at 0 and is strictly increasing |
| `Levels.FindIndex` | mdcolors.py:57-58 | the result is an index of the table whose distance to the value is minimal, and every earlier index is strictly farther (so a tie goes to the lower index) |
| `Levels.FirstNearestIsFindIndex` | mdcolors.py:57-58 | any index that is nearest and has only strictly farther indices before it is the one FindIndex returns (the description fixes the result) |
| `Levels.FindIndexOfLevel` | mdcolors.py:57-58 | on a strictly increasing table, each level is found at its own index |
| `Levels.FindIndexMonotonic` | mdcolors.py:57-58 | on a strictly increasing table, a larger value never has a smaller nearest index |
| `Levels.TieGoesToLowerIndex` | mdcolors.py:48-58 | 0x10 on the SonMapEd normal table gives index 0, and 0x99 on the SKCollect normal table gives index 4 (0x88), both exact ties |
| `Levels.NormalLevelIsFineLevel` | mdcolors.py:48-55 | in every profile, normal level i is shadow/highlight level 2i, so each normal level is also a shadow/highlight level |
| `Levels.FindIndexAboveTop` | mdcolors.py:57-58 | on a strictly increasing table, a value at or above the top level is nearest to the top level |
| `Levels.SelectSrcLUT` | mdcolors.py:82-88 | the byte-to-normal-index table of a profile (built at lines 62, 65, 68) has 256 entries, each below 8 and the first nearest index of that byte |
| `Levels.SelectSrcLUTShl` | mdcolors.py:90-96 | the byte-to-shadow/highlight-index table of a profile (lines 63, 66, 69) has 256 entries, each below 15 and the first nearest index of that byte |
| `Levels.SelectDstLUT` | mdcolors.py:98-104 | the index-to-value table of a profile (lines 73, 76, 79) is exactly its normal level table |
| `Levels.SelectDstLUTShl` | mdcolors.py:106-112 | the index-to-value table of a profile (lines 74, 77, 80) is exactly its shadow/highlight level table |
| `ColorLut.BuildColorLUT` | mdcolors.py:114-124 | 256 entries; every normal value is a destination normal level and every fine value a destination shadow/highlight level; for any index i that is the source profile's first nearest normal level to byte v, the normal value of v is the destination's normal level i; with shadow/highlight on, for any index i that is the source's first nearest shadow/highlight level to v, the fine value is the destination's shadow/highlight level i, the shadow flag holds iff i is at most 7 and the highlight flag iff i is at least 7; with it off, fine equals normal and both flags are false |
| `ColorLut.SameProfileKeepsLevels` | mdcolors.py:114-124 | converting a profile to itself maps each of its normal levels to itself; with shadow/highlight on, it also maps each fine level to itself as a fine value |
| `ColorLut.SameProfileIsNearest` | mdcolors.py:114-124 | converting a profile to itself gives a normal level no farther from the byte than any other normal level of that profile |
| `ColorLut.ColorLutMonotonic` | mdcolors.py:114-124 | a brighter byte never gets a darker normal value, nor (shadow/highlight on) a darker fine value |
| `ColorLut.RoundTripIsExact` | mdcolors.py:121-124 | converting a to b and then b to a gives the normal value of converting a to a |
| `ColorLut.FineRoundTripIsExact` | mdcolors.py:121 | the same exact round trip for the shadow/highlight value |
| `ColorLut.SkCollectTieExample` | mdcolors.py:124 | SKCollect to SKCollect without shadow/highlight maps 0x99 to 0x88 |
| `Transform.Transform3` | mdcolors.py:143-150 | the per-pixel rule gives a triple of three bytes; which triple is stated by `ConsensusFromSourceIndices` (shadow/highlight on) and `ShlOffTakesNormalPath` (off) |
| `Transform.ConsensusFromSourceIndices` | mdcolors.py:143-150 | with shadow/highlight on, the fine path is taken iff the three source fine indices are all at most 7 or all at least 7; the output is then the destination fine levels at those indices, and otherwise the destination normal levels at the source normal indices (never a mixture) |
| `Transform.ShlOffTakesNormalPath` | mdcolors.py:143-150 | with shadow/highlight off, the fine path is never taken and the output is the destination normal levels at the three source normal indices |
| `Transform.Transform3IsRepresentable` | mdcolors.py:143-150 | the output triple is all destination normal levels or, only with shadow/highlight on, all destination shadow/highlight levels |
| `Transform.BlackTakesFinePath` | mdcolors.py:197-200 | with shadow/highlight on, (0,0,0) takes the fine path for every profile pair and comes out as (0,0,0) |
| `Transform.MixedTakesNormalPath` | mdcolors.py:197-204 | with shadow/highlight on, (0x00,0xFF,0x00) does not take the fine path and comes out as (0, top normal level, 0) |
| `Transform.ConvertPixel` | mdcolors.py:192-207 | the output pixel has the input's length, its first three bytes are the converted triple, and every byte from position 3 on is copied unchanged |
| `Transform.TransformPixel` | mdcolors.py:191-209 | building the pixel by appending the triple and then each remaining channel gives exactly ConvertPixel |
| `Transform.ConvertPaletteEntries` | mdcolors.py:138-150 | the converted palette of n entries has exactly 3n bytes |
| `Transform.ConvertPaletteEntriesAt` | mdcolors.py:138-150 | bytes 3i..3i+3 of the converted palette are entry i converted by the per-pixel rule, in entry order |
| `Transform.TransformPalette` | mdcolors.py:136-150 | the palette loop's output is the conversion of all whole entries (trailing bytes past the last whole entry are dropped) |
| `Transform.PalettePathMatchesPixelPath` | mdcolors.py:139-150 | a palette entry and a pixel holding the same triple convert to the same three bytes |
| `Transform.TransformTile` | mdcolors.py:188-209 | every destination pixel is ConvertPixel of the source pixel at the same position |
| `Fade.FadeStepLUT` | mdcolors.py:233-234 | each step's map has 256 entries, each a destination normal level |
| `Fade.FadeStepIsNormalValue` | mdcolors.py:234 | each step's map agrees with the normal value of BuildColorLUT with shadow/highlight off |
| `Fade.FadeStepsAllAlike` | mdcolors.py:233-234 | the map is the same for all 15 steps and all four fade modes |
| `Fade.FadedPixel` | mdcolors.py:262-267 | the faded pixel has the input's length, its bytes below position 3 go through the map, and later bytes are copied |
| `Fade.FadeIsShlOffConversion` | mdcolors.py:262-267 | on a pixel of three or more channels, every fade frame equals the MDColors conversion with shadow/highlight off |
| `Fade.FadePixel` | mdcolors.py:261-269 | the channel-by-channel loop builds exactly FadedPixel |
| `Fade.FadeTile` | mdcolors.py:258-269 | every destination pixel is the source pixel at the same position, faded |
| `Fade.MDFade` | mdcolors.py:233-269 | 15 fresh, distinct frames the size of the source tile; pixel (i, j) of frame s is the source pixel faded by step s's map |

## Left out

- GIMP host calls are not modelled. This covers progress reporting, undo
  groups, colormap get/set, layer copy/add/remove/rename, flush, merge,
  update, `get_tile`, the plug-in registration and the UI. They are host
  plumbing. The palette and the tiles arrive as parameters.
- The `is_indexed` dispatch in `MDColors` is not modelled. The two branches
  are modelled separately, as `TransformPalette` and `TransformTile`.
- Tile-count arithmetic and iteration over the tile grid are not modelled.
  They only feed host iteration; one tile is one `array2`.
- Progress fractions are not modelled. They are floating-point and only for
  display.
- BuildColorLUT: the shadow/highlight switch is a `bool`. The code tests
  `shlmode is True` (mdcolors.py:117), an identity test, so a truthy value
  that is not `True` itself (such as the integer 1) takes the "off" branch
  there. The model has no such value.
- Profile values outside the enumeration are not modelled. In the code they
  make the `Select*` functions return `None`. Here a profile is a closed
  three-constructor datatype.
- Pixels with fewer than three channels are not converted by `MDColors`.
  The plug-in is registered for GRAY images too (mdcolors.py:310), but its
  pixel loop raises an index error there: at `pixel[1]` for a one-channel
  pixel (mdcolors.py:193) and at `pixel[2]` for a two-channel pixel
  (mdcolors.py:194). `ConvertPixel` and `TransformTile` require three
  channels. The fade loop has no such limit.
- The `even` flag (whether the source shadow/highlight index is even;
  always true with shadow/highlight off) is computed and carried in `LutEntry`, but
  nothing reads it, so no property is stated about it.
- `TransformTile` and `FadeTile` require distinct source and destination
  tiles. The code always passes tiles of two different layers.
