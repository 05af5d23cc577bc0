# Scan assembly of cogsworth-viz, in Dafny

cogsworth-viz turns a scan into a false-colour PNM image. For every grid position
(x, y) of a `w` by `h` scan, one file holds a run of 32-bit float samples. The program:

- reduces each file to one value, the sum of the plausible samples (0 to 1000)
  divided by the total sample count;
- places the value in a `w` by `h + shift` raster. The scanner sweeps right to left,
  so columns are mirrored. Even columns run down and odd columns run up, and the two
  parities are offset by `shift` rows;
- copies a value into the neighbouring flat cell where one parity has no partner
  (edge-fill);
- tracks the running minimum and maximum of the values;
- clamps each pixel's scaled index into the 256-entry palette.

The model has five modules:

- `Reducer` (reducer.dfy): the plausibility filter, the reduction loop and its
  specification.
- `Placement` (placement.dfy): the grid-to-raster coordinate arithmetic and edge-fill.
- `Assembler` (assembler.dfy): the specification of the traversal as functions over
  a `ScanState` value, and the class `ScanAssembler`. The class owns the raster as an
  `array<real>` and the extremes as fields. Its methods update them in place and are
  proved against those functions.
- `Palette` (palette.dfy): the palette-index clamp.
- `Viz` (viz.dfy): the configuration checks and one whole run.

Modelling choices:

- Samples are exact reals. No NaN can reach the raster: a NaN or infinite sample
  fails `looks_reasonable` and is left out of the sum, and the division by the count
  is reached only for a non-empty file (see below).
- The file reader is a total function `(x, y) -> Option<seq<real>>`. `None` stands
  for a file that cannot be opened or stat-ed, or whose size is not a multiple of 4
  bytes (viz.cc:94-100). An empty file passes the size test, but mapping zero bytes
  fails, so viz.cc:103-108 skips it as well. The predicate `Assembler.Mapped` says a
  reading gets past both tests: it is present and non-empty.
- The raster is allocated uninitialised in the source. The constructor here fills it
  with 0. All raster lemmas are stated relative to whatever the cells held before the
  traversal, so cells no position writes remain "as they were".
- The extremes start at the sentinels 1e6 and -1e6, as reals.
- Indices are flat, `ypos * w + xpos`, as in the source. At the border columns the
  edge-fill neighbour wraps into the adjacent row. The model keeps that wrap, and
  lemmas state exactly where it lands.

## Behaviour kept as the code has it

- An empty sample file is skipped like an unreadable one, because its mapping fails.
  It never reaches the division, so the reduction has no 0/0 case.
- The edge-fill neighbour at the border columns is not clamped. It wraps into the
  adjacent image row and can overwrite a real position's own cell
  (`Placement.BorderWrapOverwritesOwnCell`).
- Cells of skipped positions, and gaps nothing fills, keep the raster's initial
  contents, unless a border-column wrap (`Placement.BorderNeighbourWraps`) writes
  into them.
- When no position can be read, the extremes keep their sentinels 1e6 and -1e6, so
  the minimum exceeds the maximum (`Assembler.TraverseDegenerateIff`). Every cell
  below 1e6 is then below min_value and gets palette index 0.
- Nothing guards max == min before the palette scale is computed. The model has only
  the clamp after the rounding step, and that clamp is total.

## Model

| member | source | states |
|---|---|---|
| `Reducer.LooksReasonable` | viz.cc:51 | A sample passes exactly when 0 <= v <= 1000 (both directions). |
| `Reducer.ReasonableSum` | viz.cc:110-113 | The accumulated sum of plausible samples lies between 0 and 1000 times the sample count. |
| `Reducer.Mean` | viz.cc:125 | The reduced value of a non-empty file lies in [0, 1000]. Multiplied by the TOTAL count, it gives the sum of the plausible samples. |
| `Reducer.Reduce` | viz.cc:110-125 | The summing loop followed by the division yields exactly `Mean` of the samples. |
| `Reducer.ReasonableSumIsSumOfReasonable` | viz.cc:112-113 | The loop's filtered sum equals the plain sum of the subsequence of samples that pass `looks_reasonable`. |
| `Reducer.OutlierCountsButDoesNotAdd` | viz.cc:111-113 | An implausible sample adds nothing to the sum but counts in the denominator. The mean becomes sum/(n+1), never rises, and strictly falls when the sum is positive. |
| `Placement.XPos` | viz.cc:124 | The mirrored column is a valid image column exactly when x is a valid scan column. |
| `Placement.YPos` | viz.cc:123 | For a row y in [0, h), an even column's image row lies in [0, h) and an odd column's lies in [shift, h + shift). |
| `Placement.Index` | viz.cc:127 | A position's own flat index `ypos * w + xpos` lies in [0, img_w*img_h). Divided by w it gives back ypos, and its remainder is xpos. |
| `Placement.OwnCellsDistinct` | viz.cc:123-124 | No two grid positions share their own cell. |
| `Placement.OddEdgeIsShiftBand` | viz.cc:128 | For odd x, the test `ypos >= h` holds exactly when `y < shift`. |
| `Placement.NeighbourInRaster` | viz.cc:127-129 | Both edge-fill neighbours (`idx+1` for even x, `idx-1` for odd x) stay inside the raster array, border columns included. |
| `Placement.Targets` | viz.cc:126-132 | A position writes two cells exactly when y < shift, otherwise one. The first cell is its own. The second is `idx+1` for even x and `idx-1` for odd x. All are in the raster. |
| `Placement.Write` | viz.cc:127-131 | Writing to a list of targets sets exactly the listed cells to the value and leaves every other cell alone. |
| `Placement.InteriorNeighbourFillsGap` | viz.cc:126-129 | Away from the border, the neighbour is in the same row, in the image column of scan column x-1 (even x) or x+1 (odd x). That cell is no position's own cell. |
| `Placement.BorderNeighbourWraps` | viz.cc:127-129 | For x = 0 the neighbour is the first cell of the next row. For odd x = w-1 it is the last cell of the previous row. |
| `Placement.BorderWrapOverwritesOwnCell` | viz.cc:129 | On a 2x2 grid with shift 1, the wrapped neighbour of (1, 0) is the own cell of (0, 1). |
| `Assembler.LowerMin` | viz.cc:136 | The new minimum is at most the old one and at most the average, and it is one of the two. |
| `Assembler.RaiseMax` | viz.cc:137 | The new maximum is at least the old one and at least the average, and it is one of the two. |
| `Assembler.Step` | viz.cc:94-137 | One position keeps the raster size. The minimum never increases and the maximum never decreases. |
| `Assembler.Column` | viz.cc:89-138 | The same, over the first n rows of a column. |
| `Assembler.Columns` | viz.cc:88-139 | The same, over the first m columns. |
| `Assembler.StepPlaces` | viz.cc:125-137 | A mapped position sets exactly its target cells to its mean, and the mean ends up within the new extremes. |
| `Assembler.StepSkipped` | viz.cc:94-108 | A missing or empty file leaves raster and extremes unchanged. |
| `Assembler.TraverseCellsWithinExtremes` | viz.cc:82-139 | After the traversal each cell either holds its initial value or a value within [min_value, max_value]. |
| `Assembler.TraverseExtremesBoundEveryMean` | viz.cc:88-139 | After the traversal, min_value <= mean <= max_value for the mean of every position that was read. |
| `Assembler.UnreadColumnKeepsState` | viz.cc:89-108 | A column none of whose rows can be read leaves raster and extremes exactly as they were. |
| `Assembler.UnreadColumnsKeepState` | viz.cc:88-108 | The same for the first m columns. |
| `Assembler.TraverseDegenerateIff` | viz.cc:82-139 | Starting from the sentinels, the final minimum exceeds the final maximum exactly when no position of the grid could be read (both directions). |
| `Assembler.SingleSampleMean` | viz.cc:110-125 | A file holding one plausible sample reduces to that sample. |
| `Assembler.SmallScanStep00` | viz.cc:123-137 | In the 2x2 example with shift 0, position (0, 0) writes 10 to flat cell 1 only, and the extremes become 10 / 10. |
| `Assembler.SmallScanStep01` | viz.cc:123-137 | Position (0, 1) then writes 20 to cell 3 only, and the maximum becomes 20. |
| `Assembler.SmallScanStep10` | viz.cc:123-137 | Position (1, 0), in the odd column read upwards, then writes 30 to cell 2 only, and the maximum becomes 30. |
| `Assembler.SmallScanStep11` | viz.cc:123-137 | Position (1, 1) then writes 40 to cell 0 only, and the maximum becomes 40. |
| `Assembler.SmallScanRaster` | viz.cc:123-137 | The 2x2 scan with 10, 20 / 30, 40 and shift 0 gives the raster [40, 10, 30, 20], min 10 and max 40. |
| `Assembler.ScanAssembler.constructor` | viz.cc:77-83 | Allocates a fresh raster of img_w * img_h cells and starts the extremes at 1e6 / -1e6. |
| `Assembler.ScanAssembler.Place` | viz.cc:126-132 | The raster afterwards is the old raster with the position's targets set to the value. The object stays valid. |
| `Assembler.ScanAssembler.Process` | viz.cc:91-137 | The new raster and extremes are `Step` of the old ones. The object stays valid. |
| `Assembler.ScanAssembler.Assemble` | viz.cc:88-139 | The nested x/y loops leave the raster and extremes equal to the whole-grid `Traverse` of the old ones. The object stays valid. |
| `Palette.Clamp` | viz.cc:151-152 | The clamped index is in [0, 255] and is the palette index nearest to the raw value. |
| `Palette.PaletteIndex` | viz.cc:150-152 | The index is always in [0, 255]. A value below min_value maps to 0. Otherwise the rounded value is kept when in range, or clamped to 0 or 255. |
| `Palette.ClampMonotone` | viz.cc:151-152 | Clamping preserves order. |
| `Palette.InRangeNeedsNoClamp` | viz.cc:146-152 | With max > min, a value in [min, max] whose index is rounded within 1/2 of `(raw - min) * 255 / (max - min)` keeps that index unclamped. |
| `Palette.FourValuesSpreadOverPalette` | viz.cc:146-152 | Under min 10 and max 40, the values 10, 20, 30 and 40 get indices 0, 85, 170 and 255. |
| `Viz.AsUnsigned` | viz.cc:62 | The `atoi` result stored as `unsigned int` lies in [0, 2^32) and is congruent to the int modulo 2^32. |
| `Viz.ColorMapAcceptedIff` | viz.cc:73 | The colour-map test `> 4` rejects exactly the `atoi` values outside 0..4, negative ones included. |
| `Viz.CheckConfig` | viz.cc:67-78 | A wrong positional-argument count gives exit 1. Otherwise an unopened output, a colour map outside 0..4 or a negative shift gives exit 2. Otherwise the run proceeds with colour map `-c` and exactly the geometry (w, h, shift), so the image is w by h + shift. |
| `Viz.DefaultsAccepted` | viz.cc:29-56 | With three positional arguments, an opened output and neither `-c` nor `-s`, the run proceeds with colour map 1 (Plasma) and shift 10. |
| `Viz.Visualize` | viz.cc:67-139 | A rejected configuration returns its exit code with no raster at all. Otherwise it returns 0 with a fresh raster that holds the whole-grid traversal of a zeroed raster. |

## Left out

- File access is an input function. That covers the file-name pattern (`snprintf`) and
  `open`/`fstat`/`mmap`/`munmap`/`close`. It also covers the descriptor leaked when
  `mmap` fails and the `fd > 0` test before `close`.
- Floating point is not modelled. Samples and sums are exact reals, so single
  precision rounding in the sum and the division is absent. Samples that are NaN or
  infinite in the file behave like any other implausible sample (excluded).
- `Palette.PaletteIndex`: the scale `255 / (max - min)` and `lround` are not computed.
  The rounded value is an input, because float rounding is out of scope. For the same
  reason, the division by zero when max == min is not modelled.
- The PNM header, the colour tables and the byte output are not modelled. So are the
  progress and summary messages on stderr and the `total_data_read` counter, which feeds
  only that message.
- Option parsing is not modelled: `getopt`, the usage text and the defaults' plumbing.
  `Viz.CheckConfig` takes the resolved values. Its `positional` is the number of
  arguments left after the options (`argc - optind`).
- `Viz.Visualize` assumes w >= 0 and h >= 0 whenever the checks pass. `atoi` leaves
  them unchecked. In the source a negative width gives a negative array size when
  h + shift > 0. When h + shift == 0 the zero-size allocation succeeds, nothing is
  scanned and the run exits 0; the model does not cover that case. A negative height
  is likewise assumed away.
- 32-bit overflow is not modelled: not for `h + shift`, not for `img_w * img_h`, and
  not for `count = st_size / sizeof(float)` (viz.cc:111), a 32-bit `int` that a
  sample file over 8 GiB would overflow.
- The initial raster contents are unspecified in the source. The model starts from
  zeros, and every lemma about the traversal is stated against an arbitrary initial
  raster.
