# Fiber thickness measurement — a Dafny model

`Thickness2.py` measures how thick a dark band in an image is. The user clicks
twice. The program samples `steps` evenly spaced points on the straight line
between the two clicks and calls a sample dark when its red, green and blue
values are all below `max_val`. It records the points where a dark run starts
and ends, then prints the distance of each start/end pair in pixels and,
multiplied by `conversion`, in micrometres.

The model has six modules:

- `Wrappers` (`wrappers.dfy`): `Option`.
- `Geometry` (`geometry.dfy`): points, `np.linspace`, the slope and intercept
  of the sampled line, and squared distance.
- `Pixels` (`pixels.dfy`): images, `img[floor(y)][floor(x)]` with Python's
  index rules, `is_black`, and the classification of all samples.
- `BoundaryScan` (`boundary_scan.dfy`): the boundary scan as a pure state
  machine over the classifications, with its invariants.
- `Clicks` (`click_saver.dfy`): the class `ClickSaver` with fields `clicked`,
  `checkColor` and the 2 x 2 array `points`.
- `Measurement` (`measurement.dfy`): the body of `mouse_clicked`. It has three
  loop methods: the classification loop, the boundary scan that flips
  `checkColor` on the click saver, and the pairing loop. Each loop method is
  proved against a pure specification. The module also has the pure function
  `Measure` for a whole measurement and the two-click protocol `MouseClicked`.

Behaviour modelled as the code has it:

- `flush` does not reset `check_color`. The scan phase therefore carries over
  into the next measurement. `MeasureAfterOpenRun` shows the effect: after a
  dark run reached the end of a line, a line with no dark sample at all
  records its first sample and fails.
- A dark run that reaches the last sample records its start but never its end,
  so the boundary list has odd length. The pairing loop prints the complete
  pairs and then raises `IndexError` at `line_points[ind+1]`. That exception
  skips `flush`. The model returns `Raised(BoundaryIndexOutOfRange, printed)`
  and leaves the buffer as it was. The trailing run is therefore not dropped:
  its start is recorded and the pairing loop raises (Thickness2.py:124-126).
- Python's negative indices wrap: a sample with `floor(y) = -1` reads the last
  row. An index outside `[-n, n)` raises `IndexError`, which the model returns
  as `Raised(PixelOutOfRange, [])`. Like every exception here, it does not
  undo the `update` already applied to `clicked`.
- A zero slope denominator `x0 - x1 + eps` makes numpy produce `inf`/`nan`.
  `math.floor` then raises on the first sample, so the model returns
  `Raised(NonFiniteSample, [])`. With `steps = 0` nothing is sampled and the
  result is "no black area".

## Model

| member | source | states |
|---|---|---|
| `Clicks.ClickSaver.constructor` | Thickness2.py:16-19 | both toggles start true, the buffer is a fresh zeroed 2 x 2 array |
| `Clicks.ClickSaver.Update` | Thickness2.py:24-28 | `clicked` is negated; `checkColor` and the buffer are unchanged |
| `Clicks.ClickSaver.UpdateColor` | Thickness2.py:30-34 | `checkColor` is negated; `clicked` and the buffer are unchanged |
| `Clicks.ClickSaver.Flush` | Thickness2.py:36-37 | the buffer is replaced by a fresh zeroed 2 x 2 array; `clicked` and `checkColor` are kept |
| `Clicks.UpdateTwiceRestores` | Thickness2.py:24-28 | `update` is its own inverse: two calls restore the whole state |
| `Clicks.UpdateColorTwiceRestores` | Thickness2.py:30-34 | `update_color` is its own inverse: two calls restore the whole state |
| `Pixels.IsBlack` | Thickness2.py:47-52 | dark iff each of the first three channels is strictly below the threshold |
| `Pixels.IsBlackIgnoresExtraChannels` | Thickness2.py:47-52 | channels after the third never change the verdict |
| `Pixels.IsBlackMonotone` | Thickness2.py:47-52 | a pixel dark under a threshold stays dark under any larger one |
| `Pixels.PyIndex` | Thickness2.py:91 | an index selects an element iff it lies in [-n, n), the element i or i + n |
| `Pixels.PixelAt` | Thickness2.py:91 | an in-range sample reads `img[floor(y)][floor(x)]`; a row index out of [-n, n) raises; any pixel read has three channels |
| `Pixels.Classification` | Thickness2.py:86-91 | some classification exists iff every sample lies in the image; then it has one entry per sample, dark iff the pixel under the sample is dark |
| `Geometry.SqDist` | Thickness2.py:109-110 | the squared distance between two boundary points is non-negative and 0 for a point with itself |
| `Geometry.Linspace` | Thickness2.py:78 | `steps` x samples, the first x0, the last x1, equally spaced by (x1 - x0) / (steps - 1) |
| `Geometry.LinspaceGap` | Thickness2.py:78 | samples i <= j are (j - i) steps apart |
| `Geometry.Slope` | Thickness2.py:80-81 | the slope times the `eps`-shifted x difference is the y difference y0 - y1 |
| `Geometry.Intercept` | Thickness2.py:82 | `b` makes the line pass exactly through the first click |
| `Geometry.SampleYs` | Thickness2.py:84 | one y sample per x sample |
| `Geometry.EndpointBias` | Thickness2.py:80-84 | because of `eps` the line misses the second click by (y0 - y1) * eps / (x0 - x1 + eps) |
| `Geometry.ExactLineWithoutEps` | Thickness2.py:80-84 | with eps = 0 and distinct x, the line passes through both clicks |
| `Geometry.SampleSqDist` | Thickness2.py:84 | two samples on y = a*x + b are (xj - xi)^2 * (1 + a^2) apart, squared |
| `Geometry.LineSampleSqDist` | Thickness2.py:78-84 | samples i < j are ((j - i) * (x1 - x0) / (steps - 1))^2 * (1 + a^2) apart, squared |
| `BoundaryScan.Step` | Thickness2.py:97-105 | a sample is appended iff its classification equals `check_color`, and each append flips `check_color` exactly once |
| `BoundaryScan.Scan` | Thickness2.py:97-105 | the scan records at most one index per sample, each in range, in strictly increasing order |
| `BoundaryScan.ScanParity` | Thickness2.py:97-105 | the final `check_color` is its initial value XOR (the number of records is odd) |
| `BoundaryScan.ScanFinalPhase` | Thickness2.py:97-105 | after a non-empty scan `check_color` is the negation of the last classification |
| `BoundaryScan.ScanRecordsBoundaries` | Thickness2.py:97-105 | index i is recorded iff its classification differs from the previous one; the sample before index 0 counts as the opposite of the initial phase (not dark from phase true) |
| `BoundaryScan.ScanAlternates` | Thickness2.py:97-105 | the classifications at the recorded indices alternate: the initial phase, its negation, and so on (dark, not dark, ... from phase true) |
| `BoundaryScan.ScanAllLight` | Thickness2.py:97-105 | from phase true, samples with no dark one record nothing and leave the phase unchanged |
| `BoundaryScan.ScanLightFromOpenRun` | Thickness2.py:97-105 | from phase false, samples with no dark one record exactly index 0 |
| `BoundaryScan.ScanOddIffOpenRun` | Thickness2.py:97-105 | from phase true the record count is odd iff a dark run reaches the last sample |
| `BoundaryScan.SingleRunRecords` | Thickness2.py:97-105 | a single dark run on [lo, hi] records [lo, hi + 1], or only [lo] when hi is the last sample |
| `Measurement.ReportOf` | Thickness2.py:108-131 | the pairing raises iff the boundary count is odd, a count of 1 included; "no black area" iff there is no boundary; the number of lengths is half the count |
| `Measurement.Pairs` | Thickness2.py:122-131 | one thickness per consecutive pair 0-1, 2-3, ..., its square being the squared distance of the pair; an unpaired last point gives none |
| `Measurement.ReportsUnique` | Thickness2.py:109-116 | `Thickness.Reports` (printed pixel length = non-negative root of the squared distance, physical length = pixel length times `conversion`) determines both printed numbers uniquely |
| `Measurement.ReportLengths` | Thickness2.py:108-131 | the three-way branch and the `ind += 2` pairing loop print pair 0-1, 2-3, ... and raise at an unpaired last point, as `ReportOf` states |
| `Measurement.Samples` | Thickness2.py:78-84 | `steps` samples from the first click to the second, and the first y sample is exactly y0 |
| `Measurement.Measure` | Thickness2.py:77-131 | a measurement always ends in a report or an exception; an exception before the scan leaves the phase unchanged |
| `Measurement.ClassifySamples` | Thickness2.py:86-91 | the loop fills `black[i]` with the darkness of the pixel under sample i, or fails exactly when some sample is out of the image |
| `Measurement.ScanBoundaries` | Thickness2.py:93-105 | the scan loop appends the points at `Scan`'s recorded indices and leaves `checkColor` at `Scan`'s final phase; nothing else on the click saver changes |
| `Measurement.MouseClicked` | Thickness2.py:55-133 | an unaccepted click changes nothing; a first click writes only row 0 and measures nothing; a second click writes row 1, restores `clicked`, gives `Measure`'s outcome and phase, and zeroes the buffer unless an exception was raised |
| `Measurement.ClickTwice` | Thickness2.py:59-75 | two accepted clicks from the awaiting-first-click phase measure the segment between them and return `clicked` to true |
| `Measurement.MeasureNoDarkSample` | Thickness2.py:117-118 | from phase true, a line with no dark sample reports "no black area" and keeps the phase |
| `Measurement.MeasureRaisesIffOpenRun` | Thickness2.py:96-131 | from phase true, the measurement raises iff a dark run reaches the second click, and only then leaves the phase false |
| `Measurement.MeasureAfterOpenRun` | Thickness2.py:96-131 | from phase false (the carried-over phase), a line with no dark sample records one boundary and raises having printed nothing |
| `Measurement.MeasureSingleRun` | Thickness2.py:96-116 | from phase true, one dark run [lo, hi] ending before the last sample reports one thickness, from sample lo to sample hi + 1, and leaves the phase true |

## Left out

- `picture` and `main` (Thickness2.py:40-44, 136-166) are not part of this model. They load the image file, show it, read the file name from the console and register the click callback. The image is a parameter instead.
- `get_clicked` (Thickness2.py:21-22) is read directly as the field `clicked`.
- Matplotlib event details (`event.button`, the toolbar mode, `event.inaxes`) are folded into one boolean `accepted`. `event.xdata` and `event.ydata` are parameters.
- `print` output is not modelled as text. The lengths that would be printed are returned as `Thickness` values, and "no black area" as `NoBlackArea`.
- Floating point is not modelled. Coordinates are exact reals, so the exact spacing of `np.linspace` and the rounding caused by the `0.0000001` epsilon are left out. `eps` is a parameter.
- `Measurement.Thickness` holds the squared pixel distance, not its `np.sqrt`, since there is no real square root here. Its predicate `Reports` states the relation: the printed pixel length is the non-negative root, and the printed physical length is that root times `conversion`.
- Geometry.SqDist: states only non-negativity and zero for equal points. The converse, zero only for equal points, is not stated.
- Pixels.PixelAt: states the in-range and row-out-of-range cases. For the other cases it is defined through `PyIndex` but states nothing further.
- A pixel must have at least three channels (`Pixels.WellFormed`). A two-dimensional (grey-scale) image, where `pix[0]` fails on a scalar, is not modelled.
