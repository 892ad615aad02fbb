# Ad-spending regression explorer, modelled in Dafny

The page loads a two-column CSV of ad spending (`x`) against revenue (`y`),
draws it twice, and overlays a user-controlled linear model and a quadratic
model. Each chart shows the model's curve over a fixed grid, one dotted
vertical segment per data point from the observed value to the prediction,
and the model's mean absolute error (MAE). Five slider/number pairs hold the
coefficients; the number input is the master value.

This project models the logic of `app.js` with the browser removed:

- `jsstring.dfy` (module `JsString`): the string built-ins the loader relies
  on. These are `split` with a one-character separator, `trim`, and
  `toLowerCase` as it matters to the header test. `Join` is added as the
  partner of `Split`.
- `loader.dfy` (module `Loader`): the parsing body of `loadCSVData`. The
  method `ParseCsv` keeps the source's loop over the kept lines. It is proved
  against the specification function `ParsedRows`, and the lemmas state the
  parser's properties about that function: equal lengths, file order, the
  header rule, blank lines, ignored extra fields, and failure on blank text.
- `plot.dfy` (module `Plot`): the pure computations of `updatePlot`. These
  are the 100-point fit grid, the two curves, the residual segments and the
  MAE, plus the y-axis bounds of the load callback. Arithmetic is over
  `real`. The JavaScript values `NaN`, `Infinity` and `-Infinity` appear as
  cases of the datatype `Number`, where the source can produce them from
  real inputs.
- `controller.dfy` (module `Controller`): the page state as the class `Page`.
  It holds `data`, `yMin`, `yMax`, the controls, and the list of views handed
  to the charting library. Its methods are the load callback (`Load`),
  `updatePlot` (`UpdatePlot`) and `syncValue` (`SyncValue`).

`parseFloat` is a parameter of type `string -> real` and is left
uninterpreted. The DOM becomes a map from a control's prefix (`"B0_linear"`,
...) to a `Control` record. That record holds the slider's value, the number
input's value and the label's text. The charting library becomes the
sequence `Page.rendered`: each `updatePlot` on loaded data appends one `View`
holding both charts' data and the fixed y-range.

Two behaviours of the code are worth knowing:

- The header test looks at the whole first non-blank line. It drops that
  line when it holds an `x` or an `X` anywhere, whatever the first field is.
- A file can load with no rows at all: only a header line, or only lines
  without a comma. The callback then runs with `x = y = []`. The bounds
  become `Infinity` and `-Infinity`, and both MAEs become `NaN`
  (`Plot.AxisBoundsEnclose`, `Plot.MaeZeroIff`).

## Model

| member | source | states |
|---|---|---|
| `JsString.Split` | app.js:29 | `text.split(sep)`, defined by recursion on the text; its properties are in `JoinSplit`, `SplitJoin`, `SplitPiecesLackSeparator` and `SplitHasTwoPieces` |
| `JsString.Trim` | app.js:29 | `line.trim()`, defined as `TrimEnd(TrimStart(line))`; its properties are in `TrimStartIsSuffix`, `TrimEndIsPrefix` and `TrimEmptyIff` |
| `JsString.ToLower` | app.js:31 | `line.toLowerCase()`, defined character by character and keeping the length; the header test on it is stated by `LowerHasX` |
| `JsString.JoinSplit` | app.js:29 | joining the pieces of `text.split("\n")` with the separator gives the text back |
| `JsString.SplitJoin` | app.js:35 | splitting separator-free pieces joined by the separator gives exactly those pieces back |
| `JsString.SplitPiecesLackSeparator` | app.js:35 | no piece of a split holds the separator |
| `JsString.SplitHasTwoPieces` | app.js:35-36 | `line.split(",")` has at least two pieces exactly when the line holds a comma |
| `JsString.TrimStartIsSuffix` | app.js:29 | trimming the start keeps a suffix that does not start with whitespace, and cuts only whitespace |
| `JsString.TrimEndIsPrefix` | app.js:29 | trimming the end keeps a prefix that does not end with whitespace, and cuts only whitespace |
| `JsString.TrimEmptyIff` | app.js:29 | `line.trim() === ""` holds exactly when every character of the line is whitespace |
| `JsString.LowerHasX` | app.js:31 | `line.toLowerCase().includes("x")` holds exactly when the line holds `x` or `X` |
| `Loader.KeptLines` | app.js:29-33 | the lines split on `\n`, filtered by `NonBlank`, then without the first one when it holds an `x`; `None` where `lines[0]` throws on an empty list; its properties are in `NonBlankEmptyIff`, `HeaderRule` and `LoadFailsIffBlankText` |
| `Loader.LineRow` | app.js:35-38 | the row a line contributes: its first two comma fields when there are at least two, nothing otherwise; its properties are in `LineRowCount`, `LineRowIgnoresLaterFields` and `BlankLineHasNoRow` |
| `Loader.Rows` | app.js:34-40 | the rows the `forEach` pushes, defined as the rows of all but the last line followed by the last line's row; its properties are in `RowsAppend`, `RowsCount` and `RowsIgnoreBlankLines` |
| `Loader.ParsedRows` | app.js:26-41 | the rows of `KeptLines`, or `None` where the parse throws; `ParseCsv` is proved against it, and `HeaderRule` and `LoadFailsIffBlankText` state its properties |
| `Loader.NonBlank` | app.js:29 | the filter keeps at most the lines it is given, and every kept line is non-blank |
| `Loader.ToDataset` | app.js:37-38 | the dataset built from the rows has `x` and `y` of the same length as the rows |
| `Loader.ParseCsv` | app.js:26-43 | fails exactly when no line is non-blank; otherwise returns `x` and `y` of equal length, holding `parseFloat` of the first and second fields of the rows of `ParsedRows`, in order |
| `Loader.RowsAppend` | app.js:34-40 | rows come out in file order: the rows of two runs of lines are the first run's rows followed by the second's |
| `Loader.LineRowCount` | app.js:35-36 | a line contributes one row when it holds a comma and none otherwise |
| `Loader.RowsCount` | app.js:34-40 | the number of rows, hence of `x` and `y` values, is the number of visited lines with at least two comma fields |
| `Loader.LineRowIgnoresLaterFields` | app.js:35-38 | a line of two or more comma-separated fields gives its first two fields; the later fields are ignored |
| `Loader.BlankLineHasNoRow` | app.js:29 | a blank line contributes no row |
| `Loader.RowsIgnoreBlankLines` | app.js:29 | dropping the blank lines changes no row |
| `Loader.NonBlankAppend` | app.js:29 | the filter of two runs of lines is the filter of the first followed by that of the second |
| `Loader.NonBlankEmptyIff` | app.js:29-31 | no line survives the filter exactly when every line is blank |
| `Loader.HeaderRule` | app.js:29-40 | the first non-blank line is dropped when it holds `x` or `X`, and every later line keeps its row; otherwise no row is lost |
| `Loader.JoinAllWhitespace` | app.js:29 | every character of the joined lines is whitespace exactly when every line is made only of whitespace |
| `Loader.LoadFailsIffBlankText` | app.js:29-31 | parsing fails, so the callback is never invoked, exactly when the text is empty or only whitespace and line breaks |
| `Loader.ParseExample` | app.js:26-40 | `"x,y\n1,2\n\n3,4,5\n"` yields the rows (1, 2) and (3, 4) |
| `Loader.ExampleLines` | app.js:29 | the example text splits into its five lines |
| `Loader.ExampleLineRows` | app.js:35-38 | the example's lines give the rows (1, 2), (3, 4) and nothing |
| `Loader.ExampleRows` | app.js:34-40 | the example's kept lines give the rows (1, 2) and (3, 4) |
| `Plot.Predict` | app.js:65-66 | the prediction `B0 + B1 * x` or `B0 + B1 * x + B2 * x * x`, also the `predicted` of app.js:70 and app.js:83; its properties are in `PredictDifferences` |
| `Plot.Curve` | app.js:65-66 | `xFit.map(...)` of the prediction; its values over the fit grid are in `FitCurveDifferences` |
| `Plot.PredictDifferences` | app.js:65-66 | along points spaced `h` apart a linear prediction steps by `B1*h`, and a quadratic one has second difference `2*B2*h*h` |
| `Plot.FitGrid` | app.js:62 | the grid has 100 points, from 0 to 1980, 20 apart |
| `Plot.FitCurveDifferences` | app.js:62-66 | both curves have 100 points; point `i` of the linear curve is `B0 + B1 * 20i` and of the quadratic curve `B0 + B1 * 20i + B2 * (20i)^2`; the linear curve rises by `20*B1` per step and the quadratic one has second difference `800*B2` |
| `Plot.ResidualSegments` | app.js:69-92 | one vertical segment per data point, from `y[i]` to the prediction at `x[i]`; its properties are in `ViewShape` and `SegmentsMeasureErrors` |
| `Plot.AbsErrorSum` | app.js:127 | the `reduce` over the first `n` points of the absolute value of `y[i] - prediction(x[i])`, from 0; its properties are in `AbsErrorSumZeroIff` and `SegmentsMeasureErrors` |
| `Plot.Mae` | app.js:127 | the sum divided by `data.x.length`, which is `NaN` for no data; its properties are in `MaeZeroIff`, `MaeIsMeanSegmentLength` and `MaeExample` |
| `Plot.AbsErrorSumZeroIff` | app.js:127 | the running sum of absolute errors is non-negative, and zero exactly when the points summed lie on the curve |
| `Plot.MaeZeroIff` | app.js:127 | for data, the MAE is a non-negative real, zero exactly when every point lies on the curve; for no data it is `NaN` |
| `Plot.SegmentsMeasureErrors` | app.js:69-92 | the residual segments' total length is the sum of absolute errors |
| `Plot.MaeIsMeanSegmentLength` | app.js:127 | the MAE shown is the mean length of the segments drawn |
| `Plot.MaeExample` | app.js:127 | the points (0, 10) and (20, 30) under intercept 10 and slope 1 give MAE 0 |
| `Plot.ViewOf` | app.js:51-145 | what one `updatePlot` hands to both charts: the points, the fit grid, each model's curve, segments and MAE, and the y-range; its properties are in `ViewShape` and `ModelsAreIsolated` |
| `Plot.ViewShape` | app.js:62-92 | each chart has 100 curve points and one segment per data point; each segment is vertical, from `y[i]` to the model's prediction at `x[i]` |
| `Plot.ModelsAreIsolated` | app.js:65-142 | the linear chart (curve, segments, MAE) depends only on the linear coefficients, and the quadratic chart only on the quadratic ones |
| `Plot.MinReal` | app.js:151 | the minimum is one of the values and no value is smaller |
| `Plot.MaxReal` | app.js:152 | the maximum is one of the values and no value is larger |
| `Plot.Add` | app.js:151-152 | JavaScript's `n + delta` for a finite `delta`: the infinities absorb it; it is reached through `AxisMin` and `AxisMax`, whose properties are in `AxisBoundsEnclose` |
| `Plot.MathMin` | app.js:151 | `Math.min(...ys)`: `Infinity` for no values, else `MinReal(ys)`; its properties are in `MinReal` and `AxisBoundsEnclose` |
| `Plot.MathMax` | app.js:152 | `Math.max(...ys)`: `-Infinity` for no values, else `MaxReal(ys)`; its properties are in `MaxReal` and `AxisBoundsEnclose` |
| `Plot.AxisMin` | app.js:151 | `yMin`, defined as `Add(MathMin(ys), -10)`; its properties are in `AxisBoundsEnclose` |
| `Plot.AxisMax` | app.js:152 | `yMax`, defined as `Add(MathMax(ys), 10)`; its properties are in `AxisBoundsEnclose` |
| `Plot.AxisBoundsEnclose` | app.js:151-152 | for data, the range is finite, holds every `y` at least 10 inside each bound, meets a `y` at exactly 10 from each bound, and is not empty; for no data it is (Infinity, -Infinity) |
| `Controller.Synced` | app.js:13-18 | `syncValue`'s effect on one control: from the slider, the number input and the label take the slider's value; otherwise the label takes the number input's value; its properties are in `SyncedShowsMaster` and `SyncedIdempotent` |
| `Controller.SyncedShowsMaster` | app.js:13-18 | from the slider, the number input and the label take the slider's value; otherwise the label takes the number input's value; the slider itself is never written |
| `Controller.SyncedIdempotent` | app.js:13-18 | a second sync from the same source changes nothing |
| `Controller.ParamsReadNumbersOnly` | app.js:55-59 | the coefficients depend only on the number inputs, never on the sliders or labels |
| `Controller.ParamsOf` | app.js:55-59 | the five coefficients, `parseFloat` of the five number inputs; its properties are in `ParamsReadNumbersOnly` |
| `Controller.Page.constructor` | app.js:47-48 | before loading, `data` is unset, the bounds are 0 and nothing is drawn |
| `Controller.Page.UpdatePlot` | app.js:51-145 | without data, draws nothing; with data, draws one view from the data, the number inputs and the bounds; never changes data, bounds or controls |
| `Controller.Page.SyncValue` | app.js:10-20 | updates the named control as `Synced` says, leaves every other control alone, and refreshes exactly once |
| `Controller.Page.Load` | app.js:23-44 | on a failed parse nothing changes; otherwise stores the dataset, sets `yMin` and `yMax` to the bounds of its `y` and refreshes once |
| `Controller.Page.RefreshTwice` | app.js:51-145 | two refreshes with nothing changed between them draw the same charts |

## Left out

- The `fetch`, the promise chain and `console.error` (app.js:24-25, 43) are network I/O and logging. `Page.Load` takes the fetched text; a failed fetch is a `Load` that is never called.
- The `Plotly.newPlot` calls and the layout and styling objects (app.js:95-120, 132-135) belong to a third-party renderer. `View` keeps only the data each chart is given: the points, the grid, each model's curve, segments and MAE value, and the y-range.
- The equation and MAE text and its `toFixed` formatting (app.js:122-129, 137-144) are number formatting done by the JavaScript runtime. The MAE value itself is modelled.
- The DOM lookups and `window.syncValue` (app.js:11-17, 55-59, 157) are modelled as the map `Page.controls`. `SyncValue` requires the prefix to be in the map; on the page, the handlers only pass prefixes that exist.
- `Controller.Page`: the model assumes all five `*_num` inputs exist (`HasParamControls`, required by the constructor and kept by `Valid`). On the page, a missing one makes `getElementById(...).value` throw at app.js:55-59 on every refresh once data is loaded; that failure is not modelled.
- IEEE-754 doubles are not modelled. Arithmetic is over `real`, and `Math.pow(x, 2)` is `x * x`.
- `parseFloat` is an uninterpreted total function to `real`. The `NaN` it returns for text that is not a number, and the way such a `NaN` spreads through curves and MAE, are not modelled.
- `Plot.Number` covers only the non-real values the source can produce from real inputs: `NaN` from `0 / 0` and the infinities of `Math.min()` and `Math.max()` with no arguments.
- `JsString.Trim` removes a fixed set of whitespace characters: space, tab, line feed, vertical tab, form feed, carriage return, U+00A0 and U+FEFF. JavaScript's `trim` also removes the other Unicode space separators and U+2028/U+2029.
- `JsString.ToLower` lowers only ASCII letters. No other character lowercases to `x`, so the header test is unaffected.
- JavaScript strings are UTF-16, while a Dafny `string` is a sequence of Unicode scalar values. Splitting on `\n` and `,` gives the same pieces either way.
- `JsString.Split`: its own contract says only that there is at least one piece. What it computes is stated by `JoinSplit`, `SplitJoin` and `SplitPiecesLackSeparator`.
- A window-resize handler and a second, near-duplicate copy of the page script are not part of `app.js`, and are not modelled.
