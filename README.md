# Panal honeycomb engine, in Dafny

This project models the core of *panal*, a page that draws a school's monthly
payments as a honeycomb. There are 300 families and 400 aportes (payments, one
per child); 40 families are in mora (overdue). Each payment is one hexagonal
cell, coloured from white through mint to deep blue by its amount. Cells in
mora are dark, and the cells outside the data cluster are background.

The model covers the following:

- **Engine (`Honeycomb`, lib/hooks/useCanvas.ts).**
  - On a change of size, it fits the hexagon size to the screen and lays an
    axial hex grid over the viewport.
  - It gives the cells within `DATA_RADIUS` of the centre to the data records
    in visiting order, draws every visible cell and keeps the index of data
    cells.
  - Otherwise it repaints, by index, only the cells whose amount changed since
    the previous render.
  - The canvas is a class whose drawing context keeps an append-only log of
    the calls made on it (`CanvasUtils.Canvas`).
- **Drawing helpers (`CanvasUtils`, lib/canvas-utils.ts):** the hexagon path
  with its fill and stroke, and the grid layout.
- **Payment colour (`ColorUtils`, lib/color-utils.ts):** a clamped
  interpolation over six HSL stops. The hue is interpolated linearly, with no
  wrap-around.
- **Constants (`Constants`, lib/constants.ts):** the constants, including the
  radius formula `3r² + 3r + 1 >= TOTAL_APORTES`.
- **Data generation and statistics (`DataUtils`, lib/data-utils.ts):** the
  aportes of each family, the mora indices, and the payment statistics.
  Randomness is a sequence of draws in [0, 1) passed in as a parameter.
- **Abbreviated amounts (`FormatUtils`, lib/format-utils.ts):** the "1.5K" /
  "2M" / "3.1B" format. `toFixed(1)` is rounding to tenths.
- **The two state hooks.**
  - `FamiliaState` (lib/hooks/useFamiliaData.ts): generation on mount, a
    designated family outside mora, and the rescaling of that family by a
    percentage from its initial snapshot.
  - `StudentState` (lib/hooks/useStudentData.ts): the per-student variant.
  - Both are classes whose methods update the hook's state.
- **Toolbar values (`ToolbarValues`, components/Toolbar.tsx):** the values the
  toolbar computes, namely the month name, the balance, the fixed display of
  the family total, and the budget sliders.

Modelling conventions:

- **Numbers.** JavaScript numbers are modelled as `real`; the model has no
  floating-point rounding.
  - `Math.round(x)` is `Floor(x + 0.5)`.
  - `Math.ceil` is written out.
  - √3 is a parameter `s3` with `s3 > 0 && s3 * s3 == 3`.
- **The data record of a cell** is the record the hook actually builds:
  `{x, y, size, dataIndex, hasData}`. The interface declared in lib/types.ts
  has `familiaIndex` and `aporteId` instead, and the code disagrees with it;
  the model follows the code.
- **`TOTAL_STUDENTS`** is imported from lib/constants.ts, but that file does
  not define it. The model takes it as a parameter `n`.

## Model

| member | source | states |
|---|---|---|
| Numbers.Round | lib/color-utils.ts:23-25 | Math.round lands within one half of its argument |
| Numbers.RoundBetween | lib/color-utils.ts:23-25 | rounding a value between two integers stays between them |
| Numbers.RoundOfInt | components/Toolbar.tsx:102-103 | rounding an integer gives it back |
| Numbers.Ceil | lib/constants.ts:13 | Math.ceil is the least integer not below its argument |
| Constants.ConstantsConsistent | lib/constants.ts:2-8 | STANDARD_PAYMENT is BUDGET / TOTAL_APORTES (500000), so 400 standard payments make the budget; MIN_PAYMENT < MAX_PAYMENT; MORA_COUNT <= families <= aportes; minHexSize <= maxHexSize |
| Constants.RadiusFormulaIsLeast | lib/constants.ts:10-13 | for any n >= 1, the closed form ceil((-3 + sqrt(9 + 12(n-1))) / 6) gives the least radius r whose hexagon of 3r²+3r+1 cells holds n cells |
| Constants.DataRadiusIsFormula | lib/constants.ts:13 | DATA_RADIUS is 12, and 12 is the least radius whose hexagon holds the 400 aportes (469 >= 400 > 397) |
| ColorUtils.Clamped | lib/color-utils.ts:6-7 | the normalised amount is in [0, 1]: 0 at or below MIN_PAYMENT, 1 at or above MAX_PAYMENT, proportional in between |
| ColorUtils.LowerStop | lib/color-utils.ts:18-19 | the lower stop is a valid index into the six stops |
| ColorUtils.UpperStop | lib/color-utils.ts:20 | the upper stop is the next stop, or the last stop when the lower one is already last |
| ColorUtils.Fraction | lib/color-utils.ts:21 | the interpolation parameter t is in [0, 1) |
| ColorUtils.LerpBetween | lib/color-utils.ts:23-25 | a rounded interpolation with t in [0, 1] lies between its two ends, and t = 0 gives the first end |
| ColorUtils.PaymentColor | lib/color-utils.ts:5-28 | each of h, s and l of a payment colour lies between those of its two neighbouring stops |
| ColorUtils.PaymentColorOnStop | lib/color-utils.ts:18-27 | an amount that falls exactly on a stop gets that stop's colour |
| ColorUtils.PaymentColorAtStopValue | lib/color-utils.ts:6-27 | the k-th evenly spaced amount between MIN and MAX gets the k-th stop's colour |
| ColorUtils.PaymentColorBelowRange | lib/color-utils.ts:6-10 | amounts at or below MIN_PAYMENT are white |
| ColorUtils.PaymentColorAboveRange | lib/color-utils.ts:6-15 | amounts at or above MAX_PAYMENT are deep blue |
| ColorUtils.StandardPaymentColor | lib/color-utils.ts:6-27 | STANDARD_PAYMENT (500000) is 2/9 of the way from the third stop to the fourth, and its colour is hsl(142, 44%, 82%) |
| ColorUtils.PaymentColorIsNotMora | lib/color-utils.ts:9-16 | no payment colour has lightness below 45, so none is the mora colour |
| CanvasUtils.Canvas.Resize | lib/hooks/useCanvas.ts:27-28 | the canvas takes the new size |
| CanvasUtils.Canvas.Draw | lib/canvas-utils.ts:16-30 | a context call is appended to the log and nothing earlier changes |
| CanvasUtils.PathCalls | lib/canvas-utils.ts:16-23 | the path is beginPath, moveTo, five lineTo and closePath (8 calls) |
| CanvasUtils.PaintCalls | lib/canvas-utils.ts:25-30 | painting is fill style, fill, stroke style, line width and stroke (5 calls) |
| CanvasUtils.HexagonCalls | lib/canvas-utils.ts:5-31 | one hexagon is 13 context calls |
| CanvasUtils.DrawHexagon | lib/canvas-utils.ts:5-31 | drawHexagon appends exactly the hexagon's calls to the context log |
| CanvasUtils.TracePath | lib/canvas-utils.ts:16-23 | tracing the outline appends exactly the path calls |
| CanvasUtils.PaintPath | lib/canvas-utils.ts:25-30 | filling and stroking appends exactly the paint calls |
| CanvasUtils.HexagonVertices | lib/canvas-utils.ts:13-22 | six vertices starting at (x + size, y); opposite vertices are symmetric about the centre, and the top and bottom edges are horizontal |
| CanvasUtils.HexagonIsRegular | lib/canvas-utils.ts:13-23 | the six vertices are at distance `size` from the centre and from each neighbour, closing back to the first: a regular hexagon |
| CanvasUtils.CornersAtSize | lib/canvas-utils.ts:13-22 | every vertex is at distance `size` from the centre |
| CanvasUtils.SidesAtSize | lib/canvas-utils.ts:17-22 | consecutive vertices are `size` apart |
| CanvasUtils.HalfAndRise | lib/canvas-utils.ts:13-14 | (size/2)² + (size·√3/2)² = size² |
| CanvasUtils.HexagonCallsTraceVertices | lib/canvas-utils.ts:16-30 | the points the calls visit are the six vertices in order, and the path is filled with the colour and stroked with it for data cells or with the background border otherwise |
| CanvasUtils.PathOfAppend | lib/canvas-utils.ts:16-23 | the points visited by two runs of calls are those of each run, in order |
| CanvasUtils.PathOfPaint | lib/canvas-utils.ts:25-30 | painting visits no points |
| CanvasUtils.PathOfPath | lib/canvas-utils.ts:16-23 | tracing any six vertices visits exactly those vertices |
| CanvasUtils.CalculateHexagonGrid | lib/canvas-utils.ts:34-53 | cell steps are positive; viewportRadius - 2 steps cover the viewport both ways, and viewportRadius - 3 steps fall short of it in at least one direction, so the radius is the least that covers |
| CanvasUtils.BelowCeilScaled | lib/canvas-utils.ts:44 | one step fewer than Math.ceil(length / step) falls short of the length |
| CanvasUtils.GridCentredInBand | lib/canvas-utils.ts:35-42 | the grid is centred horizontally and on the band between the top and bottom chrome (narrow and wide screen sizes), with steps 1.5·size and √3·size |
| Honeycomb.HexSize | lib/hooks/useCanvas.ts:34-50 | the hex size is within [minHexSize, maxHexSize] |
| Honeycomb.HexSizeIsLargest | lib/hooks/useCanvas.ts:40-50 | no size in [minHexSize, maxHexSize] at which the cluster fits the available height and width is larger than the chosen one |
| Honeycomb.HexSizeFitsCluster | lib/hooks/useCanvas.ts:40-50 | when the viewport has room for minimum-size cells, the data cluster at the chosen size fits the available height and width |
| Honeycomb.AvailableHeightAgrees | lib/hooks/useCanvas.ts:34-40 | the grid's vertical centre is the middle of the band the hex size was fitted to, although canvas-utils repeats the chrome sizes inline |
| Honeycomb.VisitedWithinRadius | lib/hooks/useCanvas.ts:59-72 | every cell the double loop visits is within cube distance R, and the distance the hook computes is an exact integer |
| Honeycomb.ValueOrNeverZero | lib/hooks/useCanvas.ts:81 | the amount a cell is coloured by is never zero: the recorded amount when it is non-zero, STANDARD_PAYMENT when it is missing or zero |
| Honeycomb.CellColorIsMoraExactly | lib/hooks/useCanvas.ts:76-82 | a data cell gets the mora colour iff its index is in moraIndices; otherwise it gets the payment colour of `aportes[i] \|\| STANDARD_PAYMENT` |
| Honeycomb.CallsOfAppend | lib/hooks/useCanvas.ts:89 | drawing one more hexagon extends the log by its calls |
| Honeycomb.DataDrawsAppend | lib/hooks/useCanvas.ts:73-89 | the data draws grow exactly by data cells |
| Honeycomb.StepConsistent | lib/hooks/useCanvas.ts:64-89 | one cell of the loop keeps the index and the drawn cells consistent |
| Honeycomb.ScanRowConsistent | lib/hooks/useCanvas.ts:63-90 | one row of the loop keeps them consistent |
| Honeycomb.ScanRowsConsistent | lib/hooks/useCanvas.ts:59-91 | the whole double loop keeps them consistent |
| Honeycomb.FullRedrawLaysOutData | lib/hooks/useCanvas.ts:55-92 | after a full redraw the index holds k <= n data cells numbered 0..k-1, the j-th data hexagon drawn is the j-th index entry (mora colour for indices in moraIndices, else the colour of `aportes[j] \|\| STANDARD_PAYMENT`), other cells are background, and no culled cell is drawn |
| Honeycomb.StepPlacedInShape | lib/hooks/useCanvas.ts:64-73 | one cell of the loop adds an index entry only at a visible cell within DATA_RADIUS |
| Honeycomb.ScanRowPlacedInShape | lib/hooks/useCanvas.ts:63-90 | one row keeps every index entry at a visible in-shape cell |
| Honeycomb.ScanRowsPlacedInShape | lib/hooks/useCanvas.ts:59-91 | the whole double loop keeps every index entry at a visible in-shape cell |
| Honeycomb.FullScanInShape | lib/hooks/useCanvas.ts:64-73 | after a full redraw every data cell is centred on a visible cell (q, r) whose hex distance from the centre is at most DATA_RADIUS |
| Honeycomb.ScanRowCount | lib/hooks/useCanvas.ts:63-90 | one row hands out min(n, the number before plus the visible in-shape cells of the row) |
| Honeycomb.ScanRowsCount | lib/hooks/useCanvas.ts:59-91 | the rows hand out min(n, the visible in-shape cells) |
| Honeycomb.FullScan | lib/hooks/useCanvas.ts:55-92 | after the double loop dataId is the number of index entries and is at most the number of records |
| Honeycomb.FullRedrawCoverage | lib/hooks/useCanvas.ts:59-92 | the index has min(n, the number of visible cells within DATA_RADIUS) entries |
| Honeycomb.FindCell | lib/hooks/useCanvas.ts:100 | find returns a cell of the index with that dataIndex, or none when no cell has it |
| Honeycomb.FindCellIsFirst | lib/hooks/useCanvas.ts:100 | the cell found is the first with that dataIndex: every cell before it has another |
| Honeycomb.FullRedrawIndexed | lib/hooks/useCanvas.ts:59-92 | the index a full redraw builds has entry i for data cell i |
| Honeycomb.FindCellIndexed | lib/hooks/useCanvas.ts:100 | in an index numbered from `offset`, find returns the cell at position i - offset, or none out of range |
| Honeycomb.RepaintsExactly | lib/hooks/useCanvas.ts:98-106 | a hexagon is repainted iff it is the cell of some index whose amount changed, in that amount's payment colour |
| Honeycomb.RepaintsNothingWhenUnchanged | lib/hooks/useCanvas.ts:98-106 | re-rendering the same amounts draws nothing |
| Honeycomb.RepaintsNothingBefore | lib/hooks/useCanvas.ts:98-106 | equal leading amounts add no repaints |
| Honeycomb.RepaintsUnchangedFrom | lib/hooks/useCanvas.ts:98-106 | a stretch of unchanged indices adds no repaints |
| Honeycomb.RepaintsAtChange | lib/hooks/useCanvas.ts:98-104 | the first changed index repaints its own cell once, if it has one |
| Honeycomb.RepaintsSingleChange | lib/hooks/useCanvas.ts:98-106 | when exactly one amount changes, exactly that cell is repainted (nothing if it has no cell) |
| Honeycomb.IncrementalMatchesFullRedraw | lib/hooks/useCanvas.ts:81-103 | for a non-mora data cell with a non-zero amount, the repaint draws the same hexagon as the full redraw |
| Honeycomb.IncrementalPaintsZeroWhite | lib/hooks/useCanvas.ts:81-103 | a non-mora data cell whose amount is 0 is drawn hsl(142, 44%, 82%) by the full redraw but repainted white by the incremental pass, which has no STANDARD_PAYMENT fallback |
| Honeycomb.IncrementalDropsMoraColor | lib/hooks/useCanvas.ts:77-103 | a mora cell drawn dark by the full redraw is repainted in a payment colour, which is never the mora colour |
| Honeycomb.HoneycombCanvas.constructor | lib/hooks/useCanvas.ts:14-16 | a fresh canvas with an empty log, and empty refs |
| Honeycomb.HoneycombCanvas.Render | lib/hooks/useCanvas.ts:18-109 | on a size change: resize, clear, then exactly the full scan's hexagons, with the index replaced; otherwise exactly the repaints of changed amounts and the same index; prevAportes becomes the amounts in both cases |
| Honeycomb.HoneycombCanvas.FullRedraw | lib/hooks/useCanvas.ts:25-94 | the size, log and index after a full redraw are those of the full-scan specification |
| Honeycomb.HoneycombCanvas.DrawRow | lib/hooks/useCanvas.ts:60-90 | the inner loop's result and log are those of the row specification |
| Honeycomb.HoneycombCanvas.DrawCell | lib/hooks/useCanvas.ts:64-89 | one cell's result and log are those of one step of the specification |
| Honeycomb.HoneycombCanvas.Paint | lib/hooks/useCanvas.ts:89 | one drawHexagon extends the log by that hexagon |
| Honeycomb.HoneycombCanvas.Incremental | lib/hooks/useCanvas.ts:98-106 | the log grows by exactly the repaints of changed amounts, in index order |
| Honeycomb.HoneycombCanvas.RepaintIndex | lib/hooks/useCanvas.ts:99-105 | one index of the loop adds its repaint, if any |
| FormatUtils.Digits | lib/data-utils.ts:14 | a number prints as decimal digits without a leading zero |
| FormatUtils.ValueOfDigits | lib/data-utils.ts:14 | the printed digits read back as the number |
| FormatUtils.DigitsInjective | lib/data-utils.ts:14 | different numbers print differently |
| FormatUtils.Tenths | lib/format-utils.ts:4 | toFixed(1) keeps the number of tenths nearest the value |
| FormatUtils.Fixed | lib/format-utils.ts:4 | toFixed(1) is a numeral, a point and one digit, and it reads back as the value rounded to tenths |
| FormatUtils.TrimPointZero | lib/format-utils.ts:5 | a trailing ".0" is dropped and nothing else: the result is a prefix of the input, shorter by exactly ".0" when the input ends with it and equal otherwise |
| FormatUtils.FormatWithSuffix | lib/format-utils.ts:3-7 | the text ends with the suffix and has something before it |
| FormatUtils.FormatWithSuffixShape | lib/format-utils.ts:3-7 | the text is the whole part, then ".d" only when the tenths digit d is not 0, then the suffix |
| FormatUtils.FormatWithSuffixReadsBack | lib/format-utils.ts:3-7 | the printed number reads back as the value rounded to tenths, within 0.05 of it |
| FormatUtils.FormatWithSuffixTrimmed | lib/format-utils.ts:5 | the text never ends in ".0" before the suffix |
| FormatUtils.FormatAbbreviated | lib/format-utils.ts:2-13 | amounts below 1000 are printed plainly; from 1000 up they get a suffix |
| FormatUtils.AbbreviatedSuffix | lib/format-utils.ts:9-11 | the suffix is B from 1e9, M in [1e6, 1e9) and K in [1e3, 1e6), in both directions |
| FormatUtils.AbbreviatedReadsBack | lib/format-utils.ts:9-11 | the abbreviation reads back as the amount in its unit, to one decimal |
| FormatUtils.ThousandK | lib/format-utils.ts:10-11 | 999950 prints as "1000K", not "1M": the unit is chosen before rounding |
| DataUtils.PickIndex | lib/data-utils.ts:30 | Math.floor(random · count) is a valid index |
| DataUtils.AporteIdInjective | lib/data-utils.ts:14 | different (family, aporte) pairs get different ids |
| DataUtils.SplitAfterDigits | lib/data-utils.ts:14 | a digit run followed by a non-digit splits only one way |
| DataUtils.AporteValue | lib/data-utils.ts:7-12 | with probability 0.9 the amount is within 50000 below to 49999 above STANDARD_PAYMENT; otherwise it is in [MIN_PAYMENT, MIN_PAYMENT + MAX_PAYMENT - 1] |
| DataUtils.CreateAporte | lib/data-utils.ts:6-17 | the aporte has id `familia-f-aporte-j` and the drawn amount |
| DataUtils.FlattenSingletons | lib/data-utils.ts:21-24 | 300 one-aporte families flatten to 300 aportes |
| DataUtils.FlattenAppendOne | lib/data-utils.ts:32 | pushing one aporte onto a family adds one to the total |
| DataUtils.AppendKeepsNumbering | lib/data-utils.ts:31-32 | appending aporte `length` to a family keeps every family's ids numbered from 0 and every amount in range |
| DataUtils.AppendCounts | lib/data-utils.ts:30-32 | after each push, each family's size is 1 plus the draws that picked it so far |
| DataUtils.GenerateAportes | lib/data-utils.ts:20-36 | 300 families; family f starts with aporte 0 from its own draw and has 1 + (draws picking f) aportes; every aporte j of family f has id `familia-f-aporte-j` and an amount in range; 400 aportes in all |
| DataUtils.DistinctPicks | lib/data-utils.ts:40-44 | k draws add at most k families to the set |
| DataUtils.DistinctPicksStep | lib/data-utils.ts:42 | each draw keeps the set's list so far and adds at most one family |
| DataUtils.DistinctPicksAreTheSet | lib/data-utils.ts:40-44 | the set's contents, in insertion order, are distinct, are exactly the families picked by the draws so far, and are below 300 |
| DataUtils.DrawsNeeded | lib/data-utils.ts:41-43 | the loop stops at a draw where the set has reached MORA_COUNT, and it had not reached MORA_COUNT at any earlier draw from where the scan started |
| DataUtils.DrawsNeededIs | lib/data-utils.ts:41-43 | the stopping draw is the first one at which the set reaches MORA_COUNT |
| DataUtils.MoraIndices | lib/data-utils.ts:39-45 | the returned indices are MORA_COUNT distinct families, each below NUMBER_OF_FAMILIES |
| DataUtils.GenerateMoraIndices | lib/data-utils.ts:39-45 | the loop consumes draws until the set first holds 40 families and returns 40 distinct family indices below 300, in insertion order |
| DataUtils.CalculatePaymentStats | lib/data-utils.ts:59-75 | each bucket's label is its abbreviated sum, with "+" for donaciones and "-" for becas |
| DataUtils.FamiliesWhereMembers | lib/data-utils.ts:49-50 | a family is kept by the filter iff it is at some index below k that is (or is not) in moraIndices |
| DataUtils.FlattenMembers | lib/data-utils.ts:49-50 | an aporte is in the flattened list iff some family holds it |
| DataUtils.FamiliesWhereAportes | lib/data-utils.ts:49-50 | the flattened filter holds exactly the aportes of the families whose index is (or is not) in moraIndices |
| DataUtils.MoraAportes | lib/data-utils.ts:49 | an aporte is a mora aporte iff it belongs to a family whose index is in moraIndices |
| DataUtils.NonMoraAportes | lib/data-utils.ts:50 | an aporte is a non-mora aporte iff it belongs to a family whose index is not in moraIndices |
| DataUtils.MoraSplitsAportes | lib/data-utils.ts:49-50 | the mora and non-mora aportes together are all the aportes (as a multiset) |
| DataUtils.AboveBelowSplit | lib/data-utils.ts:52-53 | the aportes above, below and at STANDARD_PAYMENT together are all of them (as a multiset) |
| DataUtils.AboveBelowMembers | lib/data-utils.ts:52-53 | donaciones are exactly the aportes above the standard, and becas exactly those below it |
| DataUtils.ExcessNonNegative | lib/data-utils.ts:56-57 | the donaciones and becas sums are non-negative, and positive when not empty |
| DataUtils.NetOfStandard | lib/data-utils.ts:52-57 | donaciones minus becas is the non-mora total minus STANDARD_PAYMENT per aporte |
| DataUtils.MoraCountsSplit | lib/data-utils.ts:49-50 | the mora and non-mora counts add up to all aportes |
| DataUtils.StandardCountsSplit | lib/data-utils.ts:52-53 | the above, below and at-standard counts add up to the whole |
| DataUtils.PaymentStatsAccount | lib/data-utils.ts:48-76 | mora count and sum are those of the mora families' aportes; the donaciones and becas sums are non-negative and net to the non-mora total minus the standard; the three counts plus the at-standard aportes are all aportes |
| DesignatedPick.PickOutside | lib/hooks/useFamiliaData.ts:21-25 | the do-while loop returns the first drawn index that is not excluded, which is below the count; every earlier draw picked an excluded index |
| FamiliaState.Rescaled | lib/hooks/useFamiliaData.ts:36-42 | each aporte keeps its id and has its initial value times the multiplier |
| FamiliaState.ChangeAportes | lib/hooks/useFamiliaData.ts:29-47 | only the designated family changes, and it becomes its initial snapshot rescaled by 1 + pct/100; without an initial family nothing changes |
| FamiliaState.ChangeWithoutInitial | lib/hooks/useFamiliaData.ts:33 | with no initial family at the index, the update is the identity |
| FamiliaState.ChangesDoNotCompound | lib/hooks/useFamiliaData.ts:31-43 | two changes in a row equal the last change alone |
| FamiliaState.ZeroPercentRestores | lib/hooks/useFamiliaData.ts:34-43 | a 0% change restores the initial family |
| FamiliaState.MinusHundredZeroes | lib/hooks/useFamiliaData.ts:34-43 | a -100% change zeroes the family and keeps its ids |
| FamiliaState.RescaledSum | lib/hooks/useFamiliaData.ts:36-42 | rescaling multiplies the family sum by the multiplier |
| FamiliaState.ChangedSums | lib/hooks/useFamiliaData.ts:28-58 | after a change, the designated family's sum is its initial sum times 1 + pct/100 and every other family's sum is unchanged |
| FamiliaState.FamilySumInFlatten | lib/hooks/useFamiliaData.ts:51-58 | a family's sum, as both getters compute it, is what that family adds to the running total of the flattened aportes |
| FamiliaState.FamilySumsTotal | lib/hooks/useFamiliaData.ts:51-53 | the families' sums add up to the sum of all aportes |
| FamiliaState.FamiliaData.constructor | lib/hooks/useFamiliaData.ts:7-10 | the initial state is empty, with designated index 0 |
| FamiliaState.FamiliaData.Mount | lib/hooks/useFamiliaData.ts:12-26 | the aportes and the initial snapshot are the same 300 families of 400 aportes; family f starts with the aporte of its own draw and has 1 + (draws picking f) aportes, numbered from 0; the mora indices are those the draws produce (40, below 300); the designated family is the first draw outside mora, so it is below 300 and not in mora |
| FamiliaState.FamiliaData.HandleAporteChange | lib/hooks/useFamiliaData.ts:28-58 | the aportes become the change of the previous aportes, and the designated family's sum becomes its initial sum times 1 + pct/100 |
| StudentState.WithSlot | lib/hooks/useStudentData.ts:26-30 | the copy has the new amount at the designated index and the same amounts elsewhere |
| StudentState.WithSlotTwice | lib/hooks/useStudentData.ts:25-31 | two changes in a row equal the last one |
| StudentState.WithSlotSame | lib/hooks/useStudentData.ts:25-31 | setting the amount already there changes nothing |
| StudentState.StudentData.constructor | lib/hooks/useStudentData.ts:6-8 | the initial state is empty, with designated index 0 |
| StudentState.StudentData.Mount | lib/hooks/useStudentData.ts:10-23 | the amounts are the generated ones, the mora indices those the draws produce, and the designated student is the first draw outside mora, so it is below n and not in mora |
| StudentState.StudentData.HandleAporteChange | lib/hooks/useStudentData.ts:25-31 | only the designated student's amount changes, to the new value |
| ToolbarValues.GetCurrentMonth | components/Toolbar.tsx:46-53 | the month name is one of the twelve Spanish names |
| ToolbarValues.MonthNamesDistinct | components/Toolbar.tsx:48-51 | different months have different names |
| ToolbarValues.ExpectedTotal | components/Toolbar.tsx:79 | the expected total is non-negative |
| ToolbarValues.ExpectedTotalOfGenerated | components/Toolbar.tsx:79 | for the 400 generated aportes the expected total is exactly the budget |
| ToolbarValues.Balance | components/Toolbar.tsx:78-80 | the balance and the expected total make up the total budget |
| ToolbarValues.GeneratedBalance | components/Toolbar.tsx:78-85 | for the 400 generated aportes the balance is the budget shown minus BUDGET, so the toolbar is in deficit iff the budget shown is below BUDGET |
| ToolbarValues.FamiliaAportesCount | components/Toolbar.tsx:83 | the count is 0 exactly when the family is missing or empty |
| ToolbarValues.DisplayFamiliaTotal | components/Toolbar.tsx:82-87 | the displayed total is never below the current sum and is either the sum or the family's standard baseline; it differs from the sum iff the budget is in deficit and the sum is below the baseline |
| ToolbarValues.SliderAmount | components/Toolbar.tsx:102-106 | the amount is base · (1 + pct/100) rounded to the nearest integer |
| ToolbarValues.SliderAmountEnds | components/Toolbar.tsx:102 | 0% gives the base and 100% twice the base |
| ToolbarValues.SliderAmountMonotone | components/Toolbar.tsx:103-106 | a larger percentage never gives a smaller amount |
| ToolbarValues.InitialSliderAmounts | components/Toolbar.tsx:90-106 | the initial sliders show 192000000, 49000000, 30000000 and 22500000 |

## Left out

- Device pixel ratio: the backing store's size and `ctx.scale` are not modelled. The canvas keeps its logical size, and the size-change test compares against it.
- The early returns when the canvas element or its 2D context is missing are not modelled; the model always has a canvas.
- CSS style strings and the returned `canvasRef` are not modelled.
- React scheduling is not modelled: effects, state setters, stale closures and re-renders. Each hook's state is a class, and a setter is an assignment in the method that models the handler.
- Randomness: every use of `Math.random()` becomes its own sequence of draws in [0, 1). This includes each aporte's branch and amount, the family picks, the mora picks and the designated picks. The single shared stream of the source is not modelled.
- The current month: `new Date().getMonth()` becomes a parameter.
- Floating point: amounts are exact reals. NaN, infinities and binary rounding are not modelled. `toFixed`'s exponent form for very large numbers is not modelled either.
- FormatUtils.FormatAbbreviated: below 1000 the result is the number itself (`Plain`), because JavaScript's `Number.prototype.toString` is not modelled.
- ColorUtils.PaymentColor gives the HSL triple. The `hsl(h, s%, l%)` string built from it is not modelled.
- DataUtils.GenerateMoraIndices: requires that the draws eventually pick 40 different families, because the source's while loop only ends then.
- DesignatedPick.PickOutside: requires that some draw picks a non-excluded index, because the do-while loop only ends then.
- FamiliaState.FamiliaData.Mount and StudentState.StudentData.Mount: require the conditions of GenerateMoraIndices and PickOutside, for the same reason.
- FamiliaState.ChangeAportes: requires the designated index to be within `prev` whenever the initial snapshot has that family. In JavaScript an assignment past the end would grow the array with holes, but after mount both arrays hold the same families.
- StudentState.StudentData.HandleAporteChange: requires the designated index to be within the amounts. The class keeps no invariant that guarantees it: before mount the amounts are empty, and after mount the index is below `n`, which can exceed the number of stored amounts. In JavaScript the out-of-range write would grow the array with holes; that case is not modelled.
- StudentState.StudentData.Mount: `generateAportes()` returns families of aportes, but the hook stores them as a list of numbers. The model takes the stored amounts as a sequence of reals given by the caller.
- `TOTAL_STUDENTS` is imported from lib/constants.ts but not defined there; it becomes the parameter `n`.
- The Toolbar's `getFamiliaStandardBaseline` and `getFamiliaPercentageFromStandard` props are not modelled: neither hook returns them, so their behaviour is not in this core.
- The Toolbar's JSX, the other components, the Open Graph image, `useDimensions` and the declarations in lib/types.ts are not modelled; they hold no engine logic.
