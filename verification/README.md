# Capital-gains chart data pipeline, in Dafny

This project models the data-shaping core of a set of small d3 chart
scripts. The scripts draw capital gains per market sector and per
industry from CSV rows of `{Date, Sector, Industry, CapGain}`. Before any
drawing, the scripts do the following (the scripts each step applies to
are named):

- coerce `CapGain` to a number in every row (test2, test5, test6). app2
  and app3 apply `+d.CapGain` only inside their accessors, and app never
  coerces;
- nest the rows by date and then by sector, sum each group and flatten
  the nest back into `{Date, Sector, CapGain}` records (test5, test6);
- split off the "SP500" reference series (`cgSector`, `sp500`; test5,
  test6) and total the rest per day (`cgNet`; test6 only);
- derive y-domain bounds from the data (all six);
- list the dates for a slider and select the records of the chosen date,
  a frame (test2, test5, test6), or keep one hard-coded date (app, app2,
  app3);
- format amounts as "$1,234M" / "-$2B" labels (`formatNum`; test2, test5,
  test6, app3).

app and app2 also define a helper `roundnum` that rounds to a step.
Nothing in the six scripts calls it, so it shapes no data; it is modelled
on its own in `Rounding`.

Modules:

- `Wrappers`: `Option`.
- `Seqs`: first-seen deduplication, key filters, projections, sums and
  subsequences, with their laws.
- `Decimal`: decimal digit strings.
- `Rounding`: `Math.round(n / d)` as an exact integer division; `roundnum`.
- `Format`: en-US comma grouping and `formatNum`, with a reader for the
  labels it produces.
- `Records`: the row types and the `CapGain` coercion.
- `Nest`: the one-level `d3.nest().key(..)` grouping as a first-seen fold.
- `Aggregate`: the two-level nest, its rollup and flattening, and a
  reference definition of the flattened series. Also the SP500 split and
  the net series.
- `Bounds`: the bound expressions.
- `Frames`: slider date lists and frames.
- `Scripts`: what each script computes from its rows.

Amounts are whole dollars (`int`), and dates are their `YYYY-MM-DD`
strings. `d3.timeParse` is one-to-one on those strings, so comparing
parsed times is comparing the strings. test2 is the exception: there,
object identity matters, and `Frames.DateObject` models it. The `cgNet`
nest (test6.js:104-107) keys on the flattened records' `Date` objects
(test6.js:95), so its keys are really `Date.toString()` strings rather
than `YYYY-MM-DD`. `Aggregate.NetByDate` and `Scripts.NetSeries` key on
the `YYYY-MM-DD` strings instead. That key text is never shown, and the
two spellings correspond one to one, so the grouping and the order are
the same.

## Model

| member | source | states |
|---|---|---|
| Format.FormatNum | test6.js:13-40 | Defined exactly for "M" and "B"; `None` (undefined) otherwise. Its label reads back as "-$" exactly when `neg`, then an amount within half a unit of \|value\| / 1e6 (or 1e9), with halves going up, then the format letter. Without `neg` it has no minus sign. The reader accepts only canonical en-US text (`Format.ParseLabelCanonical`), so this contract fixes the label exactly (`Format.FormatNumPinned`). test5.js:12-39 is the same function. |
| Format.FormatNumIgnoresSign | test6.js:22 | `formatNum(-x, f, neg) == formatNum(x, f, neg)`: only the magnitude of the value is used. |
| Format.FormatMagnitude | test2.js:17-32 | The two-argument formatter. "$", the rounded magnitude in units, then "M"/"B". It never contains a minus; other formats give `None`. The contract fixes the text exactly (`Format.FormatMagnitudePinned`). app3.js:158-173 is the same function. |
| Format.GroupDigitsRoundTrip | test6.js:14-18 | The en-US comma grouping `Format.GroupDigits` (used at test6.js:23) reads back to the number it grouped. |
| Format.ParseGroupedCanonical | test6.js:23 | The grouped-numeral reader accepts only `GroupDigits` text. Whatever it reads as n is exactly the grouping of n, with no leading zeros. |
| Format.ParseLabelCanonical | test6.js:24-28 | A string that reads as a label (sign, amount, unit) is exactly the rendering of those three. |
| Format.FormatNumPinned | test6.js:20-38 | Any string that meets `FormatNum`'s read-back contract (sign, unit, amount rounded half up) is `FormatNum`'s result. So the contract determines the en-US text. |
| Format.FormatMagnitudePinned | test2.js:19-30 | The same for the two-argument form. |
| Format.RenderReadsBack | test6.js:24-28 | A rendered label reads back to its sign, amount and unit, and has no minus when not negative. |
| Decimal.DigitsRoundTrip | test6.js:22 | The digits that `toFixed(0)` writes read back to the number. |
| Decimal.Pad3 | test6.js:14-18 | A group after a comma has exactly three digits and keeps its value (zero-padded). |
| Decimal.CanonicalIsDigits | test6.js:22 | A numeral with no leading zero is `Digits` of its value. `toFixed(0)` writes only one numeral per number. |
| Decimal.Pad3Unique | test6.js:14-18 | Every three-digit group is `Pad3` of its value, which is below 1000. |
| Rounding.RoundDiv | test6.js:22 | `toFixed(0)` of a non-negative quotient is the nearest integer, with halves going up. |
| Rounding.RoundDivUnique | app2.js:139 | Only one integer lies within half a step of the quotient in the "halves up" sense, so `Math.round` is determined. |
| Rounding.RoundNum | app2.js:138-140 | `roundnum(n, r)` is a multiple of r within \|r\|/2 of n. For r > 0 it lies in (n - r/2, n + r/2], so halves go toward +infinity. For r < 0 it lies in [n + r/2, n - r/2), because `Math.round` sends the quotient's half up: `roundnum(5, -2)` is 4. r = 0 gives `None` (NaN). app.js:106-108 is the same function. |
| Rounding.RoundNumIdempotent | app2.js:138-140 | `roundnum(roundnum(n, r), r) == roundnum(n, r)`. |
| Rounding.RoundNumFixesMultiples | app.js:106-108 | `roundnum(k*r, r) == k*r` for every integer k. |
| Records.CoerceRows | test6.js:79-81 | Coercion keeps the number of rows, their order and their other columns. Each amount is `Records.ParseCapGain` of its text. A row that does not parse makes the result `None`. test2.js:48 coerces CapGain the same way. test2.js:47 also turns Date into an object, which `Frames.ParsedDates` models. |
| Records.ParseCapGainRoundTrip | test6.js:80 | `Records.ParseCapGain`, the model of `+s`, reads back every whole-dollar amount written in the CSV form. |
| Nest.GroupBy | test6.js:104-106 | One bucket per distinct key, in first-seen order. Each bucket holds exactly that key's elements, in input order. |
| Seqs.Dedup | test6.js:83 | `[...new Set(xs)]` on strings: no repeats, and exactly the same members. |
| Seqs.DedupFirstSeen | test6.js:83 | Its elements appear in the order of their first occurrence. |
| Seqs.TotalByKeys | test6.js:89 | Summing per key and adding the sums gives the total of all elements. |
| Seqs.HavingLackingPartition | test6.js:116-117 | A filter on `key == k` and its complement together hold every element exactly once. |
| Seqs.HavingCounts | test6.js:329-331 | A `.filter` on `key == k` keeps every copy of each element with that key, and no copy of any other. |
| Aggregate.FlattenNestIsAggregated | test6.js:86-99 | Nest, rollup and flatten equal the reference series: for each first-seen date, for each first-seen sector of that date, one record holding that pair's sum. The nest is `Aggregate.NestDateSector` with its rollup `Aggregate.RollupSectors`, and the flattening is `Aggregate.Flatten`. test5.js:69-82 is the same code. |
| Aggregate.AggregatedMember | test6.js:86-99 | A record is in the flattened series exactly when some row has its date and sector, and then its `CapGain` is that pair's sum. |
| Aggregate.AggregatedPairsDistinct | test6.js:86-99 | No two flattened records share a (date, sector) pair. |
| Aggregate.AggregatedConservesDay | test6.js:86-99 | For every date, the flattened records sum to the same total as the raw rows. |
| Aggregate.SplitSp500 | test6.js:116-117 | `cgSector` holds exactly the non-SP500 records and `sp500` the SP500 ones. Together they are a permutation of the flattened series, and each keeps its order. test5.js:90-91 is the same code. |
| Aggregate.NetByDate | test6.js:104-107 | One entry per distinct date of its input, in first-seen order, holding that date's sum. |
| Aggregate.NetMatchesRows | test6.js:102-107 | A day's `cgNet` value, computed from flattened records, equals the sum of that day's raw rows outside SP500. |
| Bounds.BoundsExpr | app.js:55-56 | For min <= max, `abs(\|min\| < max ? max : min)` is max(\|min\|, \|max\|), so [-b, b] contains min and max. test6's form at test6.js:171, `\|min\| < max ? \|max\| : \|min\|`, is the same quantity. |
| Bounds.AppBoundsSpelling | app.js:55-56 | app's spelling `abs(\|min\| < max ? max : min)` equals `BoundsExpr` for every pair of numbers. |
| Bounds.SymmetricBounds | test6.js:171-175 | For a non-empty list, the bound is the magnitude of one value, and every value lies in [-b, b]. Empty gives `None`. `d3.min` and `d3.max` are `Bounds.MinOf` and `Bounds.MaxOf`: a member of the list no greater (no smaller) than every element. |
| Bounds.DampedBounds | test5.js:125-127 | The industry bound is 0.1 x the largest magnitude. When any value is non-zero, some value lies outside it. |
| Bounds.NegatedMaxBounds | test2.js:62-71 | With "max" taken over -CapGain, the bound is always \|min CapGain\|. It is computed with `Bounds.MinOf` and `Bounds.MaxOf`. Only the lower side of the domain is guaranteed to enclose the data. app2.js:53-61 and app3.js:64-69 use the same expression. |
| Bounds.NegatedMaxBoundsMissesLargest | test2.js:62-71 | For CapGain values [-1, 5] that bound is 1, while the symmetric bound is 5. |
| Frames.UniqueDates | test6.js:83 | The slider dates are distinct, and they are exactly the dates that occur in the rows. |
| Frames.UniqueDatesFirstSeen | test5.js:66 | The slider dates are in first-seen order. |
| Frames.Frame | test5.js:240-245 | The frame for position i exists exactly for 0 <= i < number of dates. It holds all and only the records of the i-th date, in input order. Each is kept as many times as it occurs in the series. |
| Frames.FramesNonEmpty | test6.js:310 | Every position 0 .. `uniqueDates.length - 1` selects a non-empty industry frame. |
| Frames.FramesDisjoint | test6.js:329-331 | Frames of different positions share no row. |
| Frames.FramesCover | test6.js:329-331 | Every row is in some frame. |
| Frames.ObjectSetDates | test2.js:46-52 | A Set of per-row Date objects keeps one entry per row, each naming that row's day. |
| Frames.ObjectFrame | test2.js:145-147 | test2's frame i is every row on row i's day, every copy of each, in input order. It always contains row i. |
| Frames.ObjectSliderRepeatsDays | test2.js:134 | Two rows of one day give a slider with two positions showing the same frame, where the string dates give one. |
| Frames.FixedDateFrame | app.js:40-44 | `data.filter(d => d.Date === date)` keeps exactly the rows of that date, every copy of each, in input order. |
| Scripts.SectorCharts | test5.js:62-127 | test5's derived data: distinct slider dates, the reference flattened series, and the SP500 partition. The sector bound encloses every `cgSector` value and equals one of their magnitudes. The industry bound is 0.1 x the largest row magnitude. |
| Scripts.SectorSlide | test6.js:326-331 | Each slider position in range gives the sector frame (from the `cgSector` passed in) and the industry frame of its date. Each keeps all and only that date's records, every copy, in input order. The industry frame is never empty. |
| Scripts.SectorFrameNonEmptyIff | test6.js:360 | The sector frame has a record exactly when that day has a row outside SP500. `selectedData[0]` reads it. |
| Scripts.NetSeries | test6.js:102-107 | Each `cgNet` entry's value is its day's raw non-SP500 total, and the keys are distinct. |
| Scripts.NetCharts | test6.js:171-179 | test6 adds `cgNet` and its bound `boundsNet`. The keys of `cgNet` are the distinct dates of `cgSector`, in first-seen order. Each value is that day's raw total outside SP500. `boundsNet` encloses every net value and equals one of their magnitudes (`Scripts.NetBounds`, test6.js:175). |
| Scripts.NetCoversDays | test6.js:104-107 | `cgNet` has an entry for exactly the days with a row outside SP500. |
| Scripts.GainBounds | test6.js:123-124 | The sector bound over `cgSector` encloses each record's CapGain and equals one of their magnitudes. |
| Scripts.IndustryBounds | test6.js:127-128 | The industry bound over every row is 0.1 x the largest row magnitude. |
| Scripts.MinGainBounds | test2.js:62-71 | The bound equals \|CapGain\| of a row with the least CapGain, and no row lies below -bounds. |
| Scripts.ObjectSliderChart | test2.js:134 | The slider max is `data.length - 1`. The bound is \|CapGain\| of a row whose CapGain is least among all rows, and no row lies below its negation. |
| Scripts.MillionsLabels | app3.js:61 | One label per row of the day, in row order. Each reads back with no sign, unit 'M', and that row's \|CapGain\| / 1e6 rounded half up. |
| Scripts.App3Chart | app3.js:54-69 | The rows of "2023-02-15", every copy, in input order. One "$…M" label per kept row, in the same order (`Scripts.MillionsLabels`), reading back to that row's rounded magnitude in millions. The bound is \|CapGain\| of a row whose CapGain is least among all rows, so it equals \|min CapGain\|. |
| Scripts.App2Chart | app2.js:43-61 | The rows of "2023-01-17", every copy, in input order. The bound is \|CapGain\| of a row whose CapGain is least among all rows, so it equals \|min CapGain\|. |
| Scripts.AppChart | app.js:40-56 | The rows of "2023-01-04", every copy, in input order. For the given min <= max, the bound is max(\|min\|, \|max\|). |

The test5 and test6 models (`Scripts.SectorCharts`, `Scripts.NetCharts`)
use `Bounds.SymmetricBounds`, which is the bound those scripts compute.
`Scripts.ObjectSliderChart`, `Scripts.App2Chart` and `Scripts.App3Chart`
describe test2, app2 and app3 as written, so they keep
`Bounds.NegatedMaxBounds`. The corrected bound for them is
`Bounds.SymmetricBounds`; see Findings.

test6's derived data is `Scripts.SectorCharts` (what it shares with
test5) together with `Scripts.NetCharts` (what it adds). The net series
and its bound depend only on the rows.

In test5 and test6, a slide reads the displayed date from the first
sector record of the frame (test5.js:274, test6.js:360). When a day has
only SP500 rows that frame is empty and the read throws.
`Scripts.SectorFrameNonEmptyIff` states exactly when this happens.

## Left out

- Drawing is not modelled: SVG, d3 scales' pixel maths, axes, transitions,
  tooltips, colours and bar geometry. It is rendering with floating-point
  pixel values.
- Loading `d3.csv` is not modelled; the rows are a parameter. Also not
  modelled: `window.innerWidth` layout, the slider's event wiring,
  `toDateString` and the DOM text updates. A frame is a pure function of
  the series and the slider index.
- `d3.sum` skips `NaN` values. No amount here is `NaN`, so that skipping is
  not modelled.
- Records.CoerceRows: only optionally negative whole-number strings are
  modelled. JavaScript's `+s` also accepts fractions, exponents, whitespace
  and "" (0). A non-numeric amount yields `NaN` in the script but `None`
  for the whole batch here.
- Amounts are integers, not doubles. Sums are exact, and the 0.1 industry
  scale is an exact `real` multiplication rather than a rounded one.
- Format.FormatNum: `toFixed` switches to exponential notation at 1e21
  units. That is not modelled, because the amounts of this data are far
  below it.
- The `Intl.NumberFormat` locale is fixed to en-US, as in the source. Other
  locales are not modelled.
- Scripts.App3Chart, Scripts.App2Chart, Scripts.AppChart: rows arrive
  with `CapGain` already a number, while app, app2 and app3 keep the CSV
  strings in `newData`. No contract depends on the amount's type: the
  day filters compare only `Date`, and the bounds and labels apply `+`
  to the amount as the scripts do.
- Scripts.AppChart: app.js takes min and max over the uncoerced strings
  (app.js:50-51). How d3 orders strings is not part of this model, so the
  two values are parameters.
- Scripts.App3Chart: app3.js:61 uses `d3.map(newData, fn)` as an array
  map, which it is from d3 v6 onwards. In d3 v5, `d3.map` builds a keyed
  collection, and `newDataValues.map` at app3.js:82 would throw. The page's
  d3 version is not part of the source, so the model assumes the array
  reading.
- The sp500 chart's non-symmetric domain `[minsp500, maxsp500]`
  (test6.js:135-136, test6.js:180) is only a min and a max of a list and
  is not modelled separately.
- The commented-out slider code (app2.js:154-176, app.js:110-132) is not
  modelled.
- A slider index outside the range: the script throws, and the model's
  frame functions return `None`.

## Findings

| source | as written | input that shows it | evidently intended | confidence | as-written member | corrected member |
|---|---|---|---|---|---|---|
| test2.js:62-71 | "max" is `d3.max` of `-CapGain`, so `bounds` is always \|min CapGain\| | CapGain values [-1, 5]: bounds 1, so 5 lies outside the domain [-1, 1] | bounds = max(\|min\|, \|max\|), so every bar fits the domain | high; not executed | Bounds.NegatedMaxBounds | Bounds.SymmetricBounds |
| app2.js:53-61 | the same negated "max" | CapGain values [-1, 5]: bounds 1 | bounds = max(\|min\|, \|max\|) | high; not executed | Bounds.NegatedMaxBounds | Bounds.SymmetricBounds |
| app3.js:64-69 | the same negated "max" | CapGain values [-1, 5]: bounds 1 | bounds = max(\|min\|, \|max\|) | high; not executed | Bounds.NegatedMaxBounds | Bounds.SymmetricBounds |
| test2.js:46-52 | dates are parsed to `Date` objects before `new Set`, which compares objects by identity, so nothing is deduplicated | two rows dated 2023-01-04: the slider has two positions, both showing the same frame | one slider position per distinct day, as test5 and test6 get by deduplicating the strings first | high; not executed | Frames.ObjectSetDates | Frames.UniqueDates |

`Bounds.NegatedMaxBoundsMissesLargest` and `Frames.ObjectSliderRepeatsDays`
prove the two counterexamples. `Bounds.SymmetricBounds` proves that the
corrected bound encloses every value. `Frames.UniqueDates`,
`Frames.FramesNonEmpty`, `Frames.FramesDisjoint` and `Frames.FramesCover`
prove that the corrected slider has one non-empty, disjoint frame per day.
