# Property-rate trend data, in Dafny

This project models the data side of a single page that charts the price per
square foot of a real-estate micro-market (Financial District, Hyderabad). The
page lets the visitor pick a time period and a property type (flats or
independent builder floors). It then shows:

- a chart series, produced by `generateData(period, propertyType)`;
- three summary figures, produced by `getStats(propertyType, period)`: the
  average rate, the growth and the rental yield;
- a dropdown whose options are the keys of the `periodLabels` object, in the
  object's own order, each shown with its text.

All three are pure. They are modelled as Dafny functions in `rates.dfy`:

- `Index.GenerateData` picks one of three hardcoded tables (`Index.BaseTable`).
  It then scales each row's base rate with `Math.round(base * multiplier)`.
  The source writes this call out on every row; the model applies it row by
  row in `Index.Scale`.
- `Index.GetStats` returns the three constants.
- `Index.PeriodLabels` is the label map, and `Index.PeriodKeys` is
  `Object.keys(periodLabels)`, the dropdown's options in order.

The period stays a `string`. That keeps visible the fall-through that sends
every string except `"last-1-year"` and `"last-3-years"` to the five-year
table.

`Math.round` on a non-negative rational is modelled exactly by
`Rounding.RoundHalfUp`. The multiplier is held as a whole percentage: 100 for
flats and 85 for builder floors. Every base rate is a multiple of 100, so the
scaled rate is the exact integer `base / 100 * 85`. `Index.ScaledRateExact`
proves that rounding removes nothing. The decimal figures of `getStats` are held as
tenths of a percent: 45.7 is 457, 3.2 is 32.

Two observations about the source are proved as lemmas:

- The growth constants are the series' own rise from its first to its last
  rate, rounded to a tenth of a percent. This holds for each of the three
  labelled periods and both property types (`Index.GrowthIsSeriesRise`).
- An unlabelled period string gets the five-year series but the one-year
  growth figure of 9.3, which does not describe that series
  (`Index.UnknownPeriodGrowthMismatch`). The page itself never passes such a
  string: its period state is typed to the three keys. For that reason the
  model keeps this behaviour as written and does not correct it.

`generateData` and `getStats` both take the period as a plain `string`
(client/pages/Index.tsx:15 and :54). Only the page's state narrows it to the
three keys (client/pages/Index.tsx:66). The model therefore takes any string.

## Model

| member | source | states |
|---|---|---|
| `Rounding.RoundHalfUp` | client/pages/Index.tsx:22 | `Math.round(n / d)` for non-negative n: the result lies within half a unit of n / d, and a half rounds up |
| `Rounding.RoundExact` | client/pages/Index.tsx:22-49 | rounding an exact quotient returns that quotient unchanged |
| `Rounding.ScaleHundredsExact` | client/pages/Index.tsx:18-49 | a multiple of 100 times a whole percentage is again a multiple of 100, so the scaled rate is `base / 100 * pct` exactly |
| `Rounding.ScaleMonotone` | client/pages/Index.tsx:18-50 | scaling by a fixed percentage keeps the order of two rates |
| `Index.BaseTable` | client/pages/Index.tsx:20-50 | every string selects a non-empty table whose last base rate is 11800 |
| `Index.BaseTableShape` | client/pages/Index.tsx:20-50 | every table holds only multiples of 100, and its base rates never fall from one row to any later row |
| `Index.StepsGiveOrder` | client/pages/Index.tsx:21-50 | a table whose base rates never fall from one row to the next never falls from one row to any later row |
| `Index.MultiplierPercent` | client/pages/Index.tsx:18 | the multiplier is at most 1, and it is exactly 1 if and only if the property type is flat |
| `Index.ScaledRate` | client/pages/Index.tsx:18-49 | `Math.round(base * multiplier)` is the integer nearest the product, a half rounding up |
| `Index.ScaledRateExact` | client/pages/Index.tsx:18-49 | for a base that is a multiple of 100, the rounded rate is exactly `base / 100 * pct` |
| `Index.Scale` | client/pages/Index.tsx:21-49 | scaling a table keeps its length, labels and order; each rate is the integer nearest the scaled base, and exactly the scaled base when all bases are multiples of 100 |
| `Index.GenerateData` | client/pages/Index.tsx:14-52 | the series has the chosen table's length and labels in table order, and each rate is the base rate scaled exactly by the multiplier |
| `Index.SeriesEndsAtCurrentRate` | client/pages/Index.tsx:18-50 | every series of a property type ends at the same rate: 11800 for flats, 10030 for builder floors |
| `Index.GetStats` | client/pages/Index.tsx:54-63 | the average rate equals the last rate of every series of that property type, for any period |
| `Index.SeriesLength` | client/pages/Index.tsx:20-50 | 5 points for "last-1-year", 7 for "last-3-years", 9 for every other string |
| `Index.UnknownPeriodFallsBack` | client/pages/Index.tsx:38-50 | any period without a label yields exactly the "last-5-years" series |
| `Index.FlatRatesAreBase` | client/pages/Index.tsx:18-49 | for flats each rate equals its table's base rate |
| `Index.BuilderScalesFlat` | client/pages/Index.tsx:18-50 | for a fixed period, builder and flat series have the same length and labels; each builder rate is exactly flat × 85 / 100 with no remainder, and never above the flat rate |
| `Index.SeriesNonDecreasing` | client/pages/Index.tsx:21-50 | rates never fall along the series, for every period and property type |
| `Index.StatsIgnorePeriodForTypeFigures` | client/pages/Index.tsx:54-62 | the average rate and the rental yield (3.0 flat, 3.2 builder) do not depend on the period |
| `Index.GrowthIgnoresType` | client/pages/Index.tsx:56 | growth does not depend on the property type: 45.7 for five years, 34.1 for three years, 9.3 for every other string, including "last-1-year" |
| `Index.GrowthIsSeriesRise` | client/pages/Index.tsx:20-56 | for each labelled period, the growth figure is the series' rise from first to last rate, to the nearest tenth of a percent |
| `Index.UnknownPeriodGrowthMismatch` | client/pages/Index.tsx:38-56 | an unlabelled period gets the one-year growth figure, which differs from the rise of the five-year series it is shown with |
| `Index.PeriodLabels` | client/pages/Index.tsx:81-85 | the labels are defined on exactly the three period keys, and the three labels are pairwise distinct |
| `Index.PeriodKeys` | client/pages/Index.tsx:113 | the dropdown's options are exactly the labelled keys, each listed once |
| `Index.DropdownShortestFirst` | client/pages/Index.tsx:81-113 | the dropdown has three options, and in `Object.keys` order (the object literal's key order) they select series of strictly increasing length, so the options run from the shortest period to the longest |

## Left out

- The `Index` component body (client/pages/Index.tsx:65-271) is UI state with no algorithmic content. This covers the `useState` toggles, the `useMemo` wiring, the JSX layout and the event handlers.
- The chart rendering and axis configuration, including the tick formatter and the axis domain (client/pages/Index.tsx:218-266). These are floating-point display concerns inside a third-party charting library.
- `toLocaleString('en-IN')` currency formatting is a locale-dependent library call.
- client/builder-registry.tsx is not part of this model. It only registers components with a third-party CMS plugin system.
- Index.ScaledRate: IEEE-754 doubles are not modelled. The source multiplies by the double `0.85`, which is not exact in binary. The model uses the exact product instead. It does not prove that `Math.round` of the double product gives the same integer, though every product here is a whole number, far from a rounding boundary.
- Repeated calls giving identical results needs no lemma. Dafny functions are deterministic by construction.
