# Monthly sales dashboard: data core

The dashboard (`ds.py`) shows twelve fixed monthly sales records for 2024.
For each record it shows revenue (매출액), prior-year revenue (전년동월) and the
year-over-year growth rate (증감률). The sidebar offers the option `전체` ("all")
followed by the month labels. The page then filters the table by the chosen
option and shows four cards: the total revenue, the monthly average, the
best month and the worst month. Every amount is formatted as `₩` followed by
comma-grouped digits.

This project models that data core in Dafny as pure functions over `seq<Record>`. It is split into five modules:

- `SalesTable` holds the `Record` datatype and the embedded table `Table`. The growth rate is stored in integer tenths of a percent, so 18.4 is `184`. It is input data and is never recomputed.
- `View` holds the option list (`Options`, built from `Distinct`, which keeps labels in order of first appearance) and the filter (`Filter`, `Select`).
- `Aggregates` computes `Total`, `Mean`, and the first-occurrence `ArgMax` and `ArgMin`. These match pandas `sum`, `mean`, `idxmax` and `idxmin`.
- `Currency` holds `format_currency` (`FormatCurrency`). It also holds the round-half-even step (`RoundHalfEven`) that the `.0f` precision applies to the average.
- `Dashboard` covers one rendering (`Render`, `CardsOf`). It also holds the ground-truth facts about the embedded table.

On an empty view the code does not fail at the filter. It fails at `idxmax` (line 70). `Render` models that failure as `Err(EmptyView)`. `RenderSucceedsOnOptions` proves that on the embedded table, exactly the options the sidebar offers render successfully.

## Model

| member | source | states |
|---|---|---|
| `SalesTable.TableShape` | ds.py:17-29 | the table has twelve rows labelled 01월..12월 in calendar order, and no label repeats |
| `SalesTable.Months` | ds.py:48 | the month column has one entry per row, and entry i is row i's label |
| `View.Select` | ds.py:55 | every row of the result has the selected month; each record occurs as often as in the table if its month matches and not at all otherwise; the result is a subsequence of the table, so table order is kept |
| `View.Filter` | ds.py:52-55 | the sentinel gives the table itself, unchanged; any other selection gives exactly the matching rows in table order; the view is always a subsequence of the table |
| `View.SelectAbsent` | ds.py:55 | a month that no row carries gives the empty view, not an error |
| `View.SelectUnique` | ds.py:55 | when labels are unique, selecting row k's label gives exactly `[row k]` |
| `View.FilterIdempotent` | ds.py:52-55 | filtering a view again with the same selection gives the same view |
| `View.SelectIdempotent` | ds.py:55 | selecting a month twice equals selecting it once |
| `View.FirstIndex` | ds.py:48 | gives the first position holding x: x is there, and it appears at no earlier position |
| `View.Distinct` | ds.py:48 | has no repeats and holds exactly the elements of the input |
| `View.DistinctOrder` | ds.py:48 | `unique` keeps elements in order of first appearance |
| `View.DistinctOfUnique` | ds.py:48 | a sequence without repeats is its own `unique` |
| `View.Options` | ds.py:48 | the options start with the sentinel `전체`; the rest are exactly the labels present in the table, each once, in order of the first row carrying it |
| `Aggregates.Total` | ds.py:62 | no row's revenue exceeds the total of its view |
| `Aggregates.TotalEmpty` | ds.py:62 | the empty view sums to zero |
| `Aggregates.TotalAppend` | ds.py:62 | the sum over two consecutive pieces is the sum of their sums |
| `Aggregates.TotalSingle` | ds.py:62 | a one-row view sums to that row's revenue |
| `Aggregates.TotalBounds` | ds.py:62 | the total lies between count times any lower bound and count times any upper bound of the revenues |
| `Aggregates.Mean` | ds.py:66 | on a non-empty view, mean times count equals the total |
| `Aggregates.MeanBounds` | ds.py:66 | the mean lies between any lower bound and any upper bound of the revenues |
| `Aggregates.MeanBetweenExtremes` | ds.py:66-74 | the mean lies between the minimum row's revenue and the maximum row's revenue |
| `Aggregates.ArgMax` | ds.py:70 | on a non-empty view, the row at the index has revenue at least every other row's, and every earlier row has strictly less (first occurrence) |
| `Aggregates.ArgMin` | ds.py:74 | on a non-empty view, the row at the index has revenue at most every other row's, and every earlier row has strictly more (first occurrence) |
| `Aggregates.ArgMaxUnique` | ds.py:70 | any index that is a maximum with no earlier maximum is the one `ArgMax` returns |
| `Aggregates.ArgMinUnique` | ds.py:74 | any index that is a minimum with no earlier minimum is the one `ArgMin` returns |
| `Aggregates.SingleView` | ds.py:62-74 | on a one-row view the total and the mean equal the row's revenue, and the maximum and the minimum are both that row |
| `Currency.Digits` | ds.py:39 | the decimal representation is non-empty and all digits; it has a leading zero only for zero |
| `Currency.DigitsRoundTrip` | ds.py:39 | reading back the decimal digits gives the number |
| `Currency.CanonicalDigits` | ds.py:39 | every canonical digit string is the decimal representation of its value |
| `Currency.Group` | ds.py:39 | counted from the right, every fourth character is a comma and no other is; the first group has 1-3 digits; removing the commas gives back the digits |
| `Currency.FormatCurrency` | ds.py:38-39 | the output is `₩` followed by a thousands-grouped string; removing the commas gives the decimal digits of the amount |
| `Currency.FormatCurrencyRoundTrip` | ds.py:38-39 | removing the won sign and the commas and reading the digits gives back the amount |
| `Currency.FormatCurrencyInjective` | ds.py:38-39 | different amounts format to different strings |
| `Currency.DigitsThousands` | ds.py:39 | the digits of a·1000+b are the digits of a, followed by b padded to three digits |
| `Currency.FormatThousands` | ds.py:39 | formatting a·1000+b appends a comma and b's three digits to the formatting of a |
| `Currency.RoundHalfEven` | ds.py:39 | the result is within one half of num/den, and an exact tie goes to the even neighbour |
| `Currency.RoundWhole` | ds.py:39 | a whole amount is shown unrounded |
| `Currency.FormatTotalCard` | ds.py:63 | the whole-table total shows as `₩244,000,000` |
| `Currency.FormatAverageCard` | ds.py:67 | the whole-table average 244000000/12 shows as `₩20,333,333` |
| `Dashboard.Render` | ds.py:52-75 | a rendering fails exactly when the view is empty; otherwise the total and the mean are those of the view, and the best and worst rows are rows of the view that bound every revenue in it, namely the rows at the first-occurrence `ArgMax` and `ArgMin` |
| `Dashboard.MonthCard` | ds.py:71 | a month card is the label, then " (", then the formatted revenue, then ")" |
| `Dashboard.CardsOf` | ds.py:61-75 | the cards exist exactly when the view is non-empty; the total card reads back as the view's total; the average card reads back as a whole number within one half of the view's mean, even on an exact tie; the best and worst cards are the month of the first largest and first smallest row, then " (", then an amount reading back as that row's revenue, then ")" |
| `Dashboard.MonthCardShows` | ds.py:71 | a month card reads as its row's month followed by its revenue |
| `Dashboard.RoundedMean` | ds.py:66-67 | the round-half-even of total over count is within one half of the mean, and even when the mean is exactly halfway |
| `Dashboard.RenderAll` | ds.py:52-53 | with the sentinel, a rendering succeeds exactly when the table is non-empty |
| `Dashboard.TableOptions` | ds.py:48 | the embedded table's options are `전체` followed by 01월..12월, 13 entries |
| `Dashboard.SelectEachMonth` | ds.py:55 | selecting any of the twelve labels gives that month's row alone |
| `Dashboard.RenderEachMonth` | ds.py:62-74 | for a one-month view, the total, mean, best and worst all equal that month's row |
| `Dashboard.SelectUnknown` | ds.py:55 | a label that is neither the sentinel nor a month gives the empty view, and the rendering stops with `EmptyView` |
| `Dashboard.RenderSucceedsOnOptions` | ds.py:48-75 | on the embedded table, a rendering succeeds exactly for the options the sidebar offers |
| `Dashboard.SelectJuly` | ds.py:24 | selecting 07월 gives one row with revenue 22500000 and growth 18.4% |
| `Dashboard.TableTotal` | ds.py:62 | the whole table sums to 244000000 |
| `Dashboard.TableBest` | ds.py:70 | the first maximum of the whole table is row 11: 12월, 28000000 |
| `Dashboard.TableWorst` | ds.py:74 | the first minimum of the whole table is row 2: 03월, 11000000 |
| `Dashboard.TableSummary` | ds.py:62-74 | the whole-table rendering has total 244000000, average 244000000/12, best 12월 and worst 03월 |
| `Dashboard.TableCards` | ds.py:61-67 | the whole-table total card reads `₩244,000,000` and the average card reads `₩20,333,333` |

## Left out

- All Streamlit and Plotly calls: page setup, title, sidebar widget, columns, metric cards and both charts (lines 7-11, 42-47, 49, 57-60, 63, 67, 71, 75, 77-127; the values passed to the cards are modelled). These are presentation done by foreign frameworks. The charts receive the filtered view unchanged and in order, which `Filter` already describes.
- CSV parsing with `pd.read_csv` and the `astype(int)` coercion (lines 31, 35-36). These are library behaviour. The table is an already-typed constant.
- Total: is unbounded. After `astype(int)` the column is 64-bit, so pandas' `sum` would wrap past 2^63; the embedded table sums to 244000000, far below that.
- Floating point: the model computes the mean exactly, as a `real`. `RoundHalfEven` rounds the exact ratio. Python instead rounds the double nearest to that ratio. The two agree whenever the ratio is not extremely close to a half.
- FormatCurrency: takes only naturals, because every amount on the page is non-negative. It does not model the precision loss of `.0f` above 2^53, because no amount on the page comes near it.
- Mean, ArgMax, ArgMin: require a non-empty view. They do not model pandas' NaN mean or the ValueError from `idxmax`/`idxmin`. `Render` models that failure once, as `Err(EmptyView)`. The `₩nan` average card that the page shows before the failure is not modelled.
- The growth rate is not checked against revenue and prior-year revenue, because the program never computes it.
- The code has no error of its own for a selection that is not a month of the table: the mask yields an empty view, and the page fails later at `idxmax` (line 70). `Render` models exactly that.
- `Table` is an immutable value and `Filter` returns a new sequence, so the filter cannot change the table.
