# Marketing campaign analytics: a Dafny model

This project models the data-handling core of a pandas-based marketing
campaign analytics repository, and proves properties of that model. Each
campaign is one record of a CSV file: id, company, campaign type, audience,
duration, channel, conversion rate, acquisition cost, ROI, location, language,
clicks, impressions, engagement score, customer segment and date. The model
covers these stages:

- **Loading** (`DataLoader`). The model covers which header and which cells
  make `validate_data` fail, how `read_csv` types a column, and the frame
  `load_data` hands on. It also covers the summary statistics.
- **Cleaning** (`MarketingDataCleaner.clean_data`). The steps run in the
  code's order:
  1. median and `"Unknown"` imputation;
  2. keep-first de-duplication on `Campaign_ID`;
  3. title-casing;
  4. range repair by column median;
  5. currency parsing;
  6. the derived columns (campaign duration, right-closed bins, engagement
     rate, month, quarter, year).
- **The alternative pipeline** (`DataProcessor`). It has its own
  validation, cleaning, transform and dashboard aggregation.
- **Analyses.** The cohort analysis covers cohort tagging, the retention and
  mean matrices, and the behaviour breakdowns. The segment analysis covers
  RFM, cluster characterisation for a given label vector, and the
  performance and trend tables. The channel analysis covers metrics with
  ratio-of-sums rates, the effectiveness and trend tables, and the
  recommendation rule table.
- **The revenue summary** of `run_analysis`.

## How the model represents pandas

- A frame is a `seq` of immutable records.
- An empty cell (NaN, NaT or None) is `None` of `Values.Option`.
- Rates, costs and ROIs are exact `real`s.
- A `groupby(...).agg(...)` table is a `map` from the group key to a record of
  aggregates. Its keys are the distinct present keys, because pandas drops
  NaN keys, and two-column keys drop a row when either part is missing.
- The generic `groupby` facts live in `Grouping`:
  - a group holds exactly the rows with its key;
  - counts and sums over the groups add up to the totals;
  - two-column groups nest.
- Column means and medians are `Stats.Mean` and `Stats.Median` over the
  present values. The mean of no values is `None`, as pandas' NaN is.
- Division where pandas would produce an infinity or NaN (a zero divisor)
  gives `None` (`Values.Ratio`).
- Where pandas raises (a failed conversion, a missing `0` column), the
  modelled operation returns `None` for the whole result.
- Dates are proleptic Gregorian `Calendar.CalendarDate`s. Periods are
  `YearMonth`. Whole-day differences come from day numbers.
- Raw CSV cells are text (`Records.RawRow`), except Campaign_ID, which is an
  integer or empty. `read_csv`'s dtype choice between float64 and object is
  `Loader.ColumnType`.
- A raw cell is the cell after `read_csv`'s default NA filter. Cells spelt as
  one of pandas' default NA markers (`""`, `NA`, `N/A`, `n/a`, `NULL`,
  `null`, `None`, `nan`, `NaN`, `-nan`, `#N/A`, `#NA`, `<NA>`, `1.#IND` and
  the like) arrive as empty cells; the model does not re-implement that list.
- The model follows pandas 2.x. There, the chained
  `df[col].fillna(..., inplace=True)` of
  `src/data/data_cleaner.py:47,53` writes through to the frame, and a
  `groupby` on the categorical Duration_Category
  (`src/data/data_processor.py:218`) defaults to `observed=False`, listing
  all three categories. Under pandas 3 copy-on-write the fills would change
  nothing and the groupby would list only the observed categories.
- The clock reading of `pd.Timestamp.now()` is a parameter, `now`.
- The KMeans prediction is a parameter, `labels`.

## Model

| member | source | states |
|---|---|---|
| Loader.ColumnType | src/data/data_loader.py:89 | no cell of a column `read_csv` types float64 is read as text, and a column it types object that has rows holds at least one text cell |
| Loader.ReadCell | src/data/data_loader.py:89 | a cell is empty exactly when its text is; a number cell occurs only in a float64 column and holds the parsed value; a text cell keeps its text |
| Loader.ReadNumericColumn | src/data/data_loader.py:89 | no cell of a float64 column is text |
| Loader.ValidateData | src/data/data_loader.py:40-78 | a file that passes validation has every required column |
| Loader.MissingColumnFails | src/data/data_loader.py:51-54 | a header without one of the 16 required columns fails validation |
| Loader.BadDateFails | src/data/data_loader.py:62-64 | a Date cell that `to_datetime` rejects makes validation fail |
| Loader.NumericCostFails | src/data/data_loader.py:71-76 | a cost column that `read_csv` typed float64 makes `.str` raise, so validation fails |
| Loader.BlankRowKeepsVerdict | src/data/data_loader.py:56-59 | empty cells only warn: blanking a whole row of a valid file keeps it valid, provided the cost column stays text |
| Loader.FormattedFilePasses | src/data/data_loader.py:40-78 | a file with every required column, ISO-spelt dates of representable days, numeric cells empty or digit strings, and costs formatted `"${:,.2f}"` with at least one present passes validation |
| Loader.FormattedFileLoads | src/data/data_loader.py:62-100 | loading such a file gives back the dates and the dollar amounts its cells were written from |
| Loader.LoadsIsoDate | src/data/data_loader.py:64 | a Date cell written as the ISO spelling of a date loads as that date |
| Loader.DollarIsNotNumber | src/data/data_loader.py:72 | a cell starting with `$` is not a number, so a column of formatted costs is read as object and the `.str` conversion applies |
| Loader.LoadData | src/data/data_loader.py:87-100 | the frame is returned exactly when validation passes and is `None` otherwise; it has one row per line, and each row is its line converted: the date is the `to_datetime` reading, the five numeric cells their decimal values, the cost the value of its text with `$` and `,` removed, the duration read under the column dtype, and the text columns copied; a cell is empty exactly when its raw cell is |
| Loader.LoadRowConverted | src/data/data_loader.py:62-76 | each line of a file that passes validation converts cell by cell as `load_data` delivers it |
| Loader.LoadsFormattedCost | src/data/data_loader.py:72 | a cost written `"$16,174.00"` loads as the number it was formatted from |
| Loader.LoadedDurationType | src/data/data_loader.py:89 | the loaded Duration column keeps the dtype `read_csv` gave it |
| Loader.SummaryStats | src/data/data_loader.py:112-127 | total_campaigns is the row count; the date range exists exactly when some row is dated, and its start is not after its end; the totals are column sums and the averages are column means |
| Loader.SummaryCountsAddUp | src/data/data_loader.py:114-116 | each value_counts table adds up to the number of non-empty cells in its column |
| Loader.SummaryDateRange | src/data/data_loader.py:117-120 | every dated row lies between the start and the end of the date range |
| Calendar.EarliestNotAfterLatest | src/data/data_loader.py:117-120 | for a non-empty date column, the start of the range is not after its end |
| Grouping.ValueCountsAddUp | src/data/data_loader.py:114-116 | a value_counts table's counts add up to the number of rows with a value in the column |
| Stats.Mean | src/data/data_loader.py:121-125 | the mean exists exactly when there are values, and times their number gives their sum |
| Stats.MeanWithin | src/data/data_loader.py:121-125 | the mean lies within any bounds that all the values respect |
| Duplicates.DropDuplicates | src/data/data_cleaner.py:69 | `drop_duplicates(keep='first')` never lengthens the frame; which rows it keeps is stated by `Duplicates.KeepsFirstPositions` |
| Duplicates.FirstPositions | src/data/data_cleaner.py:69 | the kept positions are exactly the first occurrences of each key, in ascending order |
| Duplicates.KeepsFirstPositions | src/data/data_cleaner.py:69 | the output is the subsequence of the input at the first occurrences |
| Duplicates.DistinctKeys | src/data/data_cleaner.py:69 | no key appears twice in the output |
| Duplicates.OneRowPerKey | src/data/data_cleaner.py:68-70 | every key survives with exactly one row, so the rows removed are the input length minus the number of distinct keys |
| Duplicates.Idempotent | src/data/data_cleaner.py:69 | removing duplicates twice is the same as removing them once |
| Duplicates.DistinctUnchanged | src/data/data_cleaner.py:69 | input whose keys are already distinct passes through unchanged |
| Duplicates.NothingRemoved | src/data/data_cleaner.py:68-70 | nothing is removed exactly when the keys are already distinct |
| Cleaner.ImputeMeasure | src/data/data_cleaner.py:44-48 | each empty cell of the column takes the median of the present values, computed before filling; present cells, the other columns and the non-numeric cells stay unchanged; a column with no empty cell is left as it is |
| Stats.MedianSplits | src/data/data_cleaner.py:46 | the median splits the sorted values: the lower half, middle included, lies at or below it and the upper half at or above it |
| Stats.MedianWithin | src/data/data_cleaner.py:46 | the median lies within any bounds that all the values respect |
| Stats.Median | src/data/data_cleaner.py:46 | the median exists exactly when there are values; it lies between the two middle elements of the sorted values, and for an even count it is their mean |
| Cleaner.OtherMedianKept | src/data/data_cleaner.py:44-48 | filling one column leaves the medians of the other columns alone, so filling the columns one after another uses the raw medians |
| Cleaner.ImputedCell | src/data/data_cleaner.py:44-48 | after filling several columns, each filled cell holds its own value or the raw median of its column |
| Cleaner.FillCategory | src/data/data_cleaner.py:51-54 | each empty cell of a categorical column becomes "Unknown"; every other cell is untouched |
| Cleaner.FilledCell | src/data/data_cleaner.py:51-54 | after filling several categorical columns, each listed column's cell holds its text or "Unknown", and unlisted cells are untouched |
| Cleaner.HandledMeasure | src/data/data_cleaner.py:43-48 | after `handle_missing_values` each numeric cell holds its own value or the median of the raw column, duplicates included |
| Cleaner.HandledCategory | src/data/data_cleaner.py:50-54 | after `handle_missing_values` each of the six categorical cells holds its own text or "Unknown" |
| Cleaner.HandledNoNulls | src/data/data_cleaner.py:44-48 | a numeric cell is still empty afterwards exactly when its whole column was empty |
| Cleaner.ImputedWithin | src/data/data_cleaner.py:46-47 | an imputed value stays within any bounds that all present values of its column respect |
| Cleaner.HandledIds | src/data/data_cleaner.py:183-184 | imputation never changes Campaign_ID, so de-duplication sees the input's ids |
| Cleaner.HandleMissingValues | src/data/data_cleaner.py:33-56 | each numeric cell holds its own value or, when empty, the median of its raw column; each of the six categorical cells holds its text or "Unknown"; every other cell is unchanged |
| Cleaner.Normalize | src/data/data_cleaner.py:127-137 | only Campaign_Type, Channel_Used, Location and Customer_Segment change; audience, language and every other cell keep their values; emptiness of each cell is preserved |
| Cleaner.NormalizeIdempotent | src/data/data_cleaner.py:127-137 | normalising twice is the same as normalising once |
| Cleaner.UnknownIsTitled | src/data/data_cleaner.py:53 | the filler "Unknown" is unchanged by title-casing |
| Cleaner.Repair | src/data/data_cleaner.py:152-156 | each out-of-range cell is overwritten with the median of the current column, bad values included; in-range cells and the other columns never change |
| Cleaner.RepairInRange | src/data/data_cleaner.py:152-166 | after repair the column is within range if and only if no cell was out of range or the median itself is in range |
| Cleaner.RepairWithGoodMedian | src/data/data_cleaner.py:156 | an in-range median repairs every invalid cell |
| Cleaner.RepairWithBadMedian | src/data/data_cleaner.py:156 | an out-of-range median is written back into an invalid cell, so the column stays out of range |
| Cleaner.MedianInRange | src/data/data_cleaner.py:156 | when every present value lies within bounds, so does the median |
| Cleaner.RepairCountsCell | src/data/data_cleaner.py:152-156 | repairing Clicks, Impressions and Engagement_Score in turn repairs each as if it were repaired alone, and leaves the other cells untouched |
| Cleaner.RepairCounts | src/data/data_cleaner.py:151-156 | Clicks, Impressions and Engagement_Score are each repaired as if repaired alone, by the median of the column before repair; the other two numeric columns and every other cell are unchanged |
| Cleaner.ConvertedCost | src/data/data_cleaner.py:159-160 | a converted cost is never text; a parsable text cost becomes the decimal value of its text with `$` and `,` removed |
| Cleaner.ParseCosts | src/data/data_cleaner.py:158-160 | the cost conversion fails exactly when the column is object and holds a text cell that does not parse; otherwise only the cost cells change, and each becomes the parse of its stripped text |
| Cleaner.ParsesFormattedCost | src/data/data_cleaner.py:160 | a cost formatted `"${:,.2f}"` parses back to the amount it was formatted from |
| Cleaner.CampaignDuration | src/data/data_cleaner.py:88-91 | a float64 Duration passes through; a text Duration yields a value exactly when it contains a digit, and that value is the number spelt by the text's first maximal run of digits |
| Cleaner.DurationOfDays | src/data/data_cleaner.py:89 | `"N days"` yields N |
| Cleaner.ThirtyDaysIsMedium | src/data/data_cleaner.py:89-98 | `"30 days"` extracts to 30, which falls in the Medium bin (7, 30] |
| Cleaner.DeriveRow | src/data/data_cleaner.py:87-113 | the loaded cells are kept; Campaign_Duration is the Duration cell read under the column dtype, and the duration and engagement categories are the bins of the row's duration and score; the engagement rate exists exactly when the impressions are non-zero, and then times the impressions gives the clicks; month, quarter and year exist exactly when the date does, and the quarter contains the month |
| Cleaner.CleanedDerived | src/data/data_cleaner.py:87-113 | each row `clean_data` returns has the Campaign_Duration of the Duration cell of the input line it stands for, read under the dtype of the whole input column, and its two categories are the bins of its own duration and score |
| Cleaner.CleanedThirtyDays | src/data/data_cleaner.py:89-98 | a cleaned row of a text Duration column that reads `"30 days"` is a Medium campaign |
| Values.Ratio | src/data/data_cleaner.py:101 | a quotient of two columns exists exactly when both cells do and the divisor is non-zero; it then times the divisor gives the dividend |
| Cleaner.CleanData | src/data/data_cleaner.py:170-205 | `clean_data` fails exactly when the currency conversion raises; the summary reports the input and output lengths, their difference and the seven derived column names |
| Cleaner.PreparedRows | src/data/data_cleaner.py:183-186 | the frame before conversion has one row per first occurrence of a Campaign_ID, each taken from that occurrence |
| Cleaner.CleanedOrigin | src/data/data_cleaner.py:183-187 | every output row stands for the first input row with its Campaign_ID: same id, company, duration and date, and no categorical cell left empty |
| Cleaner.CleanedRowsRemoved | src/data/data_cleaner.py:190-194 | the output keeps one row per distinct Campaign_ID, so `rows_removed` counts exactly the repeated ids |
| Cleaner.CleanedIdsDistinct | src/data/data_cleaner.py:184 | no Campaign_ID repeats in the output |
| Cleaner.CleansLoadedRows | src/data/data_cleaner.py:158-160 | the loader's frame, whose costs are already numbers, never makes `clean_data` fail |
| Records.DurationBin | src/data/data_cleaner.py:94-98 | the duration category is Short on (0, 7], Medium on (7, 30], Long above 30, and absent otherwise |
| Records.EngagementBin | src/data/data_cleaner.py:109-113 | the engagement category is Low on (0, 3], Medium on (3, 6], High on (6, 10], and absent otherwise |
| Records.DurationBinMonotone | src/data/data_cleaner.py:94-98 | a longer campaign never lands in a shorter bin |
| Records.EngagementBinMonotone | src/data/data_cleaner.py:109-113 | a higher score never lands in a lower bin |
| Records.MissingColumns | src/data/data_loader.py:51 | the missing columns are exactly the required columns absent from the header, so the header check passes exactly when every required column is present |
| Text.ExtractNumber | src/data/data_cleaner.py:89 | the `(\d+)` extraction is absent exactly when the text has no digit, and is otherwise the value of the first maximal digit run of the text |
| Text.FirstRun | src/data/data_cleaner.py:89 | the digit run found is the first one: it is non-empty, preceded only by non-digits and not followed by a digit; it is absent exactly when the text has no digit |
| Text.ExtractNumberSplit | src/data/data_cleaner.py:89 | the leftmost maximal digit run is the one extracted, whatever text precedes or follows it |
| Text.StripClean | src/data/data_cleaner.py:160 | text without `$` or `,` is not changed by stripping |
| Text.CurrencyRoundTrip | src/data/generate_sample_data.py:77-79 | stripping `$` and `,` from an amount formatted `"${:,.2f}"` and parsing the rest gives back the amount |
| Text.TitleCaseIdempotent | src/data/data_cleaner.py:128 | title-casing twice is the same as title-casing once |
| Text.TitleCaseOnlyCase | src/data/data_cleaner.py:128 | title-casing changes nothing but letter case |
| Text.TitleCase | src/data/data_cleaner.py:128 | a character is upper-cased when it starts the text or follows an uncased character, and lower-cased when it follows a cased letter |
| Text.ParseDecimal | src/data/data_loader.py:68 | empty text does not parse; a digit string reads as its integer value, with a leading `-` as its negation and a leading `+` as itself; a negative reading starts with `-` |
| Text.PaddedSpelling | src/data/data_loader.py:64 | a digit string spells its value padded with zeros to its own length |
| Calendar.IsoRoundTrip | src/data/data_loader.py:64 | every date a Timestamp can hold is read back from its ISO spelling |
| Calendar.ParseIsoDate | src/data/data_loader.py:64 | a date read from text lies within the Timestamp range and is spelt by that text in `YYYY-MM-DD` form |
| Calendar.IsoSpelling | src/data/data_loader.py:64 | a ten-character text with dashes at positions 4 and 7 and fields read as digits is the ISO spelling of the date its fields give |
| Calendar.DayNumberOrder | src/data/data_processor.py:147 | day numbers order dates exactly as the calendar does and tell them apart |
| Calendar.DaysBetween | src/data/data_processor.py:147 | the whole days between two dates are non-negative exactly when the first is not after the second, and zero exactly when they are equal |
| Calendar.Earliest | src/data/data_loader.py:118 | `min()` of a date column is one of its dates and is not after any of them; it is absent only for no dates |
| Calendar.Latest | src/data/data_loader.py:119 | `max()` of a date column is one of its dates and is not before any of them; it is absent only for no dates |
| Calendar.DaysSinceIsCalendarDays | src/analysis/segment_analysis.py:39 | `(now - date).days` ignores the time of day: it is the calendar difference of the two dates |
| Calendar.MonthsBetweenNonNegative | src/analysis/cohort_analysis.py:37-40 | a later date never lies in an earlier month, and the month difference is zero exactly for the same month |
| Calendar.QuarterOf | src/data/data_cleaner.py:105 | the quarter lies in 1..4 and contains its month |
| Processor.ValidateData | src/data/data_processor.py:40-65 | a file that passes has every required column |
| Processor.MissingColumnFails | src/data/data_processor.py:42-45 | a missing required column fails validation |
| Processor.EmptyCountFails | src/data/data_processor.py:55-59 | an empty Clicks, Impressions or Engagement_Score cell fails validation |
| Processor.StricterThanLoader | src/data/data_processor.py:55-59 | a file the loader accepts with an empty Clicks cell is rejected here |
| Processor.ValidWithNumbers | src/data/data_processor.py:40-61 | a file with every required column and every count cell a number passes, whatever its other cells hold |
| Processor.CostCell | src/data/data_processor.py:98-100 | a converted cost is never text, and is empty exactly when the cell is empty or does not parse under its column's dtype |
| Processor.DurationDays | src/data/data_processor.py:94-96 | Duration_Days exists only for an object Duration column; there it exists exactly when the text has a digit and is the number spelt by the first maximal digit run |
| Processor.DeriveRow | src/data/data_processor.py:116-130 | `clean_data` leaves the campaign duration and its category for the transform |
| Processor.CleanData | src/data/data_processor.py:87-132 | `clean_data` fails exactly when the date or cost conversion raises; otherwise it returns one row per de-duplicated line |
| Processor.Process | src/data/data_processor.py:248-266 | `process` fails exactly when validation fails or a cleaning step raises, and it records whether the rate columns can be averaged |
| Processor.ImputeIsNoOp | src/data/data_processor.py:102-106 | after validation the median fill never changes anything |
| Processor.FilledRow | src/data/data_processor.py:108-111 | after both fills each row is its line with Channel_Used, Target_Audience, Location, Language and Customer_Segment filled with "Unknown": the median fill changes nothing, and Campaign_Type keeps its empty cells |
| Processor.CleanedRow | src/data/data_processor.py:87-130 | each cleaned row comes from the first line with its Campaign_ID: id, company and type as written, the five categorical cells filled, the counts present, cost and date converted; its CTR is clicks over impressions, its Engagement_Category the bin of its score, and Month, Quarter and Year exist exactly when the date does |
| Processor.ProcessedRow | src/data/data_processor.py:255-266 | each processed row stands for the first line of its Campaign_ID, converted, filled and derived |
| Processor.ProcessedDuration | src/data/data_processor.py:146-157 | each processed row carries the span of the processed dates as its Campaign_Duration, and that span's bin |
| Processor.ProcessedIds | src/data/data_processor.py:114 | `process` keeps exactly one row per distinct Campaign_ID, and no id repeats |
| Processor.DeduplicatedCount | src/data/data_processor.py:114 | the de-duplicated frame has one row per distinct raw Campaign_ID |
| Processor.Span | src/data/data_processor.py:147 | the span is never negative |
| Processor.Transform | src/data/data_processor.py:134-160 | every row gets the span of the dataset's dates as Campaign_Duration and that span's bin as Duration_Category; CTR exists exactly when clicks and impressions are present and impressions non-zero, and then times the impressions gives the clicks; every other cell is kept |
| Processor.SpanPresent | src/data/data_processor.py:147 | the span exists exactly when some row is dated |
| Processor.SpanIsWidest | src/data/data_processor.py:147 | no two dated rows lie further apart than the span |
| Processor.SpanAttained | src/data/data_processor.py:147 | the span is the distance between two dated rows |
| Processor.TransformKeepsDates | src/data/data_processor.py:139-160 | the transform keeps the dates and so their span |
| Processor.OneDateNoCategory | src/data/data_processor.py:151-157 | when all dated rows share one date the span is 0, and no row gets a Duration_Category |
| Processor.SharedDuration | src/data/data_processor.py:146-157 | all processed rows share one Campaign_Duration and one Duration_Category |
| Processor.NumericRates | src/data/data_processor.py:179-180 | rate columns typed float64 can always be averaged |
| Processor.TextRateBlocks | src/data/data_processor.py:179-180 | a non-numeric ROI on a kept line stops the dashboard from being computed |
| Processor.Truncate | src/data/data_processor.py:173-174 | `int()` truncates toward zero |
| Processor.ByCategory | src/data/data_processor.py:218-223 | grouping by the categorical Duration_Category lists all three categories, observed or not |
| Processor.PrepareDashboard | src/data/data_processor.py:171-226 | the dashboard exists exactly when the rate columns are numeric; total_campaigns is the row count; the average conversion rate, ROI and engagement score are the column means of the present values; total_acquisition_cost is the cost sum, and the click and impression totals are their sums truncated by `int()`; duration_metrics has the three categories |
| Processor.TypeCountsAddUp | src/data/data_processor.py:187-193 | the campaign_types counts add up to the rows with both a Campaign_Type and a Campaign_ID |
| Processor.TypeCountsCoverTypedRows | src/data/data_processor.py:187-193 | when every id is present, the campaign_types counts add up to the rows with a Campaign_Type |
| Processor.ChannelTotals | src/data/data_processor.py:172-174 | the channel table's Impressions and Clicks add up to the column sums, and the summary totals are those sums truncated |
| Processor.SegmentCostTotal | src/data/data_processor.py:201-206 | the segment cost sums add up to the summary's total acquisition cost |
| Processor.GeographicCounts | src/data/data_processor.py:207-212 | the geographic counts add up to the number of present Campaign_IDs |
| Processor.MonthlyTrendEntry | src/data/data_processor.py:213-217 | a monthly_trends entry aggregates exactly one channel's rows within one month |
| Processor.DurationMetricsOneClass | src/data/data_processor.py:218-223 | when all rows share one category, duration_metrics reports them all under it and no campaign under the others |
| Processor.ProcessedFilled | src/data/data_processor.py:108-111 | no processed row lacks a channel, location or segment |
| Processor.ProcessedDashboard | src/data/data_processor.py:171-224 | for a processed file, the channel totals are the summary sums, the segment costs add up to the total cost, the geographic counts add up to the present ids, and all campaigns fall under the one shared duration category |
| Cohort.SortRows | src/analysis/cohort_analysis.py:31 | the rows are sorted ascending by (Date, Campaign_ID) and are a permutation of the input |
| Cohort.PrecedesByDate | src/analysis/cohort_analysis.py:31 | rows are ordered by date, then by id with a missing id last |
| Cohort.CreateCohorts | src/analysis/cohort_analysis.py:20-42 | cohorts are absent exactly when some row lacks a date or an audience; otherwise there is one cohort row per input row |
| Cohort.CohortsReorderInput | src/analysis/cohort_analysis.py:31-34 | the cohort rows are the input rows reordered ascending, and each Cohort_Month is the row's own month |
| Cohort.FirstDateIsEarliest | src/analysis/cohort_analysis.py:39 | an audience's first date is not after any of its rows' dates |
| Cohort.FirstDateAttained | src/analysis/cohort_analysis.py:39 | an audience's first date belongs to one of its rows |
| Cohort.OffsetFromFirstMonth | src/analysis/cohort_analysis.py:37-40 | Months_Since_First_Campaign is 12 times the year difference plus the month difference from the audience's first month, and it is never negative |
| Cohort.AudienceStartsAtZero | src/analysis/cohort_analysis.py:37-40 | every audience has a cohort row at offset 0 |
| Cohort.Retention | src/analysis/cohort_analysis.py:57-67 | the retention matrix exists exactly when some row has offset 0 |
| Cohort.RetentionCell | src/analysis/cohort_analysis.py:57-67 | a cell is present exactly when its bucket has rows and its month's offset-0 bucket has an audience; it is then the ratio of the two distinct-audience counts |
| Cohort.RetentionStartsAtOne | src/analysis/cohort_analysis.py:67 | the offset-0 cell is exactly 1 whenever it is present |
| Cohort.RetentionNeedsStart | src/analysis/cohort_analysis.py:67 | a month with no offset-0 cell has no cells at all |
| Cohort.RetentionAboveOne | src/analysis/cohort_analysis.py:57-67 | cells are not bounded by 1: a three-row example has a cell equal to 2 |
| Cohort.MeanCell | src/analysis/cohort_analysis.py:71-90 | a mean cell is present exactly when some row of its bucket has a value, and it is then the mean of the bucket's values; an empty bucket is absent, never 0 |
| Cohort.CohortMetricsOf | src/analysis/cohort_analysis.py:44-92 | the metrics exist exactly when the retention matrix has column 0, and the conversion and ROI matrices are the bucket means |
| Cohort.CohortsHaveStartColumn | src/analysis/cohort_analysis.py:37-40 | cohorts of a non-empty frame always have column 0 |
| Cohort.BreakdownEntry | src/analysis/cohort_analysis.py:107-140 | a breakdown has one entry per occurring (month, value) pair, and each entry counts and averages exactly that pair's rows |
| Cohort.BreakdownCountsAddUp | src/analysis/cohort_analysis.py:107-140 | the breakdown counts add up to the rows with an id and a value of the dimension, and to the row count when every row has both |
| Cohort.Breakdown | src/analysis/cohort_analysis.py:107-140 | a breakdown has an entry exactly for each (Cohort_Month, value) pair some row carries, and it is the behaviour of the rows with that pair |
| Cohort.AnalyzeCohortBehaviour | src/analysis/cohort_analysis.py:94-143 | the channel, campaign-type and segment breakdowns have an entry exactly for each (Cohort_Month, value) pair some row carries |
| Segment.RfmMetrics | src/analysis/segment_analysis.py:38-48 | the RFM table has one row per distinct audience |
| Segment.RfmEntry | src/analysis/segment_analysis.py:38-48 | an audience has an RFM row exactly when some row carries it; the frequency counts its ids, the total spend sums its costs, and the average spend is the total over the frequency, absent for a frequency of 0 |
| Segment.RecencyFromLatest | src/analysis/segment_analysis.py:39 | recency exists exactly when some row of the audience is dated, and is then the days from the audience's latest date to the day of `now` |
| Segment.LatestBounds | src/analysis/segment_analysis.py:39 | `x.max()` over an audience's dates is not before any of its dated rows |
| Segment.RecencyNonNegative | src/analysis/segment_analysis.py:39 | recency is never negative when no campaign is dated after `now` |
| Segment.FrequenciesAddUp | src/analysis/segment_analysis.py:40 | the frequencies add up to the ids of the rows with an audience, and to all present ids when no audience is missing |
| Segment.SpendsAddUp | src/analysis/segment_analysis.py:41 | the total spends add up to the cost total of the rows with an audience |
| Segment.PerformClusterAnalysis | src/analysis/segment_analysis.py:74-85 | the cluster table's keys are exactly Cluster_0 to Cluster_{k-1} |
| Segment.ClusterEntry | src/analysis/segment_analysis.py:76-85 | each cluster's entry is the size and the raw-column means of the rows labelled with it |
| Segment.ClusterMembers | src/analysis/segment_analysis.py:77 | a cluster holds exactly the rows labelled with it |
| Segment.ClusterSizesAddUp | src/analysis/segment_analysis.py:76-79 | when every label lies in 0..k-1, the cluster sizes add up to the row count |
| Segment.OverallMatchesRfm | src/analysis/segment_analysis.py:102-109 | the overall table has the RFM table's audiences, and each count is that audience's RFM frequency |
| Segment.PairCountsAddUp | src/analysis/segment_analysis.py:113-127 | a two-column table's counts add up to the ids of the rows carrying both keys, and to the row count when nothing is missing |
| Segment.PerformanceCountsAddUp | src/analysis/segment_analysis.py:113-128 | the by-channel and by-campaign-type counts add up to the row count |
| Segment.TrendCountsAddUp | src/analysis/segment_analysis.py:145-157 | an audience's trend counts over its periods add up to its ids among the rows with a period |
| Segment.TrendsMatchOverall | src/analysis/segment_analysis.py:145-157 | when every row is dated, an audience's monthly and quarterly counts both add up to its overall count |
| Segment.AnalyzeSegmentPerformance | src/analysis/segment_analysis.py:89-130 | the overall table has an entry exactly for each audience some row carries, computed from that audience's rows; the by-channel and by-campaign-type tables have an entry exactly for each (audience, value) pair some row carries, computed from that pair's rows |
| Segment.AnalyzeSegmentTrends | src/analysis/segment_analysis.py:132-160 | the monthly and quarterly tables have an entry exactly for each (audience, period) pair some dated row carries, computed from that pair's rows |
| Channel.CalculateChannelMetrics | src/analysis/channel_analysis.py:39-57 | the metrics table has one row per distinct channel |
| Grouping.GroupByEntries | src/analysis/channel_analysis.py:39-48 | a `groupby` table has an entry for a key exactly when some row carries that key |
| Grouping.GroupsOf | src/analysis/channel_analysis.py:39-48 | the keys of a `groupby` table are exactly the keys some row carries |
| Grouping.PairGroups | src/analysis/channel_analysis.py:74-127 | a two-column `groupby` table has an entry exactly for the pairs some row carries, and that entry aggregates the rows with both keys |
| Channel.ChannelRatios | src/analysis/channel_analysis.py:39-57 | a channel's entry counts the Campaign_IDs of its rows, sums their impressions, clicks and cost, and averages their conversion rate, ROI, engagement score and engagement rate; the CTR exists exactly when the impressions are non-zero and is clicks over impressions; the CPC exists exactly when the clicks are non-zero and is cost over clicks |
| Channel.RatioOfSums | src/analysis/channel_analysis.py:51-53 | the CTR is a ratio of sums, not the mean of the rows' rates: two rows give 1/4 where their own rates average 1/2 |
| Channel.MetricsAddUp | src/analysis/channel_analysis.py:39-43 | the count, impression, click and cost columns add up over the channels to the totals of the rows with a channel |
| Channel.MetricsAddUpToDataset | src/analysis/channel_analysis.py:39-43 | when every row has a channel, those columns add up to the dataset totals |
| Channel.PairEntry | src/analysis/channel_analysis.py:74-127 | a (channel, dimension) table has an entry exactly for the pairs some row carries, and each entry aggregates exactly that pair's rows |
| Channel.PairCountsAddUp | src/analysis/channel_analysis.py:74-127 | a (channel, dimension) table's counts add up to the ids of the rows carrying both keys, and to the row count when nothing is missing |
| Channel.TableCountsAddUp | src/analysis/channel_analysis.py:74-127 | with every row complete, the effectiveness and trend counts all add up to the row count |
| Channel.MonthlyCostsAddUp | src/analysis/channel_analysis.py:113-118 | a channel's monthly cost sums add up to its cost total in the metrics table |
| Channel.ChannelTable | src/analysis/channel_analysis.py:74-98 | a (channel, dimension) table has an entry exactly for the pairs some row carries, aggregating that pair's rows |
| Channel.AnalyzeChannelEffectiveness | src/analysis/channel_analysis.py:61-98 | the campaign-type, audience and segment tables have an entry exactly for each (channel, value) pair some row carries, and each entry aggregates exactly that pair's rows |
| Channel.AnalyzeChannelTrends | src/analysis/channel_analysis.py:100-130 | the monthly and quarterly tables have an entry exactly for each (channel, period) pair some dated row carries, and each entry aggregates exactly that pair's rows |
| Channel.MessageRules | src/analysis/channel_analysis.py:228-265 | each list has 1 to 5 messages in rule order; it starts with "High ROI" exactly when the channel's mean ROI is strictly above the overall mean, and "Below average ROI" otherwise; each further message appears exactly when its strict comparison holds, and a NaN mean fails every comparison |
| Channel.MessagesAgainstItself | src/analysis/channel_analysis.py:228-265 | a channel compared with itself gets only "Below average ROI" |
| Channel.FlagAppend | src/analysis/channel_analysis.py:239-265 | appending one rule's optional message keeps the list in rule order and adds that message exactly when its condition holds |
| Channel.ChannelRecommendations | src/analysis/channel_analysis.py:224-226 | the keys are exactly the distinct values of the channel column, NaN included |
| Channel.OnlyChannel | src/analysis/channel_analysis.py:224-225 | a dataset with one channel has that channel as its only unique value, and the channel's rows are all the rows |
| Channel.SingleChannel | src/analysis/channel_analysis.py:229-265 | a single-channel dataset gets exactly one message, "Below average ROI" |
| Channel.HighChannelAbove | src/analysis/channel_analysis.py:229-233 | a channel told its ROI is high has an ROI sum above the overall mean times its ROI count |
| Channel.NotAllAbove | src/analysis/channel_analysis.py:229-237 | not every channel can lie above the overall mean, since the mean is a count-weighted average of the channel means |
| Channel.SomeChannelBelowAverage | src/analysis/channel_analysis.py:229-237 | when every row has a channel and the mean ROI exists, some channel is told its ROI is below average |
| Channel.NanChannel | src/analysis/channel_analysis.py:224-237 | a row without a channel makes NaN a key, whose only message is "Below average ROI" with a NaN ROI |
| Channel.SampleMeans | create_sample_data.py:11-14 | on the five sample rows, Google Ads averages an ROI of 5.95, YouTube 6.41, and all rows 6.226 |
| Channel.SampleRecommendations | src/analysis/channel_analysis.py:229-237 | on the sample rows YouTube is told it is a high-ROI performer, and Google Ads that its ROI is below average |
| Revenue.EstimatedRevenue | src/analysis/run_analysis.py:26 | a row's revenue exists exactly when both its cost and its ROI do; with both non-negative, it is at least the cost |
| Revenue.RunAnalysis | src/analysis/run_analysis.py:14-27 | total_campaigns is the row count; avg_roi, avg_conversion_rate and avg_engagement_score are the means of the present values of their columns, absent exactly when no row has one; the click, impression and acquisition-cost totals are the sums of the present values, and estimated_total_revenue is the sum, over the rows with both a cost and an ROI, of the cost times one plus the ROI |
| Revenue.MeanDefined | src/analysis/run_analysis.py:16-19 | a column mean is NaN exactly when no row has a value |
| Revenue.RevenueSplits | src/analysis/run_analysis.py:26-27 | the revenue total is the cost of the rows with an ROI plus the sum of cost times ROI |
| Revenue.AllCostsRecovered | src/analysis/run_analysis.py:18-27 | when every row with a cost has an ROI, the cost recovered in the revenue is the whole acquisition cost |
| Revenue.RevenueIdentity | src/analysis/run_analysis.py:18-27 | estimated_total_revenue is total_acquisition_cost plus the summed cost times ROI, provided no row has a cost without an ROI |
| Revenue.MissingRoiDropsCost | src/analysis/run_analysis.py:18-27 | a row with a cost and no ROI drops out of the revenue but not out of the cost total |
| Revenue.RevenueCoversCost | src/analysis/run_analysis.py:26-27 | with non-negative costs and ROIs, and an ROI for every cost, the estimated revenue covers the acquisition cost |
| Revenue.AverageRoiWithin | src/analysis/run_analysis.py:16 | the average ROI lies within any bounds that every ROI respects |

## Where the code and its docstrings and comments differ

The model follows the code in each of these places.

- **Cohort_Month** (`src/analysis/cohort_analysis.py:34`). This is the row's
  own calendar month, not the month of the audience's first campaign
  (`Cohort.CohortsReorderInput`). Cells of the retention matrix are
  therefore not bounded by 1 (`Cohort.RetentionAboveOne`).
- **The retention matrix.** It divides by its `0` column. When no bucket has
  offset 0, pandas raises a `KeyError`; the model gives `None`
  (`Cohort.Retention`). Cohorts built from a non-empty frame always have that
  column (`Cohort.CohortsHaveStartColumn`).
- **Range repair.** It writes the median of the current column, bad values
  included. The range therefore holds afterwards only when that median is
  itself in range (`Cleaner.RepairInRange`, `Cleaner.RepairWithBadMedian`).
- **The processor's validation.** An empty count cell is fatal there, while
  the loader only warns (`Processor.StricterThanLoader`). Its expected type
  for Campaign_ID is never checked.
- **The revenue identity.** "revenue = cost + cost × ROI" holds only when no
  row has a cost without an ROI. Otherwise the cost total includes a cost
  that the revenue total drops (`Revenue.MissingRoiDropsCost`).

## Left out

- **File I/O.** Reading and writing CSV and JSON, chunked reading in
  `DataProcessor.load_data`, the `save_*` methods and directory creation are
  left out. A file is given as its header and cells (`Records.RawTable`).
- **Plotting and logging.** These are side effects only.
- **KMeans and StandardScaler.** They are iterative floating-point library
  code. The label vector they produce is a parameter of
  `Segment.PerformClusterAnalysis`.
- **Library statistics.** The ANOVA F-test and the correlation matrix in
  `channel_analysis.py` are floating-point library numerics.
- **`.round(n)`.** All aggregates are exact reals, unrounded.
- **`pd.Timestamp.now()`.** It reads the clock, so the instant is the
  parameter `now`.
- **Infinities.** Dividing by zero yields an infinity or NaN in pandas. The
  model yields `None` for both (`Values.Ratio`). The two differ downstream:
  pandas' mean over a column holding an infinity is that infinity, while the
  model leaves the row out of the mean. A row with 0 impressions and some
  clicks therefore makes pandas' Engagement_Rate means in the channel
  analysis infinite, and the engagement-rate message of
  `src/analysis/channel_analysis.py:261-262` compares an infinity; the model
  averages the other rows.
- **Message text.** Recommendations are constructors carrying the mean they
  report. The f-string wording and its `.2f`/`.2%` formatting are left out.
- **Text conversions.**
  - Title-casing treats ASCII letters only.
  - Decimal parsing accepts an optional `+` or `-` sign, digits and an
    optional fractional part. Exponents, `inf`, `nan`, surrounding whitespace
    and `_` are not accepted.
  - Digits are ASCII `0`-`9` only, in decimal parsing, date fields and the
    `(\d+)` extraction. Python's `\d` and `float` also accept other Unicode
    decimal digits, such as Arabic-Indic ones; the model treats those as
    non-digits.
  - Dates are read in the `YYYY-MM-DD` form only, within pandas' nanosecond
    Timestamp range. A numeric Date cell is treated as a conversion failure.
- **Cell types.** A numeric cell in a text column such as Channel_Used is
  not representable. Such columns are read as text or empty.
- **Campaign_ID** is read as an integer. Textual ids such as `C-01` and
  fractional ids such as `1.5` are outside the model, although `read_csv`
  would type those columns object or float64, and
  `src/data/data_processor.py:49` even names `object` as the id's expected
  type. With string ids, `sort_values(['Date', 'Campaign_ID'])`
  (`src/analysis/cohort_analysis.py:31`) would order the ids
  lexicographically; `Cohort.PrecedesByDate` orders them as integers.
- **`transform_data` aliases.** The Campaign_Month, Campaign_Quarter and
  Campaign_Year columns it adds duplicate Month, Quarter and Year, so they
  are not modelled separately.
- **Processor.DeriveRow** states only that the duration columns are left
  empty. Its derived columns are stated for cleaned rows by
  `Processor.CleanedRow`.
- **Not modelled.** `src/compile_whitepaper.py`, `run_project.py` and
  `src/run_analysis.py` only template files, orchestrate processes and
  sequence the pipeline. The random sample generator is also out, except for
  its currency format (`Text.FormatCurrency`).
