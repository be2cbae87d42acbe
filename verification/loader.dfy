/** `MarketingDataLoader`: reading the campaign file, the pass/fail verdict
    of `validate_data` with the conversions it performs, `load_data`, and
    `get_summary_stats`. */
module Loader {
  import opened Values
  import opened Stats
  import opened Grouping
  import opened Text
  import opened Calendar
  import opened Records

  // ---------------------------------------------------------------------
  // How `read_csv` types a column.

  /** A raw cell `read_csv` reads as a float: empty, or a decimal number. */
  predicate ParsesAsNumber(o: Option<string>)
  {
    o.None? || ParseDecimal(o.value).Some?
  }

  /** The dtype `read_csv` infers for a column: float64 when the file has
      rows and every non-empty cell is a decimal number (so an all-empty
      column is float64 too), object otherwise. */
  function ColumnType<T>(rows: seq<T>, cell: T -> Option<string>): (d: Dtype)
    ensures d == Numeric <==> |rows| > 0 && forall i :: 0 <= i < |rows| ==> ParsesAsNumber(cell(rows[i]))
    ensures d == Numeric ==> forall i :: 0 <= i < |rows| ==> !ReadCell(d, cell(rows[i])).Text?
    ensures d == Object && |rows| > 0 ==> exists i :: 0 <= i < |rows| && ReadCell(d, cell(rows[i])).Text?
  {
    if |rows| > 0 && forall i :: 0 <= i < |rows| ==> ParsesAsNumber(cell(rows[i])) then Numeric else Object
  }

  /** A raw cell as it is stored in a column of dtype `d`: a number in a
      float64 column, the text itself in an object column. */
  function ReadCell(d: Dtype, o: Option<string>): (c: Cell)
    ensures c.Null? <==> o.None?
    ensures c.Num? ==> d == Numeric && ParseDecimal(o.value) == Some(c.x)
    ensures c.Text? ==> o == Some(c.s) && (d == Object || ParseDecimal(c.s).None?)
  {
    match o
    case None => Null
    case Some(s) =>
      match (d, ParseDecimal(s))
      case (Numeric, Some(x)) => Num(x)
      case _ => Text(s)
  }

  /** Reading a column cell by cell under its inferred dtype: every cell of
      a float64 column is a number or empty. */
  lemma ReadNumericColumn<T>(rows: seq<T>, cell: T -> Option<string>, i: int)
    requires ColumnType(rows, cell) == Numeric && 0 <= i < |rows|
    ensures !ReadCell(Numeric, cell(rows[i])).Text?
  {
    assert ParsesAsNumber(cell(rows[i]));
  }

  function RawDate(r: RawRow): Option<string> { r.date }
  function RawCost(r: RawRow): Option<string> { r.cost }
  function RawDuration(r: RawRow): Option<string> { r.duration }

  // ---------------------------------------------------------------------
  // `validate_data`.

  /** Every present Date cell is a date `pd.to_datetime` accepts. */
  predicate DatesParse(rows: seq<RawRow>)
  {
    forall i :: 0 <= i < |rows| && rows[i].date.Some? ==> ParseIsoDate(rows[i].date.value).Some?
  }

  /** Every cell of the five numeric columns is empty or a number (`pd.to_numeric`). */
  predicate NumbersParse(rows: seq<RawRow>)
  {
    forall i :: 0 <= i < |rows| ==>
      ParsesAsNumber(rows[i].clicks) && ParsesAsNumber(rows[i].impressions) &&
      ParsesAsNumber(rows[i].engagementScore) && ParsesAsNumber(rows[i].conversionRate) &&
      ParsesAsNumber(rows[i].roi)
  }

  /** A currency cell with its `$` and `,` removed is a number (`astype(float)`). */
  predicate CostParses(o: Option<string>)
  {
    o.None? || ParseDecimal(StripCurrency(o.value)).Some?
  }

  predicate CostsParse(rows: seq<RawRow>)
  {
    forall i :: 0 <= i < |rows| ==> CostParses(rows[i].cost)
  }

  /** `validate_data`, in the order the checks run: the required columns,
      then the Date conversion, the numeric conversions, and the currency
      conversion, which goes through `.str` and so raises on a float64
      column. Null cells only produce a warning. */
  function ValidateData(t: RawTable): (ok: bool)
    ensures ok ==> MissingColumns(t) == {}
  {
    if MissingColumns(t) != {} then false
    else if !DatesParse(t.rows) then false
    else if !NumbersParse(t.rows) then false
    else if ColumnType(t.rows, RawCost) == Numeric then false
    else CostsParse(t.rows)
  }

  /** A missing required column fails validation before any conversion. */
  lemma MissingColumnFails(t: RawTable, c: string)
    requires c in RequiredColumns && c !in t.columns
    ensures !ValidateData(t)
  {
    assert c in MissingColumns(t);
  }

  /** A Date cell `pd.to_datetime` rejects fails validation. */
  lemma BadDateFails(t: RawTable, i: int)
    requires 0 <= i < |t.rows| && t.rows[i].date.Some? && ParseIsoDate(t.rows[i].date.value).None?
    ensures !ValidateData(t)
  {
  }

  /** A cost column that `read_csv` typed as float64, plain numbers or all
      empty, fails validation: `.str` raises on it. */
  lemma NumericCostFails(t: RawTable)
    requires |t.rows| > 0
    requires forall i :: 0 <= i < |t.rows| ==> t.rows[i].cost.None? || ParseDecimal(t.rows[i].cost.value).Some?
    ensures !ValidateData(t)
  {
    assert ColumnType(t.rows, RawCost) == Numeric;
  }

  /** A row with every cell empty.  */
  function Blank(r: RawRow): RawRow
  {
    RawRow(r.id, None, None, None, None, None, None, None, None, None, None, None, None, None, None, None)
  }

  /** Null cells never fail validation by themselves: emptying a whole row of
      a valid table keeps it valid, as long as the cost column still holds a
      currency string that keeps it an object column. */
  lemma BlankRowKeepsVerdict(t: RawTable, i: int, j: int)
    requires ValidateData(t)
    requires 0 <= i < |t.rows| && 0 <= j < |t.rows| && i != j
    requires t.rows[j].cost.Some? && ParseDecimal(t.rows[j].cost.value).None?
    ensures ValidateData(t.(rows := t.rows[i := Blank(t.rows[i])]))
  {
    var t' := t.(rows := t.rows[i := Blank(t.rows[i])]);
    assert !ParsesAsNumber(RawCost(t'.rows[j]));
    assert MissingColumns(t') == MissingColumns(t);
    BlankKeepsConversions(t.rows, i);
  }

  /** Emptying a row keeps every conversion of the other rows, and an empty
      row converts trivially. */
  lemma BlankKeepsConversions(rows: seq<RawRow>, i: int)
    requires 0 <= i < |rows|
    requires DatesParse(rows) && NumbersParse(rows) && CostsParse(rows)
    ensures var rows' := rows[i := Blank(rows[i])];
      DatesParse(rows') && NumbersParse(rows') && CostsParse(rows')
  {
    var rows' := rows[i := Blank(rows[i])];
    forall k | 0 <= k < |rows'|
      ensures rows'[k].date.Some? ==> ParseIsoDate(rows'[k].date.value).Some?
    {
      if k != i { assert rows'[k] == rows[k]; }
    }
    forall k | 0 <= k < |rows'|
      ensures ParsesAsNumber(rows'[k].clicks) && ParsesAsNumber(rows'[k].impressions) &&
              ParsesAsNumber(rows'[k].engagementScore) && ParsesAsNumber(rows'[k].conversionRate) &&
              ParsesAsNumber(rows'[k].roi)
    {
      if k != i { assert rows'[k] == rows[k]; }
    }
    forall k | 0 <= k < |rows'|
      ensures CostParses(rows'[k].cost)
    {
      if k != i { assert rows'[k] == rows[k]; }
    }
  }

  /** A numeric cell the sample generator writes: empty, or a plain digit string. */
  predicate DigitCell(o: Option<string>)
  {
    o.None? || (|o.value| > 0 && AllDigits(o.value))
  }

  /** A file written the way the sample generator writes it: every required
      column in the header, each Date cell the ISO spelling of a
      representable date, each numeric cell empty or a digit string, and
      each cost `"${:,.2f}"`-formatted, with at least one cost present (row
      `j`). `dates` and `cents` are the values the cells were written from. */
  predicate WrittenAsSample(t: RawTable, dates: seq<CalendarDate>, cents: seq<int>, j: int)
  {
    && (forall k :: 0 <= k < |RequiredColumns| ==> RequiredColumns[k] in t.columns)
    && |dates| == |t.rows| && |cents| == |t.rows|
    && (forall i :: 0 <= i < |t.rows| ==>
          InTimestampRange(dates[i]) && (t.rows[i].date.Some? ==> t.rows[i].date.value == FormatIsoDate(dates[i])))
    && (forall i :: 0 <= i < |t.rows| ==>
          DigitCell(t.rows[i].clicks) && DigitCell(t.rows[i].impressions) && DigitCell(t.rows[i].engagementScore) &&
          DigitCell(t.rows[i].conversionRate) && DigitCell(t.rows[i].roi))
    && (forall i :: 0 <= i < |t.rows| && t.rows[i].cost.Some? ==> t.rows[i].cost.value == FormatCurrency(cents[i]))
    && 0 <= j < |t.rows| && t.rows[j].cost.Some?
  }

  /** Such a file passes validation. */
  lemma FormattedFilePasses(t: RawTable, dates: seq<CalendarDate>, cents: seq<int>, j: int)
    requires WrittenAsSample(t, dates, cents, j)
    ensures ValidateData(t)
  {
    assert MissingColumns(t) == {};
    IsoDatesParse(t.rows, dates);
    DigitNumbersParse(t.rows);
    FormattedCostsParse(t.rows, cents);
    DollarIsNotNumber(FormatCurrency(cents[j]));
    assert !ParsesAsNumber(RawCost(t.rows[j]));
  }

  lemma IsoDatesParse(rows: seq<RawRow>, dates: seq<CalendarDate>)
    requires |dates| == |rows|
    requires forall i :: 0 <= i < |rows| ==>
      InTimestampRange(dates[i]) && (rows[i].date.Some? ==> rows[i].date.value == FormatIsoDate(dates[i]))
    ensures DatesParse(rows)
  {
    forall i | 0 <= i < |rows| && rows[i].date.Some?
      ensures ParseIsoDate(rows[i].date.value).Some?
    {
      IsoRoundTrip(dates[i]);
    }
  }

  lemma DigitNumbersParse(rows: seq<RawRow>)
    requires forall i :: 0 <= i < |rows| ==>
      DigitCell(rows[i].clicks) && DigitCell(rows[i].impressions) && DigitCell(rows[i].engagementScore) &&
      DigitCell(rows[i].conversionRate) && DigitCell(rows[i].roi)
    ensures NumbersParse(rows)
  {
  }

  lemma FormattedCostsParse(rows: seq<RawRow>, cents: seq<int>)
    requires |cents| == |rows|
    requires forall i :: 0 <= i < |rows| && rows[i].cost.Some? ==> rows[i].cost.value == FormatCurrency(cents[i])
    ensures CostsParse(rows)
  {
    forall i | 0 <= i < |rows|
      ensures CostParses(rows[i].cost)
    {
      if rows[i].cost.Some? {
        CurrencyRoundTrip(cents[i]);
      }
    }
  }

  /** A Date written as the ISO spelling of a date loads as that date. */
  lemma LoadsIsoDate(t: RawTable, i: int, d: CalendarDate)
    requires ValidateData(t) && 0 <= i < |t.rows|
    requires InTimestampRange(d) && t.rows[i].date == Some(FormatIsoDate(d))
    ensures LoadData(t).value[i].date == Some(d)
  {
    IsoRoundTrip(d);
  }

  /** Loading such a file gives back the dates and the amounts its cells
      were written from. */
  lemma FormattedFileLoads(t: RawTable, dates: seq<CalendarDate>, cents: seq<int>, j: int)
    requires WrittenAsSample(t, dates, cents, j)
    ensures ValidateData(t)
    ensures forall i :: 0 <= i < |t.rows| && t.rows[i].date.Some? ==> LoadData(t).value[i].date == Some(dates[i])
    ensures forall i :: 0 <= i < |t.rows| && t.rows[i].cost.Some? ==> LoadData(t).value[i].cost == Num(cents[i] as real / 100.0)
  {
    FormattedFilePasses(t, dates, cents, j);
    forall i | 0 <= i < |t.rows| && t.rows[i].date.Some?
      ensures LoadData(t).value[i].date == Some(dates[i])
    {
      LoadsIsoDate(t, i, dates[i]);
    }
    forall i | 0 <= i < |t.rows| && t.rows[i].cost.Some?
      ensures LoadData(t).value[i].cost == Num(cents[i] as real / 100.0)
    {
      LoadsFormattedCost(t, i, cents[i]);
    }
  }

  /** A text starting with `$` is not a number. */
  lemma DollarIsNotNumber(s: string)
    requires |s| > 0 && s[0] == '$'
    ensures ParseDecimal(s).None?
  {
    assert !IsDigit(s[0]);
    match IndexOf(s, '.')
    case None =>
    case Some(p) =>
      assert p > 0;
      assert s[..p][0] == s[0];
  }

  // ---------------------------------------------------------------------
  // `load_data`.

  function NumberOf(o: Option<string>): Option<real>
  {
    match o
    case None => None
    case Some(s) => ParseDecimal(s)
  }

  function DateOf(o: Option<string>): Option<CalendarDate>
  {
    match o
    case None => None
    case Some(s) => ParseIsoDate(s)
  }

  function CostOf(o: Option<string>): Cell
  {
    match o
    case None => Null
    case Some(s) =>
      match ParseDecimal(StripCurrency(s))
      case Some(x) => Num(x)
      case None => Null
  }

  /** One row of the frame `validate_data` leaves behind. */
  function LoadRow(r: RawRow, durationType: Dtype): Record
  {
    Record(r.id, r.company, r.campaignType, r.targetAudience, ReadCell(durationType, r.duration),
           r.channel, NumberOf(r.conversionRate), CostOf(r.cost), NumberOf(r.roi), r.location,
           r.language, NumberOf(r.clicks), NumberOf(r.impressions), NumberOf(r.engagementScore),
           r.segment, DateOf(r.date))
  }

  /** What a loaded row holds: every cell present exactly when the line's
      cell is, numbers and dates parsed from their text, the cost stripped of
      its currency format and parsed, Duration stored under the column's dtype,
      and the text columns copied. */
  predicate Converted(raw: RawRow, row: Record, durationType: Dtype)
  {
    && (row.date.Some? <==> raw.date.Some?)
    && (row.clicks.Some? <==> raw.clicks.Some?)
    && (row.impressions.Some? <==> raw.impressions.Some?)
    && (row.engagementScore.Some? <==> raw.engagementScore.Some?)
    && (row.conversionRate.Some? <==> raw.conversionRate.Some?)
    && (row.roi.Some? <==> raw.roi.Some?)
    && (row.cost.Num? <==> raw.cost.Some?) && !row.cost.Text?
    && (raw.date.Some? ==> row.date == ParseIsoDate(raw.date.value))
    && (raw.clicks.Some? ==> row.clicks == ParseDecimal(raw.clicks.value))
    && (raw.impressions.Some? ==> row.impressions == ParseDecimal(raw.impressions.value))
    && (raw.engagementScore.Some? ==> row.engagementScore == ParseDecimal(raw.engagementScore.value))
    && (raw.conversionRate.Some? ==> row.conversionRate == ParseDecimal(raw.conversionRate.value))
    && (raw.roi.Some? ==> row.roi == ParseDecimal(raw.roi.value))
    && (raw.cost.Some? ==> row.cost.Num? && ParseDecimal(StripCurrency(raw.cost.value)) == Some(row.cost.x))
    && row.duration == ReadCell(durationType, raw.duration)
    && row.id == raw.id && row.channel == raw.channel && row.targetAudience == raw.targetAudience
    && row.company == raw.company && row.campaignType == raw.campaignType && row.location == raw.location
    && row.language == raw.language && row.segment == raw.segment
  }

  /** A line that passed validation converts cell by cell. */
  lemma LoadRowConverted(t: RawTable, i: int, durationType: Dtype)
    requires ValidateData(t) && 0 <= i < |t.rows|
    ensures Converted(t.rows[i], LoadRow(t.rows[i], durationType), durationType)
  {
    assert DatesParse(t.rows) && NumbersParse(t.rows) && CostsParse(t.rows);
    var raw := t.rows[i];
    assert raw.date.Some? ==> ParseIsoDate(raw.date.value).Some?;
    assert ParsesAsNumber(raw.clicks) && ParsesAsNumber(raw.impressions) && ParsesAsNumber(raw.engagementScore);
    assert ParsesAsNumber(raw.conversionRate) && ParsesAsNumber(raw.roi);
    assert CostParses(raw.cost);
  }

  /** `load_data`: the converted frame when validation passes, `None`
      otherwise; each line converted as `Converted` states. */
  function LoadData(t: RawTable): (r: Option<seq<Record>>)
    ensures r.Some? <==> ValidateData(t)
    ensures r.Some? ==> |r.value| == |t.rows|
    ensures r.Some? ==> forall i :: 0 <= i < |t.rows| ==> Converted(t.rows[i], r.value[i], ColumnType(t.rows, RawDuration))
  {
    if ValidateData(t) then
      var d := ColumnType(t.rows, RawDuration);
      forall i | 0 <= i < |t.rows| ensures Converted(t.rows[i], LoadRow(t.rows[i], d), d) {
        LoadRowConverted(t, i, d);
      }
      Some(seq(|t.rows|, i requires 0 <= i < |t.rows| => LoadRow(t.rows[i], d)))
    else None
  }

  /** A cost the sample generator formats as `"$16,174.00"` loads back as the
      number it was formatted from. */
  lemma LoadsFormattedCost(t: RawTable, i: int, cents: int)
    requires ValidateData(t) && 0 <= i < |t.rows|
    requires t.rows[i].cost == Some(FormatCurrency(cents))
    ensures LoadData(t).value[i].cost == Num(cents as real / 100.0)
  {
    CurrencyRoundTrip(cents);
  }

  /** The Duration column keeps the dtype `read_csv` gave it, which is the
      dtype the cleaner later tests. */
  lemma LoadedDurationType(t: RawTable)
    requires ValidateData(t)
    ensures InferDtype(LoadData(t).value, RecordDuration) == ColumnType(t.rows, RawDuration)
  {
    var rows := LoadData(t).value;
    var d := ColumnType(t.rows, RawDuration);
    if d == Numeric {
      forall i | 0 <= i < |rows|
        ensures !RecordDuration(rows[i]).Text?
      {
        ReadNumericColumn(t.rows, RawDuration, i);
      }
    } else if |rows| > 0 {
      var i :| 0 <= i < |t.rows| && !ParsesAsNumber(RawDuration(t.rows[i]));
      assert RecordDuration(rows[i]).Text?;
    }
  }

  // ---------------------------------------------------------------------
  // `get_summary_stats`.

  datatype DatasetSummary = DatasetSummary(
    totalCampaigns: nat,
    campaignTypes: map<string, nat>,
    channels: map<string, nat>,
    companies: map<string, nat>,
    start: Option<CalendarDate>,
    end: Option<CalendarDate>,
    avgAcquisitionCost: Option<real>,
    totalClicks: real,
    totalImpressions: real,
    avgConversionRate: Option<real>,
    avgRoi: Option<real>,
    customerSegments: map<string, nat>)

  /** `get_summary_stats`: the row count, value counts of four categorical
      columns, the date range, column totals and column means. */
  function SummaryStats(rows: seq<Record>): (s: DatasetSummary)
    ensures s.totalCampaigns == |rows|
    ensures s.start.Some? <==> CountOf(rows, RecordDate) > 0
    ensures s.start.Some? ==> s.end.Some? && NotAfter(s.start.value, s.end.value)
    ensures s.totalClicks == SumOf(rows, RecordClicks) && s.totalImpressions == SumOf(rows, RecordImpressions)
    ensures s.avgRoi == MeanOf(rows, RecordRoi) && s.avgConversionRate == MeanOf(rows, RecordConversionRate)
    ensures s.avgAcquisitionCost == MeanOf(rows, RecordCost)
  {
    var dates := Present(rows, RecordDate);
    EarliestNotAfterLatest(dates);
    DatasetSummary(
      |rows|,
      ValueCounts(rows, RecordCampaignType),
      ValueCounts(rows, RecordChannel),
      ValueCounts(rows, RecordCompany),
      Earliest(dates),
      Latest(dates),
      MeanOf(rows, RecordCost),
      SumOf(rows, RecordClicks),
      SumOf(rows, RecordImpressions),
      MeanOf(rows, RecordConversionRate),
      MeanOf(rows, RecordRoi),
      ValueCounts(rows, RecordSegment))
  }

  /** The per-category counts of the summary add up to the number of rows
      holding a value in that column. */
  lemma SummaryCountsAddUp(rows: seq<Record>)
    ensures CountTotal(Keys(rows, RecordCampaignType), SummaryStats(rows).campaignTypes) == CountOf(rows, RecordCampaignType)
    ensures CountTotal(Keys(rows, RecordChannel), SummaryStats(rows).channels) == CountOf(rows, RecordChannel)
    ensures CountTotal(Keys(rows, RecordCompany), SummaryStats(rows).companies) == CountOf(rows, RecordCompany)
    ensures CountTotal(Keys(rows, RecordSegment), SummaryStats(rows).customerSegments) == CountOf(rows, RecordSegment)
  {
    ValueCountsAddUp(rows, RecordCampaignType);
    ValueCountsAddUp(rows, RecordChannel);
    ValueCountsAddUp(rows, RecordCompany);
    ValueCountsAddUp(rows, RecordSegment);
  }

  /** The date range is spanned by rows of the frame: some row has the start
      date, some row has the end date, and every dated row lies between. */
  lemma SummaryDateRange(rows: seq<Record>, i: int)
    requires 0 <= i < |rows| && rows[i].date.Some?
    ensures SummaryStats(rows).start.Some? && NotAfter(SummaryStats(rows).start.value, rows[i].date.value)
    ensures SummaryStats(rows).end.Some? && NotAfter(rows[i].date.value, SummaryStats(rows).end.value)
  {
    var dates := Present(rows, RecordDate);
    PresentIncludes(rows, RecordDate, i);
    var k :| 0 <= k < |dates| && dates[k] == rows[i].date.value;
  }
}
