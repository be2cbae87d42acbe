/** `MarketingDataProcessor`: the alternative pipeline. It validates the raw
    file with its own rules, cleans it (fewer columns imputed and filled
    than the cleaner, no title-casing, no range repair), transforms it with
    one dataset-wide campaign duration, and aggregates it for the dashboard. */
module Processor {
  import opened Values
  import opened Stats
  import opened Grouping
  import opened Calendar
  import opened Records
  import Loader
  import Cleaner
  import Duplicates
  import Text

  // ---------------------------------------------------------------------
  // `validate_data`.

  /** A cell `pd.to_numeric(errors='coerce')` turns into a number: present,
      and a decimal. An empty cell becomes NaN. */
  predicate IsNumber(o: Option<string>)
  {
    o.Some? && Text.ParseDecimal(o.value).Some?
  }

  /** Every Impressions, Clicks and Engagement_Score cell is a number. */
  predicate CountsNumeric(rows: seq<RawRow>)
  {
    forall i :: 0 <= i < |rows| ==>
      IsNumber(rows[i].impressions) && IsNumber(rows[i].clicks) && IsNumber(rows[i].engagementScore)
  }

  /** `validate_data`: the required columns, then the three columns expected
      to be numbers; Campaign_ID's expected type is never checked. */
  function ValidateData(t: RawTable): (ok: bool)
    ensures ok ==> MissingColumns(t) == {}
  {
    MissingColumns(t) == {} && CountsNumeric(t.rows)
  }

  /** A missing required column fails validation. */
  lemma MissingColumnFails(t: RawTable, c: string)
    requires c in RequiredColumns && c !in t.columns
    ensures !ValidateData(t)
  {
    assert c in MissingColumns(t);
  }

  /** An empty Clicks, Impressions or Engagement_Score cell fails validation,
      although the loader only warns about it. */
  lemma EmptyCountFails(t: RawTable, i: int)
    requires 0 <= i < |t.rows|
    requires t.rows[i].clicks.None? || t.rows[i].impressions.None? || t.rows[i].engagementScore.None?
    ensures !ValidateData(t)
  {
  }

  /** The difference from the loader: a file the loader accepts with an
      empty Clicks cell is rejected here. */
  lemma StricterThanLoader(t: RawTable, i: int)
    requires Loader.ValidateData(t) && 0 <= i < |t.rows| && t.rows[i].clicks.None?
    ensures MissingColumns(t) == {} && !ValidateData(t)
  {
  }

  /** A file with every required column and every count a number passes,
      whatever its Date, cost and rate cells hold. */
  lemma ValidWithNumbers(t: RawTable)
    requires MissingColumns(t) == {}
    requires forall i :: 0 <= i < |t.rows| ==>
      IsNumber(t.rows[i].impressions) && IsNumber(t.rows[i].clicks) && IsNumber(t.rows[i].engagementScore)
    ensures ValidateData(t)
  {
  }

  // ---------------------------------------------------------------------
  // The frame `clean_data` starts from.

  function RawId(r: RawRow): Option<int> { r.id }
  function RawConversionRate(r: RawRow): Option<string> { r.conversionRate }
  function RawRoi(r: RawRow): Option<string> { r.roi }

  /** The Acquisition_Cost cell after its conversion: a float64 column is
      already numbers; an object column is stripped of `$` and `,` and
      converted (a cell that does not convert has made the step raise). */
  function CostCell(costType: Dtype, o: Option<string>): (c: Cell)
    ensures !c.Text?
    ensures c.Null? <==> o.None? || (costType == Numeric && Text.ParseDecimal(o.value).None?)
                                  || (costType == Object && Text.ParseDecimal(Text.StripCurrency(o.value)).None?)
  {
    match (costType, o)
    case (_, None) => Null
    case (Numeric, Some(s)) => (match Text.ParseDecimal(s) case Some(x) => Num(x) case None => Null)
    case (Object, Some(s)) => Loader.CostOf(o)
  }

  /** One line as the processor's frame holds it after the Date and cost
      conversions: the counts and rates as numbers, Duration as `read_csv`
      typed it. */
  function ReadRow(r: RawRow, durationType: Dtype, costType: Dtype): Record
  {
    Loader.LoadRow(r, durationType).(cost := CostCell(costType, r.cost))
  }

  /** The dtypes `read_csv` gives the Duration and Acquisition_Cost columns. */
  function DurationType(t: RawTable): Dtype
  {
    Loader.ColumnType(t.rows, Loader.RawDuration)
  }

  function CostType(t: RawTable): Dtype
  {
    Loader.ColumnType(t.rows, Loader.RawCost)
  }

  /** The frame, one record per line. */
  function Frame(t: RawTable): (rows: seq<Record>)
    ensures |rows| == |t.rows|
  {
    seq(|t.rows|, i requires 0 <= i < |t.rows| => ReadRow(t.rows[i], DurationType(t), CostType(t)))
  }

  // ---------------------------------------------------------------------
  // `clean_data`.

  /** The three columns whose empty cells take the column median. */
  const ImputedColumns: seq<Measure> := [ClicksColumn, ImpressionsColumn, EngagementScoreColumn]

  /** The five columns whose empty cells become "Unknown"; Campaign_Type is not one. */
  const FilledColumns: seq<Category> := [ChannelColumn, AudienceColumn, LocationColumn, LanguageColumn, SegmentColumn]

  /** `to_datetime` raises on a Date cell it cannot read, and `astype(float)`
      on an object cost cell that is not a number once stripped. */
  predicate CleanFails(t: RawTable)
  {
    !Loader.DatesParse(t.rows) || (CostType(t) == Object && !Loader.CostsParse(t.rows))
  }

  /** The frame after the median and "Unknown" fills. */
  function FilledFrame(t: RawTable): (rows: seq<Record>)
    ensures |rows| == |t.rows|
  {
    Cleaner.FillCategories(Cleaner.ImputeMeasures(Frame(t), ImputedColumns), FilledColumns)
  }

  /** The frame after `drop_duplicates` on Campaign_ID. */
  function Deduplicated(t: RawTable): (rows: seq<Record>)
    ensures |rows| <= |t.rows|
  {
    Duplicates.DropDuplicates(FilledFrame(t), RecordId)
  }

  /** `Duration_Days`, a column added only when Duration is an object column:
      the first digit run of the text. */
  function DurationDays(durationType: Dtype, c: Cell): (d: Option<real>)
    ensures durationType == Numeric ==> d.None?
    ensures durationType == Object ==> d == Cleaner.CampaignDuration(Object, c)
    ensures durationType == Object ==> (d.Some? <==> c.Text? && exists k :: 0 <= k < |c.s| && Text.IsDigit(c.s[k]))
    ensures d.Some? ==> c.Text? && exists i, j :: Text.IsFirstRun(c.s, i, j) && d.value == Text.ParseDigits(c.s[i..j]) as real
  {
    if durationType == Object then Cleaner.CampaignDuration(Object, c) else None
  }

  /** The derived columns of `clean_data`: Month, Quarter, Year, CTR and
      Engagement_Category as the cleaner derives them, plus Duration_Days;
      the campaign duration and its category wait for `transform_data`. */
  function DeriveRow(r: Record, durationType: Dtype): (c: Campaign)
    ensures c.campaignDuration.None? && c.durationCategory.None?
  {
    Cleaner.DeriveRow(r, durationType).(campaignDuration := None, durationCategory := None,
                                         durationDays := DurationDays(durationType, r.duration))
  }

  /** `clean_data`: absent when a conversion raises. */
  function CleanData(t: RawTable): (r: Option<seq<Campaign>>)
    ensures r.None? <==> CleanFails(t)
    ensures r.Some? ==> |r.value| == |Deduplicated(t)|
  {
    if CleanFails(t) then None else Some(DeriveAll(Deduplicated(t), DurationType(t)))
  }

  /** The derived columns added to every kept row. */
  function DeriveAll(kept: seq<Record>, durationType: Dtype): (out: seq<Campaign>)
    ensures |out| == |kept|
    ensures forall k :: 0 <= k < |kept| ==> out[k] == DeriveRow(kept[k], durationType)
  {
    seq(|kept|, k requires 0 <= k < |kept| => DeriveRow(kept[k], durationType))
  }

  // ---------------------------------------------------------------------
  // `transform_data`.

  /** `(Date.max() - Date.min()).days`: the days from the earliest to the
      latest present date, NaN when no date is present. */
  function Span(rows: seq<Campaign>): (s: Option<real>)
    ensures s.Some? ==> s.value >= 0.0
  {
    var ds := Present(rows, Dates);
    match (Earliest(ds), Latest(ds))
    case (Some(e), Some(l)) =>
      EarliestNotAfterLatest(ds);
      Some(DaysBetween(e, l) as real)
    case _ => None
  }

  /** `transform_data`: every row gets the same Campaign_Duration, the span
      of the dataset's dates, and the same Duration_Category; CTR is
      recomputed. */
  function Transform(rows: seq<Campaign>): (out: seq<Campaign>)
    ensures |out| == |rows|
    ensures forall i :: 0 <= i < |rows| ==>
      out[i].campaignDuration == Span(rows) && out[i].durationCategory == DurationBin(out[i].campaignDuration)
    ensures forall i :: 0 <= i < |rows| ==>
      (out[i].engagementRate.Some? <==> out[i].clicks.Some? && out[i].impressions.Some? && out[i].impressions.value != 0.0)
    ensures forall i :: 0 <= i < |rows| && out[i].engagementRate.Some? ==>
      out[i].engagementRate.value * out[i].impressions.value == out[i].clicks.value
    ensures forall i :: 0 <= i < |rows| ==>
      out[i].(campaignDuration := rows[i].campaignDuration, durationCategory := rows[i].durationCategory,
              engagementRate := rows[i].engagementRate) == rows[i]
  {
    var span := Span(rows);
    seq(|rows|, i requires 0 <= i < |rows| =>
      rows[i].(campaignDuration := span, durationCategory := DurationBin(span),
               engagementRate := Ratio(rows[i].clicks, rows[i].impressions)))
  }

  /** The frame `process` leaves behind, and whether its Conversion_Rate and
      ROI columns can be averaged. */
  datatype Processed = Processed(rows: seq<Campaign>, ratesNumeric: bool)

  /** A rate cell that keeps its column an object column: present in a row
      that survives de-duplication, in a column `read_csv` did not type as
      float64. Averaging such a column raises. */
  predicate TextRate(t: RawTable, i: int)
    requires 0 <= i < |t.rows|
  {
    || (Loader.ColumnType(t.rows, RawConversionRate) == Object && t.rows[i].conversionRate.Some?)
    || (Loader.ColumnType(t.rows, RawRoi) == Object && t.rows[i].roi.Some?)
  }

  predicate RatesNumeric(t: RawTable)
  {
    forall i :: 0 <= i < |t.rows| && Duplicates.IsFirst(t.rows, RawId, i) ==> !TextRate(t, i)
  }

  /** `process`: load and validate, clean, transform; absent when validation
      fails or a step raises. */
  function Process(t: RawTable): (r: Option<Processed>)
    ensures r.None? <==> !ValidateData(t) || CleanFails(t)
    ensures r.Some? ==> r.value.ratesNumeric == RatesNumeric(t)
  {
    if !ValidateData(t) then None
    else
      match CleanData(t)
      case None => None
      case Some(rows) => Some(Processed(Transform(rows), RatesNumeric(t)))
  }

  // ---------------------------------------------------------------------
  // What `process` promises about its rows.

  /** Imputing columns that have no empty cell changes nothing. */
  lemma {:induction false} ImputeNothing(rows: seq<Record>, ms: seq<Measure>)
    requires forall m :: m in ms ==> !Cleaner.HasNull(rows, MeasureOf(m))
    ensures Cleaner.ImputeMeasures(rows, ms) == rows
    decreases |ms|
  {
    if |ms| > 0 {
      assert ms[0] in ms;
      assert forall m :: m in ms[1..] ==> m in ms;
      ImputeNothing(rows, ms[1..]);
    }
  }

  /** After validation no count cell is empty. */
  lemma NoEmptyCounts(t: RawTable, m: Measure)
    requires ValidateData(t) && m in ImputedColumns
    ensures !Cleaner.HasNull(Frame(t), MeasureOf(m))
  {
    var rows := Frame(t);
    forall i | 0 <= i < |rows|
      ensures MeasureOf(m)(rows[i]).Some?
    {
      assert IsNumber(t.rows[i].impressions) && IsNumber(t.rows[i].clicks) && IsNumber(t.rows[i].engagementScore);
    }
  }

  /** The median fill of `clean_data` never fires: validation has already
      rejected every file with an empty count cell. */
  lemma ImputeIsNoOp(t: RawTable)
    requires ValidateData(t)
    ensures Cleaner.ImputeMeasures(Frame(t), ImputedColumns) == Frame(t)
  {
    forall m | m in ImputedColumns
      ensures !Cleaner.HasNull(Frame(t), MeasureOf(m))
    {
      NoEmptyCounts(t, m);
    }
    ImputeNothing(Frame(t), ImputedColumns);
  }

  /** A row with its five listed categorical cells filled with "Unknown". */
  function FillRow(r: Record): Record
  {
    r.(channel := Some(r.channel.GetOr(Cleaner.Unknown)),
       targetAudience := Some(r.targetAudience.GetOr(Cleaner.Unknown)),
       location := Some(r.location.GetOr(Cleaner.Unknown)),
       language := Some(r.language.GetOr(Cleaner.Unknown)),
       segment := Some(r.segment.GetOr(Cleaner.Unknown)))
  }

  /** The filled frame, row by row: each line read and its five categorical
      cells filled; Campaign_Type keeps its empty cells. */
  lemma FilledRow(t: RawTable, i: int)
    requires ValidateData(t) && 0 <= i < |t.rows|
    ensures FilledFrame(t)[i] == FillRow(Frame(t)[i])
  {
    ImputeIsNoOp(t);
    FillsListed(Frame(t), i);
  }

  /** Filling the five listed columns fills each row as `FillRow` does. */
  lemma FillsListed(rows: seq<Record>, i: int)
    requires 0 <= i < |rows|
    ensures Cleaner.FillCategories(rows, FilledColumns)[i] == FillRow(rows[i])
  {
    var a, b := Cleaner.FillCategories(rows, FilledColumns)[i], FillRow(rows[i]);
    forall c
      ensures CategoryOf(c)(a) == CategoryOf(c)(b)
    {
      FillsListedCell(rows, i, c);
    }
    Cleaner.FilledCell(rows, FilledColumns, i, CampaignTypeColumn);
    assert NonCategories(b) == NonCategories(rows[i]);
    SameRow(a, b);
  }

  /** One categorical cell of a filled row. */
  lemma FillsListedCell(rows: seq<Record>, i: int, c: Category)
    requires 0 <= i < |rows|
    ensures CategoryOf(c)(Cleaner.FillCategories(rows, FilledColumns)[i]) == CategoryOf(c)(FillRow(rows[i]))
  {
    Cleaner.FilledCell(rows, FilledColumns, i, c);
    assert c in FilledColumns <==> c != CampaignTypeColumn;
  }

  /** A row is fixed by its categorical cells and the rest. */
  lemma SameRow(a: Record, b: Record)
    requires NonCategories(a) == NonCategories(b)
    requires forall c :: CategoryOf(c)(a) == CategoryOf(c)(b)
    ensures a == b
  {
    assert CategoryOf(CampaignTypeColumn)(a) == CategoryOf(CampaignTypeColumn)(b);
    assert CategoryOf(ChannelColumn)(a) == CategoryOf(ChannelColumn)(b);
    assert CategoryOf(AudienceColumn)(a) == CategoryOf(AudienceColumn)(b);
    assert CategoryOf(LocationColumn)(a) == CategoryOf(LocationColumn)(b);
    assert CategoryOf(LanguageColumn)(a) == CategoryOf(LanguageColumn)(b);
    assert CategoryOf(SegmentColumn)(a) == CategoryOf(SegmentColumn)(b);
  }

  /** The line a de-duplicated row comes from: the k-th first occurrence of
      a Campaign_ID. */
  function Origin(t: RawTable, k: int): (j: int)
    requires 0 <= k < |Deduplicated(t)|
    ensures 0 <= j < |t.rows| && Duplicates.IsFirst(FilledFrame(t), RecordId, j)
    ensures Deduplicated(t)[k] == FilledFrame(t)[j]
  {
    Duplicates.KeepsFirstPositions(FilledFrame(t), RecordId);
    Duplicates.FirstPositions(FilledFrame(t), RecordId)[k]
  }

  /** Filling keeps every Campaign_ID. */
  lemma FilledIds(t: RawTable)
    requires ValidateData(t)
    ensures forall i :: 0 <= i < |t.rows| ==> RecordId(FilledFrame(t)[i]) == RawId(t.rows[i])
  {
    forall i | 0 <= i < |t.rows|
      ensures RecordId(FilledFrame(t)[i]) == RawId(t.rows[i])
    {
      FilledRow(t, i);
    }
  }

  /** De-duplication keeps the first line of each Campaign_ID, in order. */
  lemma OriginIsFirst(t: RawTable, k: int)
    requires ValidateData(t) && 0 <= k < |Deduplicated(t)|
    ensures Duplicates.IsFirst(t.rows, RawId, Origin(t, k))
  {
    FilledIds(t);
  }

  lemma OriginIncreasing(t: RawTable, k: int, l: int)
    requires 0 <= k < l < |Deduplicated(t)|
    ensures Origin(t, k) < Origin(t, l)
  {
    var ps := Duplicates.FirstPositions(FilledFrame(t), RecordId);
    Duplicates.KeepsFirstPositions(FilledFrame(t), RecordId);
    assert Origin(t, k) == ps[k] && Origin(t, l) == ps[l];
  }

  /** What a processed row holds of the line it comes from: the id, company
      and Campaign_Type as written, the five filled categorical cells, the
      counts (all present), rates, cost and date as converted, and the
      digits of a text Duration. */
  predicate FromLine(c: Campaign, raw: RawRow, t: RawTable)
  {
    && c.id == raw.id && c.company == raw.company && c.campaignType == raw.campaignType
    && c.channel == Some(raw.channel.GetOr(Cleaner.Unknown))
    && c.targetAudience == Some(raw.targetAudience.GetOr(Cleaner.Unknown))
    && c.location == Some(raw.location.GetOr(Cleaner.Unknown))
    && c.language == Some(raw.language.GetOr(Cleaner.Unknown))
    && c.segment == Some(raw.segment.GetOr(Cleaner.Unknown))
    && c.clicks.Some? && c.clicks == Loader.NumberOf(raw.clicks)
    && c.impressions.Some? && c.impressions == Loader.NumberOf(raw.impressions)
    && c.engagementScore.Some? && c.engagementScore == Loader.NumberOf(raw.engagementScore)
    && c.conversionRate == Loader.NumberOf(raw.conversionRate) && c.roi == Loader.NumberOf(raw.roi)
    && c.cost == AsNumber(CostCell(CostType(t), raw.cost)) && c.date == Loader.DateOf(raw.date)
    && c.durationDays == DurationDays(DurationType(t), Loader.ReadCell(DurationType(t), raw.duration))
  }

  /** The per-row derived columns: CTR, Engagement_Category, and the
      calendar fields of the date. */
  predicate Derived(c: Campaign)
  {
    && c.engagementRate == Ratio(c.clicks, c.impressions)
    && c.engagementCategory == EngagementBin(c.engagementScore)
    && (c.date.Some? ==> c.month == Some(c.date.value.month) && c.year == Some(c.date.value.year)
                         && c.quarter == Some(QuarterOf(c.date.value.month)))
    && (c.date.None? ==> c.month.None? && c.quarter.None? && c.year.None?)
  }

  /** A cleaned row, before the transform, comes from its origin line. */
  lemma CleanedRow(t: RawTable, k: int)
    requires ValidateData(t) && CleanData(t).Some? && 0 <= k < |CleanData(t).value|
    ensures 0 <= k < |Deduplicated(t)|
    ensures FromLine(CleanData(t).value[k], t.rows[Origin(t, k)], t)
    ensures Derived(CleanData(t).value[k])
  {
    var j := Origin(t, k);
    FilledRow(t, j);
    var raw := t.rows[j];
    var c := CleanData(t).value[k];
    assert c == DeriveRow(FillRow(Frame(t)[j]), DurationType(t));
  }

  /** Transforming touches only the duration columns and CTR, so the dates
      and their span are those of its input. */
  lemma TransformKeepsDates(rows: seq<Campaign>)
    ensures Span(Transform(rows)) == Span(rows)
  {
    SameColumn(Transform(rows), Dates, rows, Dates);
  }

  /** Every row `process` returns stands for the first line of its
      Campaign_ID, converted and filled, with the per-row derived columns
      and the dataset-wide Campaign_Duration and Duration_Category. */
  lemma ProcessedRow(t: RawTable, k: int)
    requires Process(t).Some? && 0 <= k < |Process(t).value.rows|
    ensures 0 <= k < |Deduplicated(t)|
    ensures Duplicates.IsFirst(t.rows, RawId, Origin(t, k))
    ensures FromLine(Process(t).value.rows[k], t.rows[Origin(t, k)], t)
    ensures Derived(Process(t).value.rows[k])
  {
    CleanedRow(t, k);
    OriginIsFirst(t, k);
  }

  /** Every processed row carries the span of the processed dates as its
      Campaign_Duration, and that span's bin. */
  lemma ProcessedDuration(t: RawTable, k: int)
    requires Process(t).Some? && 0 <= k < |Process(t).value.rows|
    ensures Process(t).value.rows[k].campaignDuration == Span(Process(t).value.rows)
    ensures Process(t).value.rows[k].durationCategory == DurationBin(Span(Process(t).value.rows))
  {
    var rows := CleanData(t).value;
    TransformKeepsDates(rows);
    assert Process(t).value.rows[k] == Transform(rows)[k];
  }

  /** Two processed rows never share a Campaign_ID. */
  lemma ProcessedPairDiffers(t: RawTable, k: int, l: int)
    requires Process(t).Some? && 0 <= k < l < |Process(t).value.rows|
    ensures Process(t).value.rows[k].id != Process(t).value.rows[l].id
  {
    ProcessedRow(t, k);
    ProcessedRow(t, l);
    OriginIncreasing(t, k, l);
    var i, j := Origin(t, k), Origin(t, l);
    assert RawId(t.rows[i]) != RawId(t.rows[j]);
  }

  /** `process` keeps exactly one row per distinct Campaign_ID of the file. */
  lemma ProcessedIds(t: RawTable)
    requires Process(t).Some?
    ensures var rows := Process(t).value.rows;
      && (forall k, l :: 0 <= k < l < |rows| ==> rows[k].id != rows[l].id)
      && |rows| == |Duplicates.KeysOf(t.rows, RawId)|
  {
    var rows := Process(t).value.rows;
    forall k, l | 0 <= k < l < |rows|
      ensures rows[k].id != rows[l].id
    {
      ProcessedPairDiffers(t, k, l);
    }
    ProcessedCount(t);
  }

  lemma ProcessedCount(t: RawTable)
    requires Process(t).Some?
    ensures |Process(t).value.rows| == |Duplicates.KeysOf(t.rows, RawId)|
  {
    assert |Process(t).value.rows| == |Deduplicated(t)|;
    DeduplicatedCount(t);
  }

  lemma DeduplicatedCount(t: RawTable)
    requires ValidateData(t)
    ensures |Deduplicated(t)| == |Duplicates.KeysOf(t.rows, RawId)|
  {
    var f := FilledFrame(t);
    assert Deduplicated(t) == Duplicates.DropDuplicates(f, RecordId);
    Duplicates.OneRowPerKey(f, RecordId);
    FilledIds(t);
    SameKeys(f, RecordId, t.rows, RawId);
  }

  /** Two frames whose key columns agree row by row have the same keys. */
  lemma SameKeys<T, U, K>(a: seq<T>, ka: T -> K, b: seq<U>, kb: U -> K)
    requires |a| == |b| && forall i :: 0 <= i < |a| ==> ka(a[i]) == kb(b[i])
    ensures Duplicates.KeysOf(a, ka) == Duplicates.KeysOf(b, kb)
  {
    forall x | x in Duplicates.KeysOf(a, ka)
      ensures x in Duplicates.KeysOf(b, kb)
    {
      var i :| 0 <= i < |a| && ka(a[i]) == x;
      assert kb(b[i]) == x;
    }
    forall x | x in Duplicates.KeysOf(b, kb)
      ensures x in Duplicates.KeysOf(a, ka)
    {
      var i :| 0 <= i < |b| && kb(b[i]) == x;
      assert ka(a[i]) == x;
    }
  }

  // ---------------------------------------------------------------------
  // The span of the dates.

  /** Day numbers order dates: the calendar order read as numbers. */
  lemma NotAfterDayNumber(a: CalendarDate, b: CalendarDate)
    requires NotAfter(a, b)
    ensures DayNumber(a) <= DayNumber(b)
  {
    DayNumberOrder(a, b);
  }

  /** The span is present exactly when some row has a date. */
  lemma SpanPresent(rows: seq<Campaign>)
    ensures Span(rows).Some? <==> exists i :: 0 <= i < |rows| && rows[i].date.Some?
  {
    var ds := Present(rows, Dates);
    if exists i :: 0 <= i < |rows| && rows[i].date.Some? {
      var i :| 0 <= i < |rows| && rows[i].date.Some?;
      PresentIncludes(rows, Dates, i);
    } else if |ds| > 0 {
      PresentFrom(rows, Dates, ds[0]);
    }
  }

  /** No two dated rows lie further apart than the span. */
  lemma SpanIsWidest(rows: seq<Campaign>, i: int, j: int)
    requires 0 <= i < |rows| && 0 <= j < |rows| && rows[i].date.Some? && rows[j].date.Some?
    ensures Span(rows).Some?
    ensures DaysBetween(rows[i].date.value, rows[j].date.value) as real <= Span(rows).value
  {
    var ds := Present(rows, Dates);
    PresentIncludes(rows, Dates, i);
    PresentIncludes(rows, Dates, j);
    var e, l := Earliest(ds).value, Latest(ds).value;
    var a, b := rows[i].date.value, rows[j].date.value;
    var p :| 0 <= p < |ds| && ds[p] == a;
    var q :| 0 <= q < |ds| && ds[q] == b;
    NotAfterDayNumber(e, a);
    NotAfterDayNumber(b, l);
  }

  /** The span is the distance between two dated rows: the earliest and the latest. */
  lemma SpanAttained(rows: seq<Campaign>)
    requires Span(rows).Some?
    ensures exists i, j ::
      && 0 <= i < |rows| && 0 <= j < |rows| && rows[i].date.Some? && rows[j].date.Some?
      && Span(rows).value == DaysBetween(rows[i].date.value, rows[j].date.value) as real
  {
    var ds := Present(rows, Dates);
    var e, l := Earliest(ds).value, Latest(ds).value;
    PresentFrom(rows, Dates, e);
    PresentFrom(rows, Dates, l);
    var i :| 0 <= i < |rows| && Dates(rows[i]) == Some(e);
    var j :| 0 <= j < |rows| && Dates(rows[j]) == Some(l);
    assert Span(rows).value == DaysBetween(rows[i].date.value, rows[j].date.value) as real;
  }

  /** When every dated row shares one date, the span is 0 and no row gets a
      Duration_Category: the bins start above 0. */
  lemma OneDateNoCategory(rows: seq<Campaign>, d: CalendarDate, i: int)
    requires forall j :: 0 <= j < |rows| && rows[j].date.Some? ==> rows[j].date.value == d
    requires 0 <= i < |rows|
    ensures Transform(rows)[i].durationCategory.None?
  {
    if Span(rows).Some? {
      SpanAttained(rows);
    }
  }

  /** All processed rows share one Campaign_Duration and one Duration_Category. */
  lemma SharedDuration(t: RawTable, k: int, l: int)
    requires Process(t).Some?
    requires 0 <= k < |Process(t).value.rows| && 0 <= l < |Process(t).value.rows|
    ensures Process(t).value.rows[k].campaignDuration == Process(t).value.rows[l].campaignDuration
    ensures Process(t).value.rows[k].durationCategory == Process(t).value.rows[l].durationCategory
  {
    ProcessedDuration(t, k);
    ProcessedDuration(t, l);
  }

  // ---------------------------------------------------------------------
  // When the rates can be averaged.

  /** Rate columns `read_csv` typed as float64 can always be averaged. */
  lemma NumericRates(t: RawTable)
    requires Loader.ColumnType(t.rows, RawConversionRate) == Numeric
    requires Loader.ColumnType(t.rows, RawRoi) == Numeric
    ensures RatesNumeric(t)
  {
  }

  /** A rate cell that is not a number, on a line that survives
      de-duplication, keeps the dashboard from being computed. */
  lemma TextRateBlocks(t: RawTable, i: int)
    requires 0 <= i < |t.rows| && Duplicates.IsFirst(t.rows, RawId, i)
    requires t.rows[i].roi.Some? && Text.ParseDecimal(t.rows[i].roi.value).None?
    ensures !RatesNumeric(t)
  {
    assert !Loader.ParsesAsNumber(RawRoi(t.rows[i]));
    assert TextRate(t, i);
  }

  // ---------------------------------------------------------------------
  // `prepare_dashboard_data`.

  /** Python's `int()` on a float: truncation towards zero. */
  function Truncate(x: real): (n: int)
    ensures x >= 0.0 ==> n as real <= x < n as real + 1.0
    ensures x < 0.0 ==> n as real - 1.0 < x <= n as real
  {
    if x >= 0.0 then x.Floor else -((-x).Floor)
  }

  /** The aggregates the dashboard tables report for a group. Each table
      shows some of them: `Campaign_ID` counts, sums of Impressions, Clicks
      and Acquisition_Cost, and means of the rates, cost and score. */
  datatype Aggregates = Aggregates(
    campaigns: nat,
    impressions: real,
    clicks: real,
    acquisitionCost: real,
    conversionRate: Option<real>,
    roi: Option<real>,
    meanAcquisitionCost: Option<real>,
    engagementScore: Option<real>)

  function Aggregate(rows: seq<Campaign>): Aggregates
  {
    Aggregates(CountOf(rows, Id), SumOf(rows, Impressions), SumOf(rows, Clicks), SumOf(rows, Cost),
               MeanOf(rows, ConversionRate), MeanOf(rows, Roi), MeanOf(rows, Cost), MeanOf(rows, EngagementScore))
  }

  function Campaigns(a: Aggregates): nat { a.campaigns }
  function ImpressionsSum(a: Aggregates): real { a.impressions }
  function ClicksSum(a: Aggregates): real { a.clicks }
  function CostSum(a: Aggregates): real { a.acquisitionCost }

  /** The aggregates of an empty group: no campaigns, zero sums, NaN means. */
  const NoCampaigns: Aggregates := Aggregates(0, 0.0, 0.0, 0.0, None, None, None, None)

  datatype Summary = Summary(
    avgConversionRate: Option<real>,
    avgRoi: Option<real>,
    totalAcquisitionCost: real,
    totalClicks: int,
    totalImpressions: int,
    totalCampaigns: nat,
    avgEngagementScore: Option<real>)

  datatype Dashboard = Dashboard(
    summary: Summary,
    campaignTypes: map<string, Aggregates>,
    channelPerformance: map<string, Aggregates>,
    segmentPerformance: map<string, Aggregates>,
    geographicData: map<string, Aggregates>,
    monthlyTrends: map<(int, string), Aggregates>,
    durationMetrics: map<DurationClass, Aggregates>)

  const DurationClasses: set<DurationClass> := {Short, Medium, Long}

  /** `groupby('Duration_Category')` on a categorical column: every category
      has an entry, an unobserved one with the aggregates of no rows. */
  function ByCategory(rows: seq<Campaign>): (m: map<DurationClass, Aggregates>)
    ensures m.Keys == DurationClasses
  {
    map c | c in DurationClasses :: Aggregate(Where(rows, DurationCategory, c))
  }

  /** `prepare_dashboard_data`: absent when averaging a rate column raises. */
  function PrepareDashboard(p: Processed): (d: Option<Dashboard>)
    ensures d.Some? <==> p.ratesNumeric
    ensures d.Some? ==> d.value.summary.totalCampaigns == |p.rows| && d.value.durationMetrics.Keys == DurationClasses
    ensures d.Some? ==>
      && d.value.summary.avgConversionRate == MeanOf(p.rows, ConversionRate)
      && d.value.summary.avgRoi == MeanOf(p.rows, Roi)
      && d.value.summary.avgEngagementScore == MeanOf(p.rows, EngagementScore)
    ensures d.Some? ==>
      && d.value.summary.totalAcquisitionCost == SumOf(p.rows, Cost)
      && d.value.summary.totalClicks == Truncate(SumOf(p.rows, Clicks))
      && d.value.summary.totalImpressions == Truncate(SumOf(p.rows, Impressions))
  {
    if !p.ratesNumeric then None
    else
      var rows := p.rows;
      var summary := Summary(MeanOf(rows, ConversionRate), MeanOf(rows, Roi), SumOf(rows, Cost),
                             Truncate(SumOf(rows, Clicks)), Truncate(SumOf(rows, Impressions)), |rows|,
                             MeanOf(rows, EngagementScore));
      Some(Dashboard(summary,
                     GroupBy(rows, CampaignType, Aggregate),
                     GroupBy(rows, Channel, Aggregate),
                     GroupBy(rows, Segment, Aggregate),
                     GroupBy(rows, Location, Aggregate),
                     GroupBy(rows, PairKey(Month, Channel), Aggregate),
                     ByCategory(rows)))
  }

  /** The empty group aggregates to no campaigns, zero sums and NaN means. */
  lemma EmptyAggregate()
    ensures Aggregate([]) == NoCampaigns
  {
  }

  /** The campaign_types counts add up to the number of rows with both a
      Campaign_Type and a Campaign_ID. */
  lemma TypeCountsAddUp(rows: seq<Campaign>)
    ensures CountTotal(Keys(rows, CampaignType), CountColumn(GroupBy(rows, CampaignType, Aggregate), Campaigns))
         == CountOf(Keyed(rows, CampaignType), Id)
  {
    GroupByCountsAddUp(rows, CampaignType, Aggregate, Campaigns, Id);
  }

  /** With every Campaign_ID present, the campaign_types counts add up to the
      number of rows with a Campaign_Type. */
  lemma TypeCountsCoverTypedRows(rows: seq<Campaign>)
    requires forall i :: 0 <= i < |rows| ==> rows[i].id.Some?
    ensures CountTotal(Keys(rows, CampaignType), CountColumn(GroupBy(rows, CampaignType, Aggregate), Campaigns))
         == CountOf(rows, CampaignType)
  {
    TypeCountsAddUp(rows);
    var g := Keyed(rows, CampaignType);
    forall r | r in g
      ensures Id(r).Some?
    {
      KeyedMembers(rows, CampaignType, r);
    }
    CountAllPresent(g, Id);
    KeyedCount(rows, CampaignType);
  }

  /** A key column no row leaves empty groups every row. */
  lemma AllKeyed<K>(rows: seq<Campaign>, key: Campaign -> Option<K>)
    requires forall i :: 0 <= i < |rows| ==> key(rows[i]).Some?
    ensures Keyed(rows, key) == rows
  {
    KeyedAll(rows, key);
  }

  /** The channel table's Impressions and Clicks add up to the column sums
      when no row lacks a channel, and the summary totals are those sums
      truncated. */
  lemma ChannelTotals(p: Processed)
    requires p.ratesNumeric
    requires forall i :: 0 <= i < |p.rows| ==> p.rows[i].channel.Some?
    ensures var d := PrepareDashboard(p).value;
      && RealTotal(Keys(p.rows, Channel), RealColumn(d.channelPerformance, ImpressionsSum)) == SumOf(p.rows, Impressions)
      && RealTotal(Keys(p.rows, Channel), RealColumn(d.channelPerformance, ClicksSum)) == SumOf(p.rows, Clicks)
      && d.summary.totalImpressions == Truncate(SumOf(p.rows, Impressions))
      && d.summary.totalClicks == Truncate(SumOf(p.rows, Clicks))
  {
    AllKeyed(p.rows, Channel);
    GroupBySumsAddUp(p.rows, Channel, Aggregate, ImpressionsSum, Impressions);
    GroupBySumsAddUp(p.rows, Channel, Aggregate, ClicksSum, Clicks);
  }

  /** The segment table's Acquisition_Cost sums add up to the summary's
      total cost when no row lacks a segment. */
  lemma SegmentCostTotal(p: Processed)
    requires p.ratesNumeric
    requires forall i :: 0 <= i < |p.rows| ==> p.rows[i].segment.Some?
    ensures var d := PrepareDashboard(p).value;
      RealTotal(Keys(p.rows, Segment), RealColumn(d.segmentPerformance, CostSum)) == d.summary.totalAcquisitionCost
  {
    AllKeyed(p.rows, Segment);
    GroupBySumsAddUp(p.rows, Segment, Aggregate, CostSum, Cost);
  }

  /** The geographic counts add up to the number of present Campaign_IDs
      when no row lacks a location. */
  lemma GeographicCounts(p: Processed)
    requires p.ratesNumeric
    requires forall i :: 0 <= i < |p.rows| ==> p.rows[i].location.Some?
    ensures var d := PrepareDashboard(p).value;
      CountTotal(Keys(p.rows, Location), CountColumn(d.geographicData, Campaigns)) == CountOf(p.rows, Id)
  {
    AllKeyed(p.rows, Location);
    GroupByCountsAddUp(p.rows, Location, Aggregate, Campaigns, Id);
  }

  /** A monthly_trends entry aggregates one channel's rows within one month. */
  lemma MonthlyTrendEntry(p: Processed, m: int, ch: string)
    requires p.ratesNumeric && (m, ch) in PrepareDashboard(p).value.monthlyTrends
    ensures PrepareDashboard(p).value.monthlyTrends[(m, ch)] == Aggregate(Where(Where(p.rows, Month, m), Channel, ch))
  {
    var t := GroupBy(p.rows, PairKey(Month, Channel), Aggregate);
    assert PrepareDashboard(p).value.monthlyTrends == t;
    assert t[(m, ch)] == Aggregate(Where(p.rows, PairKey(Month, Channel), (m, ch)));
    WhereNested(p.rows, Month, Channel, m, ch);
  }

  /** When all rows share one Duration_Category, duration_metrics reports
      them all under it and no campaign under the other categories. */
  lemma DurationMetricsOneClass(rows: seq<Campaign>, cat: Option<DurationClass>, c: DurationClass)
    requires forall i :: 0 <= i < |rows| ==> rows[i].durationCategory == cat
    ensures ByCategory(rows)[c] == if cat == Some(c) then Aggregate(rows) else NoCampaigns
  {
    if cat == Some(c) {
      WhereAll(rows, DurationCategory, c);
    } else {
      WhereNone(rows, DurationCategory, c);
    }
  }

  /** No processed row lacks a channel, location or segment: `clean_data`
      filled them. */
  lemma ProcessedFilled(t: RawTable)
    requires Process(t).Some?
    ensures var rows := Process(t).value.rows;
      forall k :: 0 <= k < |rows| ==> rows[k].channel.Some? && rows[k].location.Some? && rows[k].segment.Some?
  {
    var rows := Process(t).value.rows;
    forall k | 0 <= k < |rows|
      ensures rows[k].channel.Some? && rows[k].location.Some? && rows[k].segment.Some?
    {
      ProcessedRow(t, k);
    }
  }

  /** The dashboard of a processed file: the channel totals are the
      summary's sums, the segment costs add up to the total cost, the
      geographic counts to the present Campaign_IDs, and duration_metrics
      puts every campaign under the one shared category. */
  lemma ProcessedDashboard(t: RawTable, c: DurationClass)
    requires Process(t).Some? && Process(t).value.ratesNumeric
    ensures var p := Process(t).value;
      var d := PrepareDashboard(p).value;
      && RealTotal(Keys(p.rows, Channel), RealColumn(d.channelPerformance, ImpressionsSum)) == SumOf(p.rows, Impressions)
      && RealTotal(Keys(p.rows, Channel), RealColumn(d.channelPerformance, ClicksSum)) == SumOf(p.rows, Clicks)
      && RealTotal(Keys(p.rows, Segment), RealColumn(d.segmentPerformance, CostSum)) == d.summary.totalAcquisitionCost
      && CountTotal(Keys(p.rows, Location), CountColumn(d.geographicData, Campaigns)) == CountOf(p.rows, Id)
      && d.durationMetrics[c] == if DurationBin(Span(p.rows)) == Some(c) then Aggregate(p.rows) else NoCampaigns
  {
    var p := Process(t).value;
    ProcessedFilled(t);
    ChannelTotals(p);
    SegmentCostTotal(p);
    GeographicCounts(p);
    forall k | 0 <= k < |p.rows|
      ensures p.rows[k].durationCategory == DurationBin(Span(p.rows))
    {
      ProcessedDuration(t, k);
    }
    DurationMetricsOneClass(p.rows, DurationBin(Span(p.rows)), c);
  }
}
