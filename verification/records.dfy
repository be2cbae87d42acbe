/** The rows the pipeline passes between its stages: a line of the raw CSV
    file, a loaded row, and a cleaned campaign, plus the two binnings the
    cleaning steps apply. */
module Records {
  import opened Values
  import opened Calendar

  /** One line of the campaign CSV file. Every cell is text as written, or
      absent when empty; `Campaign_ID` is read as an integer. */
  datatype RawRow = RawRow(
    id: Option<int>,
    company: Option<string>,
    campaignType: Option<string>,
    targetAudience: Option<string>,
    duration: Option<string>,
    channel: Option<string>,
    conversionRate: Option<string>,
    cost: Option<string>,
    roi: Option<string>,
    location: Option<string>,
    language: Option<string>,
    clicks: Option<string>,
    impressions: Option<string>,
    engagementScore: Option<string>,
    segment: Option<string>,
    date: Option<string>)

  /** A CSV file: the column names of its header line, and its lines. */
  datatype RawTable = RawTable(columns: seq<string>, rows: seq<RawRow>)

  /** The sixteen columns both the loader and the processor insist on. */
  const RequiredColumns: seq<string> := [
    "Campaign_ID", "Company", "Campaign_Type", "Target_Audience", "Duration",
    "Channel_Used", "Conversion_Rate", "Acquisition_Cost", "ROI", "Location",
    "Language", "Clicks", "Impressions", "Engagement_Score", "Customer_Segment", "Date"
  ]

  /** The required columns the header lacks (`set(required) - set(columns)`). */
  function MissingColumns(t: RawTable): (missing: set<string>)
    ensures forall c :: c in missing <==> c in RequiredColumns && c !in t.columns
    ensures missing == {} <==> forall k :: 0 <= k < |RequiredColumns| ==> RequiredColumns[k] in t.columns
  {
    set c | c in RequiredColumns && c !in t.columns
  }

  /** A loaded row: dates and the five numeric columns converted, cost
      converted to a number cell, `Duration` as the CSV reader typed it. */
  datatype Record = Record(
    id: Option<int>,
    company: Option<string>,
    campaignType: Option<string>,
    targetAudience: Option<string>,
    duration: Cell,
    channel: Option<string>,
    conversionRate: Option<real>,
    cost: Cell,
    roi: Option<real>,
    location: Option<string>,
    language: Option<string>,
    clicks: Option<real>,
    impressions: Option<real>,
    engagementScore: Option<real>,
    segment: Option<string>,
    date: Option<CalendarDate>)

  /** `Duration_Category`: the bins (0, 7], (7, 30], (30, inf). */
  datatype DurationClass = Short | Medium | Long

  /** `Engagement_Category`: the bins (0, 3], (3, 6], (6, 10], labelled
      Low, Medium and High. */
  datatype EngagementClass = LowEngagement | MediumEngagement | HighEngagement

  /** A campaign row as the analyses read it: the loaded columns with the
      numbers settled, and the derived columns of the cleaner or processor. */
  datatype Campaign = Campaign(
    id: Option<int>,
    company: Option<string>,
    campaignType: Option<string>,
    targetAudience: Option<string>,
    duration: Cell,
    channel: Option<string>,
    conversionRate: Option<real>,
    cost: Option<real>,
    roi: Option<real>,
    location: Option<string>,
    language: Option<string>,
    clicks: Option<real>,
    impressions: Option<real>,
    engagementScore: Option<real>,
    segment: Option<string>,
    date: Option<CalendarDate>,
    month: Option<int>,
    quarter: Option<int>,
    year: Option<int>,
    /** `Campaign_Duration` in days. */
    campaignDuration: Option<real>,
    durationCategory: Option<DurationClass>,
    /** `Engagement_Rate` (the processor calls the same ratio `CTR`). */
    engagementRate: Option<real>,
    engagementCategory: Option<EngagementClass>,
    /** `Duration_Days`, a processor column. */
    durationDays: Option<real>)

  // ---------------------------------------------------------------------
  // Binning (`pd.cut` with right-closed bins).

  /** `pd.cut(x, bins=[0, 7, 30, inf])`: absent for a missing value and for
      any value outside (0, inf). */
  function DurationBin(x: Option<real>): (c: Option<DurationClass>)
    ensures c.Some? <==> x.Some? && x.value > 0.0
    ensures c == Some(Short) <==> x.Some? && 0.0 < x.value <= 7.0
    ensures c == Some(Medium) <==> x.Some? && 7.0 < x.value <= 30.0
    ensures c == Some(Long) <==> x.Some? && 30.0 < x.value
  {
    match x
    case None => None
    case Some(v) =>
      if v <= 0.0 then None
      else if v <= 7.0 then Some(Short)
      else if v <= 30.0 then Some(Medium)
      else Some(Long)
  }

  /** `pd.cut(x, bins=[0, 3, 6, 10])`: absent for a missing value and for
      any value outside (0, 10]. */
  function EngagementBin(x: Option<real>): (c: Option<EngagementClass>)
    ensures c.Some? <==> x.Some? && 0.0 < x.value <= 10.0
    ensures c == Some(LowEngagement) <==> x.Some? && 0.0 < x.value <= 3.0
    ensures c == Some(MediumEngagement) <==> x.Some? && 3.0 < x.value <= 6.0
    ensures c == Some(HighEngagement) <==> x.Some? && 6.0 < x.value <= 10.0
  {
    match x
    case None => None
    case Some(v) =>
      if v <= 0.0 || v > 10.0 then None
      else if v <= 3.0 then Some(LowEngagement)
      else if v <= 6.0 then Some(MediumEngagement)
      else Some(HighEngagement)
  }

  function DurationRank(c: DurationClass): nat
  {
    match c
    case Short => 0
    case Medium => 1
    case Long => 2
  }

  function EngagementRank(c: EngagementClass): nat
  {
    match c
    case LowEngagement => 0
    case MediumEngagement => 1
    case HighEngagement => 2
  }

  /** Binning keeps order: a longer campaign never lands in a shorter bin. */
  lemma DurationBinMonotone(x: real, y: real)
    requires 0.0 < x <= y
    ensures DurationRank(DurationBin(Some(x)).value) <= DurationRank(DurationBin(Some(y)).value)
  {
  }

  /** Binning keeps order: a higher score never lands in a lower bin. */
  lemma EngagementBinMonotone(x: real, y: real)
    requires 0.0 < x <= y <= 10.0
    ensures EngagementRank(EngagementBin(Some(x)).value) <= EngagementRank(EngagementBin(Some(y)).value)
  {
  }

  // ---------------------------------------------------------------------
  // Column selectors, for grouping and aggregation.

  function Id(c: Campaign): Option<int> { c.id }
  function CampaignType(c: Campaign): Option<string> { c.campaignType }
  function Audience(c: Campaign): Option<string> { c.targetAudience }
  function Channel(c: Campaign): Option<string> { c.channel }
  function Location(c: Campaign): Option<string> { c.location }
  function Segment(c: Campaign): Option<string> { c.segment }
  function ConversionRate(c: Campaign): Option<real> { c.conversionRate }
  function Roi(c: Campaign): Option<real> { c.roi }
  function Cost(c: Campaign): Option<real> { c.cost }
  function Clicks(c: Campaign): Option<real> { c.clicks }
  function Impressions(c: Campaign): Option<real> { c.impressions }
  function EngagementScore(c: Campaign): Option<real> { c.engagementScore }
  function EngagementRate(c: Campaign): Option<real> { c.engagementRate }
  function Month(c: Campaign): Option<int> { c.month }
  function Quarter(c: Campaign): Option<int> { c.quarter }
  function Dates(c: Campaign): Option<CalendarDate> { c.date }
  function DurationCategory(c: Campaign): Option<DurationClass> { c.durationCategory }

  // ---------------------------------------------------------------------
  // The columns of a loaded row that the cleaning steps rewrite one at a time.

  /** The five numeric columns the cleaner imputes. */
  datatype Measure = ClicksColumn | ImpressionsColumn | EngagementScoreColumn | ConversionRateColumn | RoiColumn

  /** The six categorical columns the cleaner fills with "Unknown". */
  datatype Category = CampaignTypeColumn | ChannelColumn | AudienceColumn | LocationColumn | LanguageColumn | SegmentColumn

  function RecordId(r: Record): Option<int> { r.id }
  function RecordCompany(r: Record): Option<string> { r.company }
  function RecordCampaignType(r: Record): Option<string> { r.campaignType }
  function RecordAudience(r: Record): Option<string> { r.targetAudience }
  function RecordChannel(r: Record): Option<string> { r.channel }
  function RecordLocation(r: Record): Option<string> { r.location }
  function RecordLanguage(r: Record): Option<string> { r.language }
  function RecordSegment(r: Record): Option<string> { r.segment }
  function RecordClicks(r: Record): Option<real> { r.clicks }
  function RecordImpressions(r: Record): Option<real> { r.impressions }
  function RecordEngagementScore(r: Record): Option<real> { r.engagementScore }
  function RecordConversionRate(r: Record): Option<real> { r.conversionRate }
  function RecordRoi(r: Record): Option<real> { r.roi }
  function RecordCost(r: Record): Option<real> { AsNumber(r.cost) }
  function RecordDate(r: Record): Option<CalendarDate> { r.date }
  function RecordDuration(r: Record): Cell { r.duration }
  function RecordCostCell(r: Record): Cell { r.cost }

  /** The selector reading a numeric column. */
  function MeasureOf(m: Measure): Record -> Option<real>
  {
    match m
    case ClicksColumn => RecordClicks
    case ImpressionsColumn => RecordImpressions
    case EngagementScoreColumn => RecordEngagementScore
    case ConversionRateColumn => RecordConversionRate
    case RoiColumn => RecordRoi
  }

  /** A row with its five numeric cells cleared: what imputation never touches. */
  function NonMeasures(r: Record): Record
  {
    r.(clicks := None, impressions := None, engagementScore := None, conversionRate := None, roi := None)
  }

  /** A row with its six categorical cells cleared. */
  function NonCategories(r: Record): Record
  {
    r.(campaignType := None, channel := None, targetAudience := None, location := None, language := None, segment := None)
  }

  /** The row with one numeric column overwritten. */
  function SetMeasure(r: Record, m: Measure, v: Option<real>): (r': Record)
    ensures MeasureOf(m)(r') == v
    ensures forall n :: n != m ==> MeasureOf(n)(r') == MeasureOf(n)(r)
    ensures NonMeasures(r') == NonMeasures(r)
  {
    match m
    case ClicksColumn => r.(clicks := v)
    case ImpressionsColumn => r.(impressions := v)
    case EngagementScoreColumn => r.(engagementScore := v)
    case ConversionRateColumn => r.(conversionRate := v)
    case RoiColumn => r.(roi := v)
  }

  /** The selector reading a categorical column. */
  function CategoryOf(c: Category): Record -> Option<string>
  {
    match c
    case CampaignTypeColumn => RecordCampaignType
    case ChannelColumn => RecordChannel
    case AudienceColumn => RecordAudience
    case LocationColumn => RecordLocation
    case LanguageColumn => RecordLanguage
    case SegmentColumn => RecordSegment
  }

  /** The row with one categorical column overwritten. */
  function SetCategory(r: Record, c: Category, v: Option<string>): (r': Record)
    ensures CategoryOf(c)(r') == v
    ensures forall d :: d != c ==> CategoryOf(d)(r') == CategoryOf(d)(r)
    ensures NonCategories(r') == NonCategories(r)
  {
    match c
    case CampaignTypeColumn => r.(campaignType := v)
    case ChannelColumn => r.(channel := v)
    case AudienceColumn => r.(targetAudience := v)
    case LocationColumn => r.(location := v)
    case LanguageColumn => r.(language := v)
    case SegmentColumn => r.(segment := v)
  }

  /** Overwriting a numeric column changes nothing else: restoring it gives the row back. */
  lemma SetMeasureRestores(r: Record, m: Measure, v: Option<real>)
    ensures SetMeasure(SetMeasure(r, m, v), m, MeasureOf(m)(r)) == r
  {
  }

  /** Overwriting a categorical column changes nothing else: restoring it gives the row back. */
  lemma SetCategoryRestores(r: Record, c: Category, v: Option<string>)
    ensures SetCategory(SetCategory(r, c, v), c, CategoryOf(c)(r)) == r
  {
  }
}
