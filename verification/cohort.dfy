/** `CohortAnalyzer`: rows ordered by date and Campaign_ID and tagged with
    their calendar month and the months since their audience's first
    campaign; the retention, conversion and ROI matrices over (month,
    offset) buckets; and the per-month behaviour breakdowns. */
module Cohort {
  import opened Values
  import opened Grouping
  import opened Calendar
  import opened Records

  // ---------------------------------------------------------------------
  // `sort_values(['Date', 'Campaign_ID'])`.

  /** The sort key of a row: the date's day number, then the Campaign_ID,
      each preceded by a flag that puts a missing value (NaT, NaN) last. */
  function SortRank(c: Campaign): (int, int, int, int)
  {
    (if c.date.None? then 1 else 0, if c.date.Some? then DayNumber(c.date.value) else 0,
     if c.id.None? then 1 else 0, if c.id.Some? then c.id.value else 0)
  }

  /** Row `a` sorts strictly before row `b`. */
  predicate Precedes(a: Campaign, b: Campaign)
  {
    var (a0, a1, a2, a3) := SortRank(a);
    var (b0, b1, b2, b3) := SortRank(b);
    a0 < b0 || (a0 == b0 && (a1 < b1 || (a1 == b1 && (a2 < b2 || (a2 == b2 && a3 < b3)))))
  }

  /** Between two dated rows the order is the calendar order of the dates,
      and for the same date the order of the ids, a missing id last. */
  lemma PrecedesByDate(a: Campaign, b: Campaign)
    requires a.date.Some? && b.date.Some?
    ensures Precedes(a, b) <==>
      || Before(a.date.value, b.date.value)
      || (a.date == b.date && ((a.id.Some? && b.id.Some? && a.id.value < b.id.value) || (a.id.Some? && b.id.None?)))
  {
    DayNumberOrder(a.date.value, b.date.value);
  }

  /** Ascending, stated on neighbours: no row sorts before the row ahead of it. */
  predicate Ascending(s: seq<Campaign>)
  {
    forall i :: 0 < i < |s| ==> !Precedes(s[i], s[i - 1])
  }

  /** Insert `x` after every row that does not sort after it, so that among
      rows with the same key the one inserted later comes later. */
  function InsertRow(x: Campaign, s: seq<Campaign>): (r: seq<Campaign>)
    requires Ascending(s)
    ensures Ascending(r)
    ensures multiset(r) == multiset(s) + multiset{x}
    ensures |r| == |s| + 1
    ensures r[0] == if |s| > 0 && !Precedes(x, s[0]) then s[0] else x
  {
    if |s| == 0 then [x]
    else if Precedes(x, s[0]) then [x] + s
    else
      assert s == [s[0]] + s[1..];
      [s[0]] + InsertRow(x, s[1..])
  }

  /** A stable ascending sort by (Date, Campaign_ID). */
  function SortRows(rows: seq<Campaign>): (r: seq<Campaign>)
    ensures Ascending(r)
    ensures multiset(r) == multiset(rows)
    ensures |r| == |rows|
  {
    if |rows| == 0 then []
    else
      assert rows == rows[..|rows|-1] + [rows[|rows|-1]];
      InsertRow(rows[|rows|-1], SortRows(rows[..|rows|-1]))
  }

  // ---------------------------------------------------------------------
  // `create_cohorts`.

  /** A row with its cohort columns: `Cohort_Month`, its own calendar month,
      and `Months_Since_First_Campaign`. */
  datatype CohortRow = CohortRow(campaign: Campaign, cohortMonth: YearMonth, monthsSince: int)

  /** The earliest date among the rows of audience `a` (`groupby('Target_Audience')['Date'].transform('min')`). */
  function FirstDate(rows: seq<Campaign>, a: string): (f: Option<CalendarDate>)
  {
    Earliest(Present(Where(rows, Audience, a), Dates))
  }

  /** Subtracting a missing month raises (`NaT` has no `.n`): every row needs
      a date and an audience. */
  predicate Incomplete(rows: seq<Campaign>)
  {
    exists i :: 0 <= i < |rows| && (rows[i].date.None? || rows[i].targetAudience.None?)
  }

  /** One row's cohort columns, the months counted from the first month of
      its audience. */
  function Tag(rows: seq<Campaign>, c: Campaign): CohortRow
  {
    var month := if c.date.Some? then MonthOf(c.date.value) else YearMonth(0, 0);
    var first := if c.targetAudience.Some? then FirstDate(rows, c.targetAudience.value) else None;
    var since := if first.Some? then MonthsBetween(MonthOf(first.value), month) else 0;
    CohortRow(c, month, since)
  }

  /** `create_cohorts`: the rows in (Date, Campaign_ID) order with their
      cohort columns; absent when a row lacks a date or an audience. */
  function CreateCohorts(rows: seq<Campaign>): (r: Option<seq<CohortRow>>)
    ensures r.None? <==> Incomplete(rows)
    ensures r.Some? ==> |r.value| == |rows|
  {
    if Incomplete(rows) then None
    else
      var s := SortRows(rows);
      Some(seq(|s|, k requires 0 <= k < |s| => Tag(rows, s[k])))
  }

  function Campaigns(cs: seq<CohortRow>): seq<Campaign>
  {
    seq(|cs|, k requires 0 <= k < |cs| => cs[k].campaign)
  }

  /** The cohort rows are the input rows, reordered ascending by (Date,
      Campaign_ID), and each cohort month is the row's own month. */
  lemma CohortsReorderInput(rows: seq<Campaign>)
    requires CreateCohorts(rows).Some?
    ensures var cs := CreateCohorts(rows).value;
      && multiset(Campaigns(cs)) == multiset(rows)
      && Ascending(Campaigns(cs))
      && forall k :: 0 <= k < |cs| ==> cs[k].campaign.date.Some? && cs[k].cohortMonth == MonthOf(cs[k].campaign.date.value)
  {
    var cs := CreateCohorts(rows).value;
    var s := SortRows(rows);
    assert Campaigns(cs) == s;
    forall k | 0 <= k < |cs|
      ensures cs[k].campaign.date.Some? && cs[k].cohortMonth == MonthOf(cs[k].campaign.date.value)
    {
      assert s[k] in multiset(rows);
    }
  }

  /** The first date of an audience is one of its rows' dates, and no row
      of the audience is dated earlier. */
  lemma FirstDateIsEarliest(rows: seq<Campaign>, a: string, i: int)
    requires 0 <= i < |rows| && rows[i].targetAudience == Some(a) && rows[i].date.Some?
    ensures FirstDate(rows, a).Some?
    ensures NotAfter(FirstDate(rows, a).value, rows[i].date.value)
  {
    var g := Where(rows, Audience, a);
    WhereMembers(rows, Audience, a, rows[i]);
    var j :| 0 <= j < |g| && g[j] == rows[i];
    PresentIncludes(g, Dates, j);
    var ds := Present(g, Dates);
    var p :| 0 <= p < |ds| && ds[p] == rows[i].date.value;
  }

  /** The first date of an audience belongs to one of its rows. */
  lemma FirstDateAttained(rows: seq<Campaign>, a: string)
    requires FirstDate(rows, a).Some?
    ensures exists i :: 0 <= i < |rows| && rows[i].targetAudience == Some(a) && rows[i].date == FirstDate(rows, a)
  {
    var g := Where(rows, Audience, a);
    PresentFrom(g, Dates, FirstDate(rows, a).value);
    var j :| 0 <= j < |g| && Dates(g[j]) == FirstDate(rows, a);
    WhereMembers(rows, Audience, a, g[j]);
    var i :| 0 <= i < |rows| && rows[i] == g[j];
  }

  /** A cohort row's row comes from the input. */
  lemma CohortFromInput(rows: seq<Campaign>, k: int)
    requires CreateCohorts(rows).Some? && 0 <= k < |CreateCohorts(rows).value|
    ensures CreateCohorts(rows).value[k] == Tag(rows, SortRows(rows)[k])
    ensures exists i :: 0 <= i < |rows| && rows[i] == CreateCohorts(rows).value[k].campaign
  {
    var s := SortRows(rows);
    assert s[k] in multiset(rows);
  }

  /** Months_Since_First_Campaign is 12·(year − y₀) + (month − m₀) for the
      first month (y₀, m₀) of the row's audience. */
  predicate CountsFromFirstMonth(rows: seq<Campaign>, r: CohortRow)
  {
    && r.campaign.targetAudience.Some? && r.campaign.date.Some?
    && FirstDate(rows, r.campaign.targetAudience.value).Some?
    && var f := FirstDate(rows, r.campaign.targetAudience.value).value;
       r.monthsSince == 12 * (r.cohortMonth.year - f.year) + (r.cohortMonth.month - f.month)
  }

  /** Every cohort row counts its months from its audience's first month,
      and the count is never negative. */
  lemma OffsetFromFirstMonth(rows: seq<Campaign>, k: int)
    requires CreateCohorts(rows).Some? && 0 <= k < |CreateCohorts(rows).value|
    ensures CountsFromFirstMonth(rows, CreateCohorts(rows).value[k])
    ensures CreateCohorts(rows).value[k].monthsSince >= 0
  {
    CohortFromInput(rows, k);
    var r := CreateCohorts(rows).value[k];
    var i :| 0 <= i < |rows| && rows[i] == r.campaign;
    FirstDateIsEarliest(rows, r.campaign.targetAudience.value, i);
    MonthsBetweenNonNegative(FirstDate(rows, r.campaign.targetAudience.value).value, r.campaign.date.value);
  }

  /** Every audience has a cohort row at offset 0: its earliest row. */
  lemma AudienceStartsAtZero(rows: seq<Campaign>, a: string, i: int)
    requires CreateCohorts(rows).Some? && 0 <= i < |rows| && rows[i].targetAudience == Some(a)
    ensures exists k ::
      && 0 <= k < |CreateCohorts(rows).value|
      && CreateCohorts(rows).value[k].campaign.targetAudience == Some(a)
      && CreateCohorts(rows).value[k].monthsSince == 0
  {
    var cs := CreateCohorts(rows).value;
    var s := SortRows(rows);
    FirstDateIsEarliest(rows, a, i);
    FirstDateAttained(rows, a);
    var j :| 0 <= j < |rows| && rows[j].targetAudience == Some(a) && rows[j].date == FirstDate(rows, a);
    assert rows[j] in multiset(s);
    var k :| 0 <= k < |s| && s[k] == rows[j];
    assert cs[k] == Tag(rows, s[k]);
  }

  // ---------------------------------------------------------------------
  // `calculate_cohort_metrics`: matrices over (Cohort_Month, offset) buckets.

  /** The bucket of a cohort row: its month and its offset. */
  function Bucket(r: CohortRow): Option<(YearMonth, int)>
  {
    Some((r.cohortMonth, r.monthsSince))
  }

  function RowAudience(r: CohortRow): Option<string> { r.campaign.targetAudience }
  function RowConversion(r: CohortRow): Option<real> { r.campaign.conversionRate }
  function RowRoi(r: CohortRow): Option<real> { r.campaign.roi }
  function RowEngagement(r: CohortRow): Option<real> { r.campaign.engagementScore }
  function RowId(r: CohortRow): Option<int> { r.campaign.id }
  function RowMonth(r: CohortRow): Option<YearMonth> { Some(r.cohortMonth) }
  function RowChannel(r: CohortRow): Option<string> { r.campaign.channel }
  function RowType(r: CohortRow): Option<string> { r.campaign.campaignType }
  function RowSegment(r: CohortRow): Option<string> { r.campaign.segment }

  /** The rows of bucket `b`. */
  function InBucket(cs: seq<CohortRow>, b: (YearMonth, int)): seq<CohortRow>
  {
    Where(cs, Bucket, b)
  }

  /** The number of distinct audiences in bucket `b` (`nunique`). */
  function Audiences(cs: seq<CohortRow>, b: (YearMonth, int)): nat
  {
    DistinctCount(InBucket(cs, b), RowAudience)
  }

  /** A cell of the normalised retention matrix: the bucket's audience count
      over the count at offset 0 of the same month; absent (NaN or an
      infinity in pandas) when that count is missing or zero. */
  function RetentionRate(cs: seq<CohortRow>, b: (YearMonth, int)): Option<real>
  {
    Ratio(Some(Audiences(cs, b) as real), Some(Audiences(cs, (b.0, 0)) as real))
  }

  /** Some row has offset 0: the matrix then has a column 0. */
  predicate HasStartColumn(cs: seq<CohortRow>)
  {
    exists i :: 0 <= i < |cs| && cs[i].monthsSince == 0
  }

  /** The retention matrix: one cell per occurring bucket whose rate is
      defined. Absent when there is no column 0 to divide by (`KeyError`). */
  function Retention(cs: seq<CohortRow>): (r: Option<map<(YearMonth, int), real>>)
    ensures r.Some? <==> HasStartColumn(cs)
  {
    if !HasStartColumn(cs) then None else Some(RetentionCells(cs))
  }

  /** The defined cells of the retention matrix. */
  function RetentionCells(cs: seq<CohortRow>): map<(YearMonth, int), real>
  {
    map b | b in KeySet(cs, Bucket) && RetentionRate(cs, b).Some? :: RetentionRate(cs, b).value
  }

  /** The audience count is positive exactly when some row carries an audience. */
  lemma DistinctCountPositive<T, X>(g: seq<T>, sel: T -> Option<X>)
    ensures DistinctCount(g, sel) > 0 <==> exists i :: 0 <= i < |g| && sel(g[i]).Some?
  {
    var xs := Present(g, sel);
    if exists i :: 0 <= i < |g| && sel(g[i]).Some? {
      var i :| 0 <= i < |g| && sel(g[i]).Some?;
      PresentIncludes(g, sel, i);
      var values := set x | x in xs;
      assert sel(g[i]).value in values;
      assert values != {};
    } else if |xs| > 0 {
      PresentFrom(g, sel, xs[0]);
    }
  }

  /** Some row falls in bucket `b`. */
  predicate Occurs(cs: seq<CohortRow>, b: (YearMonth, int))
  {
    exists i :: 0 <= i < |cs| && cs[i].cohortMonth == b.0 && cs[i].monthsSince == b.1
  }

  /** Some row of bucket `b` carries an audience. */
  predicate AudienceIn(cs: seq<CohortRow>, b: (YearMonth, int))
  {
    exists i :: 0 <= i < |cs| && cs[i].cohortMonth == b.0 && cs[i].monthsSince == b.1 && cs[i].campaign.targetAudience.Some?
  }

  /** The buckets of the matrices are the occurring ones. */
  lemma BucketKeys(cs: seq<CohortRow>, b: (YearMonth, int))
    ensures b in KeySet(cs, Bucket) <==> Occurs(cs, b)
  {
    KeySetMembers(cs, Bucket, b);
    if Occurs(cs, b) {
      var i :| 0 <= i < |cs| && cs[i].cohortMonth == b.0 && cs[i].monthsSince == b.1;
      assert Bucket(cs[i]) == Some(b);
    }
  }

  /** Some row of bucket `b` holds a value of the column. */
  lemma PresentInBucket(cs: seq<CohortRow>, sel: CohortRow -> Option<real>, b: (YearMonth, int))
    ensures CountOf(InBucket(cs, b), sel) > 0 <==>
      exists i :: 0 <= i < |cs| && cs[i].cohortMonth == b.0 && cs[i].monthsSince == b.1 && sel(cs[i]).Some?
  {
    var g := InBucket(cs, b);
    if exists i :: 0 <= i < |cs| && cs[i].cohortMonth == b.0 && cs[i].monthsSince == b.1 && sel(cs[i]).Some? {
      var i :| 0 <= i < |cs| && cs[i].cohortMonth == b.0 && cs[i].monthsSince == b.1 && sel(cs[i]).Some?;
      WhereMembers(cs, Bucket, b, cs[i]);
      var j :| 0 <= j < |g| && g[j] == cs[i];
      PresentIncludes(g, sel, j);
    }
    if CountOf(g, sel) > 0 {
      PresentFrom(g, sel, Present(g, sel)[0]);
      var j :| 0 <= j < |g| && sel(g[j]) == Some(Present(g, sel)[0]);
      WhereMembers(cs, Bucket, b, g[j]);
      var i :| 0 <= i < |cs| && cs[i] == g[j];
    }
  }

  lemma AudiencesPositive(cs: seq<CohortRow>, b: (YearMonth, int))
    ensures Audiences(cs, b) > 0 <==> AudienceIn(cs, b)
  {
    var g := InBucket(cs, b);
    DistinctCountPositive(g, RowAudience);
    if AudienceIn(cs, b) {
      AudienceInBucket(cs, b);
    }
    if exists j :: 0 <= j < |g| && RowAudience(g[j]).Some? {
      var j :| 0 <= j < |g| && RowAudience(g[j]).Some?;
      BucketRowOccurs(cs, b, j);
    }
  }

  lemma AudienceInBucket(cs: seq<CohortRow>, b: (YearMonth, int))
    requires AudienceIn(cs, b)
    ensures exists j :: 0 <= j < |InBucket(cs, b)| && RowAudience(InBucket(cs, b)[j]).Some?
  {
    var i :| 0 <= i < |cs| && cs[i].cohortMonth == b.0 && cs[i].monthsSince == b.1 && cs[i].campaign.targetAudience.Some?;
    assert Bucket(cs[i]) == Some(b);
    WhereMembers(cs, Bucket, b, cs[i]);
    var g := InBucket(cs, b);
    var j :| 0 <= j < |g| && g[j] == cs[i];
    assert RowAudience(g[j]).Some?;
  }

  lemma BucketRowOccurs(cs: seq<CohortRow>, b: (YearMonth, int), j: int)
    requires 0 <= j < |InBucket(cs, b)|
    ensures exists i :: 0 <= i < |cs| && cs[i] == InBucket(cs, b)[j] && cs[i].cohortMonth == b.0 && cs[i].monthsSince == b.1
  {
    WhereMembers(cs, Bucket, b, InBucket(cs, b)[j]);
  }

  /** A retention cell is present exactly when its bucket has rows and the
      month's offset-0 bucket has an audience; it is then the ratio of the
      two audience counts. */
  lemma RetentionCell(cs: seq<CohortRow>, b: (YearMonth, int))
    requires HasStartColumn(cs)
    ensures var m := Retention(cs).value;
      && (b in m <==> Occurs(cs, b) && AudienceIn(cs, (b.0, 0)))
      && (b in m ==> m[b] == Audiences(cs, b) as real / Audiences(cs, (b.0, 0)) as real)
  {
    assert Retention(cs).value == RetentionCells(cs);
    RetentionCellPresent(cs, b);
    if b in RetentionCells(cs) {
      RetentionCellValue(cs, b);
    }
  }

  lemma RetentionCellValue(cs: seq<CohortRow>, b: (YearMonth, int))
    requires b in RetentionCells(cs)
    ensures RetentionCells(cs)[b] == Audiences(cs, b) as real / Audiences(cs, (b.0, 0)) as real
  {
    var x, y := Audiences(cs, b) as real, Audiences(cs, (b.0, 0)) as real;
    assert RetentionRate(cs, b) == Ratio(Some(x), Some(y));
    assert RetentionCells(cs)[b] == Ratio(Some(x), Some(y)).value;
    assert Ratio(Some(x), Some(y)) == Some(x / y);
  }

  lemma RetentionCellPresent(cs: seq<CohortRow>, b: (YearMonth, int))
    ensures b in RetentionCells(cs) <==> Occurs(cs, b) && AudienceIn(cs, (b.0, 0))
  {
    assert b in RetentionCells(cs) <==> b in KeySet(cs, Bucket) && RetentionRate(cs, b).Some?;
    BucketKeys(cs, b);
    AudiencesPositive(cs, (b.0, 0));
  }

  /** The offset-0 cell of a month is exactly 1 whenever it is present. */
  lemma RetentionStartsAtOne(cs: seq<CohortRow>, month: YearMonth)
    requires HasStartColumn(cs) && (month, 0) in Retention(cs).value
    ensures Retention(cs).value[(month, 0)] == 1.0
  {
  }

  /** A month with no offset-0 cell has no cells at all. */
  lemma RetentionNeedsStart(cs: seq<CohortRow>, b: (YearMonth, int))
    requires HasStartColumn(cs) && b in Retention(cs).value
    ensures (b.0, 0) in Retention(cs).value
  {
    RetentionCell(cs, b);
    RetentionCell(cs, (b.0, 0));
    var i :| 0 <= i < |cs| && cs[i].cohortMonth == b.0 && cs[i].monthsSince == 0 && cs[i].campaign.targetAudience.Some?;
  }

  /** Three rows of February 2023: audiences `x` and `y` at offset 1 (they
      started in January) and audience `z` at offset 0. */
  function FebruaryRows(x: Campaign, y: Campaign, z: Campaign): seq<CohortRow>
  {
    var feb := YearMonth(2023, 2);
    [CohortRow(x, feb, 1), CohortRow(y, feb, 1), CohortRow(z, feb, 0)]
  }

  lemma FebruaryBuckets(x: Campaign, y: Campaign, z: Campaign)
    ensures var cs, feb := FebruaryRows(x, y, z), YearMonth(2023, 2);
      InBucket(cs, (feb, 1)) == [cs[0], cs[1]] && InBucket(cs, (feb, 0)) == [cs[2]]
  {
    var cs, feb := FebruaryRows(x, y, z), YearMonth(2023, 2);
    assert cs[..2] == [cs[0], cs[1]] && [cs[0], cs[1]][..1] == [cs[0]] && [cs[0]][..0] == [];
    assert Where([cs[0]], Bucket, (feb, 1)) == [cs[0]];
    assert Where([cs[0], cs[1]], Bucket, (feb, 1)) == [cs[0], cs[1]];
    assert Where([cs[0]], Bucket, (feb, 0)) == [];
    assert Where([cs[0], cs[1]], Bucket, (feb, 0)) == [];
  }

  lemma FebruaryAudiences(x: Campaign, y: Campaign, z: Campaign)
    requires x.targetAudience == Some("A") && y.targetAudience == Some("B") && z.targetAudience == Some("C")
    ensures var cs, feb := FebruaryRows(x, y, z), YearMonth(2023, 2);
      Audiences(cs, (feb, 1)) == 2 && Audiences(cs, (feb, 0)) == 1
  {
    var cs, feb := FebruaryRows(x, y, z), YearMonth(2023, 2);
    FebruaryBuckets(x, y, z);
    assert [cs[0], cs[1]][..1] == [cs[0]];
    assert Present([cs[0], cs[1]], RowAudience) == ["A", "B"];
    assert (set v | v in ["A", "B"]) == {"A", "B"};
    assert Present([cs[2]], RowAudience) == ["C"];
    assert (set v | v in ["C"]) == {"C"};
  }

  /** The cells are not bounded by 1: audiences A and B start in January and
      run again in February, when audience C starts, so the February row has
      two audiences at offset 1 against one at offset 0. */
  lemma RetentionAboveOne(x: Campaign, y: Campaign, z: Campaign)
    requires x.targetAudience == Some("A") && y.targetAudience == Some("B") && z.targetAudience == Some("C")
    ensures var cs, feb := FebruaryRows(x, y, z), YearMonth(2023, 2);
      HasStartColumn(cs) && (feb, 1) in Retention(cs).value && Retention(cs).value[(feb, 1)] == 2.0
  {
    var cs := FebruaryRows(x, y, z);
    assert cs[2].monthsSince == 0;
    FebruaryCell(x, y, z);
  }

  lemma FebruaryCell(x: Campaign, y: Campaign, z: Campaign)
    requires x.targetAudience == Some("A") && y.targetAudience == Some("B") && z.targetAudience == Some("C")
    ensures var cs, feb := FebruaryRows(x, y, z), YearMonth(2023, 2);
      (feb, 1) in RetentionCells(cs) && RetentionCells(cs)[(feb, 1)] == 2.0
  {
    var cs, feb := FebruaryRows(x, y, z), YearMonth(2023, 2);
    assert Occurs(cs, (feb, 1)) by { assert cs[0].cohortMonth == feb && cs[0].monthsSince == 1; }
    assert AudienceIn(cs, (feb, 0)) by { assert cs[2].cohortMonth == feb && cs[2].campaign.targetAudience.Some?; }
    RetentionCellPresent(cs, (feb, 1));
    RetentionCellValue(cs, (feb, 1));
    FebruaryAudiences(x, y, z);
    assert Audiences(cs, (feb, 1)) as real / Audiences(cs, (feb, 0)) as real == 2.0 / 1.0;
  }

  /** The mean of a column over each bucket (the conversion and ROI
      matrices): a cell for every bucket holding a value, none for the rest. */
  function MeanMatrix(cs: seq<CohortRow>, sel: CohortRow -> Option<real>): map<(YearMonth, int), real>
  {
    map b | b in KeySet(cs, Bucket) && MeanOf(InBucket(cs, b), sel).Some? :: MeanOf(InBucket(cs, b), sel).value
  }

  /** A mean cell is present exactly when some row of its bucket holds a
      value, and it is then the mean of the bucket's values: an empty bucket
      is absent, never 0. */
  lemma MeanCell(cs: seq<CohortRow>, sel: CohortRow -> Option<real>, b: (YearMonth, int))
    ensures var m := MeanMatrix(cs, sel);
      && (b in m <==> exists i :: 0 <= i < |cs| && cs[i].cohortMonth == b.0 && cs[i].monthsSince == b.1 && sel(cs[i]).Some?)
      && (b in m ==> MeanOf(InBucket(cs, b), sel) == Some(m[b]))
  {
    MeanCellPresent(cs, sel, b);
    if b in MeanMatrix(cs, sel) {
      MeanCellValue(cs, sel, b);
    }
  }

  lemma MeanCellPresent(cs: seq<CohortRow>, sel: CohortRow -> Option<real>, b: (YearMonth, int))
    ensures b in MeanMatrix(cs, sel) <==> exists i :: 0 <= i < |cs| && cs[i].cohortMonth == b.0 && cs[i].monthsSince == b.1 && sel(cs[i]).Some?
  {
    assert b in MeanMatrix(cs, sel) <==> b in KeySet(cs, Bucket) && MeanOf(InBucket(cs, b), sel).Some?;
    BucketKeys(cs, b);
    PresentInBucket(cs, sel, b);
    if exists i :: 0 <= i < |cs| && cs[i].cohortMonth == b.0 && cs[i].monthsSince == b.1 && sel(cs[i]).Some? {
      var i :| 0 <= i < |cs| && cs[i].cohortMonth == b.0 && cs[i].monthsSince == b.1 && sel(cs[i]).Some?;
      assert Occurs(cs, b);
    }
  }

  lemma MeanCellValue(cs: seq<CohortRow>, sel: CohortRow -> Option<real>, b: (YearMonth, int))
    requires b in MeanMatrix(cs, sel)
    ensures MeanOf(InBucket(cs, b), sel) == Some(MeanMatrix(cs, sel)[b])
  {
  }

  /** The three matrices of `calculate_cohort_metrics`. */
  datatype CohortMetrics = CohortMetrics(
    retention: map<(YearMonth, int), real>,
    conversion: map<(YearMonth, int), real>,
    roi: map<(YearMonth, int), real>)

  /** `calculate_cohort_metrics`; absent when the retention matrix has no column 0. */
  function CohortMetricsOf(cs: seq<CohortRow>): (r: Option<CohortMetrics>)
    ensures r.Some? <==> HasStartColumn(cs)
    ensures r.Some? ==> r.value.conversion == MeanMatrix(cs, RowConversion) && r.value.roi == MeanMatrix(cs, RowRoi)
  {
    match Retention(cs)
    case None => None
    case Some(retention) => Some(CohortMetrics(retention, MeanMatrix(cs, RowConversion), MeanMatrix(cs, RowRoi)))
  }

  /** Cohorts built from a non-empty table always have a column 0. */
  lemma CohortsHaveStartColumn(rows: seq<Campaign>)
    requires CreateCohorts(rows).Some? && |rows| > 0
    ensures HasStartColumn(CreateCohorts(rows).value)
  {
    AudienceStartsAtZero(rows, rows[0].targetAudience.value, 0);
  }

  // ---------------------------------------------------------------------
  // `analyze_cohort_behavior`: breakdowns by month and one more column.

  /** One row of a breakdown: the campaign count and the column means. */
  datatype Behaviour = Behaviour(campaigns: nat, conversionRate: Option<real>, roi: Option<real>, engagementScore: Option<real>)

  function Behave(g: seq<CohortRow>): Behaviour
  {
    Behaviour(CountOf(g, RowId), MeanOf(g, RowConversion), MeanOf(g, RowRoi), MeanOf(g, RowEngagement))
  }

  function BehaviourCount(b: Behaviour): nat { b.campaigns }

  /** A breakdown by (Cohort_Month, dimension). The channel and campaign-type
      tables have no engagement column; their `engagementScore` is unused. */
  function Breakdown(cs: seq<CohortRow>, dimension: CohortRow -> Option<string>): (t: map<(YearMonth, string), Behaviour>)
    ensures forall month, v :: (month, v) in t <==>
      exists i :: 0 <= i < |cs| && cs[i].cohortMonth == month && dimension(cs[i]) == Some(v)
    ensures forall month, v :: (month, v) in t ==> t[(month, v)] == Behave(Where(Where(cs, RowMonth, month), dimension, v))
  {
    PairGroups(cs, RowMonth, dimension, Behave);
    GroupBy(cs, PairKey(RowMonth, dimension), Behave)
  }

  datatype CohortBehaviour = CohortBehaviour(
    channelPreference: map<(YearMonth, string), Behaviour>,
    campaignEffectiveness: map<(YearMonth, string), Behaviour>,
    segmentAnalysis: map<(YearMonth, string), Behaviour>)

  /** The three breakdowns: an entry exactly for each (cohort month, channel),
      (cohort month, campaign type) and (cohort month, segment) some row carries. */
  function AnalyzeCohortBehaviour(cs: seq<CohortRow>): (b: CohortBehaviour)
    ensures forall month, v :: (month, v) in b.channelPreference <==>
      exists i :: 0 <= i < |cs| && cs[i].cohortMonth == month && cs[i].campaign.channel == Some(v)
    ensures forall month, v :: (month, v) in b.campaignEffectiveness <==>
      exists i :: 0 <= i < |cs| && cs[i].cohortMonth == month && cs[i].campaign.campaignType == Some(v)
    ensures forall month, v :: (month, v) in b.segmentAnalysis <==>
      exists i :: 0 <= i < |cs| && cs[i].cohortMonth == month && cs[i].campaign.segment == Some(v)
  {
    CohortBehaviour(Breakdown(cs, RowChannel), Breakdown(cs, RowType), Breakdown(cs, RowSegment))
  }

  /** A breakdown has one entry per occurring (month, value) pair; each
      entry counts and averages exactly the rows with that pair. */
  lemma BreakdownEntry(cs: seq<CohortRow>, dimension: CohortRow -> Option<string>, month: YearMonth, v: string)
    ensures var t := Breakdown(cs, dimension);
      && ((month, v) in t <==> exists i :: 0 <= i < |cs| && cs[i].cohortMonth == month && dimension(cs[i]) == Some(v))
      && ((month, v) in t ==> t[(month, v)] == Behave(Where(Where(cs, RowMonth, month), dimension, v)))
  {
    var key := PairKey(RowMonth, dimension);
    GroupByEntries(cs, key, Behave, (month, v));
    WhereNested(cs, RowMonth, dimension, month, v);
    forall i | 0 <= i < |cs|
      ensures key(cs[i]) == Some((month, v)) <==> cs[i].cohortMonth == month && dimension(cs[i]) == Some(v)
    {
      assert key(cs[i]) == Both(RowMonth(cs[i]), dimension(cs[i]));
    }
  }

  /** The counts of a breakdown add up to the number of rows that carry an
      id and a value of the dimension; when every row does, to the row count. */
  lemma BreakdownCountsAddUp(cs: seq<CohortRow>, dimension: CohortRow -> Option<string>)
    ensures var t := Breakdown(cs, dimension);
      var key := PairKey(RowMonth, dimension);
      CountTotal(Keys(cs, key), CountColumn(t, BehaviourCount)) == CountOf(Keyed(cs, key), RowId)
    ensures (forall i :: 0 <= i < |cs| ==> cs[i].campaign.id.Some? && dimension(cs[i]).Some?) ==>
      CountTotal(Keys(cs, PairKey(RowMonth, dimension)), CountColumn(Breakdown(cs, dimension), BehaviourCount)) == |cs|
  {
    var key := PairKey(RowMonth, dimension);
    GroupByCountsAddUp(cs, key, Behave, BehaviourCount, RowId);
    if forall i :: 0 <= i < |cs| ==> cs[i].campaign.id.Some? && dimension(cs[i]).Some? {
      forall i | 0 <= i < |cs|
        ensures key(cs[i]).Some?
      {
        assert key(cs[i]) == Both(RowMonth(cs[i]), dimension(cs[i]));
      }
      KeyedAll(cs, key);
      CountAllPresent(cs, RowId);
    }
  }
}
