/** `SegmentAnalyzer`: per-audience RFM metrics, the statistics of a
    clustering of the rows, and per-audience performance and trend tables. */
module Segment {
  import opened Values
  import opened Grouping
  import opened Calendar
  import opened Records
  import Text

  // ---------------------------------------------------------------------
  // `calculate_rfm_metrics`.

  /** One audience's RFM row: days since its latest campaign (absent when
      none is dated), its campaign count, its total and average spend. */
  datatype Rfm = Rfm(recencyDays: Option<int>, frequency: nat, totalSpend: real, avgSpend: Option<real>)

  function RfmOf(g: seq<Campaign>, now: Instant): Rfm
  {
    var total := SumOf(g, Cost);
    Rfm(Recency(g, now), CountOf(g, Id), total, Ratio(Some(total), Some(CountOf(g, Id) as real)))
  }

  /** `(now - x.max()).days`: NaN when no row is dated. */
  function Recency(g: seq<Campaign>, now: Instant): Option<int>
  {
    var last := Latest(Present(g, Dates));
    if last.Some? then Some(DaysSince(now, last.value)) else None
  }

  function Frequency(r: Rfm): nat { r.frequency }
  function TotalSpend(r: Rfm): real { r.totalSpend }

  /** The RFM table, keyed by Target_Audience; `now` is the clock reading
      (`pd.Timestamp.now()`) the recency is measured from. */
  function RfmMetrics(rows: seq<Campaign>, now: Instant): (m: map<string, Rfm>)
    ensures m.Keys == KeySet(rows, Audience)
  {
    GroupBy(rows, Audience, g => RfmOf(g, now))
  }

  /** An audience has an RFM row exactly when some row carries it; the row
      counts the audience's ids, sums its costs, and the average spend is the
      total over the count, absent for a count of 0. */
  lemma RfmEntry(rows: seq<Campaign>, now: Instant, a: string)
    ensures var m := RfmMetrics(rows, now);
      && (a in m <==> exists i :: 0 <= i < |rows| && rows[i].targetAudience == Some(a))
      && (a in m ==>
            var g := Where(rows, Audience, a);
            && m[a].frequency == CountOf(g, Id)
            && m[a].totalSpend == SumOf(g, Cost)
            && (m[a].avgSpend.Some? <==> m[a].frequency > 0)
            && (m[a].avgSpend.Some? ==> m[a].avgSpend.value == m[a].totalSpend / m[a].frequency as real))
  {
    RfmLookup(rows, now, a);
    RfmOfFacts(Where(rows, Audience, a), now);
  }

  lemma RfmLookup(rows: seq<Campaign>, now: Instant, a: string)
    ensures var m := RfmMetrics(rows, now);
      && (a in m <==> exists i :: 0 <= i < |rows| && rows[i].targetAudience == Some(a))
      && (a in m ==> m[a] == RfmOf(Where(rows, Audience, a), now))
  {
    GroupByEntries(rows, Audience, g => RfmOf(g, now), a);
  }

  lemma RfmOfFacts(g: seq<Campaign>, now: Instant)
    ensures var r := RfmOf(g, now);
      && r.frequency == CountOf(g, Id)
      && r.totalSpend == SumOf(g, Cost)
      && (r.avgSpend.Some? <==> r.frequency > 0)
      && (r.avgSpend.Some? ==> r.avgSpend.value == r.totalSpend / r.frequency as real)
  {
  }

  /** The latest date of an audience: one of its rows' dates, and no row of
      the audience is dated later. */
  predicate LatestOf(rows: seq<Campaign>, a: string, d: CalendarDate)
  {
    && (exists i :: 0 <= i < |rows| && rows[i].targetAudience == Some(a) && rows[i].date == Some(d))
    && forall i :: 0 <= i < |rows| && rows[i].targetAudience == Some(a) && rows[i].date.Some? ==> NotAfter(rows[i].date.value, d)
  }

  /** Recency is present exactly when some row of the audience is dated, and
      is then the calendar days from the audience's latest date to the day
      of `now`. */
  lemma RecencyFromLatest(rows: seq<Campaign>, now: Instant, a: string)
    requires ValidInstant(now) && a in RfmMetrics(rows, now)
    ensures var r := RfmMetrics(rows, now)[a].recencyDays;
      && (r.Some? <==> exists i :: 0 <= i < |rows| && rows[i].targetAudience == Some(a) && rows[i].date.Some?)
      && (r.Some? ==> exists d :: LatestOf(rows, a, d) && r.value == DaysBetween(d, now.date))
  {
    var g := Where(rows, Audience, a);
    RfmLookup(rows, now, a);
    assert RfmMetrics(rows, now)[a].recencyDays == Recency(g, now);
    LatestDated(rows, a);
    var last := Latest(Present(g, Dates));
    if last.Some? {
      DaysSinceIsCalendarDays(now, last.value);
    }
  }

  /** The latest date over an audience's rows is present exactly when one
      of them is dated, and is then the audience's latest date. */
  lemma LatestDated(rows: seq<Campaign>, a: string)
    ensures var last := Latest(Present(Where(rows, Audience, a), Dates));
      && (last.Some? <==> exists i :: 0 <= i < |rows| && rows[i].targetAudience == Some(a) && rows[i].date.Some?)
      && (last.Some? ==> LatestOf(rows, a, last.value))
  {
    var g := Where(rows, Audience, a);
    if exists i :: 0 <= i < |rows| && rows[i].targetAudience == Some(a) && rows[i].date.Some? {
      var i :| 0 <= i < |rows| && rows[i].targetAudience == Some(a) && rows[i].date.Some?;
      WhereMembers(rows, Audience, a, rows[i]);
      var j :| 0 <= j < |g| && g[j] == rows[i];
      PresentIncludes(g, Dates, j);
    }
    var last := Latest(Present(g, Dates));
    if last.Some? {
      LatestAttained(rows, a, last.value);
      forall i | 0 <= i < |rows| && rows[i].targetAudience == Some(a) && rows[i].date.Some?
        ensures NotAfter(rows[i].date.value, last.value)
      {
        LatestBounds(rows, a, i);
      }
    }
  }

  /** The latest date of an audience's rows is the date of one of them. */
  lemma LatestAttained(rows: seq<Campaign>, a: string, d: CalendarDate)
    requires Latest(Present(Where(rows, Audience, a), Dates)) == Some(d)
    ensures exists i :: 0 <= i < |rows| && rows[i].targetAudience == Some(a) && rows[i].date == Some(d)
  {
    var g := Where(rows, Audience, a);
    PresentFrom(g, Dates, d);
    var j :| 0 <= j < |g| && Dates(g[j]) == Some(d);
    WhereMembers(rows, Audience, a, g[j]);
    var i :| 0 <= i < |rows| && rows[i] == g[j];
  }

  /** No dated row of an audience lies after its latest date. */
  lemma LatestBounds(rows: seq<Campaign>, a: string, i: int)
    requires 0 <= i < |rows| && rows[i].targetAudience == Some(a) && rows[i].date.Some?
    ensures Latest(Present(Where(rows, Audience, a), Dates)).Some?
    ensures NotAfter(rows[i].date.value, Latest(Present(Where(rows, Audience, a), Dates)).value)
  {
    var g := Where(rows, Audience, a);
    var ds := Present(g, Dates);
    WhereMembers(rows, Audience, a, rows[i]);
    var j :| 0 <= j < |g| && g[j] == rows[i];
    PresentIncludes(g, Dates, j);
    var p :| 0 <= p < |ds| && ds[p] == rows[i].date.value;
  }

  /** Recency is never negative when no campaign is dated after the day of `now`. */
  lemma RecencyNonNegative(rows: seq<Campaign>, now: Instant, a: string)
    requires ValidInstant(now) && a in RfmMetrics(rows, now)
    requires forall i :: 0 <= i < |rows| && rows[i].date.Some? ==> NotAfter(rows[i].date.value, now.date)
    ensures RfmMetrics(rows, now)[a].recencyDays.Some? ==> RfmMetrics(rows, now)[a].recencyDays.value >= 0
  {
    RecencyFromLatest(rows, now, a);
    var r := RfmMetrics(rows, now)[a].recencyDays;
    if r.Some? {
      var d :| LatestOf(rows, a, d) && r.value == DaysBetween(d, now.date);
      var i :| 0 <= i < |rows| && rows[i].targetAudience == Some(a) && rows[i].date == Some(d);
    }
  }

  /** The frequencies add up to the number of ids among the rows that carry
      an audience, which is every row's id when no audience is missing. */
  lemma FrequenciesAddUp(rows: seq<Campaign>, now: Instant)
    ensures CountTotal(Keys(rows, Audience), CountColumn(RfmMetrics(rows, now), Frequency)) == CountOf(Keyed(rows, Audience), Id)
    ensures (forall i :: 0 <= i < |rows| ==> rows[i].targetAudience.Some?) ==>
      CountTotal(Keys(rows, Audience), CountColumn(RfmMetrics(rows, now), Frequency)) == CountOf(rows, Id)
  {
    GroupByCountsAddUp(rows, Audience, g => RfmOf(g, now), Frequency, Id);
    if forall i :: 0 <= i < |rows| ==> rows[i].targetAudience.Some? {
      KeyedAll(rows, Audience);
    }
  }

  /** The total spends add up to the cost total of the rows that carry an audience. */
  lemma SpendsAddUp(rows: seq<Campaign>, now: Instant)
    ensures RealTotal(Keys(rows, Audience), RealColumn(RfmMetrics(rows, now), TotalSpend)) == SumOf(Keyed(rows, Audience), Cost)
  {
    GroupBySumsAddUp(rows, Audience, g => RfmOf(g, now), TotalSpend, Cost);
  }

  // ---------------------------------------------------------------------
  // `perform_cluster_analysis`, given the cluster label of every row.

  /** The statistics of one cluster, over the raw (unscaled) columns. */
  datatype ClusterStats = ClusterStats(
    size: nat,
    avgConversionRate: Option<real>,
    avgRoi: Option<real>,
    avgAcquisitionCost: Option<real>,
    avgEngagementScore: Option<real>,
    avgEngagementRate: Option<real>)

  /** The rows labelled `c`, in input order (`df[df['Cluster'] == c]`). */
  function ClusterRows(rows: seq<Campaign>, labels: seq<int>, c: int): (g: seq<Campaign>)
    requires |labels| == |rows|
  {
    if |rows| == 0 then []
    else
      ClusterRows(rows[..|rows|-1], labels[..|rows|-1], c) + (if labels[|rows|-1] == c then [rows[|rows|-1]] else [])
  }

  function StatsOf(g: seq<Campaign>): ClusterStats
  {
    ClusterStats(|g|, MeanOf(g, ConversionRate), MeanOf(g, Roi), MeanOf(g, Cost), MeanOf(g, EngagementScore), MeanOf(g, EngagementRate))
  }

  /** `f'Cluster_{i}'`. */
  function ClusterName(i: nat): string
  {
    "Cluster_" + Text.Digits(i)
  }

  lemma ClusterNamesDistinct(i: nat, j: nat)
    requires ClusterName(i) == ClusterName(j)
    ensures i == j
  {
    assert Text.Digits(i) == ClusterName(i)[8..];
    assert Text.Digits(j) == ClusterName(j)[8..];
    Text.DigitsInjective(i, j);
  }

  /** The entries `Cluster_0` .. `Cluster_{n-1}`, entry `i` holding `f(i)`. */
  function Numbered<V>(n: nat, f: nat -> V): map<string, V>
  {
    if n == 0 then map[] else Numbered(n - 1, f)[ClusterName(n - 1) := f(n - 1)]
  }

  lemma {:induction false} NumberedKeys<V>(n: nat, f: nat -> V)
    ensures Numbered(n, f).Keys == set i | 0 <= i < n :: ClusterName(i)
    decreases n
  {
    if n > 0 {
      NumberedKeys(n - 1, f);
      assert (set i | 0 <= i < n :: ClusterName(i)) == (set i | 0 <= i < n - 1 :: ClusterName(i)) + {ClusterName(n - 1)};
    }
  }

  lemma {:induction false} NumberedEntry<V>(n: nat, f: nat -> V, i: nat)
    requires i < n
    ensures ClusterName(i) in Numbered(n, f) && Numbered(n, f)[ClusterName(i)] == f(i)
    decreases n
  {
    if i < n - 1 {
      NumberedEntry(n - 1, f, i);
      if ClusterName(i) == ClusterName(n - 1) {
        ClusterNamesDistinct(i, n - 1);
      }
    }
  }

  /** The statistics of clusters 0 .. n-1, one dictionary entry per cluster. */
  function ClusterTable(rows: seq<Campaign>, labels: seq<int>, n: nat): (t: map<string, ClusterStats>)
    requires |labels| == |rows|
  {
    Numbered(n, i => StatsOf(ClusterRows(rows, labels, i)))
  }

  /** `perform_cluster_analysis` for `k` clusters, with `labels` standing
      for the clustering's prediction for each row. */
  function PerformClusterAnalysis(rows: seq<Campaign>, labels: seq<int>, k: nat): (t: map<string, ClusterStats>)
    requires |labels| == |rows|
    ensures t.Keys == set i | 0 <= i < k :: ClusterName(i)
  {
    NumberedKeys(k, i => StatsOf(ClusterRows(rows, labels, i)));
    ClusterTable(rows, labels, k)
  }

  /** The entry of cluster `i` holds the size and the column means of the
      rows labelled `i`. */
  lemma ClusterEntry(rows: seq<Campaign>, labels: seq<int>, n: nat, i: nat)
    requires |labels| == |rows| && i < n
    ensures ClusterName(i) in ClusterTable(rows, labels, n)
    ensures ClusterTable(rows, labels, n)[ClusterName(i)] == StatsOf(ClusterRows(rows, labels, i))
  {
    NumberedEntry(n, i => StatsOf(ClusterRows(rows, labels, i)), i);
  }

  /** A cluster holds exactly the rows labelled with it. */
  lemma {:induction false} ClusterMembers(rows: seq<Campaign>, labels: seq<int>, c: int, r: Campaign)
    requires |labels| == |rows|
    ensures r in ClusterRows(rows, labels, c) <==> exists j :: 0 <= j < |rows| && rows[j] == r && labels[j] == c
    decreases |rows|
  {
    if |rows| > 0 {
      var n := |rows| - 1;
      ClusterMembers(rows[..n], labels[..n], c, r);
      if exists j :: 0 <= j < n && rows[..n][j] == r && labels[..n][j] == c {
        var j :| 0 <= j < n && rows[..n][j] == r && labels[..n][j] == c;
        assert rows[j] == r && labels[j] == c;
      }
      if exists j :: 0 <= j < |rows| && rows[j] == r && labels[j] == c {
        var j :| 0 <= j < |rows| && rows[j] == r && labels[j] == c;
        if j < n {
          assert rows[..n][j] == r && labels[..n][j] == c;
        }
      }
    }
  }

  /** The sizes of clusters 0 .. n-1. */
  function SizeTotal(t: map<string, ClusterStats>, n: nat): nat
  {
    if n == 0 then 0 else SizeTotal(t, n - 1) + (if ClusterName(n - 1) in t then t[ClusterName(n - 1)].size else 0)
  }

  /** The number of rows labelled 0 .. n-1. */
  function LabelledCount(rows: seq<Campaign>, labels: seq<int>, n: nat): nat
    requires |labels| == |rows|
  {
    if n == 0 then 0 else LabelledCount(rows, labels, n - 1) + |ClusterRows(rows, labels, n - 1)|
  }

  lemma {:induction false} LabelledCountSnoc(rows: seq<Campaign>, labels: seq<int>, n: nat)
    requires |labels| == |rows| > 0
    ensures var m := |rows| - 1;
      LabelledCount(rows, labels, n) == LabelledCount(rows[..m], labels[..m], n) + (if 0 <= labels[m] < n then 1 else 0)
    decreases n
  {
    if n > 0 {
      LabelledCountSnoc(rows, labels, n - 1);
    }
  }

  /** With every label in 0 .. k-1, every row is counted once. */
  lemma {:induction false} LabelledCountAll(rows: seq<Campaign>, labels: seq<int>, k: nat)
    requires |labels| == |rows|
    requires forall j :: 0 <= j < |labels| ==> 0 <= labels[j] < k
    ensures LabelledCount(rows, labels, k) == |rows|
    decreases |rows|
  {
    if |rows| == 0 {
      LabelledCountEmpty(rows, labels, k);
    } else {
      var m := |rows| - 1;
      LabelledCountAll(rows[..m], labels[..m], k);
      LabelledCountSnoc(rows, labels, k);
    }
  }

  lemma {:induction false} LabelledCountEmpty(rows: seq<Campaign>, labels: seq<int>, n: nat)
    requires |labels| == |rows| == 0
    ensures LabelledCount(rows, labels, n) == 0
    decreases n
  {
    if n > 0 {
      LabelledCountEmpty(rows, labels, n - 1);
    }
  }

  lemma SizeTotalCounts(rows: seq<Campaign>, labels: seq<int>, k: nat, n: nat)
    requires |labels| == |rows| && n <= k
    ensures SizeTotal(ClusterTable(rows, labels, k), n) == LabelledCount(rows, labels, n)
  {
    var t := ClusterTable(rows, labels, k);
    forall i | 0 <= i < n
      ensures ClusterName(i) in t && t[ClusterName(i)].size == |ClusterRows(rows, labels, i)|
    {
      ClusterEntry(rows, labels, k, i);
    }
    SizesCount(t, rows, labels, n);
  }

  /** A table whose first `n` clusters hold the sizes of their label groups
      has those sizes add up to the rows labelled below `n`. */
  lemma {:induction false} SizesCount(t: map<string, ClusterStats>, rows: seq<Campaign>, labels: seq<int>, n: nat)
    requires |labels| == |rows|
    requires forall i :: 0 <= i < n ==> ClusterName(i) in t && t[ClusterName(i)].size == |ClusterRows(rows, labels, i)|
    ensures SizeTotal(t, n) == LabelledCount(rows, labels, n)
    decreases n
  {
    if n > 0 {
      SizesCount(t, rows, labels, n - 1);
    }
  }

  /** Given labels in 0 .. k-1, the cluster sizes add up to the row count. */
  lemma ClusterSizesAddUp(rows: seq<Campaign>, labels: seq<int>, k: nat)
    requires |labels| == |rows|
    requires forall j :: 0 <= j < |labels| ==> 0 <= labels[j] < k
    ensures SizeTotal(PerformClusterAnalysis(rows, labels, k), k) == |rows|
  {
    SizeTotalCounts(rows, labels, k, k);
    LabelledCountAll(rows, labels, k);
  }

  // ---------------------------------------------------------------------
  // `analyze_segment_performance`.

  /** A row of the overall performance table. */
  datatype Performance = Performance(
    conversionRate: Option<real>,
    roi: Option<real>,
    acquisitionCost: Option<real>,
    engagementScore: Option<real>,
    engagementRate: Option<real>,
    campaigns: nat)

  function PerformanceOf(g: seq<Campaign>): Performance
  {
    Performance(MeanOf(g, ConversionRate), MeanOf(g, Roi), MeanOf(g, Cost), MeanOf(g, EngagementScore), MeanOf(g, EngagementRate), CountOf(g, Id))
  }

  /** A row of the by-channel and by-campaign-type tables. */
  datatype Breakdown = Breakdown(conversionRate: Option<real>, roi: Option<real>, engagementScore: Option<real>, campaigns: nat)

  function BreakdownOf(g: seq<Campaign>): Breakdown
  {
    Breakdown(MeanOf(g, ConversionRate), MeanOf(g, Roi), MeanOf(g, EngagementScore), CountOf(g, Id))
  }

  function Campaigns(b: Breakdown): nat { b.campaigns }

  datatype SegmentPerformance = SegmentPerformance(
    overall: map<string, Performance>,
    byChannel: map<(string, string), Breakdown>,
    byCampaignType: map<(string, string), Breakdown>)

  /** The overall table per audience and the (audience, channel) and
      (audience, campaign type) tables: an entry exactly for each key some row
      carries, holding the figures of that key's rows. */
  function AnalyzeSegmentPerformance(rows: seq<Campaign>): (p: SegmentPerformance)
    ensures forall a :: a in p.overall <==> exists i :: 0 <= i < |rows| && rows[i].targetAudience == Some(a)
    ensures forall a :: a in p.overall ==> p.overall[a] == PerformanceOf(Where(rows, Audience, a))
    ensures forall a, c :: (a, c) in p.byChannel <==>
      exists i :: 0 <= i < |rows| && rows[i].targetAudience == Some(a) && rows[i].channel == Some(c)
    ensures forall a, c :: (a, c) in p.byChannel ==> p.byChannel[(a, c)] == BreakdownOf(Where(Where(rows, Audience, a), Channel, c))
    ensures forall a, t :: (a, t) in p.byCampaignType <==>
      exists i :: 0 <= i < |rows| && rows[i].targetAudience == Some(a) && rows[i].campaignType == Some(t)
    ensures forall a, t :: (a, t) in p.byCampaignType ==>
      p.byCampaignType[(a, t)] == BreakdownOf(Where(Where(rows, Audience, a), CampaignType, t))
  {
    GroupsOf(rows, Audience, PerformanceOf);
    PairGroups(rows, Audience, Channel, BreakdownOf);
    PairGroups(rows, Audience, CampaignType, BreakdownOf);
    SegmentPerformance(
      GroupBy(rows, Audience, PerformanceOf),
      GroupBy(rows, PairKey(Audience, Channel), BreakdownOf),
      GroupBy(rows, PairKey(Audience, CampaignType), BreakdownOf))
  }

  /** The overall table has the RFM table's audiences, and each count is the
      audience's RFM frequency. */
  lemma OverallMatchesRfm(rows: seq<Campaign>, now: Instant)
    ensures var overall, rfm := AnalyzeSegmentPerformance(rows).overall, RfmMetrics(rows, now);
      && overall.Keys == rfm.Keys
      && forall a :: a in overall ==> overall[a].campaigns == rfm[a].frequency
  {
  }

  /** The counts of a two-column table add up to the number of ids among the
      rows carrying both keys: every row's, when no key or id is missing. */
  lemma PairCountsAddUp(rows: seq<Campaign>, dimension: Campaign -> Option<string>)
    ensures var key := PairKey(Audience, dimension);
      CountTotal(Keys(rows, key), CountColumn(GroupBy(rows, key, BreakdownOf), Campaigns)) == CountOf(Keyed(rows, key), Id)
    ensures (forall i :: 0 <= i < |rows| ==> rows[i].targetAudience.Some? && dimension(rows[i]).Some? && rows[i].id.Some?) ==>
      var key := PairKey(Audience, dimension);
      CountTotal(Keys(rows, key), CountColumn(GroupBy(rows, key, BreakdownOf), Campaigns)) == |rows|
  {
    var key := PairKey(Audience, dimension);
    GroupByCountsAddUp(rows, key, BreakdownOf, Campaigns, Id);
    if forall i :: 0 <= i < |rows| ==> rows[i].targetAudience.Some? && dimension(rows[i]).Some? && rows[i].id.Some? {
      forall i | 0 <= i < |rows|
        ensures key(rows[i]).Some?
      {
        assert key(rows[i]) == Both(Audience(rows[i]), dimension(rows[i]));
      }
      KeyedAll(rows, key);
      CountAllPresent(rows, Id);
    }
  }

  /** The by-channel and by-campaign-type counts add up to the row count. */
  lemma PerformanceCountsAddUp(rows: seq<Campaign>)
    requires forall i :: 0 <= i < |rows| ==>
      rows[i].targetAudience.Some? && rows[i].channel.Some? && rows[i].campaignType.Some? && rows[i].id.Some?
    ensures var p := AnalyzeSegmentPerformance(rows);
      && CountTotal(Keys(rows, PairKey(Audience, Channel)), CountColumn(p.byChannel, Campaigns)) == |rows|
      && CountTotal(Keys(rows, PairKey(Audience, CampaignType)), CountColumn(p.byCampaignType, Campaigns)) == |rows|
  {
    PairCountsAddUp(rows, Channel);
    PairCountsAddUp(rows, CampaignType);
  }

  // ---------------------------------------------------------------------
  // `analyze_segment_trends`.

  /** A row of the monthly and quarterly trend tables. */
  datatype Trend = Trend(conversionRate: Option<real>, roi: Option<real>, campaigns: nat)

  function TrendOf(g: seq<Campaign>): Trend
  {
    Trend(MeanOf(g, ConversionRate), MeanOf(g, Roi), CountOf(g, Id))
  }

  function TrendCampaigns(t: Trend): nat { t.campaigns }

  datatype SegmentTrends = SegmentTrends(monthly: map<(string, int), Trend>, quarterly: map<(string, int), Trend>)

  /** The monthly and quarterly tables per audience: an entry exactly for each
      (audience, period) some row carries, holding the trend of its rows. */
  function AnalyzeSegmentTrends(rows: seq<Campaign>): (t: SegmentTrends)
    ensures forall a, m :: (a, m) in t.monthly <==>
      exists i :: 0 <= i < |rows| && rows[i].targetAudience == Some(a) && rows[i].month == Some(m)
    ensures forall a, m :: (a, m) in t.monthly ==> t.monthly[(a, m)] == TrendOf(Where(Where(rows, Audience, a), Month, m))
    ensures forall a, q :: (a, q) in t.quarterly <==>
      exists i :: 0 <= i < |rows| && rows[i].targetAudience == Some(a) && rows[i].quarter == Some(q)
    ensures forall a, q :: (a, q) in t.quarterly ==> t.quarterly[(a, q)] == TrendOf(Where(Where(rows, Audience, a), Quarter, q))
  {
    PairGroups(rows, Audience, Month, TrendOf);
    PairGroups(rows, Audience, Quarter, TrendOf);
    SegmentTrends(GroupBy(rows, PairKey(Audience, Month), TrendOf), GroupBy(rows, PairKey(Audience, Quarter), TrendOf))
  }

  /** For one audience, the trend counts over its periods add up to its
      number of ids among its rows with a period, which is its overall count
      when none of its rows lacks the period. */
  lemma TrendCountsAddUp(rows: seq<Campaign>, period: Campaign -> Option<int>, a: string)
    ensures var g := Where(rows, Audience, a);
      CountTotal(Prefixed(a, Keys(g, period)), CountColumn(GroupBy(rows, PairKey(Audience, period), TrendOf), TrendCampaigns))
        == CountOf(Keyed(g, period), Id)
    ensures (forall i :: 0 <= i < |rows| && rows[i].targetAudience == Some(a) ==> period(rows[i]).Some?) ==>
      CountTotal(Prefixed(a, Keys(Where(rows, Audience, a), period)), CountColumn(GroupBy(rows, PairKey(Audience, period), TrendOf), TrendCampaigns))
        == CountOf(Where(rows, Audience, a), Id)
  {
    var g := Where(rows, Audience, a);
    NestedCountsAddUp(rows, Audience, period, TrendOf, TrendCampaigns, Id, a);
    if forall i :: 0 <= i < |rows| && rows[i].targetAudience == Some(a) ==> period(rows[i]).Some? {
      forall j | 0 <= j < |g|
        ensures period(g[j]).Some?
      {
        WhereMembers(rows, Audience, a, g[j]);
      }
      KeyedAll(g, period);
    }
  }

  /** The monthly and the quarterly trend counts of an audience both add up
      to its count in the overall table when every row has a date. */
  lemma TrendsMatchOverall(rows: seq<Campaign>, a: string)
    requires forall i :: 0 <= i < |rows| ==> rows[i].month.Some? && rows[i].quarter.Some?
    requires a in AnalyzeSegmentPerformance(rows).overall
    ensures var t, g := AnalyzeSegmentTrends(rows), Where(rows, Audience, a);
      && CountTotal(Prefixed(a, Keys(g, Month)), CountColumn(t.monthly, TrendCampaigns)) == AnalyzeSegmentPerformance(rows).overall[a].campaigns
      && CountTotal(Prefixed(a, Keys(g, Quarter)), CountColumn(t.quarterly, TrendCampaigns)) == AnalyzeSegmentPerformance(rows).overall[a].campaigns
  {
    TrendCountsAddUp(rows, Month, a);
    TrendCountsAddUp(rows, Quarter, a);
  }
}
