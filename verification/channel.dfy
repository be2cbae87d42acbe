/** `ChannelAnalyzer`: per-channel metrics, effectiveness and trend tables,
    and the rule table of per-channel recommendations. */
module Channel {
  import opened Values
  import opened Stats
  import opened Grouping
  import opened Records
  import Duplicates

  // ---------------------------------------------------------------------
  // `calculate_channel_metrics`.

  /** A row of the channel metrics table. */
  datatype ChannelMetrics = ChannelMetrics(
    campaigns: nat,
    impressions: real,
    clicks: real,
    acquisitionCost: real,
    conversionRate: Option<real>,
    roi: Option<real>,
    engagementScore: Option<real>,
    engagementRate: Option<real>,
    clickThroughRate: Option<real>,
    costPerClick: Option<real>)

  /** The aggregates of one channel; the two derived rates divide the
      channel's sums, absent when the divisor sums to 0. */
  function MetricsOf(g: seq<Campaign>): ChannelMetrics
  {
    var impressions, clicks, cost := SumOf(g, Impressions), SumOf(g, Clicks), SumOf(g, Cost);
    ChannelMetrics(CountOf(g, Id), impressions, clicks, cost,
      MeanOf(g, ConversionRate), MeanOf(g, Roi), MeanOf(g, EngagementScore), MeanOf(g, EngagementRate),
      Ratio(Some(clicks), Some(impressions)), Ratio(Some(cost), Some(clicks)))
  }

  function CalculateChannelMetrics(rows: seq<Campaign>): (m: map<string, ChannelMetrics>)
    ensures m.Keys == KeySet(rows, Channel)
  {
    GroupBy(rows, Channel, MetricsOf)
  }

  function MetricsCount(r: ChannelMetrics): nat { r.campaigns }
  function MetricsImpressions(r: ChannelMetrics): real { r.impressions }
  function MetricsClicks(r: ChannelMetrics): real { r.clicks }
  function MetricsCost(r: ChannelMetrics): real { r.acquisitionCost }

  /** A channel's entry: its Campaign_ID count, the sums and the means of
      its own rows; the click-through rate is its clicks over its
      impressions and the cost per click its cost over its clicks, both
      ratios of the channel's sums. */
  lemma ChannelRatios(rows: seq<Campaign>, c: string)
    requires c in CalculateChannelMetrics(rows)
    ensures var r := CalculateChannelMetrics(rows)[c];
      var g := Where(rows, Channel, c);
      && r.campaigns == CountOf(g, Id)
      && r.impressions == SumOf(g, Impressions) && r.clicks == SumOf(g, Clicks) && r.acquisitionCost == SumOf(g, Cost)
      && r.conversionRate == MeanOf(g, ConversionRate) && r.roi == MeanOf(g, Roi)
      && r.engagementScore == MeanOf(g, EngagementScore) && r.engagementRate == MeanOf(g, EngagementRate)
      && (r.clickThroughRate.Some? <==> r.impressions != 0.0)
      && (r.clickThroughRate.Some? ==> r.clickThroughRate.value == r.clicks / r.impressions)
      && (r.costPerClick.Some? <==> r.clicks != 0.0)
      && (r.costPerClick.Some? ==> r.costPerClick.value == r.acquisitionCost / r.clicks)
  {
    assert CalculateChannelMetrics(rows)[c] == MetricsOf(Where(rows, Channel, c));
  }

  /** The click-through rate is not the mean of the rows' rates: a row with
      1 click in 1 impression and a row with none in 3 give 1/4, where the
      rows' own rates average 1/2. */
  lemma RatioOfSums(x: Campaign, y: Campaign)
    requires x.channel == Some("Email") && y.channel == Some("Email")
    requires x.clicks == Some(1.0) && x.impressions == Some(1.0) && x.engagementRate == Some(1.0)
    requires y.clicks == Some(0.0) && y.impressions == Some(3.0) && y.engagementRate == Some(0.0)
    ensures var r := CalculateChannelMetrics([x, y])["Email"];
      r.clickThroughRate == Some(0.25) && r.engagementRate == Some(0.5)
  {
    var rows := [x, y];
    KeySetMembers(rows, Channel, "Email");
    assert Channel(rows[0]) == Some("Email");
    WhereAll(rows, Channel, "Email");
    assert CalculateChannelMetrics(rows)["Email"] == MetricsOf(rows);
    TwoRowRates(x, y);
  }

  lemma TwoRowRates(x: Campaign, y: Campaign)
    requires x.clicks == Some(1.0) && x.impressions == Some(1.0) && x.engagementRate == Some(1.0)
    requires y.clicks == Some(0.0) && y.impressions == Some(3.0) && y.engagementRate == Some(0.0)
    ensures MetricsOf([x, y]).clickThroughRate == Some(0.25) && MetricsOf([x, y]).engagementRate == Some(0.5)
  {
    TwoValues(x, y, Clicks, 1.0, 0.0);
    TwoValues(x, y, Impressions, 1.0, 3.0);
    assert MetricsOf([x, y]).clickThroughRate == Ratio(Some(1.0), Some(4.0));
    TwoValues(x, y, EngagementRate, 1.0, 0.0);
    var m := MeanOf([x, y], EngagementRate);
    assert m.Some? && m.value * 2.0 == 1.0;
  }

  /** The column of two rows that both hold a value. */
  lemma TwoValues<T>(x: T, y: T, sel: T -> Option<real>, a: real, b: real)
    requires sel(x) == Some(a) && sel(y) == Some(b)
    ensures Present([x, y], sel) == [a, b]
    ensures SumOf([x, y], sel) == a + b && CountOf([x, y], sel) == 2
  {
    PresentSnoc([], x, sel);
    PresentSnoc([x], y, sel);
    assert [x] + [y] == [x, y];
    SumOfSnoc([], x, sel);
    SumOfSnoc([x], y, sel);
  }

  /** The count, impression, click and cost columns add up, over the
      channels, to the same totals over the rows that name a channel. */
  lemma MetricsAddUp(rows: seq<Campaign>)
    ensures var m, ks, keyed := CalculateChannelMetrics(rows), Keys(rows, Channel), Keyed(rows, Channel);
      && CountTotal(ks, CountColumn(m, MetricsCount)) == CountOf(keyed, Id)
      && RealTotal(ks, RealColumn(m, MetricsImpressions)) == SumOf(keyed, Impressions)
      && RealTotal(ks, RealColumn(m, MetricsClicks)) == SumOf(keyed, Clicks)
      && RealTotal(ks, RealColumn(m, MetricsCost)) == SumOf(keyed, Cost)
  {
    GroupByCountsAddUp(rows, Channel, MetricsOf, MetricsCount, Id);
    GroupBySumsAddUp(rows, Channel, MetricsOf, MetricsImpressions, Impressions);
    GroupBySumsAddUp(rows, Channel, MetricsOf, MetricsClicks, Clicks);
    GroupBySumsAddUp(rows, Channel, MetricsOf, MetricsCost, Cost);
  }

  /** When every row names a channel, the columns add up to the dataset totals. */
  lemma MetricsAddUpToDataset(rows: seq<Campaign>)
    requires forall i :: 0 <= i < |rows| ==> rows[i].channel.Some?
    ensures var m, ks := CalculateChannelMetrics(rows), Keys(rows, Channel);
      && CountTotal(ks, CountColumn(m, MetricsCount)) == CountOf(rows, Id)
      && RealTotal(ks, RealColumn(m, MetricsImpressions)) == SumOf(rows, Impressions)
      && RealTotal(ks, RealColumn(m, MetricsClicks)) == SumOf(rows, Clicks)
      && RealTotal(ks, RealColumn(m, MetricsCost)) == SumOf(rows, Cost)
  {
    MetricsAddUp(rows);
    KeyedAll(rows, Channel);
  }

  // ---------------------------------------------------------------------
  // `analyze_channel_effectiveness` and `analyze_channel_trends`.

  /** A row of the by-campaign-type and by-audience tables. */
  datatype Outcome = Outcome(conversionRate: Option<real>, roi: Option<real>, campaigns: nat)

  /** A row of the by-segment table, which adds the engagement score. */
  datatype SegmentOutcome = SegmentOutcome(conversionRate: Option<real>, roi: Option<real>, engagementScore: Option<real>, campaigns: nat)

  /** A row of the trend tables, which add the cost sum. */
  datatype Trend = Trend(conversionRate: Option<real>, roi: Option<real>, acquisitionCost: real, campaigns: nat)

  function OutcomeOf(g: seq<Campaign>): Outcome
  {
    Outcome(MeanOf(g, ConversionRate), MeanOf(g, Roi), CountOf(g, Id))
  }

  function SegmentOutcomeOf(g: seq<Campaign>): SegmentOutcome
  {
    SegmentOutcome(MeanOf(g, ConversionRate), MeanOf(g, Roi), MeanOf(g, EngagementScore), CountOf(g, Id))
  }

  function TrendOf(g: seq<Campaign>): Trend
  {
    Trend(MeanOf(g, ConversionRate), MeanOf(g, Roi), SumOf(g, Cost), CountOf(g, Id))
  }

  function OutcomeCount(e: Outcome): nat { e.campaigns }
  function SegmentOutcomeCount(e: SegmentOutcome): nat { e.campaigns }
  function TrendCount(e: Trend): nat { e.campaigns }
  function TrendCost(e: Trend): real { e.acquisitionCost }

  datatype Effectiveness = Effectiveness(
    byCampaignType: map<(string, string), Outcome>,
    byAudience: map<(string, string), Outcome>,
    bySegment: map<(string, string), SegmentOutcome>)

  /** A (channel, dimension) table: an entry exactly for each pair some row
      carries, aggregating the rows of the pair. */
  function ChannelTable<X(==,!new), V>(rows: seq<Campaign>, dimension: Campaign -> Option<X>, agg: seq<Campaign> -> V): (t: map<(string, X), V>)
    ensures forall c, x :: (c, x) in t <==> exists i :: 0 <= i < |rows| && rows[i].channel == Some(c) && dimension(rows[i]) == Some(x)
    ensures forall c, x :: (c, x) in t ==> t[(c, x)] == agg(Where(Where(rows, Channel, c), dimension, x))
  {
    PairGroups(rows, Channel, dimension, agg);
    GroupBy(rows, PairKey(Channel, dimension), agg)
  }

  /** The three (channel, dimension) tables: an entry exactly for each pair
      some row carries, holding the outcome of that pair's rows. */
  function AnalyzeChannelEffectiveness(rows: seq<Campaign>): (e: Effectiveness)
    ensures forall c, t :: (c, t) in e.byCampaignType <==>
      exists i :: 0 <= i < |rows| && rows[i].channel == Some(c) && rows[i].campaignType == Some(t)
    ensures forall c, t :: (c, t) in e.byCampaignType ==>
      e.byCampaignType[(c, t)] == OutcomeOf(Where(Where(rows, Channel, c), CampaignType, t))
    ensures forall c, a :: (c, a) in e.byAudience <==>
      exists i :: 0 <= i < |rows| && rows[i].channel == Some(c) && rows[i].targetAudience == Some(a)
    ensures forall c, a :: (c, a) in e.byAudience ==>
      e.byAudience[(c, a)] == OutcomeOf(Where(Where(rows, Channel, c), Audience, a))
    ensures forall c, g :: (c, g) in e.bySegment <==>
      exists i :: 0 <= i < |rows| && rows[i].channel == Some(c) && rows[i].segment == Some(g)
    ensures forall c, g :: (c, g) in e.bySegment ==>
      e.bySegment[(c, g)] == SegmentOutcomeOf(Where(Where(rows, Channel, c), Segment, g))
  {
    Effectiveness(
      ChannelTable(rows, CampaignType, OutcomeOf),
      ChannelTable(rows, Audience, OutcomeOf),
      ChannelTable(rows, Segment, SegmentOutcomeOf))
  }

  datatype Trends = Trends(monthly: map<(string, int), Trend>, quarterly: map<(string, int), Trend>)

  /** The monthly and quarterly tables per channel: an entry exactly for each
      (channel, period) some row carries, holding the trend of its rows. */
  function AnalyzeChannelTrends(rows: seq<Campaign>): (t: Trends)
    ensures forall c, m :: (c, m) in t.monthly <==>
      exists i :: 0 <= i < |rows| && rows[i].channel == Some(c) && rows[i].month == Some(m)
    ensures forall c, m :: (c, m) in t.monthly ==> t.monthly[(c, m)] == TrendOf(Where(Where(rows, Channel, c), Month, m))
    ensures forall c, q :: (c, q) in t.quarterly <==>
      exists i :: 0 <= i < |rows| && rows[i].channel == Some(c) && rows[i].quarter == Some(q)
    ensures forall c, q :: (c, q) in t.quarterly ==> t.quarterly[(c, q)] == TrendOf(Where(Where(rows, Channel, c), Quarter, q))
  {
    PairGroups(rows, Channel, Month, TrendOf);
    PairGroups(rows, Channel, Quarter, TrendOf);
    Trends(GroupBy(rows, PairKey(Channel, Month), TrendOf), GroupBy(rows, PairKey(Channel, Quarter), TrendOf))
  }

  /** The counts of a (channel, dimension) table add up to the number of
      ids among the rows carrying both keys: every row's, when none is missing. */
  lemma PairCountsAddUp<X, V>(rows: seq<Campaign>, dimension: Campaign -> Option<X>, agg: seq<Campaign> -> V, count: V -> nat)
    requires forall g :: count(agg(g)) == CountOf(g, Id)
    ensures var key := PairKey(Channel, dimension);
      CountTotal(Keys(rows, key), CountColumn(GroupBy(rows, key, agg), count)) == CountOf(Keyed(rows, key), Id)
    ensures (forall i :: 0 <= i < |rows| ==> rows[i].channel.Some? && dimension(rows[i]).Some? && rows[i].id.Some?) ==>
      var key := PairKey(Channel, dimension);
      CountTotal(Keys(rows, key), CountColumn(GroupBy(rows, key, agg), count)) == |rows|
  {
    var key := PairKey(Channel, dimension);
    GroupByCountsAddUp(rows, key, agg, count, Id);
    if forall i :: 0 <= i < |rows| ==> rows[i].channel.Some? && dimension(rows[i]).Some? && rows[i].id.Some? {
      forall i | 0 <= i < |rows|
        ensures key(rows[i]).Some?
      {
        assert key(rows[i]) == Both(Channel(rows[i]), dimension(rows[i]));
      }
      KeyedAll(rows, key);
      CountAllPresent(rows, Id);
    }
  }

  /** A (channel, dimension) table has an entry exactly for the pairs some
      row carries, and each entry aggregates exactly that pair's rows. */
  lemma PairEntry<X, V>(rows: seq<Campaign>, dimension: Campaign -> Option<X>, agg: seq<Campaign> -> V, c: string, x: X)
    ensures var t := GroupBy(rows, PairKey(Channel, dimension), agg);
      && ((c, x) in t <==> exists i :: 0 <= i < |rows| && rows[i].channel == Some(c) && dimension(rows[i]) == Some(x))
      && ((c, x) in t ==> t[(c, x)] == agg(Where(Where(rows, Channel, c), dimension, x)))
  {
    var key := PairKey(Channel, dimension);
    GroupByEntries(rows, key, agg, (c, x));
    WhereNested(rows, Channel, dimension, c, x);
    forall i | 0 <= i < |rows|
      ensures key(rows[i]) == Some((c, x)) <==> rows[i].channel == Some(c) && dimension(rows[i]) == Some(x)
    {
      assert key(rows[i]) == Both(Channel(rows[i]), dimension(rows[i]));
    }
  }

  /** Every row complete: the effectiveness and trend counts add up to the row count. */
  lemma TableCountsAddUp(rows: seq<Campaign>)
    requires forall i :: 0 <= i < |rows| ==>
      && rows[i].channel.Some? && rows[i].id.Some? && rows[i].campaignType.Some? && rows[i].targetAudience.Some?
      && rows[i].segment.Some? && rows[i].month.Some? && rows[i].quarter.Some?
    ensures var e, t := AnalyzeChannelEffectiveness(rows), AnalyzeChannelTrends(rows);
      && CountTotal(Keys(rows, PairKey(Channel, CampaignType)), CountColumn(e.byCampaignType, OutcomeCount)) == |rows|
      && CountTotal(Keys(rows, PairKey(Channel, Audience)), CountColumn(e.byAudience, OutcomeCount)) == |rows|
      && CountTotal(Keys(rows, PairKey(Channel, Segment)), CountColumn(e.bySegment, SegmentOutcomeCount)) == |rows|
      && CountTotal(Keys(rows, PairKey(Channel, Month)), CountColumn(t.monthly, TrendCount)) == |rows|
      && CountTotal(Keys(rows, PairKey(Channel, Quarter)), CountColumn(t.quarterly, TrendCount)) == |rows|
  {
    PairCountsAddUp(rows, CampaignType, OutcomeOf, OutcomeCount);
    PairCountsAddUp(rows, Audience, OutcomeOf, OutcomeCount);
    PairCountsAddUp(rows, Segment, SegmentOutcomeOf, SegmentOutcomeCount);
    PairCountsAddUp(rows, Month, TrendOf, TrendCount);
    PairCountsAddUp(rows, Quarter, TrendOf, TrendCount);
  }

  /** For one channel, the monthly cost sums add up to the channel's cost
      total in the metrics table when each of its rows has a month. */
  lemma MonthlyCostsAddUp(rows: seq<Campaign>, c: string)
    requires c in CalculateChannelMetrics(rows)
    requires forall i :: 0 <= i < |rows| && rows[i].channel == Some(c) ==> rows[i].month.Some?
    ensures var g := Where(rows, Channel, c);
      RealTotal(Prefixed(c, Keys(g, Month)), RealColumn(AnalyzeChannelTrends(rows).monthly, TrendCost))
        == CalculateChannelMetrics(rows)[c].acquisitionCost
  {
    var g := Where(rows, Channel, c);
    NestedSumsAddUp(rows, Channel, Month, TrendOf, TrendCost, Cost, c);
    forall j | 0 <= j < |g|
      ensures g[j].month.Some?
    {
      WhereMembers(rows, Channel, c, g[j]);
    }
    KeyedAll(g, Month);
    assert CalculateChannelMetrics(rows)[c] == MetricsOf(g);
  }

  // ---------------------------------------------------------------------
  // `calculate_channel_recommendations`.

  /** The recommendation messages, each with the channel mean it reports. */
  datatype Recommendation =
    | HighRoi(roi: real)
    | BelowAverageRoi(avgRoi: Option<real>)
    | LowConversionRate(conversionRate: real)
    | HighAcquisitionCost(cost: real)
    | LowEngagementScore(score: real)
    | LowEngagementRate(rate: real)

  /** The five means the rules compare, of one channel or of the whole dataset. */
  datatype Means = Means(roi: Option<real>, conversionRate: Option<real>, cost: Option<real>, engagementScore: Option<real>, engagementRate: Option<real>)

  function MeansOf(g: seq<Campaign>): Means
  {
    Means(MeanOf(g, Roi), MeanOf(g, ConversionRate), MeanOf(g, Cost), MeanOf(g, EngagementScore), MeanOf(g, EngagementRate))
  }

  /** `a > b` on two means, false when either is NaN. */
  predicate Above(a: Option<real>, b: Option<real>)
  {
    a.Some? && b.Some? && a.value > b.value
  }

  function Flag(c: bool, r: Recommendation): seq<Recommendation>
  {
    if c then [r] else []
  }

  /** The rule table: a channel's messages from its means and the overall ones. */
  function Messages(ch: Means, all: Means): seq<Recommendation>
  {
    [if Above(ch.roi, all.roi) then HighRoi(ch.roi.value) else BelowAverageRoi(ch.roi)]
    + Flag(Above(all.conversionRate, ch.conversionRate), LowConversionRate(ch.conversionRate.GetOr(0.0)))
    + Flag(Above(ch.cost, all.cost), HighAcquisitionCost(ch.cost.GetOr(0.0)))
    + Flag(Above(all.engagementScore, ch.engagementScore), LowEngagementScore(ch.engagementScore.GetOr(0.0)))
    + Flag(Above(all.engagementRate, ch.engagementRate), LowEngagementRate(ch.engagementRate.GetOr(0.0)))
  }

  /** The position of a message kind in the rule order. */
  function Rank(r: Recommendation): nat
  {
    match r
    case HighRoi(_) => 0
    case BelowAverageRoi(_) => 0
    case LowConversionRate(_) => 1
    case HighAcquisitionCost(_) => 2
    case LowEngagementScore(_) => 3
    case LowEngagementRate(_) => 4
  }

  predicate Has(rs: seq<Recommendation>, rank: nat)
  {
    exists i :: 0 <= i < |rs| && Rank(rs[i]) == rank
  }

  /** Strictly increasing ranks: no kind twice, and in rule order. */
  predicate Ordered(rs: seq<Recommendation>)
  {
    forall i, j :: 0 <= i < j < |rs| ==> Rank(rs[i]) < Rank(rs[j])
  }

  predicate RanksBelow(rs: seq<Recommendation>, n: nat)
  {
    forall i :: 0 <= i < |rs| ==> Rank(rs[i]) < n
  }

  /** Appending a rule's optional message after the earlier rules' messages. */
  lemma FlagAppend(a: seq<Recommendation>, c: bool, r: Recommendation)
    requires Ordered(a) && RanksBelow(a, Rank(r))
    ensures Ordered(a + Flag(c, r)) && RanksBelow(a + Flag(c, r), Rank(r) + 1)
    ensures |a + Flag(c, r)| == |a| + (if c then 1 else 0)
    ensures forall n :: Has(a + Flag(c, r), n) <==> Has(a, n) || (c && n == Rank(r))
  {
    var b := a + Flag(c, r);
    forall n
      ensures Has(b, n) <==> Has(a, n) || (c && n == Rank(r))
    {
      if Has(b, n) {
        var i :| 0 <= i < |b| && Rank(b[i]) == n;
        if i < |a| { assert b[i] == a[i]; }
      }
      if Has(a, n) {
        var i :| 0 <= i < |a| && Rank(a[i]) == n;
        assert b[i] == a[i];
      }
      if c && n == Rank(r) {
        assert b[|a|] == r;
      }
    }
  }

  /** Every list starts with exactly one ROI message, "High ROI" exactly when
      the channel's mean ROI is strictly above the overall mean, and then has
      each further message exactly when its strict comparison holds (a NaN
      mean on either side fails it), in rule order, at most once each. */
  lemma MessageRules(ch: Means, all: Means)
    ensures var rs := Messages(ch, all);
      && 1 <= |rs| <= 5
      && (rs[0].HighRoi? || rs[0].BelowAverageRoi?)
      && (rs[0].HighRoi? <==> Above(ch.roi, all.roi))
      && (rs[0].HighRoi? ==> rs[0].roi == ch.roi.value)
      && (rs[0].BelowAverageRoi? ==> rs[0].avgRoi == ch.roi)
      && Ordered(rs)
      && (Has(rs, 1) <==> Above(all.conversionRate, ch.conversionRate))
      && (Has(rs, 2) <==> Above(ch.cost, all.cost))
      && (Has(rs, 3) <==> Above(all.engagementScore, ch.engagementScore))
      && (Has(rs, 4) <==> Above(all.engagementRate, ch.engagementRate))
  {
    var c1, c2 := Above(all.conversionRate, ch.conversionRate), Above(ch.cost, all.cost);
    var c3, c4 := Above(all.engagementScore, ch.engagementScore), Above(all.engagementRate, ch.engagementRate);
    var p0 := [if Above(ch.roi, all.roi) then HighRoi(ch.roi.value) else BelowAverageRoi(ch.roi)];
    assert !Has(p0, 1) && !Has(p0, 2) && !Has(p0, 3) && !Has(p0, 4);
    FlagAppend(p0, c1, LowConversionRate(ch.conversionRate.GetOr(0.0)));
    var p1 := p0 + Flag(c1, LowConversionRate(ch.conversionRate.GetOr(0.0)));
    FlagAppend(p1, c2, HighAcquisitionCost(ch.cost.GetOr(0.0)));
    var p2 := p1 + Flag(c2, HighAcquisitionCost(ch.cost.GetOr(0.0)));
    FlagAppend(p2, c3, LowEngagementScore(ch.engagementScore.GetOr(0.0)));
    var p3 := p2 + Flag(c3, LowEngagementScore(ch.engagementScore.GetOr(0.0)));
    FlagAppend(p3, c4, LowEngagementRate(ch.engagementRate.GetOr(0.0)));
    var rs := p3 + Flag(c4, LowEngagementRate(ch.engagementRate.GetOr(0.0)));
    assert rs == Messages(ch, all);
    assert rs[0] == p0[0];
  }

  /** A channel compared with itself gets only "Below average ROI". */
  lemma MessagesAgainstItself(m: Means)
    ensures Messages(m, m) == [BelowAverageRoi(m.roi)]
  {
  }

  /** The rows `df['Channel_Used'] == channel` selects: none for a NaN channel. */
  function ChannelRows(rows: seq<Campaign>, channel: Option<string>): seq<Campaign>
  {
    if channel.Some? then Where(rows, Channel, channel.value) else []
  }

  /** One list per distinct value of the channel column, NaN included,
      comparing that channel's means with the dataset's. */
  function ChannelRecommendations(rows: seq<Campaign>): (m: map<Option<string>, seq<Recommendation>>)
    ensures m.Keys == Duplicates.KeysOf(rows, Channel)
  {
    map c | c in Duplicates.KeysOf(rows, Channel) :: Messages(MeansOf(ChannelRows(rows, c)), MeansOf(rows))
  }

  /** With a single channel every comparison is between equal means, so
      the only message is "Below average ROI". */
  lemma SingleChannel(rows: seq<Campaign>, c: string)
    requires |rows| > 0 && forall i :: 0 <= i < |rows| ==> rows[i].channel == Some(c)
    ensures ChannelRecommendations(rows) == map[Some(c) := [BelowAverageRoi(MeanOf(rows, Roi))]]
  {
    var recs := ChannelRecommendations(rows);
    OnlyChannel(rows, c);
    assert recs[Some(c)] == Messages(MeansOf(rows), MeansOf(rows));
    MessagesAgainstItself(MeansOf(rows));
  }

  /** Rows all on channel `c` carry that one key, and select themselves. */
  lemma OnlyChannel(rows: seq<Campaign>, c: string)
    requires |rows| > 0 && forall i :: 0 <= i < |rows| ==> rows[i].channel == Some(c)
    ensures Duplicates.KeysOf(rows, Channel) == {Some(c)}
    ensures ChannelRows(rows, Some(c)) == rows
  {
    WhereAll(rows, Channel, c);
    assert Channel(rows[0]) == Some(c);
  }

  /** A group's ROI sum exceeds `m` times its count of ROI values (strictly
      when it has any). */
  predicate AboveMean(g: seq<Campaign>, m: real)
  {
    Excess(SumOf(g, Roi), CountOf(g, Roi) as real, m) >= 0.0
    && (CountOf(g, Roi) > 0 ==> Excess(SumOf(g, Roi), CountOf(g, Roi) as real, m) > 0.0)
  }

  /** What a sum `s` of `n` values has beyond `n` values of `m`. */
  function Excess(s: real, n: real, m: real): real
  {
    s - m * n
  }

  lemma ExcessOfMean(s: real, n: real, mean: real, m: real)
    requires n > 0.0 && mean * n == s && mean > m
    ensures Excess(s, n, m) > 0.0
  {
    assert Excess(s, n, m) == (mean - m) * n;
  }

  lemma ExcessOfExactMean(s: real, n: real, m: real)
    requires m * n == s
    ensures Excess(s, n, m) == 0.0
  {
  }

  lemma ExcessAdds(s0: real, n0: real, s1: real, n1: real, m: real)
    ensures Excess(s0 + s1, n0 + n1, m) == Excess(s0, n0, m) + Excess(s1, n1, m)
  {
    assert m * (n0 + n1) == m * n0 + m * n1;
  }

  lemma MeanAbove(g: seq<Campaign>, m: real)
    requires Above(MeanOf(g, Roi), Some(m)) || CountOf(g, Roi) == 0
    ensures AboveMean(g, m)
  {
    if CountOf(g, Roi) > 0 {
      ExcessOfMean(SumOf(g, Roi), CountOf(g, Roi) as real, MeanOf(g, Roi).value, m);
    } else {
      assert SumOf(g, Roi) == 0.0;
    }
  }

  /** Summing groups that each lie above `m` keeps the total above `m`. */
  lemma {:induction false} GroupsAboveMean(ks: seq<string>, rows: seq<Campaign>, m: real)
    requires forall k :: k in ks ==> AboveMean(Where(rows, Channel, k), m)
    ensures Excess(GroupSums(ks, rows, Channel, Roi), GroupCounts(ks, rows, Channel, Roi) as real, m) >= 0.0
    ensures GroupCounts(ks, rows, Channel, Roi) > 0 ==>
      Excess(GroupSums(ks, rows, Channel, Roi), GroupCounts(ks, rows, Channel, Roi) as real, m) > 0.0
    decreases |ks|
  {
    if |ks| == 0 {
      assert Excess(0.0, 0.0, m) == 0.0;
    } else {
      assert ks[0] in ks;
      forall k | k in ks[1..]
        ensures AboveMean(Where(rows, Channel, k), m)
      {
        assert k in ks;
      }
      GroupsAboveMean(ks[1..], rows, m);
      var g := Where(rows, Channel, ks[0]);
      ExcessBothAbove(SumOf(g, Roi), CountOf(g, Roi), GroupSums(ks[1..], rows, Channel, Roi), GroupCounts(ks[1..], rows, Channel, Roi),
        GroupSums(ks, rows, Channel, Roi), GroupCounts(ks, rows, Channel, Roi), m);
    }
  }

  /** Two parts that each lie above `m` (strictly when they hold values) add
      up to a whole that does too. */
  lemma ExcessBothAbove(s0: real, c0: nat, s1: real, c1: nat, s: real, c: nat, m: real)
    requires s == s0 + s1 && c == c0 + c1
    requires Excess(s0, c0 as real, m) >= 0.0 && (c0 > 0 ==> Excess(s0, c0 as real, m) > 0.0)
    requires Excess(s1, c1 as real, m) >= 0.0 && (c1 > 0 ==> Excess(s1, c1 as real, m) > 0.0)
    ensures Excess(s, c as real, m) >= 0.0
    ensures c > 0 ==> Excess(s, c as real, m) > 0.0
  {
    ExcessAdds(s0, c0 as real, s1, c1 as real, m);
  }

  /** A channel told its ROI is high lies above the overall mean. */
  lemma HighChannelAbove(rows: seq<Campaign>, k: string)
    requires k in Keys(rows, Channel) && MeanOf(rows, Roi).Some?
    requires Some(k) in ChannelRecommendations(rows) && ChannelRecommendations(rows)[Some(k)][0].HighRoi?
    ensures AboveMean(Where(rows, Channel, k), MeanOf(rows, Roi).value)
  {
    var g := Where(rows, Channel, k);
    MessageRules(MeansOf(g), MeansOf(rows));
    assert ChannelRows(rows, Some(k)) == g;
    assert ChannelRecommendations(rows)[Some(k)] == Messages(MeansOf(g), MeansOf(rows));
    MeanAbove(g, MeanOf(rows, Roi).value);
  }

  /** Every distinct channel of the rows is a key of the recommendations. */
  lemma ChannelKey(rows: seq<Campaign>, k: string)
    requires k in Keys(rows, Channel)
    ensures Some(k) in ChannelRecommendations(rows)
  {
    KeysMembers(rows, Channel, k);
    var g := Where(rows, Channel, k);
    WhereMembers(rows, Channel, k, g[0]);
    var i :| 0 <= i < |rows| && rows[i] == g[0];
    assert Channel(rows[i]) == Some(k);
  }

  /** Channels that each lie above `m` put the whole dataset above `m`. */
  lemma TotalAboveMean(rows: seq<Campaign>, m: real)
    requires forall i :: 0 <= i < |rows| ==> rows[i].channel.Some?
    requires forall k :: k in Keys(rows, Channel) ==> AboveMean(Where(rows, Channel, k), m)
    ensures CountOf(rows, Roi) > 0 ==> Excess(SumOf(rows, Roi), CountOf(rows, Roi) as real, m) > 0.0
  {
    var ks := Keys(rows, Channel);
    GroupsAboveMean(ks, rows, m);
    GroupSumsAddUp(rows, Channel, Roi);
    GroupCountsAddUp(rows, Channel, Roi);
    KeyedAll(rows, Channel);
  }

  lemma MeanFacts(rows: seq<Campaign>, m: real)
    requires MeanOf(rows, Roi) == Some(m)
    ensures CountOf(rows, Roi) > 0 && Excess(SumOf(rows, Roi), CountOf(rows, Roi) as real, m) == 0.0
  {
    ExcessOfExactMean(SumOf(rows, Roi), CountOf(rows, Roi) as real, m);
  }

  /** Not every channel can lie above the overall mean: the overall mean
      is the count-weighted average of the channel means. */
  lemma NotAllAbove(rows: seq<Campaign>, m: real)
    requires forall i :: 0 <= i < |rows| ==> rows[i].channel.Some?
    requires MeanOf(rows, Roi) == Some(m)
    ensures exists k :: k in Keys(rows, Channel) && !AboveMean(Where(rows, Channel, k), m)
  {
    MeanFacts(rows, m);
    if forall k :: k in Keys(rows, Channel) ==> AboveMean(Where(rows, Channel, k), m) {
      TotalAboveMean(rows, m);
      assert false;
    }
  }

  /** When every row names a channel and the mean ROI is defined, some
      channel is told its ROI is below average. */
  lemma SomeChannelBelowAverage(rows: seq<Campaign>)
    requires forall i :: 0 <= i < |rows| ==> rows[i].channel.Some?
    requires MeanOf(rows, Roi).Some?
    ensures exists c :: c in ChannelRecommendations(rows) && ChannelRecommendations(rows)[c][0].BelowAverageRoi?
  {
    var m := MeanOf(rows, Roi).value;
    NotAllAbove(rows, m);
    var k :| k in Keys(rows, Channel) && !AboveMean(Where(rows, Channel, k), m);
    ChannelKey(rows, k);
    var g := ChannelRows(rows, Some(k));
    assert ChannelRecommendations(rows)[Some(k)] == Messages(MeansOf(g), MeansOf(rows));
    MessageRules(MeansOf(g), MeansOf(rows));
    if ChannelRecommendations(rows)[Some(k)][0].HighRoi? {
      HighChannelAbove(rows, k);
      assert false;
    }
  }

  /** A row without a channel makes NaN a key; no row equals NaN, so its
      means are all NaN and its only message is "Below average ROI". */
  lemma NanChannel(rows: seq<Campaign>, i: int)
    requires 0 <= i < |rows| && rows[i].channel.None?
    ensures None in ChannelRecommendations(rows)
    ensures ChannelRecommendations(rows)[None] == [BelowAverageRoi(None)]
  {
    assert Channel(rows[i]) == None;
    assert ChannelRows(rows, None) == [];
    var none := MeansOf([]);
    assert none == Means(None, None, None, None, None);
    assert ChannelRecommendations(rows)[None] == Messages(none, MeansOf(rows));
  }

  // ---------------------------------------------------------------------
  // The five rows of the sample file.

  /** The channel and ROI cells of the sample file: Google Ads runs the
      first two campaigns, YouTube the other three. */
  predicate SampleRows(rows: seq<Campaign>)
  {
    && |rows| == 5
    && rows[0].channel == Some("Google Ads") && rows[0].roi == Some(6.29)
    && rows[1].channel == Some("Google Ads") && rows[1].roi == Some(5.61)
    && rows[2].channel == Some("YouTube") && rows[2].roi == Some(7.18)
    && rows[3].channel == Some("YouTube") && rows[3].roi == Some(5.55)
    && rows[4].channel == Some("YouTube") && rows[4].roi == Some(6.5)
  }

  /** On the sample rows Google Ads averages an ROI of 5.95 and YouTube
      6.41, against 6.226 over all five. */
  lemma SampleMeans(rows: seq<Campaign>)
    requires SampleRows(rows)
    ensures MeanOf(Where(rows, Channel, "Google Ads"), Roi) == Some(5.95)
    ensures MeanOf(Where(rows, Channel, "YouTube"), Roi) == Some(6.41)
    ensures MeanOf(rows, Roi) == Some(6.226)
  {
    SampleGroups(rows);
    PresentAll(rows[..2], Roi, [6.29, 5.61]);
    PresentAll(rows[2..], Roi, [7.18, 5.55, 6.5]);
    PresentAll(rows, Roi, [6.29, 5.61, 7.18, 5.55, 6.5]);
    SumOfFive(6.29, 5.61, 7.18, 5.55, 6.5);
  }

  /** On the sample rows YouTube is the high-ROI channel and Google Ads is
      told its ROI is below average. */
  lemma SampleRecommendations(rows: seq<Campaign>)
    requires SampleRows(rows)
    ensures Some("Google Ads") in ChannelRecommendations(rows) && Some("YouTube") in ChannelRecommendations(rows)
    ensures ChannelRecommendations(rows)[Some("Google Ads")][0] == BelowAverageRoi(Some(5.95))
    ensures ChannelRecommendations(rows)[Some("YouTube")][0] == HighRoi(6.41)
  {
    SampleMeans(rows);
    assert Channel(rows[0]) == Some("Google Ads") && Channel(rows[2]) == Some("YouTube");
    var recs, all := ChannelRecommendations(rows), MeansOf(rows);
    var ads, tube := MeansOf(ChannelRows(rows, Some("Google Ads"))), MeansOf(ChannelRows(rows, Some("YouTube")));
    assert recs[Some("Google Ads")] == Messages(ads, all);
    assert recs[Some("YouTube")] == Messages(tube, all);
    FirstMessage(ads, all);
    FirstMessage(tube, all);
  }

  /** The first message is the ROI rule's. */
  lemma FirstMessage(ch: Means, all: Means)
    ensures Messages(ch, all)[0] == if Above(ch.roi, all.roi) then HighRoi(ch.roi.value) else BelowAverageRoi(ch.roi)
  {
  }

  /** The sample's channel groups: the first two rows and the last three. */
  lemma SampleGroups(rows: seq<Campaign>)
    requires SampleRows(rows)
    ensures Where(rows, Channel, "Google Ads") == rows[..2]
    ensures Where(rows, Channel, "YouTube") == rows[2..]
  {
    var e: seq<Campaign> := [];
    var p1 := e + [rows[0]];
    var p2 := p1 + [rows[1]];
    var p3 := p2 + [rows[2]];
    var p4 := p3 + [rows[3]];
    assert rows == p4 + [rows[4]];
    assert p2 == rows[..2];
    assert rows[2..] == [rows[2], rows[3], rows[4]];
    WhereSnoc(e, rows[0], Channel, "Google Ads");
    WhereSnoc(p1, rows[1], Channel, "Google Ads");
    WhereSnoc(p2, rows[2], Channel, "Google Ads");
    WhereSnoc(p3, rows[3], Channel, "Google Ads");
    WhereSnoc(p4, rows[4], Channel, "Google Ads");
    WhereSnoc(e, rows[0], Channel, "YouTube");
    WhereSnoc(p1, rows[1], Channel, "YouTube");
    WhereSnoc(p2, rows[2], Channel, "YouTube");
    WhereSnoc(p3, rows[3], Channel, "YouTube");
    WhereSnoc(p4, rows[4], Channel, "YouTube");
  }

  /** A column with a value in every row reads off exactly those values. */
  lemma {:induction false} PresentAll<T>(rows: seq<T>, sel: T -> Option<real>, xs: seq<real>)
    requires |rows| == |xs| && forall i :: 0 <= i < |rows| ==> sel(rows[i]) == Some(xs[i])
    ensures Present(rows, sel) == xs
    decreases |rows|
  {
    if |rows| > 0 {
      var n := |rows| - 1;
      PresentAll(rows[..n], sel, xs[..n]);
      assert xs == xs[..n] + [xs[n]];
    }
  }

  /** The sums and means of the sample's ROI columns. */
  lemma SumOfFive(a: real, b: real, c: real, d: real, e: real)
    ensures Sum([a, b]) == a + b && Sum([c, d, e]) == c + d + e
    ensures Sum([a, b, c, d, e]) == a + b + c + d + e
  {
    assert Sum([a]) == a by { assert [a][..0] == []; }
    assert Sum([a, b]) == a + b by { assert [a, b][..1] == [a]; }
    assert Sum([a, b, c]) == a + b + c by { assert [a, b, c][..2] == [a, b]; }
    assert Sum([a, b, c, d]) == a + b + c + d by { assert [a, b, c, d][..3] == [a, b, c]; }
    assert [a, b, c, d, e][..4] == [a, b, c, d];
    assert Sum([c]) == c by { assert [c][..0] == []; }
    assert Sum([c, d]) == c + d by { assert [c, d][..1] == [c]; }
    assert [c, d, e][..2] == [c, d];
  }
}
