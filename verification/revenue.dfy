/** `run_analysis`: headline totals and means of the processed dataset and
    the estimated revenue `Acquisition_Cost * (1 + ROI)`. */
module Revenue {
  import opened Values
  import opened Stats
  import opened Grouping
  import opened Records

  datatype Summary = Summary(
    totalCampaigns: nat,
    avgRoi: Option<real>,
    avgConversionRate: Option<real>,
    totalAcquisitionCost: real,
    avgEngagementScore: Option<real>,
    totalClicks: real,
    totalImpressions: real,
    estimatedTotalRevenue: real)

  /** A row's estimated revenue; NaN when its cost or its ROI is. A
      non-negative ROI never earns back less than the cost. */
  function EstimatedRevenue(c: Campaign): (r: Option<real>)
    ensures r.Some? <==> c.cost.Some? && c.roi.Some?
    ensures r.Some? && c.cost.value >= 0.0 && c.roi.value >= 0.0 ==> r.value >= c.cost.value
  {
    if c.cost.Some? && c.roi.Some? then Some(c.cost.value * (1.0 + c.roi.value)) else None
  }

  /** A row's cost, counted only where its revenue is (its ROI is present). */
  function RecoveredCost(c: Campaign): Option<real>
  {
    if c.roi.Some? then c.cost else None
  }

  /** A row's return on its cost, `Acquisition_Cost * ROI`, where both are present. */
  function Gain(c: Campaign): Option<real>
  {
    if c.cost.Some? && c.roi.Some? then Some(c.cost.value * c.roi.value) else None
  }

  function RunAnalysis(rows: seq<Campaign>): (s: Summary)
    ensures s.totalCampaigns == |rows|
    ensures s.avgRoi.Some? <==> exists i :: 0 <= i < |rows| && rows[i].roi.Some?
    ensures s.avgConversionRate.Some? <==> exists i :: 0 <= i < |rows| && rows[i].conversionRate.Some?
    ensures s.avgEngagementScore.Some? <==> exists i :: 0 <= i < |rows| && rows[i].engagementScore.Some?
    ensures s.avgRoi == MeanOf(rows, Roi) && s.avgConversionRate == MeanOf(rows, ConversionRate)
    ensures s.avgEngagementScore == MeanOf(rows, EngagementScore)
    ensures s.totalClicks == SumOf(rows, Clicks) && s.totalImpressions == SumOf(rows, Impressions)
    ensures s.totalAcquisitionCost == SumOf(rows, Cost)
    ensures s.estimatedTotalRevenue == SumOf(rows, EstimatedRevenue)
  {
    MeanDefined(rows, Roi);
    MeanDefined(rows, ConversionRate);
    MeanDefined(rows, EngagementScore);
    Summary(|rows|, MeanOf(rows, Roi), MeanOf(rows, ConversionRate), SumOf(rows, Cost),
      MeanOf(rows, EngagementScore), SumOf(rows, Clicks), SumOf(rows, Impressions),
      SumOf(rows, EstimatedRevenue))
  }

  /** A column mean is NaN exactly when no row holds a value. */
  lemma MeanDefined<T>(rows: seq<T>, sel: T -> Option<real>)
    ensures MeanOf(rows, sel).Some? <==> exists i :: 0 <= i < |rows| && sel(rows[i]).Some?
  {
    if CountOf(rows, sel) > 0 {
      PresentFrom(rows, sel, Present(rows, sel)[0]);
    }
    if exists i :: 0 <= i < |rows| && sel(rows[i]).Some? {
      var i :| 0 <= i < |rows| && sel(rows[i]).Some?;
      PresentIncludes(rows, sel, i);
    }
  }

  /** The revenue total is the cost of the rows with an ROI plus their gains. */
  lemma {:induction false} RevenueSplits(rows: seq<Campaign>)
    ensures SumOf(rows, EstimatedRevenue) == SumOf(rows, RecoveredCost) + SumOf(rows, Gain)
    decreases |rows|
  {
    if |rows| > 0 {
      var init, r := rows[..|rows|-1], rows[|rows|-1];
      assert rows == init + [r];
      RevenueSplits(init);
      SumOfSnoc(init, r, EstimatedRevenue);
      SumOfSnoc(init, r, RecoveredCost);
      SumOfSnoc(init, r, Gain);
      if r.cost.Some? && r.roi.Some? {
        assert r.cost.value * (1.0 + r.roi.value) == r.cost.value + r.cost.value * r.roi.value;
      }
    }
  }

  /** Where no row has a cost without an ROI, the costs the revenue recovers are all the costs. */
  lemma AllCostsRecovered(rows: seq<Campaign>)
    requires forall i :: 0 <= i < |rows| && rows[i].cost.Some? ==> rows[i].roi.Some?
    ensures SumOf(rows, RecoveredCost) == SumOf(rows, Cost)
  {
    SameColumn(rows, RecoveredCost, rows, Cost);
  }

  /** `estimated_total_revenue` is `total_acquisition_cost` plus the summed
      gains, provided no row has a cost without an ROI. */
  lemma RevenueIdentity(rows: seq<Campaign>)
    requires forall i :: 0 <= i < |rows| && rows[i].cost.Some? ==> rows[i].roi.Some?
    ensures RunAnalysis(rows).estimatedTotalRevenue == RunAnalysis(rows).totalAcquisitionCost + SumOf(rows, Gain)
  {
    RevenueSplits(rows);
    AllCostsRecovered(rows);
  }

  /** A row with a cost and no ROI drops out of the revenue but not out of
      the cost total, so the identity above needs its precondition. */
  lemma MissingRoiDropsCost(c: Campaign)
    requires c.cost == Some(10.0) && c.roi.None?
    ensures RunAnalysis([c]).estimatedTotalRevenue == 0.0
    ensures RunAnalysis([c]).totalAcquisitionCost == 10.0
  {
    assert [c][..0] == [];
    assert Present([c], Cost) == [10.0];
    assert Present([c], EstimatedRevenue) == [];
    assert Sum([10.0]) == Sum([]) + 10.0 by {
      assert [10.0][..0] == [];
    }
  }

  /** Present values that are all non-negative sum to a non-negative total. */
  lemma {:induction false} SumOfNonNegative<T>(rows: seq<T>, sel: T -> Option<real>)
    requires forall i :: 0 <= i < |rows| && sel(rows[i]).Some? ==> sel(rows[i]).value >= 0.0
    ensures SumOf(rows, sel) >= 0.0
    decreases |rows|
  {
    if |rows| > 0 {
      var init, r := rows[..|rows|-1], rows[|rows|-1];
      assert rows == init + [r];
      forall i | 0 <= i < |init| && sel(init[i]).Some?
        ensures sel(init[i]).value >= 0.0
      {
        assert init[i] == rows[i];
      }
      SumOfNonNegative(init, sel);
      SumOfSnoc(init, r, sel);
    }
  }

  /** Non-negative costs and ROIs, with every cost's ROI present: the
      estimated revenue covers the acquisition cost. */
  lemma RevenueCoversCost(rows: seq<Campaign>)
    requires forall i :: 0 <= i < |rows| && rows[i].cost.Some? ==> rows[i].roi.Some?
    requires forall i :: 0 <= i < |rows| && rows[i].cost.Some? ==> rows[i].cost.value >= 0.0
    requires forall i :: 0 <= i < |rows| && rows[i].roi.Some? ==> rows[i].roi.value >= 0.0
    ensures RunAnalysis(rows).estimatedTotalRevenue >= RunAnalysis(rows).totalAcquisitionCost
  {
    RevenueIdentity(rows);
    forall i | 0 <= i < |rows| && Gain(rows[i]).Some?
      ensures Gain(rows[i]).value >= 0.0
    {
      GainNonNegative(rows[i]);
    }
    SumOfNonNegative(rows, Gain);
  }

  lemma GainNonNegative(c: Campaign)
    requires c.cost.Some? && c.roi.Some? && c.cost.value >= 0.0 && c.roi.value >= 0.0
    ensures Gain(c).Some? && Gain(c).value >= 0.0
  {
  }

  /** The average ROI lies within any bounds every present ROI respects. */
  lemma AverageRoiWithin(rows: seq<Campaign>, lo: real, hi: real)
    requires forall i :: 0 <= i < |rows| && rows[i].roi.Some? ==> lo <= rows[i].roi.value <= hi
    requires RunAnalysis(rows).avgRoi.Some?
    ensures lo <= RunAnalysis(rows).avgRoi.value <= hi
  {
    var xs := Present(rows, Roi);
    forall j | 0 <= j < |xs|
      ensures lo <= xs[j] <= hi
    {
      PresentFrom(rows, Roi, xs[j]);
    }
    MeanWithin(xs, lo, hi);
  }
}
