/** `MarketingDataCleaner`: imputation, de-duplication, title-casing, range
    repair with currency parsing, and the derived columns, run in that order
    by `clean_data` on the frame the loader produced. */
module Cleaner {
  import opened Values
  import opened Stats
  import opened Grouping
  import opened Text
  import opened Calendar
  import opened Records
  import Duplicates

  // ---------------------------------------------------------------------
  // `handle_missing_values`.

  /** Some row lacks a value in the column (`isnull().any()`). */
  predicate HasNull<T, X>(rows: seq<T>, sel: T -> Option<X>)
  {
    exists i :: 0 <= i < |rows| && sel(rows[i]).None?
  }

  /** The value a numeric cell holds after imputation: its own, or else the
      median of the column's present values. */
  function Imputed(rows: seq<Record>, m: Measure, i: int): Option<real>
    requires 0 <= i < |rows|
  {
    if MeasureOf(m)(rows[i]).Some? then MeasureOf(m)(rows[i]) else MedianOf(rows, MeasureOf(m))
  }

  /** Imputing one numeric column: when it has an empty cell, every empty
      cell takes the median of the present values, computed before filling. */
  function ImputeMeasure(rows: seq<Record>, m: Measure): (out: seq<Record>)
    ensures |out| == |rows|
    ensures forall i :: 0 <= i < |rows| ==> MeasureOf(m)(out[i]) == Imputed(rows, m, i)
    ensures forall i, n :: 0 <= i < |rows| && n != m ==> MeasureOf(n)(out[i]) == MeasureOf(n)(rows[i])
    ensures forall i :: 0 <= i < |rows| ==> NonMeasures(out[i]) == NonMeasures(rows[i])
    ensures !HasNull(rows, MeasureOf(m)) ==> out == rows
  {
    if !HasNull(rows, MeasureOf(m)) then rows
    else
      var median := MedianOf(rows, MeasureOf(m));
      seq(|rows|, i requires 0 <= i < |rows| =>
        if MeasureOf(m)(rows[i]).None? then SetMeasure(rows[i], m, median) else rows[i])
  }

  /** Imputing a column leaves the medians of the other columns alone. */
  lemma OtherMedianKept(rows: seq<Record>, m: Measure, n: Measure)
    requires n != m
    ensures MedianOf(ImputeMeasure(rows, m), MeasureOf(n)) == MedianOf(rows, MeasureOf(n))
  {
    SameColumn(ImputeMeasure(rows, m), MeasureOf(n), rows, MeasureOf(n));
  }

  /** Imputing distinct numeric columns one after another. */
  function ImputeMeasures(rows: seq<Record>, ms: seq<Measure>): (out: seq<Record>)
    ensures |out| == |rows|
    decreases |ms|
  {
    if |ms| == 0 then rows else ImputeMeasures(ImputeMeasure(rows, ms[0]), ms[1..])
  }

  /** Distinct columns: the head is not repeated and the tail is distinct too. */
  predicate DistinctMeasures(ms: seq<Measure>)
  {
    forall a, b :: 0 <= a < b < |ms| ==> ms[a] != ms[b]
  }

  lemma DistinctTail(ms: seq<Measure>)
    requires |ms| > 0 && DistinctMeasures(ms)
    ensures ms[0] !in ms[1..] && DistinctMeasures(ms[1..])
  {
  }

  /** One imputation step as seen from a single cell, and from the cell's
      own imputed value for another column. */
  lemma ImputeStepCell(rows: seq<Record>, m0: Measure, m: Measure, i: int)
    requires 0 <= i < |rows|
    ensures MeasureOf(m)(ImputeMeasure(rows, m0)[i]) == if m == m0 then Imputed(rows, m, i) else MeasureOf(m)(rows[i])
    ensures m != m0 ==> Imputed(ImputeMeasure(rows, m0), m, i) == Imputed(rows, m, i)
  {
    if m != m0 {
      OtherMedianKept(rows, m0, m);
    }
  }

  /** Each imputed column holds its own values or the median of the column
      as it was before any imputation. */
  lemma {:induction false} ImputedCell(rows: seq<Record>, ms: seq<Measure>, i: int, m: Measure)
    requires DistinctMeasures(ms)
    requires 0 <= i < |rows|
    ensures MeasureOf(m)(ImputeMeasures(rows, ms)[i]) == if m in ms then Imputed(rows, m, i) else MeasureOf(m)(rows[i])
    decreases |ms|
  {
    if |ms| > 0 {
      DistinctTail(ms);
      ImputedCell(ImputeMeasure(rows, ms[0]), ms[1..], i, m);
      ImputeStepCell(rows, ms[0], m, i);
    }
  }

  /** Imputation touches only the numeric cells. */
  lemma {:induction false} ImputedRest(rows: seq<Record>, ms: seq<Measure>, i: int)
    requires 0 <= i < |rows|
    ensures NonMeasures(ImputeMeasures(rows, ms)[i]) == NonMeasures(rows[i])
    decreases |ms|
  {
    if |ms| > 0 {
      ImputedRest(ImputeMeasure(rows, ms[0]), ms[1..], i);
    }
  }

  const Unknown: string := "Unknown"

  /** Filling one categorical column: empty cells become "Unknown". */
  function FillCategory(rows: seq<Record>, c: Category): (out: seq<Record>)
    ensures |out| == |rows|
    ensures forall i :: 0 <= i < |rows| ==> CategoryOf(c)(out[i]) == Some(CategoryOf(c)(rows[i]).GetOr(Unknown))
    ensures forall i, d :: 0 <= i < |rows| && d != c ==> CategoryOf(d)(out[i]) == CategoryOf(d)(rows[i])
    ensures forall i :: 0 <= i < |rows| ==> NonCategories(out[i]) == NonCategories(rows[i])
  {
    if !HasNull(rows, CategoryOf(c)) then rows
    else
      seq(|rows|, i requires 0 <= i < |rows| =>
        if CategoryOf(c)(rows[i]).None? then SetCategory(rows[i], c, Some(Unknown)) else rows[i])
  }

  /** Filling several categorical columns one after another. */
  function FillCategories(rows: seq<Record>, cs: seq<Category>): (out: seq<Record>)
    ensures |out| == |rows|
    decreases |cs|
  {
    if |cs| == 0 then rows else FillCategories(FillCategory(rows, cs[0]), cs[1..])
  }

  /** Each filled column holds its own text or "Unknown"; the other cells are untouched. */
  lemma {:induction false} FilledCell(rows: seq<Record>, cs: seq<Category>, i: int, c: Category)
    requires 0 <= i < |rows|
    ensures CategoryOf(c)(FillCategories(rows, cs)[i]) ==
      if c in cs then Some(CategoryOf(c)(rows[i]).GetOr(Unknown)) else CategoryOf(c)(rows[i])
    ensures NonCategories(FillCategories(rows, cs)[i]) == NonCategories(rows[i])
    decreases |cs|
  {
    if |cs| > 0 {
      FilledCell(FillCategory(rows, cs[0]), cs[1..], i, c);
    }
  }

  const NumericColumns: seq<Measure> := [ClicksColumn, ImpressionsColumn, EngagementScoreColumn, ConversionRateColumn, RoiColumn]
  const CategoricalColumns: seq<Category> := [CampaignTypeColumn, ChannelColumn, AudienceColumn, LocationColumn, LanguageColumn, SegmentColumn]

  lemma NumericColumnsDistinct()
    ensures DistinctMeasures(NumericColumns)
  {
  }

  lemma AllMeasuresListed(m: Measure)
    ensures m in NumericColumns
  {
    match m
    case ClicksColumn => assert NumericColumns[0] == m;
    case ImpressionsColumn => assert NumericColumns[1] == m;
    case EngagementScoreColumn => assert NumericColumns[2] == m;
    case ConversionRateColumn => assert NumericColumns[3] == m;
    case RoiColumn => assert NumericColumns[4] == m;
  }

  lemma AllCategoriesListed(c: Category)
    ensures c in CategoricalColumns
  {
    match c
    case CampaignTypeColumn => assert CategoricalColumns[0] == c;
    case ChannelColumn => assert CategoricalColumns[1] == c;
    case AudienceColumn => assert CategoricalColumns[2] == c;
    case LocationColumn => assert CategoricalColumns[3] == c;
    case LanguageColumn => assert CategoricalColumns[4] == c;
    case SegmentColumn => assert CategoricalColumns[5] == c;
  }

  /** `handle_missing_values`: the five numeric columns by median, then the
      six categorical columns with "Unknown". */
  function HandleMissingValues(rows: seq<Record>): (out: seq<Record>)
    ensures |out| == |rows|
    ensures forall i, m :: 0 <= i < |rows| ==> MeasureOf(m)(out[i]) == Imputed(rows, m, i)
    ensures forall i, c :: 0 <= i < |rows| ==> CategoryOf(c)(out[i]) == Some(CategoryOf(c)(rows[i]).GetOr(Unknown))
    ensures forall i :: 0 <= i < |rows| ==> NonCategories(NonMeasures(out[i])) == NonCategories(NonMeasures(rows[i]))
  {
    FilledCells(rows);
    BothFilled(rows)
  }

  /** The frame both fills leave behind, before `handle_missing_values` names it. */
  function BothFilled(rows: seq<Record>): seq<Record>
  {
    FillCategories(ImputeMeasures(rows, NumericColumns), CategoricalColumns)
  }

  lemma MeasureCell(rows: seq<Record>, i: int, m: Measure)
    requires 0 <= i < |rows|
    ensures |BothFilled(rows)| == |rows|
    ensures MeasureOf(m)(BothFilled(rows)[i]) == Imputed(rows, m, i)
  {
    var imputed := ImputeMeasures(rows, NumericColumns);
    NumericColumnsDistinct();
    AllMeasuresListed(m);
    ImputedCell(rows, NumericColumns, i, m);
    FilledCell(imputed, CategoricalColumns, i, CampaignTypeColumn);
    MeasureIgnoresCategories(BothFilled(rows)[i], imputed[i], m);
  }

  lemma CategoryCell(rows: seq<Record>, i: int, c: Category)
    requires 0 <= i < |rows|
    ensures |BothFilled(rows)| == |rows|
    ensures CategoryOf(c)(BothFilled(rows)[i]) == Some(CategoryOf(c)(rows[i]).GetOr(Unknown))
  {
    var imputed := ImputeMeasures(rows, NumericColumns);
    AllCategoriesListed(c);
    ImputedRest(rows, NumericColumns, i);
    FilledCell(imputed, CategoricalColumns, i, c);
    CategoryIgnoresMeasures(imputed[i], rows[i], c);
  }

  lemma RestCell(rows: seq<Record>, i: int)
    requires 0 <= i < |rows|
    ensures |BothFilled(rows)| == |rows|
    ensures NonCategories(NonMeasures(BothFilled(rows)[i])) == NonCategories(NonMeasures(rows[i]))
  {
    ImputedRest(rows, NumericColumns, i);
    FilledCell(ImputeMeasures(rows, NumericColumns), CategoricalColumns, i, CampaignTypeColumn);
  }

  /** Every cell of the frame both fills leave behind. */
  lemma FilledCells(rows: seq<Record>)
    ensures |BothFilled(rows)| == |rows|
    ensures forall i, m :: 0 <= i < |rows| ==> MeasureOf(m)(BothFilled(rows)[i]) == Imputed(rows, m, i)
    ensures forall i, c :: 0 <= i < |rows| ==> CategoryOf(c)(BothFilled(rows)[i]) == Some(CategoryOf(c)(rows[i]).GetOr(Unknown))
    ensures forall i :: 0 <= i < |rows| ==> NonCategories(NonMeasures(BothFilled(rows)[i])) == NonCategories(NonMeasures(rows[i]))
  {
    forall i, m | 0 <= i < |rows| ensures MeasureOf(m)(BothFilled(rows)[i]) == Imputed(rows, m, i) {
      MeasureCell(rows, i, m);
    }
    forall i, c | 0 <= i < |rows| ensures CategoryOf(c)(BothFilled(rows)[i]) == Some(CategoryOf(c)(rows[i]).GetOr(Unknown)) {
      CategoryCell(rows, i, c);
    }
    forall i | 0 <= i < |rows| ensures NonCategories(NonMeasures(BothFilled(rows)[i])) == NonCategories(NonMeasures(rows[i])) {
      RestCell(rows, i);
    }
  }

  /** A numeric cell lives outside the categorical columns. */
  lemma MeasureIgnoresCategories(a: Record, b: Record, m: Measure)
    requires NonCategories(a) == NonCategories(b)
    ensures MeasureOf(m)(a) == MeasureOf(m)(b)
  {
    match m
    case ClicksColumn => assert NonCategories(a).clicks == NonCategories(b).clicks;
    case ImpressionsColumn => assert NonCategories(a).impressions == NonCategories(b).impressions;
    case EngagementScoreColumn => assert NonCategories(a).engagementScore == NonCategories(b).engagementScore;
    case ConversionRateColumn => assert NonCategories(a).conversionRate == NonCategories(b).conversionRate;
    case RoiColumn => assert NonCategories(a).roi == NonCategories(b).roi;
  }

  /** A categorical cell lives outside the numeric columns. */
  lemma CategoryIgnoresMeasures(a: Record, b: Record, c: Category)
    requires NonMeasures(a) == NonMeasures(b)
    ensures CategoryOf(c)(a) == CategoryOf(c)(b)
  {
    match c
    case CampaignTypeColumn => assert NonMeasures(a).campaignType == NonMeasures(b).campaignType;
    case ChannelColumn => assert NonMeasures(a).channel == NonMeasures(b).channel;
    case AudienceColumn => assert NonMeasures(a).targetAudience == NonMeasures(b).targetAudience;
    case LocationColumn => assert NonMeasures(a).location == NonMeasures(b).location;
    case LanguageColumn => assert NonMeasures(a).language == NonMeasures(b).language;
    case SegmentColumn => assert NonMeasures(a).segment == NonMeasures(b).segment;
  }

  /** After `handle_missing_values` every numeric cell holds its own value or
      the median of its raw column (duplicates included, nulls excluded). */
  lemma HandledMeasure(rows: seq<Record>, i: int, m: Measure)
    requires 0 <= i < |rows|
    ensures MeasureOf(m)(HandleMissingValues(rows)[i]) == Imputed(rows, m, i)
  {
    var imputed := ImputeMeasures(rows, NumericColumns);
    AllMeasuresListed(m);
    NumericColumnsDistinct();
    ImputedCell(rows, NumericColumns, i, m);
    FilledCell(imputed, CategoricalColumns, i, CampaignTypeColumn);
    MeasureIgnoresCategories(HandleMissingValues(rows)[i], imputed[i], m);
  }

  /** After `handle_missing_values` every categorical cell holds its own text or "Unknown". */
  lemma HandledCategory(rows: seq<Record>, i: int, c: Category)
    requires 0 <= i < |rows|
    ensures CategoryOf(c)(HandleMissingValues(rows)[i]) == Some(CategoryOf(c)(rows[i]).GetOr(Unknown))
  {
    var imputed := ImputeMeasures(rows, NumericColumns);
    AllCategoriesListed(c);
    ImputedRest(rows, NumericColumns, i);
    FilledCell(imputed, CategoricalColumns, i, c);
    CategoryIgnoresMeasures(imputed[i], rows[i], c);
  }

  /** `handle_missing_values` leaves id, company, duration, cost and date alone. */
  lemma HandledRest(rows: seq<Record>, i: int)
    requires 0 <= i < |rows|
    ensures NonCategories(NonMeasures(HandleMissingValues(rows)[i])) == NonCategories(NonMeasures(rows[i]))
  {
    var imputed := ImputeMeasures(rows, NumericColumns);
    ImputedRest(rows, NumericColumns, i);
    FilledCell(imputed, CategoricalColumns, i, CampaignTypeColumn);
  }

  /** An imputed value is absent exactly when the whole column is. */
  lemma ImputedNone(rows: seq<Record>, m: Measure, i: int)
    requires 0 <= i < |rows|
    ensures Imputed(rows, m, i).None? <==> CountOf(rows, MeasureOf(m)) == 0
  {
    var col := MeasureOf(m);
    if col(rows[i]).Some? {
      PresentIncludes(rows, col, i);
    }
  }

  /** A numeric cell is still empty after `handle_missing_values` exactly
      when its whole column was empty (the median of nothing is NaN). */
  lemma HandledNoNulls(rows: seq<Record>, i: int, m: Measure)
    requires 0 <= i < |rows|
    ensures MeasureOf(m)(HandleMissingValues(rows)[i]).None? <==> CountOf(rows, MeasureOf(m)) == 0
  {
    HandledMeasure(rows, i, m);
    ImputedNone(rows, m, i);
  }

  /** Imputation keeps a column within any bounds its present values
      respect: the median is one of them or the mean of two. */
  lemma ImputedWithin(rows: seq<Record>, m: Measure, i: int, lo: real, hi: real)
    requires forall j :: 0 <= j < |rows| && MeasureOf(m)(rows[j]).Some? ==> lo <= MeasureOf(m)(rows[j]).value <= hi
    requires 0 <= i < |rows| && Imputed(rows, m, i).Some?
    ensures lo <= Imputed(rows, m, i).value <= hi
  {
    if MeasureOf(m)(rows[i]).None? {
      var xs := Present(rows, MeasureOf(m));
      forall x | x in xs
        ensures lo <= x <= hi
      {
        PresentFrom(rows, MeasureOf(m), x);
      }
      MedianWithin(xs, lo, hi);
    }
  }

  /** Imputation never touches the Campaign_ID column, so the duplicates
      the next step finds are those of the input. */
  lemma HandledIds(rows: seq<Record>)
    ensures forall i :: 0 <= i < |rows| ==> HandleMissingValues(rows)[i].id == rows[i].id
  {
    forall i | 0 <= i < |rows|
      ensures HandleMissingValues(rows)[i].id == rows[i].id
    {
      HandledRest(rows, i);
      assert NonCategories(NonMeasures(HandleMissingValues(rows)[i])).id == NonCategories(NonMeasures(rows[i])).id;
    }
  }

  // ---------------------------------------------------------------------
  // `normalize_categorical_values`.

  /** `.str.title()` on a cell; NaN stays NaN. */
  function TitleOpt(o: Option<string>): (r: Option<string>)
    ensures r.Some? <==> o.Some?
  {
    match o
    case Some(s) => Some(TitleCase(s))
    case None => None
  }

  /** The title-cased columns: campaign type, channel, location and segment. */
  function NormalizeRow(r: Record): Record
  {
    r.(campaignType := TitleOpt(r.campaignType), channel := TitleOpt(r.channel),
       location := TitleOpt(r.location), segment := TitleOpt(r.segment))
  }

  /** `normalize_categorical_values`: title-cases four categorical columns
      and touches nothing else; audience and language keep their spelling. */
  function Normalize(rows: seq<Record>): (out: seq<Record>)
    ensures |out| == |rows|
    ensures forall i :: 0 <= i < |rows| ==>
      out[i].(campaignType := rows[i].campaignType, channel := rows[i].channel,
              location := rows[i].location, segment := rows[i].segment) == rows[i]
    ensures forall i, c :: 0 <= i < |rows| ==> (CategoryOf(c)(out[i]).Some? <==> CategoryOf(c)(rows[i]).Some?)
  {
    seq(|rows|, i requires 0 <= i < |rows| => NormalizeRow(rows[i]))
  }

  /** Normalising twice is normalising once. */
  lemma NormalizeIdempotent(rows: seq<Record>)
    ensures Normalize(Normalize(rows)) == Normalize(rows)
  {
    forall i | 0 <= i < |rows|
      ensures Normalize(Normalize(rows))[i] == Normalize(rows)[i]
    {
      var r := rows[i];
      if r.campaignType.Some? { TitleCaseIdempotent(r.campaignType.value); }
      if r.channel.Some? { TitleCaseIdempotent(r.channel.value); }
      if r.location.Some? { TitleCaseIdempotent(r.location.value); }
      if r.segment.Some? { TitleCaseIdempotent(r.segment.value); }
    }
  }

  /** The filler "Unknown" is already title-cased, so it survives normalisation. */
  lemma UnknownIsTitled()
    ensures TitleCase(Unknown) == Unknown
  {
    assert TitleFrom("", true) == "";
    assert TitleFrom("n", true) == "n";
    assert TitleFrom("wn", true) == "wn";
    assert TitleFrom("own", true) == "own";
    assert TitleFrom("nown", true) == "nown";
    assert TitleFrom("known", true) == "known";
    assert TitleFrom("nknown", true) == "nknown";
  }

  // ---------------------------------------------------------------------
  // `validate_numeric_ranges`.

  /** The range a column is repaired into: conversion rates within [0, 1],
      the counts not negative. */
  predicate OutOfRange(m: Measure, v: real)
  {
    if m == ConversionRateColumn then v < 0.0 || v > 1.0 else v < 0.0
  }

  /** The cell is present and outside its range (a NaN cell is never invalid). */
  predicate IsInvalid(rows: seq<Record>, m: Measure, i: int)
    requires 0 <= i < |rows|
  {
    MeasureOf(m)(rows[i]).Some? && OutOfRange(m, MeasureOf(m)(rows[i]).value)
  }

  predicate AnyInvalid(rows: seq<Record>, m: Measure)
  {
    exists i :: 0 <= i < |rows| && IsInvalid(rows, m, i)
  }

  /** Every cell of the column is in range or absent. */
  predicate InRange(rows: seq<Record>, m: Measure)
  {
    forall i :: 0 <= i < |rows| ==> !IsInvalid(rows, m, i)
  }

  /** The value a cell holds after repair: its own, or the column's median
      (taken over all present values, the invalid ones included) when invalid. */
  function Repaired(rows: seq<Record>, m: Measure, i: int): Option<real>
    requires 0 <= i < |rows|
  {
    if IsInvalid(rows, m, i) then MedianOf(rows, MeasureOf(m)) else MeasureOf(m)(rows[i])
  }

  /** One repair of `validate_numeric_ranges`: when some cell is out of range,
      every such cell is overwritten with the column's median. */
  function Repair(rows: seq<Record>, m: Measure): (out: seq<Record>)
    ensures |out| == |rows|
    ensures forall i :: 0 <= i < |rows| ==> MeasureOf(m)(out[i]) == Repaired(rows, m, i)
    ensures forall i, n :: 0 <= i < |rows| && n != m ==> MeasureOf(n)(out[i]) == MeasureOf(n)(rows[i])
    ensures forall i :: 0 <= i < |rows| ==> NonMeasures(out[i]) == NonMeasures(rows[i])
  {
    if !AnyInvalid(rows, m) then rows
    else
      var median := MedianOf(rows, MeasureOf(m));
      seq(|rows|, i requires 0 <= i < |rows| =>
        if IsInvalid(rows, m, i) then SetMeasure(rows[i], m, median) else rows[i])
  }

  /** An invalid cell is a present value, so the column has a median. */
  lemma InvalidHasMedian(rows: seq<Record>, m: Measure)
    requires AnyInvalid(rows, m)
    ensures MedianOf(rows, MeasureOf(m)).Some?
  {
    var i :| 0 <= i < |rows| && IsInvalid(rows, m, i);
    PresentIncludes(rows, MeasureOf(m), i);
  }

  /** An in-range median repairs every invalid cell. */
  lemma RepairWithGoodMedian(rows: seq<Record>, m: Measure)
    requires MedianOf(rows, MeasureOf(m)).Some? && !OutOfRange(m, MedianOf(rows, MeasureOf(m)).value)
    ensures InRange(Repair(rows, m), m)
  {
    var out := Repair(rows, m);
    forall j | 0 <= j < |rows|
      ensures !IsInvalid(out, m, j)
    {
      assert MeasureOf(m)(out[j]) == Repaired(rows, m, j);
    }
  }

  /** An out-of-range median is written back into an invalid cell. */
  lemma RepairWithBadMedian(rows: seq<Record>, m: Measure, i: int)
    requires 0 <= i < |rows| && IsInvalid(rows, m, i)
    requires MedianOf(rows, MeasureOf(m)).Some? && OutOfRange(m, MedianOf(rows, MeasureOf(m)).value)
    ensures !InRange(Repair(rows, m), m)
  {
    var out := Repair(rows, m);
    assert MeasureOf(m)(out[i]) == MedianOf(rows, MeasureOf(m));
    assert IsInvalid(out, m, i);
  }

  /** Repair leaves a column fully in range exactly when nothing was invalid
      or the median itself is in range: an out-of-range median is written
      back into every invalid cell. */
  lemma RepairInRange(rows: seq<Record>, m: Measure)
    ensures AnyInvalid(rows, m) ==> MedianOf(rows, MeasureOf(m)).Some?
    ensures InRange(Repair(rows, m), m) <==>
      !AnyInvalid(rows, m) || !OutOfRange(m, MedianOf(rows, MeasureOf(m)).value)
  {
    if AnyInvalid(rows, m) {
      InvalidHasMedian(rows, m);
      if OutOfRange(m, MedianOf(rows, MeasureOf(m)).value) {
        var i :| 0 <= i < |rows| && IsInvalid(rows, m, i);
        RepairWithBadMedian(rows, m, i);
      } else {
        RepairWithGoodMedian(rows, m);
      }
    } else {
      assert Repair(rows, m) == rows;
    }
  }

  /** With every present value in range, the median is in range too, so a
      column whose only problem cells were few ends up in range. */
  lemma MedianInRange(rows: seq<Record>, m: Measure, lo: real, hi: real)
    requires CountOf(rows, MeasureOf(m)) > 0
    requires forall j :: 0 <= j < |rows| && MeasureOf(m)(rows[j]).Some? ==> lo <= MeasureOf(m)(rows[j]).value <= hi
    ensures lo <= MedianOf(rows, MeasureOf(m)).value <= hi
  {
    var xs := Present(rows, MeasureOf(m));
    forall x | x in xs
      ensures lo <= x <= hi
    {
      PresentFrom(rows, MeasureOf(m), x);
    }
    MedianWithin(xs, lo, hi);
  }

  /** Repairing a column leaves another column and its median alone. */
  lemma RepairKeepsOther(rows: seq<Record>, m: Measure, n: Measure, i: int)
    requires n != m && 0 <= i < |rows|
    ensures Repaired(Repair(rows, m), n, i) == Repaired(rows, n, i)
  {
    var r := Repair(rows, m);
    SameColumn(r, MeasureOf(n), rows, MeasureOf(n));
    assert MedianOf(r, MeasureOf(n)) == MedianOf(rows, MeasureOf(n));
    assert MeasureOf(n)(r[i]) == MeasureOf(n)(rows[i]);
    assert IsInvalid(r, n, i) == IsInvalid(rows, n, i);
  }

  /** The three count columns repaired in turn (never negative). */
  function RepairCounts(rows: seq<Record>): (out: seq<Record>)
    ensures |out| == |rows|
    ensures forall i, m :: 0 <= i < |rows| ==>
      MeasureOf(m)(out[i]) == if IsCount(m) then Repaired(rows, m, i) else MeasureOf(m)(rows[i])
    ensures forall i :: 0 <= i < |rows| ==> NonMeasures(out[i]) == NonMeasures(rows[i])
  {
    forall i, m | 0 <= i < |rows|
      ensures MeasureOf(m)(ThreeRepairs(rows)[i]) == if IsCount(m) then Repaired(rows, m, i) else MeasureOf(m)(rows[i])
    {
      ThreeRepairsCell(rows, i, m);
    }
    ThreeRepairs(rows)
  }

  /** The three repairs, before `RepairCounts` names them. */
  function ThreeRepairs(rows: seq<Record>): (out: seq<Record>)
    ensures |out| == |rows|
    ensures forall i :: 0 <= i < |rows| ==> NonMeasures(out[i]) == NonMeasures(rows[i])
  {
    Repair(Repair(Repair(rows, ClicksColumn), ImpressionsColumn), EngagementScoreColumn)
  }

  lemma ThreeRepairsCell(rows: seq<Record>, i: int, m: Measure)
    requires 0 <= i < |rows|
    ensures MeasureOf(m)(ThreeRepairs(rows)[i]) == if IsCount(m) then Repaired(rows, m, i) else MeasureOf(m)(rows[i])
  {
    var a := Repair(rows, ClicksColumn);
    if m == ImpressionsColumn {
      RepairKeepsOther(rows, ClicksColumn, m, i);
    } else if m == EngagementScoreColumn {
      RepairKeepsOther(rows, ClicksColumn, m, i);
      RepairKeepsOther(a, ImpressionsColumn, m, i);
    }
  }

  predicate IsCount(m: Measure)
  {
    m == ClicksColumn || m == ImpressionsColumn || m == EngagementScoreColumn
  }

  /** Each count column ends as if repaired alone; the other columns are untouched. */
  lemma RepairCountsCell(rows: seq<Record>, i: int, m: Measure)
    requires 0 <= i < |rows|
    ensures MeasureOf(m)(RepairCounts(rows)[i]) == if IsCount(m) then Repaired(rows, m, i) else MeasureOf(m)(rows[i])
    ensures NonMeasures(RepairCounts(rows)[i]) == NonMeasures(rows[i])
  {
  }

  // ---------------------------------------------------------------------
  // The currency conversion inside `validate_numeric_ranges`.

  /** `.str.replace('$', '').str.replace(',', '')` then `astype(float)` on one
      cell of an object column: text is stripped and parsed (absent when it
      does not parse), a non-text cell turns into NaN. */
  function ParseCostCell(c: Cell): Option<real>
  {
    match c
    case Text(s) => ParseDecimal(StripCurrency(s))
    case _ => None
  }

  /** A text cost cell `astype(float)` rejects. */
  predicate BadCost(c: Cell)
  {
    c.Text? && ParseDecimal(StripCurrency(c.s)).None?
  }

  predicate AnyBadCost(rows: seq<Record>)
  {
    exists i :: 0 <= i < |rows| && BadCost(rows[i].cost)
  }

  /** The number an object-column cost cell becomes. */
  function ConvertedCost(c: Cell): (d: Cell)
    ensures !d.Text?
    ensures c.Text? && !BadCost(c) ==> d.Num? && ParseDecimal(StripCurrency(c.s)) == Some(d.x)
  {
    match ParseCostCell(c)
    case Some(x) => Num(x)
    case None => Null
  }

  /** The cost conversion: nothing happens to a float64 column; an object
      column is converted cell by cell and the whole step fails on a text
      cell that is not a number. */
  function ParseCosts(rows: seq<Record>, costType: Dtype): (r: Option<seq<Record>>)
    ensures r.None? <==> costType == Object && AnyBadCost(rows)
    ensures r.Some? ==> |r.value| == |rows|
    ensures r.Some? ==> forall i :: 0 <= i < |rows| ==> r.value[i].(cost := rows[i].cost) == rows[i]
    ensures r.Some? && costType == Object ==> forall i :: 0 <= i < |rows| ==>
      !r.value[i].cost.Text? && (rows[i].cost.Text? ==> ParseDecimal(StripCurrency(rows[i].cost.s)) == AsNumber(r.value[i].cost))
  {
    if costType == Object && AnyBadCost(rows) then None
    else if costType == Numeric then Some(rows)
    else Some(seq(|rows|, i requires 0 <= i < |rows| => rows[i].(cost := ConvertedCost(rows[i].cost))))
  }

  /** A cost formatted as `"$16,174.00"` is read back as the number it came from. */
  lemma ParsesFormattedCost(cents: int)
    ensures ParseCostCell(Text(FormatCurrency(cents))) == Some(cents as real / 100.0)
    ensures !BadCost(Text(FormatCurrency(cents)))
  {
    CurrencyRoundTrip(cents);
  }

  // ---------------------------------------------------------------------
  // `create_derived_features`.

  /** `Campaign_Duration`: the first digit run of a text Duration (`"30 days"`
      gives 30), NaN for a text without digits or a non-text cell; the
      number itself when the column is float64. */
  function CampaignDuration(durationType: Dtype, c: Cell): (d: Option<real>)
    ensures durationType == Numeric ==> d == AsNumber(c)
    ensures durationType == Object ==> (d.Some? <==> c.Text? && ExtractNumber(c.s).Some?)
    ensures d.Some? && durationType == Object ==> d.value >= 0.0
    ensures d.Some? && durationType == Object ==>
      c.Text? && exists i, j :: IsFirstRun(c.s, i, j) && d.value == ParseDigits(c.s[i..j]) as real
  {
    match durationType
    case Numeric => AsNumber(c)
    case Object =>
      match c
      case Text(s) => (match ExtractNumber(s) case Some(n) => Some(n as real) case None => None)
      case _ => None
  }

  /** A spelt-out duration such as `"30 days"` yields its number of days. */
  lemma DurationOfDays(run: string)
    requires |run| > 0 && AllDigits(run)
    ensures CampaignDuration(Object, Text(run + " days")) == Some(ParseDigits(run) as real)
  {
    var empty: string := [];
    assert empty + run == run;
    ExtractNumberSplit(empty, run, " days");
  }

  /** The thirty-day campaigns of the sample data are Medium-length. */
  lemma ThirtyDaysIsMedium()
    ensures DurationBin(CampaignDuration(Object, Text("30 days"))) == Some(Medium)
  {
    assert CampaignDuration(Object, Text("30 days")) == Some(30.0) by {
      assert ParseDigits("30") == 30 by {
        assert "30"[..1] == "3";
      }
      assert "30" + " days" == "30 days";
      DurationOfDays("30");
    }
  }

  /** A cleaned row: the loaded columns, cost as a number, and the derived
      columns `create_derived_features` adds. */
  function DeriveRow(r: Record, durationType: Dtype): (c: Campaign)
    ensures c.id == r.id && c.company == r.company && c.campaignType == r.campaignType
    ensures c.targetAudience == r.targetAudience && c.duration == r.duration && c.channel == r.channel
    ensures c.conversionRate == r.conversionRate && c.cost == AsNumber(r.cost) && c.roi == r.roi
    ensures c.location == r.location && c.language == r.language && c.clicks == r.clicks
    ensures c.impressions == r.impressions && c.engagementScore == r.engagementScore
    ensures c.segment == r.segment && c.date == r.date
    ensures c.engagementRate.Some? <==> c.clicks.Some? && c.impressions.Some? && c.impressions.value != 0.0
    ensures c.engagementRate.Some? ==> c.engagementRate.value * c.impressions.value == c.clicks.value
    ensures c.month.Some? <==> c.date.Some?
    ensures c.date.Some? ==> c.year == Some(c.date.value.year) && c.month == Some(c.date.value.month)
    ensures c.quarter.Some? <==> c.date.Some?
    ensures c.quarter.Some? ==> 3 * (c.quarter.value - 1) < c.date.value.month <= 3 * c.quarter.value
    ensures c.campaignDuration == CampaignDuration(durationType, r.duration)
    ensures c.durationCategory == DurationBin(c.campaignDuration)
    ensures c.durationCategory.Some? <==> c.campaignDuration.Some? && c.campaignDuration.value > 0.0
    ensures c.engagementCategory == EngagementBin(c.engagementScore)
    ensures c.engagementCategory.Some? <==> c.engagementScore.Some? && 0.0 < c.engagementScore.value <= 10.0
    ensures c.durationDays.None?
  {
    var duration := CampaignDuration(durationType, r.duration);
    Campaign(r.id, r.company, r.campaignType, r.targetAudience, r.duration, r.channel,
             r.conversionRate, AsNumber(r.cost), r.roi, r.location, r.language,
             r.clicks, r.impressions, r.engagementScore, r.segment, r.date,
             (match r.date case Some(d) => Some(d.month) case None => None),
             (match r.date case Some(d) => Some(QuarterOf(d.month)) case None => None),
             (match r.date case Some(d) => Some(d.year) case None => None),
             duration, DurationBin(duration), Ratio(r.clicks, r.impressions),
             EngagementBin(r.engagementScore), None)
  }

  /** `create_derived_features` over a frame, row by row. */
  function DeriveAll(rows: seq<Record>, durationType: Dtype): (out: seq<Campaign>)
    ensures |out| == |rows|
  {
    seq(|rows|, i requires 0 <= i < |rows| => DeriveRow(rows[i], durationType))
  }

  // ---------------------------------------------------------------------
  // `clean_data`.

  const DerivedFeatures: seq<string> := [
    "Campaign_Duration", "Duration_Category", "Engagement_Rate", "Month", "Quarter", "Year", "Engagement_Category"
  ]

  datatype CleaningSummary = CleaningSummary(initialRows: nat, finalRows: nat, rowsRemoved: int, derivedFeatures: seq<string>)

  /** The frame after imputation, de-duplication, normalisation and the
      repair of the count columns: what the currency conversion sees. */
  function Prepared(rows: seq<Record>): (out: seq<Record>)
    ensures |out| <= |rows|
  {
    RepairCounts(Normalize(Duplicates.DropDuplicates(HandleMissingValues(rows), RecordId)))
  }

  /** `clean_data`: the five steps in order, with the dtypes of Duration and
      Acquisition_Cost as the input frame has them (pandas keeps a column's
      dtype through the row removal). Fails exactly when the currency
      conversion raises. */
  function CleanData(rows: seq<Record>): (r: Option<(seq<Campaign>, CleaningSummary)>)
    ensures r.Some? <==> ParseCosts(Prepared(rows), InferDtype(rows, RecordCostCell)).Some?
    ensures r.Some? ==> r.value.1.initialRows == |rows| && r.value.1.finalRows == |r.value.0|
    ensures r.Some? ==> r.value.1.rowsRemoved == |rows| - |r.value.0| >= 0
    ensures r.Some? ==> r.value.1.derivedFeatures == DerivedFeatures
  {
    var durationType := InferDtype(rows, RecordDuration);
    var costType := InferDtype(rows, RecordCostCell);
    match ParseCosts(Prepared(rows), costType)
    case None => None
    case Some(parsed) =>
      var out := DeriveAll(Repair(parsed, ConversionRateColumn), durationType);
      Some((out, CleaningSummary(|rows|, |out|, |rows| - |out|, DerivedFeatures)))
  }

  // ---------------------------------------------------------------------
  // What `clean_data` promises about its output.

  /** The cells no step before the currency conversion touches. */
  function Kept(r: Record): (Option<int>, Option<string>, Cell, Cell, Option<CalendarDate>)
  {
    (r.id, r.company, r.duration, r.cost, r.date)
  }

  lemma HandledKept(rows: seq<Record>, i: int)
    requires 0 <= i < |rows|
    ensures Kept(HandleMissingValues(rows)[i]) == Kept(rows[i])
  {
    HandledRest(rows, i);
    var a, b := NonCategories(NonMeasures(HandleMissingValues(rows)[i])), NonCategories(NonMeasures(rows[i]));
    assert a.id == b.id && a.company == b.company && a.duration == b.duration && a.cost == b.cost && a.date == b.date;
  }

  /** Campaign_ID is untouched by imputation, so the set of ids is too. */
  lemma HandledKeys(rows: seq<Record>)
    ensures Duplicates.KeysOf(HandleMissingValues(rows), RecordId) == Duplicates.KeysOf(rows, RecordId)
  {
    HandledIds(rows);
    var a := HandleMissingValues(rows);
    assert forall i :: 0 <= i < |rows| ==> RecordId(a[i]) == RecordId(rows[i]);
  }

  /** The frame before the currency conversion has one row per first
      occurrence of a Campaign_ID, each the row found there. */
  lemma PreparedRows(rows: seq<Record>)
    ensures var a := HandleMissingValues(rows);
      var ps := Duplicates.FirstPositions(a, RecordId);
      && |Prepared(rows)| == |Duplicates.DropDuplicates(a, RecordId)| == |ps|
      && forall k :: 0 <= k < |ps| ==> Duplicates.DropDuplicates(a, RecordId)[k] == a[ps[k]]
  {
    Duplicates.KeepsFirstPositions(HandleMissingValues(rows), RecordId);
  }

  /** The input row an output row of `clean_data` comes from: the k-th first
      occurrence of a Campaign_ID. */
  function Origin(rows: seq<Record>, k: int): (j: int)
    requires 0 <= k < |Prepared(rows)|
    ensures 0 <= j < |rows| && Duplicates.IsFirst(HandleMissingValues(rows), RecordId, j)
  {
    PreparedRows(rows);
    Duplicates.FirstPositions(HandleMissingValues(rows), RecordId)[k]
  }

  /** Each prepared row is the first row of its Campaign_ID in the input. */
  lemma PreparedIsFirst(rows: seq<Record>, k: int)
    requires 0 <= k < |Prepared(rows)|
    ensures 0 <= Origin(rows, k) < |rows| && Duplicates.IsFirst(rows, RecordId, Origin(rows, k))
  {
    var a := HandleMissingValues(rows);
    var j := Origin(rows, k);
    forall l | 0 <= l < j
      ensures RecordId(rows[l]) != RecordId(rows[j])
    {
      HandledKept(rows, l);
      HandledKept(rows, j);
      assert RecordId(a[l]) != RecordId(a[j]);
    }
  }

  /** A prepared row holds its first row's untouched cells, and every
      categorical cell filled. */
  lemma PreparedCells(rows: seq<Record>, k: int)
    requires 0 <= k < |Prepared(rows)|
    ensures 0 <= Origin(rows, k) < |rows|
    ensures Kept(Prepared(rows)[k]) == Kept(rows[Origin(rows, k)])
    ensures forall c :: CategoryOf(c)(Prepared(rows)[k]).Some?
  {
    var a := HandleMissingValues(rows);
    var n := Normalize(Duplicates.DropDuplicates(a, RecordId));
    var j := Origin(rows, k);
    PreparedRows(rows);
    assert n[k] == NormalizeRow(a[j]);
    HandledKept(rows, j);
    RepairCountsCell(n, k, ClicksColumn);
    forall c
      ensures CategoryOf(c)(Prepared(rows)[k]).Some?
    {
      HandledCategory(rows, j, c);
      CategoryIgnoresMeasures(Prepared(rows)[k], n[k], c);
    }
  }

  /** A cleaned campaign carries over the prepared row's identifying and
      categorical cells. */
  predicate Carries(p: Record, c: Campaign)
  {
    && c.id == p.id && c.company == p.company && c.date == p.date && c.duration == p.duration
    && c.campaignType == p.campaignType && c.channel == p.channel && c.targetAudience == p.targetAudience
    && c.location == p.location && c.language == p.language && c.segment == p.segment
  }

  /** The currency conversion, the conversion-rate repair and the derived
      columns keep the prepared rows' identifying and categorical cells. */
  lemma CarriedThrough(rows: seq<Record>)
    requires CleanData(rows).Some?
    ensures |CleanData(rows).value.0| == |Prepared(rows)|
    ensures forall k :: 0 <= k < |Prepared(rows)| ==> Carries(Prepared(rows)[k], CleanData(rows).value.0[k])
  {
    var p := Prepared(rows);
    var parsed := ParseCosts(p, InferDtype(rows, RecordCostCell)).value;
    var repaired := Repair(parsed, ConversionRateColumn);
    var out := CleanData(rows).value.0;
    assert out == DeriveAll(repaired, InferDtype(rows, RecordDuration));
    forall k | 0 <= k < |p|
      ensures Carries(p[k], out[k])
    {
      assert parsed[k].(cost := p[k].cost) == p[k];
      assert NonMeasures(repaired[k]) == NonMeasures(parsed[k]);
      assert NonMeasures(repaired[k]).id == NonMeasures(parsed[k]).id;
      assert NonMeasures(repaired[k]).segment == NonMeasures(parsed[k]).segment;
      assert out[k] == DeriveRow(repaired[k], InferDtype(rows, RecordDuration));
    }
  }

  /** A campaign keeps the identifying cells of a loaded row. */
  predicate SameOrigin(c: Campaign, r: Record)
  {
    c.id == r.id && c.company == r.company && c.date == r.date && c.duration == r.duration
  }

  /** No categorical cell of the campaign is empty. */
  predicate Filled(c: Campaign)
  {
    && c.campaignType.Some? && c.channel.Some? && c.targetAudience.Some?
    && c.location.Some? && c.language.Some? && c.segment.Some?
  }

  lemma CarriesOrigin(p: Record, c: Campaign, r: Record)
    requires Carries(p, c) && Kept(p) == Kept(r)
    ensures SameOrigin(c, r)
  {
  }

  lemma CarriesFilled(p: Record, c: Campaign)
    requires Carries(p, c) && forall cat :: CategoryOf(cat)(p).Some?
    ensures Filled(c)
  {
    assert CategoryOf(CampaignTypeColumn)(p).Some? && CategoryOf(ChannelColumn)(p).Some?;
    assert CategoryOf(AudienceColumn)(p).Some? && CategoryOf(LocationColumn)(p).Some?;
    assert CategoryOf(LanguageColumn)(p).Some? && CategoryOf(SegmentColumn)(p).Some?;
  }

  /** Every output row of `clean_data` stands for the first input row with
      its Campaign_ID: same id, company, duration and date, and no
      categorical cell left empty. */
  lemma CleanedOrigin(rows: seq<Record>, k: int)
    requires CleanData(rows).Some? && 0 <= k < |CleanData(rows).value.0|
    ensures 0 <= k < |Prepared(rows)|
    ensures 0 <= Origin(rows, k) < |rows| && Duplicates.IsFirst(rows, RecordId, Origin(rows, k))
    ensures SameOrigin(CleanData(rows).value.0[k], rows[Origin(rows, k)])
    ensures Filled(CleanData(rows).value.0[k])
  {
    CarriedThrough(rows);
    PreparedIsFirst(rows, k);
    PreparedCells(rows, k);
    var p, c := Prepared(rows)[k], CleanData(rows).value.0[k];
    CarriesOrigin(p, c, rows[Origin(rows, k)]);
    CarriesFilled(p, c);
  }

  /** The derived columns of an output row of `clean_data`: Campaign_Duration
      is read from the Duration cell of the input row it stands for, under the
      dtype pandas inferred for the whole input column, and both categories
      are the bins of the cleaned row's own values. */
  lemma CleanedDerived(rows: seq<Record>, k: int)
    requires CleanData(rows).Some? && 0 <= k < |CleanData(rows).value.0|
    ensures 0 <= k < |Prepared(rows)| && 0 <= Origin(rows, k) < |rows|
    ensures var c := CleanData(rows).value.0[k];
      && c.campaignDuration == CampaignDuration(InferDtype(rows, RecordDuration), rows[Origin(rows, k)].duration)
      && c.durationCategory == DurationBin(c.campaignDuration)
      && c.engagementCategory == EngagementBin(c.engagementScore)
  {
    CleanedOrigin(rows, k);
    var durationType := InferDtype(rows, RecordDuration);
    var parsed := ParseCosts(Prepared(rows), InferDtype(rows, RecordCostCell)).value;
    var repaired := Repair(parsed, ConversionRateColumn);
    var out := CleanData(rows).value.0;
    assert out == DeriveAll(repaired, durationType);
    assert out[k] == DeriveRow(repaired[k], durationType);
  }

  /** A cleaned row whose Duration reads `"30 days"` is a Medium campaign. */
  lemma CleanedThirtyDays(rows: seq<Record>, k: int)
    requires CleanData(rows).Some? && 0 <= k < |CleanData(rows).value.0|
    requires InferDtype(rows, RecordDuration) == Object
    requires CleanData(rows).value.0[k].duration == Text("30 days")
    ensures CleanData(rows).value.0[k].durationCategory == Some(Medium)
  {
    CleanedDerived(rows, k);
    CleanedOrigin(rows, k);
    ThirtyDaysIsMedium();
  }

  /** `clean_data` keeps one row per distinct Campaign_ID: the summary's
      `rows_removed` is the number of repeated ids. */
  lemma CleanedRowsRemoved(rows: seq<Record>)
    requires CleanData(rows).Some?
    ensures |CleanData(rows).value.0| == |Duplicates.KeysOf(rows, RecordId)|
    ensures CleanData(rows).value.1.rowsRemoved == |rows| - |Duplicates.KeysOf(rows, RecordId)|
  {
    Duplicates.OneRowPerKey(HandleMissingValues(rows), RecordId);
    HandledKeys(rows);
    CarriedThrough(rows);
  }

  /** Output rows come from first occurrences in increasing input order. */
  lemma OriginIncreasing(rows: seq<Record>, k: int, l: int)
    requires 0 <= k < l < |Prepared(rows)|
    ensures Origin(rows, k) < Origin(rows, l)
  {
    PreparedRows(rows);
  }

  /** No Campaign_ID repeats in the output of `clean_data`. */
  lemma CleanedIdsDistinct(rows: seq<Record>)
    requires CleanData(rows).Some?
    ensures var out := CleanData(rows).value.0;
      forall k, l :: 0 <= k < l < |out| ==> out[k].id != out[l].id
  {
    var out := CleanData(rows).value.0;
    forall k, l | 0 <= k < l < |out|
      ensures out[k].id != out[l].id
    {
      CleanedPairDiffers(rows, k, l);
    }
  }

  lemma CleanedPairDiffers(rows: seq<Record>, k: int, l: int)
    requires CleanData(rows).Some? && 0 <= k < l < |CleanData(rows).value.0|
    ensures CleanData(rows).value.0[k].id != CleanData(rows).value.0[l].id
  {
    CarriedThrough(rows);
    PreparedPairDiffers(rows, k, l);
  }

  /** Two prepared rows never share a Campaign_ID. */
  lemma PreparedPairDiffers(rows: seq<Record>, k: int, l: int)
    requires 0 <= k < l < |Prepared(rows)|
    ensures Prepared(rows)[k].id != Prepared(rows)[l].id
  {
    PreparedIsFirst(rows, l);
    PreparedCells(rows, k);
    PreparedCells(rows, l);
    OriginIncreasing(rows, k, l);
    var i, j := Origin(rows, k), Origin(rows, l);
    assert RecordId(rows[i]) != RecordId(rows[j]);
  }

  /** The loader's frame never makes `clean_data` fail: its cost column holds
      numbers only, and no step before the conversion changes a cost cell. */
  lemma CleansLoadedRows(rows: seq<Record>)
    requires forall i :: 0 <= i < |rows| ==> !rows[i].cost.Text?
    ensures CleanData(rows).Some?
  {
    var p := Prepared(rows);
    forall k | 0 <= k < |p|
      ensures !BadCost(p[k].cost)
    {
      PreparedCells(rows, k);
    }
  }
}
