/** The analysis tabs of the full desktop client (`desktop/app.py`): the
    per-column statistics (skipping columns with no values), the
    coefficient-of-variation bands and IQR outlier counts of the insights
    tab, and the recommendations list. The table search, the export and
    the `is_processing` guard are in module `Desktop`. */
module DesktopApp {
  import opened Wrappers
  import opened Seqs
  import opened Statistics

  /** A numeric column of the loaded rows after `dropna`, with the figures
      the rules take from pandas: the sample standard deviation (`None` where
      pandas gives NaN, that is for fewer than two values) and the quartiles. */
  datatype Column = Column(name: string, values: seq<real>, std: Option<real>, q1: real, q3: real)

  predicate HasValues(c: Column)
  {
    |c.values| > 0
  }

  function Names(cols: seq<Column>): (names: seq<string>)
    ensures |names| == |cols| && forall k :: 0 <= k < |cols| ==> names[k] == cols[k].name
  {
    seq(|cols|, k requires 0 <= k < |cols| => cols[k].name)
  }

  // ---------------------------------------------------------------- statistics tab

  /** One column's table in the statistics tab (the median, quartiles,
      skewness and kurtosis rows come from the libraries and are not modelled). */
  datatype Section = Section(name: string, count: nat, mean: real, variance: Option<real>,
                             min: real, max: real, range: real)

  datatype StatisticsReport = NoDataAvailable | NoNumericData | Sections(sections: seq<Section>)

  function SectionOf(c: Column): Section
    requires HasValues(c)
  {
    var xs := c.values;
    Section(c.name, |xs|, Mean(xs), if |xs| >= 2 then Some(SampleVariance(xs)) else None,
            Minimum(xs), Maximum(xs), Maximum(xs) - Minimum(xs))
  }

  /** The sections of the columns that have values, column after column. */
  function SectionsOf(cols: seq<Column>): seq<Section>
  {
    if cols == [] then []
    else
      var init := SectionsOf(cols[..|cols| - 1]);
      var c := cols[|cols| - 1];
      if HasValues(c) then init + [SectionOf(c)] else init
  }

  function StatisticsSpec(loaded: bool, numeric: seq<Column>): StatisticsReport
  {
    if !loaded then NoDataAvailable
    else if numeric == [] then NoNumericData
    else Sections(SectionsOf(numeric))
  }

  /** `calculate_statistics`: no rows loaded, no numeric column, or one
      section per numeric column, a column without values being skipped. */
  method CalculateStatistics(loaded: bool, numeric: seq<Column>) returns (r: StatisticsReport)
    ensures r == StatisticsSpec(loaded, numeric)
  {
    if !loaded {
      return NoDataAvailable;
    }
    if numeric == [] {
      return NoNumericData;
    }
    var sections := [];
    for i := 0 to |numeric|
      invariant sections == SectionsOf(numeric[..i])
    {
      assert numeric[..i + 1][..i] == numeric[..i];
      var c := numeric[i];
      if |c.values| == 0 {
        continue;
      }
      sections := sections + [SectionOf(c)];
    }
    assert numeric[..|numeric|] == numeric;
    r := Sections(sections);
  }

  /** The sections are exactly those of the columns with values, in column
      order; each counts its values and has `min <= mean <= max`. */
  lemma {:induction false} SectionsOfFacts(cols: seq<Column>)
    ensures |SectionsOf(cols)| == |Filter(cols, HasValues)|
    ensures forall k :: 0 <= k < |SectionsOf(cols)| ==> SectionsOf(cols)[k] == SectionOf(Filter(cols, HasValues)[k])
    ensures forall s :: s in SectionsOf(cols) ==> s.count > 0 && s.min <= s.mean <= s.max && s.range >= 0.0
  {
    if cols != [] {
      var init, c := cols[..|cols| - 1], cols[|cols| - 1];
      SectionsOfFacts(init);
      FilterLast(cols, HasValues);
      if HasValues(c) {
        SectionFacts(c);
        assert SectionsOf(cols) == SectionsOf(init) + [SectionOf(c)];
        assert Filter(cols, HasValues) == Filter(init, HasValues) + [c];
      } else {
        assert SectionsOf(cols) == SectionsOf(init);
        assert Filter(cols, HasValues) == Filter(init, HasValues);
      }
    }
  }

  /** A section counts its values, its mean lies between its extremes and
      its range is not negative. */
  lemma SectionFacts(c: Column)
    requires HasValues(c)
    ensures var s := SectionOf(c); s.count > 0 && s.min <= s.mean <= s.max && s.range >= 0.0
  {
    MeanBetweenExtremes(c.values);
  }

  // ---------------------------------------------------------------- insights tab

  datatype Variation = VeryStable | Moderate | HighVariation

  /** The coefficient of variation, `std / mean * 100`, or 0 when the mean
      is 0; `None` is NaN (a missing standard deviation with a non-zero mean). */
  function Cv(c: Column): Option<real>
    requires HasValues(c)
  {
    var m := Mean(c.values);
    if m == 0.0 then Some(0.0)
    else match c.std
      case None => None
      case Some(s) => Some(s / m * 100.0)
  }

  /** The band of a CV: below 10, below 30, otherwise high (NaN compares false). */
  function VariationOf(cv: Option<real>): Variation
  {
    match cv
    case None => HighVariation
    case Some(x) => if x < 10.0 then VeryStable else if x < 30.0 then Moderate else HighVariation
  }

  lemma SquaresCompare(a: real, b: real)
    requires a >= 0.0 && b >= 0.0
    ensures a < b <==> a * a < b * b
  {
    if a < b {
      var d := b - a;
      assert d * a >= 0.0 && d * b > 0.0;
      assert b * b - a * a == d * a + d * b;
    } else {
      var d := a - b;
      assert d * a >= 0.0 && d * b >= 0.0;
      assert a * a - b * b == d * a + d * b;
    }
  }

  /** For a positive mean, comparing the CV with a positive bound is
      comparing the squares, so no square root is needed. */
  lemma CvCompare(s: real, m: real, b: real)
    requires s >= 0.0 && m > 0.0 && b > 0.0
    ensures s / m * 100.0 < b <==> 10000.0 * (s * s) < b * b * (m * m)
    ensures s / m * 100.0 > b <==> 10000.0 * (s * s) > b * b * (m * m)
  {
    var f := b / 100.0 * m;
    QuotientCompare(s, m, b / 100.0);
    assert s / m * 100.0 < b <==> s / m < b / 100.0;
    assert s / m * 100.0 > b <==> s / m > b / 100.0;
    SquaresCompare(s, f);
    SquaresCompare(f, s);
    assert f * f == b * b * (m * m) / 10000.0;
  }

  /** With the standard deviation the square root of the sample variance and
      a positive mean, the bands are bands of `100 * variance / mean^2`. */
  lemma VariationBands(c: Column, s: real)
    requires |c.values| >= 2 && c.std == Some(s) && s >= 0.0 && s * s == SampleVariance(c.values)
    requires Mean(c.values) > 0.0
    ensures var v, m := SampleVariance(c.values), Mean(c.values);
      && (VariationOf(Cv(c)) == VeryStable <==> 100.0 * v < m * m)
      && (VariationOf(Cv(c)) == Moderate <==> m * m <= 100.0 * v < 9.0 * (m * m))
      && (VariationOf(Cv(c)) == HighVariation <==> 9.0 * (m * m) <= 100.0 * v)
  {
    var m := Mean(c.values);
    CvCompare(s, m, 10.0);
    CvCompare(s, m, 30.0);
  }

  /** A negative mean makes the CV non-positive, so the column reads as very stable. */
  lemma NegativeMeanIsStable(c: Column)
    requires HasValues(c) && Mean(c.values) < 0.0
    requires c.std.Some? && c.std.value >= 0.0
    ensures VariationOf(Cv(c)) == VeryStable
  {
    var m := Mean(c.values);
    var s := c.std.value;
    QuotientCompare(s, m, 0.0);
  }

  /** `Q1 - 1.5 IQR` and `Q3 + 1.5 IQR` fences. */
  predicate IsOutlier(x: real, q1: real, q3: real)
  {
    x < q1 - 1.5 * (q3 - q1) || x > q3 + 1.5 * (q3 - q1)
  }

  function OutlierTest(c: Column): real -> bool
  {
    x => IsOutlier(x, c.q1, c.q3)
  }

  function OutlierCount(c: Column): nat
  {
    |Filter(c.values, OutlierTest(c))|
  }

  /** A value between the quartiles is never an outlier, so a column whose
      values all lie there has none. */
  lemma InsideQuartilesNoOutliers(c: Column)
    requires c.q1 <= c.q3
    requires forall i :: 0 <= i < |c.values| ==> c.q1 <= c.values[i] <= c.q3
    ensures OutlierCount(c) == 0
  {
    var flagged := Filter(c.values, OutlierTest(c));
    forall x | x in c.values ensures !IsOutlier(x, c.q1, c.q3) {
      var i :| 0 <= i < |c.values| && c.values[i] == x;
    }
    FilterNone(c.values, OutlierTest(c));
  }

  /** The CV line of each of the given columns that has values. */
  function FindingsOf(cols: seq<Column>): seq<(string, Variation)>
  {
    if cols == [] then []
    else
      var init := FindingsOf(cols[..|cols| - 1]);
      var c := cols[|cols| - 1];
      if HasValues(c) then init + [(c.name, VariationOf(Cv(c)))] else init
  }

  /** The outlier line of each of the given columns that has outliers. */
  function OutlierLinesOf(cols: seq<Column>): seq<(string, nat)>
  {
    if cols == [] then []
    else
      var init := OutlierLinesOf(cols[..|cols| - 1]);
      var c := cols[|cols| - 1];
      if HasValues(c) && OutlierCount(c) > 0 then init + [(c.name, OutlierCount(c))] else init
  }

  function TotalOutliers(cols: seq<Column>): nat
  {
    if cols == [] then 0
    else TotalOutliers(cols[..|cols| - 1]) + OutlierCount(cols[|cols| - 1])
  }

  datatype Insights = NoInsights | Insights(findings: seq<(string, Variation)>, outliers: seq<(string, nat)>,
                                            totalOutliers: nat, noOutliersLine: bool)

  /** The insights over the first five numeric columns. */
  function InsightsSpec(loaded: bool, numeric: seq<Column>): Insights
  {
    if !loaded then NoInsights
    else
      var first := Take(numeric, 5);
      Insights(FindingsOf(first), OutlierLinesOf(first), TotalOutliers(first), TotalOutliers(first) == 0)
  }

  /** One more column: its CV line when it has values, its outlier line when
      it has outliers, and its outliers added to the total (a column without
      values has none). */
  lemma InsightsStep(cols: seq<Column>, i: nat)
    requires i < |cols|
    ensures var c := cols[i];
      && FindingsOf(cols[..i + 1]) == FindingsOf(cols[..i]) + (if HasValues(c) then [(c.name, VariationOf(Cv(c)))] else [])
      && OutlierLinesOf(cols[..i + 1])
         == OutlierLinesOf(cols[..i]) + (if HasValues(c) && OutlierCount(c) > 0 then [(c.name, OutlierCount(c))] else [])
      && TotalOutliers(cols[..i + 1]) == TotalOutliers(cols[..i]) + (if HasValues(c) then OutlierCount(c) else 0)
  {
    assert cols[..i + 1][..i] == cols[..i];
    if !HasValues(cols[i]) {
      assert Filter(cols[i].values, OutlierTest(cols[i])) == [];
    }
  }

  /** `generate_insights`: a CV line per column with values among the first
      five, then their outlier counts and the all-clear line. */
  method GenerateInsights(loaded: bool, numeric: seq<Column>) returns (r: Insights)
    ensures r == InsightsSpec(loaded, numeric)
  {
    if !loaded {
      return NoInsights;
    }
    var first := Take(numeric, 5);
    var findings := [];
    for i := 0 to |first|
      invariant findings == FindingsOf(first[..i])
    {
      InsightsStep(first, i);
      var c := first[i];
      if |c.values| > 0 {
        findings := findings + [(c.name, VariationOf(Cv(c)))];
      }
    }
    var lines := [];
    var total := 0;
    for i := 0 to |first|
      invariant lines == OutlierLinesOf(first[..i]) && total == TotalOutliers(first[..i])
    {
      InsightsStep(first, i);
      var c := first[i];
      if |c.values| > 0 {
        var outliers := OutlierCount(c);
        total := total + outliers;
        if outliers > 0 {
          lines := lines + [(c.name, outliers)];
        }
      }
    }
    assert first[..|first|] == first;
    r := Insights(findings, lines, total, total == 0);
  }

  /** The all-clear line appears exactly when no outlier line does, that is
      when none of the first five columns has an outlier. */
  lemma {:induction false} OutlierLinesFacts(cols: seq<Column>)
    ensures OutlierLinesOf(cols) == [] <==> TotalOutliers(cols) == 0
    ensures TotalOutliers(cols) == 0 <==> forall k :: 0 <= k < |cols| ==> OutlierCount(cols[k]) == 0
    ensures forall line :: line in OutlierLinesOf(cols) ==> line.1 > 0
  {
    if cols != [] {
      var init := cols[..|cols| - 1];
      var c := cols[|cols| - 1];
      OutlierLinesFacts(init);
      assert forall k :: 0 <= k < |init| ==> init[k] == cols[k];
    }
  }

  /** One CV line per column with values among the first five, in order. */
  lemma {:induction false} FindingsFacts(cols: seq<Column>)
    ensures |FindingsOf(cols)| == |Filter(cols, HasValues)|
    ensures forall k :: 0 <= k < |FindingsOf(cols)| ==>
      var c := Filter(cols, HasValues)[k];
      FindingsOf(cols)[k] == (c.name, VariationOf(Cv(c)))
  {
    if cols != [] {
      var init := cols[..|cols| - 1];
      var c := cols[|cols| - 1];
      FindingsFacts(init);
      assert cols == init + [c];
      FilterSnoc(init, c, HasValues);
    }
  }

  // ---------------------------------------------------------------- recommendations

  datatype Recommendation = DataQuality(missingPercent: real) | Variability(columns: seq<string>)
                          | Monitoring | PredictiveAnalytics | Automation | Optimization

  /** The missing share exceeds 5 per cent (an empty frame gives NaN, which does not). */
  predicate DataQualityNeeded(missing: nat, cells: nat)
  {
    cells > 0 && missing as real / cells as real * 100.0 > 5.0
  }

  /** CV above 30 (NaN compares false). */
  predicate HighVariationColumn(c: Column)
  {
    HasValues(c) && match Cv(c) case Some(x) => x > 30.0 case None => false
  }

  function HighVariationNames(cols: seq<Column>): seq<string>
  {
    if cols == [] then []
    else
      var init := HighVariationNames(cols[..|cols| - 1]);
      var c := cols[|cols| - 1];
      if HighVariationColumn(c) then init + [c.name] else init
  }

  const General: seq<Recommendation> := [Monitoring, PredictiveAnalytics, Automation, Optimization]

  function RecommendationsSpec(missing: nat, cells: nat, numeric: seq<Column>): seq<Recommendation>
  {
    (if DataQualityNeeded(missing, cells) then [DataQuality(missing as real / cells as real * 100.0)] else [])
    + (if HighVariationNames(numeric) != [] then [Variability(HighVariationNames(numeric))] else [])
    + General
  }

  /** `generate_recommendations` over all numeric columns; `missing` is the
      number of missing cells among `cells = rows * columns`. */
  method GenerateRecommendations(missing: nat, cells: nat, numeric: seq<Column>) returns (items: seq<Recommendation>)
    ensures items == RecommendationsSpec(missing, cells, numeric)
  {
    items := [];
    if cells > 0 && missing as real / cells as real * 100.0 > 5.0 {
      items := items + [DataQuality(missing as real / cells as real * 100.0)];
    }
    var highVar := [];
    for i := 0 to |numeric|
      invariant highVar == HighVariationNames(numeric[..i])
    {
      assert numeric[..i + 1][..i] == numeric[..i];
      var c := numeric[i];
      if |c.values| > 0 {
        var m := Mean(c.values);
        var cv: Option<real> := if m == 0.0 then Some(0.0) else if c.std.None? then None else Some(c.std.value / m * 100.0);
        assert cv == Cv(c);
        if cv.Some? && cv.value > 30.0 {
          highVar := highVar + [c.name];
        }
      }
    }
    assert numeric[..|numeric|] == numeric;
    if highVar != [] {
      items := items + [Variability(highVar)];
    }
    items := items + General;
  }

  /** The variability item names exactly the columns with CV above 30, in order. */
  lemma {:induction false} HighVariationNamesFilter(cols: seq<Column>)
    ensures HighVariationNames(cols) == Names(Filter(cols, HighVariationColumn))
  {
    if cols != [] {
      var init := cols[..|cols| - 1];
      var c := cols[|cols| - 1];
      HighVariationNamesFilter(init);
      assert cols == init + [c];
      FilterSnoc(init, c, HighVariationColumn);
    }
  }

  /** More than 5 per cent missing is more than a twentieth of the cells. */
  lemma DataQualityIff(missing: nat, cells: nat)
    ensures DataQualityNeeded(missing, cells) <==> cells > 0 && 20 * missing > cells
  {
    if cells > 0 {
      var q := missing as real / cells as real;
      QuotientCompare(missing as real, cells as real, 0.05);
      assert q * 100.0 > 5.0 <==> q > 0.05;
    }
  }

  /** The four general items always close the list, after at most two others. */
  lemma RecommendationsShape(missing: nat, cells: nat, numeric: seq<Column>)
    ensures var items := RecommendationsSpec(missing, cells, numeric);
      4 <= |items| <= 6 && items[|items| - 4..] == General
  {
  }

  /** The data-quality item appears exactly when more than a twentieth of
      the cells are missing. */
  lemma DataQualityItem(missing: nat, cells: nat, numeric: seq<Column>)
    ensures (exists p :: DataQuality(p) in RecommendationsSpec(missing, cells, numeric)) <==> cells > 0 && 20 * missing > cells
  {
    var items := RecommendationsSpec(missing, cells, numeric);
    var names := HighVariationNames(numeric);
    var head := if DataQualityNeeded(missing, cells) then [DataQuality(missing as real / cells as real * 100.0)] else [];
    var rest := (if names != [] then [Variability(names)] else []) + General;
    assert items == head + rest;
    DataQualityIff(missing, cells);
    forall p | DataQuality(p) in items ensures DataQualityNeeded(missing, cells) {
      assert DataQuality(p) !in rest;
    }
    if DataQualityNeeded(missing, cells) {
      assert items[0] == DataQuality(missing as real / cells as real * 100.0);
    }
  }

  /** Some column is listed exactly when some column varies by more than 30 per cent. */
  lemma HighVariationNamesNonEmpty(numeric: seq<Column>)
    ensures HighVariationNames(numeric) == Names(Filter(numeric, HighVariationColumn))
    ensures HighVariationNames(numeric) != [] <==> exists c :: c in numeric && HighVariationColumn(c)
  {
    HighVariationNamesFilter(numeric);
    var listed := Filter(numeric, HighVariationColumn);
    if listed != [] {
      assert listed[0] in listed;
    }
  }

  /** The variability item appears exactly when some column varies by more
      than 30 per cent, and names exactly those columns, in order. */
  lemma VariabilityItem(missing: nat, cells: nat, numeric: seq<Column>)
    ensures (exists cs :: Variability(cs) in RecommendationsSpec(missing, cells, numeric)) <==>
      exists c :: c in numeric && HighVariationColumn(c)
    ensures forall cs :: Variability(cs) in RecommendationsSpec(missing, cells, numeric) ==>
      cs == Names(Filter(numeric, HighVariationColumn))
  {
    var items := RecommendationsSpec(missing, cells, numeric);
    var names := HighVariationNames(numeric);
    var head := if DataQualityNeeded(missing, cells) then [DataQuality(missing as real / cells as real * 100.0)] else [];
    var middle := if names != [] then [Variability(names)] else [];
    assert items == head + middle + General;
    HighVariationNamesNonEmpty(numeric);
    forall cs | Variability(cs) in items ensures cs == names {
      assert Variability(cs) !in head && Variability(cs) !in General;
    }
    if names != [] {
      assert items[|head|] == Variability(names);
    }
  }

  /** Every column listed as highly variable reads "High variation" in the
      insights; the converse fails exactly for a CV of 30 or NaN. */
  lemma ListedColumnsReadHigh(c: Column)
    requires HasValues(c)
    ensures HighVariationColumn(c) ==> VariationOf(Cv(c)) == HighVariation
    ensures VariationOf(Cv(c)) == HighVariation && !HighVariationColumn(c) <==> Cv(c) == None || Cv(c) == Some(30.0)
  {
  }
}
