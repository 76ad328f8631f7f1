/** The web analytics service (`web/src/services/analyticsService.js`): the
    normalisation of uploaded rows, per-parameter statistics, z-score anomalies
    at the fixed threshold 2 sorted newest first, two-window trends, and the
    real-time alert filter. */
module AnalyticsService {
  import opened Wrappers
  import opened Seqs
  import opened Text
  import opened Statistics
  import opened ZScore

  /** A cell of an uploaded row as the JSON API delivers it. */
  datatype Cell = Null | Num(x: real) | Str(s: string)

  /** An uploaded row: column name to cell; a missing key is `undefined`. */
  type RawRow = map<string, Cell>

  /** `row.Type || 'Unknown'`: a non-empty textual `Type` names the
      equipment, a missing, null or empty one gives "Unknown". A label is
      text here, so a numeric `Type` also gives "Unknown". */
  function EquipmentLabel(row: RawRow): (name: string)
    ensures name != ""
    ensures name == "Unknown" || ("Type" in row && row["Type"] == Str(name))
    ensures "Type" in row && row["Type"].Str? && row["Type"].s != "" ==> name == row["Type"].s
    ensures "Type" !in row || row["Type"] == Null || row["Type"] == Str("") ==> name == "Unknown"
  {
    if "Type" in row && row["Type"].Str? && row["Type"].s != "" then row["Type"].s else "Unknown"
  }

  function Labels(rows: seq<RawRow>): (labels: seq<string>)
    ensures |labels| == |rows|
    ensures forall i :: 0 <= i < |rows| ==> labels[i] == EquipmentLabel(rows[i])
  {
    seq(|rows|, i requires 0 <= i < |rows| => EquipmentLabel(rows[i]))
  }

  /** `[...new Set(rows.map(row => row.Type || 'Unknown'))]`. */
  function EquipmentTypes(rows: seq<RawRow>): seq<string>
  {
    Distinct(Labels(rows))
  }

  /** The equipment list names every label once, in order of first appearance. */
  lemma EquipmentTypesFacts(rows: seq<RawRow>)
    ensures NoDuplicates(EquipmentTypes(rows))
    ensures forall x :: x in EquipmentTypes(rows) <==> exists i :: 0 <= i < |rows| && EquipmentLabel(rows[i]) == x
    ensures forall i, j :: 0 <= i < j < |EquipmentTypes(rows)| ==>
      FirstIndex(Labels(rows), EquipmentTypes(rows)[i]) < FirstIndex(Labels(rows), EquipmentTypes(rows)[j])
  {
    var labels := Labels(rows);
    DistinctFirstOccurrenceOrder(labels);
    forall x ensures x in labels <==> exists i :: 0 <= i < |rows| && EquipmentLabel(rows[i]) == x {
      if x in labels {
        var i :| 0 <= i < |labels| && labels[i] == x;
        assert EquipmentLabel(rows[i]) == x;
      }
    }
  }

  /** The parameter columns the service looks for, in this order. */
  const ParameterNames: seq<string> := ["Flowrate", "Pressure", "Temperature"]

  /** `row[param] !== undefined && row[param] !== null`. */
  predicate Present(row: RawRow, param: string)
  {
    param in row && row[param] != Null
  }

  predicate AnyRowHas(rows: seq<RawRow>, param: string)
  {
    exists i :: 0 <= i < |rows| && Present(rows[i], param)
  }

  /** The parameter names that some row carries, in their fixed order. */
  function PresentParameters(rows: seq<RawRow>): (params: seq<string>)
    ensures forall p :: p in params <==> p in ParameterNames && AnyRowHas(rows, p)
  {
    Filter(ParameterNames, p => AnyRowHas(rows, p))
  }

  /** The present parameters keep the fixed order of the three names. */
  lemma PresentParametersOrder(rows: seq<RawRow>)
    ensures IsSubseq(PresentParameters(rows), ParameterNames)
  {
    FilterIsSubseq(ParameterNames, p => AnyRowHas(rows, p));
  }

  /** The number of leading decimal digits of `s`. */
  function DigitRun(s: string): (k: nat)
    ensures k <= |s|
    ensures forall i :: 0 <= i < k ==> '0' <= s[i] <= '9'
    ensures k < |s| ==> !('0' <= s[k] <= '9')
  {
    if s != [] && '0' <= s[0] <= '9' then
      var k := 1 + DigitRun(s[1..]);
      assert forall i :: 1 <= i < k ==> s[i] == s[1..][i - 1];
      k
    else 0
  }

  function Pow10(n: nat): (r: real)
    ensures r > 0.0
  {
    if n == 0 then 1.0 else 10.0 * Pow10(n - 1)
  }

  /** An unsigned decimal prefix: digits, optionally a point and more digits,
      with at least one digit in all. */
  function ParseUnsigned(s: string): Option<real>
  {
    var k := DigitRun(s);
    var whole := ParseDigits(s[..k]) as real;
    if k < |s| && s[k] == '.' then
      var fraction := s[k + 1..];
      var f := DigitRun(fraction);
      if k + f == 0 then None else Some(whole + ParseDigits(fraction[..f]) as real / Pow10(f))
    else if k == 0 then None
    else Some(whole)
  }

  /** `parseFloat` on a string: an optionally signed decimal prefix; whatever
      follows it is ignored, and no such prefix gives `NaN` (here `None`). */
  function ParseDecimal(s: string): Option<real>
  {
    if |s| > 0 && s[0] == '-' then
      match ParseUnsigned(s[1..])
      case Some(x) => Some(-x)
      case None => None
    else if |s| > 0 && s[0] == '+' then ParseUnsigned(s[1..])
    else ParseUnsigned(s)
  }

  /** `parseFloat(row[param])`, with `None` for `NaN`. */
  function ParseFloat(row: RawRow, param: string): Option<real>
  {
    if param !in row then None
    else
      match row[param]
      case Null => None
      case Num(x) => Some(x)
      case Str(s) => ParseDecimal(s)
  }

  lemma {:induction false} DigitRunOfDigits(d: string, suffix: string)
    requires forall i :: 0 <= i < |d| ==> '0' <= d[i] <= '9'
    requires suffix == [] || !('0' <= suffix[0] <= '9')
    ensures DigitRun(d + suffix) == |d|
  {
    if d != [] {
      assert (d + suffix)[1..] == d[1..] + suffix;
      DigitRunOfDigits(d[1..], suffix);
    } else {
      assert d + suffix == suffix;
    }
  }

  lemma ParseUnsignedWholeNumber(n: nat, suffix: string)
    requires suffix == [] || !('0' <= suffix[0] <= '9' || suffix[0] == '.')
    ensures ParseUnsigned(NatToString(n) + suffix) == Some(n as real)
  {
    var d := NatToString(n);
    var s := d + suffix;
    DigitRunOfDigits(d, suffix);
    var k := DigitRun(s);
    assert s[..k] == d;
    NatToStringRoundTrip(n);
    assert k < |s| ==> s[k] == suffix[0];
  }

  /** The decimal rendering of a whole number, with or without a minus sign
      and followed by anything that does not continue the number, parses
      back to that number; in particular zero is a number and is kept. */
  lemma ParseDecimalReadsWholeNumber(n: nat, suffix: string)
    requires suffix == [] || !('0' <= suffix[0] <= '9' || suffix[0] == '.')
    ensures ParseDecimal(NatToString(n) + suffix) == Some(n as real)
    ensures ParseDecimal("-" + NatToString(n) + suffix) == Some(-(n as real))
  {
    var d := NatToString(n);
    var s := d + suffix;
    ParseUnsignedWholeNumber(n, suffix);
    SignFree(s);
    var negative := "-" + d + suffix;
    assert negative == "-" + s && negative[1..] == s;
    Negated(negative);
  }

  lemma SignFree(s: string)
    requires s != [] && '0' <= s[0] <= '9'
    ensures ParseDecimal(s) == ParseUnsigned(s)
  {
  }

  lemma Negated(s: string)
    requires s != [] && s[0] == '-'
    ensures ParseDecimal(s) == if ParseUnsigned(s[1..]).Some? then Some(-ParseUnsigned(s[1..]).value) else None
  {
  }

  /** The readings of one row: for each parameter whose value parses, the
      value under the lower-case name (a later parameter overwrites). */
  function ReadingsOf(row: RawRow, params: seq<string>): (r: map<string, real>)
    ensures forall k :: k in r <==> exists p :: p in params && Lower(p) == k && ParseFloat(row, p).Some?
    ensures forall k :: k in r ==> exists p :: p in params && Lower(p) == k && ParseFloat(row, p) == Some(r[k])
  {
    if params == [] then map[]
    else
      var init := params[..|params| - 1];
      var p := params[|params| - 1];
      assert params == init + [p];
      var m := ReadingsOf(row, init);
      match ParseFloat(row, p)
      case Some(v) => m[Lower(p) := v]
      case None => m
  }

  /** The record for row `i` of `n`, stamped one minute apart so that the last
      row is one minute before `now`. */
  function NormalizeRow(row: RawRow, i: nat, n: nat, params: seq<string>, now: int): Row
  {
    Row(now - (n - i) * 60000, EquipmentLabel(row), i, ReadingsOf(row, params))
  }

  function NormalizeRows(rows: seq<RawRow>, params: seq<string>, now: int): seq<Row>
  {
    seq(|rows|, i requires 0 <= i < |rows| => NormalizeRow(rows[i], i, |rows|, params, now))
  }

  /** One record per row, in input order, indexed by position, labelled by
      `Type`, stamped strictly increasing and before `now`. */
  lemma NormalizedShape(rows: seq<RawRow>, params: seq<string>, now: int)
    ensures var data := NormalizeRows(rows, params, now);
      && |data| == |rows|
      && (forall i :: 0 <= i < |data| ==> data[i].index == i && data[i].equipment == EquipmentLabel(rows[i]))
      && (forall i :: 0 <= i < |data| ==> data[i].timestamp <= now - 60000)
      && (forall i, j :: 0 <= i < j < |data| ==> data[i].timestamp < data[j].timestamp)
  {
    var data := NormalizeRows(rows, params, now);
    forall i, j | 0 <= i < j < |data|
      ensures data[i].timestamp < data[j].timestamp
    {
      assert data[i].timestamp == now - (|rows| - i) * 60000;
      assert data[j].timestamp == now - (|rows| - j) * 60000;
    }
  }

  /** `param.toLowerCase()` for every parameter. */
  function LowerAll(params: seq<string>): (keys: seq<string>)
    ensures |keys| == |params|
    ensures forall i :: 0 <= i < |params| ==> keys[i] == Lower(params[i])
  {
    seq(|params|, i requires 0 <= i < |params| => Lower(params[i]))
  }

  lemma LowerAllSnoc(params: seq<string>)
    requires params != []
    ensures LowerAll(params) == LowerAll(params[..|params| - 1]) + [Lower(params[|params| - 1])]
  {
  }

  /** The number of records that carry `key`. */
  function CountCarrying(data: seq<Row>, key: string): nat
  {
    |Filter(data, (r: Row) => key in r.readings)|
  }

  /** The values of a parameter are as many as the records that carry it. */
  lemma {:induction false} ValuesOfCount(data: seq<Row>, key: string)
    ensures |ValuesOf(data, key)| == CountCarrying(data, key)
  {
    if data != [] {
      var init := data[..|data| - 1];
      var last := data[|data| - 1];
      assert data == init + [last];
      ValuesOfCount(init, key);
      FilterConcat(init, [last], (r: Row) => key in r.readings);
      assert [last][1..] == [];
    }
  }

  /** The statistics record of one parameter, before rounding to two places;
      the variance is kept in place of its square root. */
  datatype ParamStats = ParamStats(mean: real, variance: real, min: real, max: real, count: nat)

  function StatsOf(values: seq<real>): ParamStats
    requires |values| > 0
  {
    ParamStats(Mean(values), Variance(values), Minimum(values), Maximum(values), |values|)
  }

  /** The statistics map built by the `forEach` over the first parameters. */
  function StatisticsSpec(data: seq<Row>, params: seq<string>): map<string, ParamStats>
  {
    if params == [] then map[]
    else
      var stats := StatisticsSpec(data, params[..|params| - 1]);
      var key := Lower(params[|params| - 1]);
      var values := ValuesOf(data, key);
      if |values| > 0 then stats[key := StatsOf(values)] else stats
  }

  /** `calculateRealStatistics`. */
  method CalculateRealStatistics(data: seq<Row>, params: seq<string>) returns (stats: map<string, ParamStats>)
    ensures stats == StatisticsSpec(data, params)
  {
    stats := map[];
    for i := 0 to |params|
      invariant stats == StatisticsSpec(data, params[..i])
    {
      assert params[..i + 1][..i] == params[..i];
      var key := Lower(params[i]);
      var values := ValuesOf(data, key);
      if |values| > 0 {
        stats := stats[key := StatsOf(values)];
      }
    }
    assert params[..|params|] == params;
  }

  /** A statistics entry exists exactly for the lower-case parameter names
      that some record carries, and it describes all of that parameter's values. */
  lemma {:induction false} StatisticsEntries(data: seq<Row>, params: seq<string>)
    ensures forall k :: k in StatisticsSpec(data, params) <==> k in LowerAll(params) && |ValuesOf(data, k)| > 0
    ensures forall k :: k in StatisticsSpec(data, params) ==> StatisticsSpec(data, params)[k] == StatsOf(ValuesOf(data, k))
  {
    if params != [] {
      StatisticsEntries(data, params[..|params| - 1]);
      LowerAllSnoc(params);
    }
  }

  /** Each entry counts the records that carry the parameter (at most one per
      row), and its mean lies between its minimum and maximum. */
  lemma StatisticsBounds(data: seq<Row>, params: seq<string>, k: string)
    requires k in StatisticsSpec(data, params)
    ensures var st := StatisticsSpec(data, params)[k];
      && 0 < st.count == CountCarrying(data, k) <= |data|
      && st.min <= st.mean <= st.max
      && st.variance >= 0.0
  {
    StatisticsEntries(data, params);
    var values := ValuesOf(data, k);
    ValuesOfCount(data, k);
    MeanBetweenExtremes(values);
  }

  /** The service's fixed z-score threshold. */
  const Threshold: real := 2.0

  /** The collected anomalies, newest first. */
  function DetectSpec(data: seq<Row>, params: seq<string>): seq<Anomaly>
  {
    NewerOrSameIsTotalPreorder();
    SortBy(CollectSpec(data, LowerAll(params), Threshold), NewerOrSame)
  }

  /** `detectRealAnomalies`: the `forEach` loops push every flagged pair, then
      the list is sorted by timestamp, newest first. */
  method DetectRealAnomalies(data: seq<Row>, params: seq<string>) returns (anomalies: seq<Anomaly>)
    ensures anomalies == DetectSpec(data, params)
  {
    var found := Collect(data, LowerAll(params), Threshold);
    NewerOrSameIsTotalPreorder();
    anomalies := SortBy(found, NewerOrSame);
  }

  /** The detected anomalies are newest first and are exactly the flagged
      (record, parameter) pairs: the value lies more than two population
      standard deviations from its parameter's mean; the severity is high
      exactly when it lies more than three. */
  lemma DetectedAnomalies(data: seq<Row>, params: seq<string>)
    ensures SortedBy(DetectSpec(data, params), NewerOrSame)
    ensures multiset(DetectSpec(data, params)) == multiset(CollectSpec(data, LowerAll(params), Threshold))
    ensures forall a :: a in DetectSpec(data, params) <==>
      a.parameter in LowerAll(params) && a in AnomaliesFor(data, a.parameter, Threshold)
    ensures forall a :: a in DetectSpec(data, params) ==>
      && a.index < |data|
      && ZAbove(a.zSquared, Threshold)
      && (a.severity == High <==> a.zSquared > 9.0)
  {
    var keys := LowerAll(params);
    var collected := CollectSpec(data, keys, Threshold);
    var sorted := DetectSpec(data, params);
    assert forall a :: a in sorted <==> a in collected by {
      forall a ensures a in sorted <==> a in collected {
        assert a in sorted <==> a in multiset(sorted);
        assert a in collected <==> a in multiset(collected);
      }
    }
    forall a ensures a in collected <==> a.parameter in keys && a in AnomaliesFor(data, a.parameter, Threshold) {
      CollectMembers(data, keys, Threshold, a);
    }
    CollectedAnomaliesWellFormed(data, keys, Threshold);
  }

  /** A parameter whose records all read the same value raises no anomaly. */
  lemma ConstantParameterQuiet(data: seq<Row>, params: seq<string>, key: string, c: real)
    requires forall i :: 0 <= i < |data| && key in data[i].readings ==> data[i].readings[key] == c
    ensures forall a :: a in DetectSpec(data, params) ==> a.parameter != key
  {
    DetectedAnomalies(data, params);
    ConstantReadingsNoAnomalies(data, key, c, Threshold);
  }

  /** A trend change that may be infinite or `NaN`, as JavaScript division by
      a zero first-window mean produces. */
  datatype Ext = Finite(value: real) | PosInfinity | NegInfinity | NotANumber

  /** `((secondMean - firstMean) / firstMean) * 100`. */
  function PercentChange(first: real, second: real): Ext
  {
    if first != 0.0 then Finite((second - first) / first * 100.0)
    else if second > 0.0 then PosInfinity
    else if second < 0.0 then NegInfinity
    else NotANumber
  }

  /** `change > b`. */
  predicate Above(c: Ext, b: real)
  {
    (c.Finite? && c.value > b) || c.PosInfinity?
  }

  /** `change < b`. */
  predicate Below(c: Ext, b: real)
  {
    (c.Finite? && c.value < b) || c.NegInfinity?
  }

  /** `Math.abs(change) < 5`. */
  predicate IsStable(c: Ext)
  {
    c.Finite? && -5.0 < c.value < 5.0
  }

  datatype Direction = Increasing | Decreasing | Stable

  function DirectionOf(c: Ext): Direction
  {
    if Above(c, 5.0) then Increasing else if Below(c, -5.0) then Decreasing else Stable
  }

  /** One parameter's trend, before rounding; `variance` stands for the
      volatility, its square root. */
  datatype Trend = Trend(direction: Direction, change: Ext, variance: real, firstMean: real, secondMean: real,
                         isStable: bool, isVolatile: bool)

  function TrendOf(values: seq<real>): Trend
    requires |values| > 10
  {
    var h := |values| / 2;
    var first := Mean(values[..h]);
    var second := Mean(values[h..]);
    var change := PercentChange(first, second);
    Trend(DirectionOf(change), change, Variance(values), first, second,
          IsStable(change), ZAbove(Variance(values), Mean(values) * 0.1))
  }

  /** The two windows: the first `floor(n/2)` values and the rest, which
      together are all the values and whose sums add up to the whole sum. */
  lemma TrendWindows(values: seq<real>)
    requires |values| > 10
    ensures var h := |values| / 2;
      && values[..h] + values[h..] == values
      && |values[..h]| <= |values[h..]| <= |values[..h]| + 1
      && Sum(values[..h]) + Sum(values[h..]) == Sum(values)
  {
    var h := |values| / 2;
    assert values[..h] + values[h..] == values;
    SumAppend(values[..h], values[h..]);
  }

  /** The direction is increasing exactly when the second window's mean moves
      away from the first by more than 5% of it, upwards for a positive first
      mean and downwards for a negative one; after a zero first mean the
      change is infinite and any positive second mean counts. */
  lemma DirectionIncreasingIff(first: real, second: real)
    ensures DirectionOf(PercentChange(first, second)) == Increasing <==>
      || (first > 0.0 && second > first * 1.05)
      || (first < 0.0 && second < first * 1.05)
      || (first == 0.0 && second > 0.0)
  {
    if first != 0.0 {
      QuotientCompare(second - first, first, 0.05);
    }
  }

  /** Symmetrically, decreasing means a move of more than 5% the other way. */
  lemma DirectionDecreasingIff(first: real, second: real)
    ensures DirectionOf(PercentChange(first, second)) == Decreasing <==>
      || (first > 0.0 && second < first * 0.95)
      || (first < 0.0 && second > first * 0.95)
      || (first == 0.0 && second < 0.0)
  {
    if first != 0.0 {
      QuotientCompare(second - first, first, -0.05);
    }
  }

  /** A stable change is a stable direction; the converse fails at the band's
      edges (a change of exactly 5) and for `NaN` (both means zero). */
  lemma StableChangeIsStableDirection(c: Ext)
    ensures IsStable(c) ==> DirectionOf(c) == Stable
    ensures DirectionOf(Finite(5.0)) == Stable && !IsStable(Finite(5.0))
    ensures DirectionOf(PercentChange(0.0, 0.0)) == Stable && !IsStable(PercentChange(0.0, 0.0))
  {
  }

  /** `isVolatile` is the test "volatility exceeds a tenth of the mean" on
      the standard deviation `std`. */
  lemma VolatileIff(values: seq<real>, std: real)
    requires |values| > 10
    requires std >= 0.0 && std * std == Variance(values)
    ensures TrendOf(values).isVolatile <==> std > Mean(values) * 0.1
  {
    ZAboveIff(std, Mean(values) * 0.1);
  }

  /** A constant non-zero series is stable with zero change, and volatile only
      when negative (then a zero deviation already exceeds a negative tenth). */
  lemma ConstantTrend(values: seq<real>, c: real)
    requires |values| > 10 && c != 0.0
    requires forall i :: 0 <= i < |values| ==> values[i] == c
    ensures TrendOf(values).change == Finite(0.0)
    ensures TrendOf(values).direction == Stable && TrendOf(values).isStable
    ensures TrendOf(values).isVolatile <==> c < 0.0
  {
    var h := |values| / 2;
    ConstantStatistics(values[..h], c);
    ConstantStatistics(values[h..], c);
    ConstantStatistics(values, c);
    if c > 0.0 {
      SquareOfPositive(c * 0.1);
    } else {
      assert c * 0.1 < 0.0;
    }
  }

  /** The trends map built by the `forEach` over the first parameters. */
  function TrendsSpec(data: seq<Row>, params: seq<string>): map<string, Trend>
  {
    if params == [] then map[]
    else
      var trends := TrendsSpec(data, params[..|params| - 1]);
      var key := Lower(params[|params| - 1]);
      var values := ValuesOf(data, key);
      if |values| > 10 then trends[key := TrendOf(values)] else trends
  }

  /** `analyzeRealTrends`. */
  method AnalyzeRealTrends(data: seq<Row>, params: seq<string>) returns (trends: map<string, Trend>)
    ensures trends == TrendsSpec(data, params)
  {
    trends := map[];
    for i := 0 to |params|
      invariant trends == TrendsSpec(data, params[..i])
    {
      assert params[..i + 1][..i] == params[..i];
      var key := Lower(params[i]);
      var values := ValuesOf(data, key);
      if |values| > 10 {
        trends := trends[key := TrendOf(values)];
      }
    }
    assert params[..|params|] == params;
  }

  /** A trend exists exactly for the parameters with more than ten values. */
  lemma {:induction false} TrendEntries(data: seq<Row>, params: seq<string>)
    ensures forall k :: k in TrendsSpec(data, params) <==> k in LowerAll(params) && |ValuesOf(data, k)| > 10
    ensures forall k :: k in TrendsSpec(data, params) ==> TrendsSpec(data, params)[k] == TrendOf(ValuesOf(data, k))
  {
    if params != [] {
      TrendEntries(data, params[..|params| - 1]);
      LowerAllSnoc(params);
    }
  }

  /** The result of `processRealData` (the pass-through `summary` is omitted). */
  datatype Analysis = Analysis(equipment: seq<string>, parameters: seq<string>, data: seq<Row>,
                               statistics: map<string, ParamStats>, anomalies: seq<Anomaly>,
                               trends: map<string, Trend>)

  function AnalysisOf(rows: Option<seq<RawRow>>, now: int): Analysis
  {
    if rows.None? || |rows.value| == 0 then Analysis([], [], [], map[], [], map[])
    else
      var params := PresentParameters(rows.value);
      var data := NormalizeRows(rows.value, params, now);
      Analysis(EquipmentTypes(rows.value), params, data, StatisticsSpec(data, params),
               DetectSpec(data, params), TrendsSpec(data, params))
  }

  /** `processRealData(rows, summary)` at time `now`. */
  method ProcessRealData(rows: Option<seq<RawRow>>, now: int) returns (r: Analysis)
    ensures r == AnalysisOf(rows, now)
  {
    if rows.None? || |rows.value| == 0 {
      return Analysis([], [], [], map[], [], map[]);
    }
    var params := PresentParameters(rows.value);
    var data := NormalizeRows(rows.value, params, now);
    var statistics := CalculateRealStatistics(data, params);
    var anomalies := DetectRealAnomalies(data, params);
    var trends := AnalyzeRealTrends(data, params);
    r := Analysis(EquipmentTypes(rows.value), params, data, statistics, anomalies, trends);
  }

  /** A missing or empty upload yields an analysis with nothing in it. */
  lemma EmptyUploadAnalysis(rows: Option<seq<RawRow>>, now: int)
    requires rows.None? || rows.value == []
    ensures var r := AnalysisOf(rows, now);
      && r.equipment == [] && r.parameters == [] && r.data == [] && r.anomalies == []
      && r.statistics == map[] && r.trends == map[]
  {
  }

  /** Every statistics key is the lower-case name of a present parameter,
      and no entry counts more values than there are rows. */
  lemma AnalysisStatisticsKeys(rows: seq<RawRow>, now: int, k: string)
    requires rows != []
    requires k in AnalysisOf(Some(rows), now).statistics
    ensures exists p :: p in PresentParameters(rows) && Lower(p) == k
    ensures AnalysisOf(Some(rows), now).statistics[k].count <= |rows|
  {
    var params := PresentParameters(rows);
    var data := NormalizeRows(rows, params, now);
    StatisticsEntries(data, params);
    StatisticsBounds(data, params, k);
    var i :| 0 <= i < |params| && LowerAll(params)[i] == k;
    assert params[i] in params;
  }

  /** The filter in `generateRealTimeAlerts`: the newest dataset's anomalies
      whose z-score exceeds `threshold`; `None` stands for no dataset or a
      failed request, both of which yield no alerts. */
  function GenerateRealTimeAlerts(latest: Option<seq<Anomaly>>, threshold: real): seq<Anomaly>
  {
    match latest
    case None => []
    case Some(anomalies) => Filter(anomalies, (a: Anomaly) => ZAbove(a.zSquared, threshold))
  }

  /** The alerts are the anomalies above the threshold, in their order. */
  lemma AlertsAreAnomaliesAbove(anomalies: seq<Anomaly>, threshold: real)
    ensures IsSubseq(GenerateRealTimeAlerts(Some(anomalies), threshold), anomalies)
    ensures forall a :: a in GenerateRealTimeAlerts(Some(anomalies), threshold) <==>
      a in anomalies && ZAbove(a.zSquared, threshold)
  {
    FilterIsSubseq(anomalies, (a: Anomaly) => ZAbove(a.zSquared, threshold));
  }

  /** Raising the threshold never adds an alert. */
  lemma AlertsThresholdAntitone(latest: Option<seq<Anomaly>>, t1: real, t2: real)
    requires t1 <= t2
    ensures IsSubseq(GenerateRealTimeAlerts(latest, t2), GenerateRealTimeAlerts(latest, t1))
  {
    match latest
    case None =>
      SubseqRefl<Anomaly>([]);
    case Some(anomalies) =>
      forall a: Anomaly | ZAbove(a.zSquared, t2)
        ensures ZAbove(a.zSquared, t1)
      {
        ZAboveAntitone(a.zSquared, t1, t2);
      }
      FilterWeaker(anomalies, (a: Anomaly) => ZAbove(a.zSquared, t2), (a: Anomaly) => ZAbove(a.zSquared, t1));
  }

  /** At a threshold of 2 or more, the alerts of an analysis are newest first
      and are exactly the anomalies a detection at that threshold collects. */
  lemma AlertsOfAnalysis(data: seq<Row>, params: seq<string>, t: real)
    requires t >= Threshold
    ensures SortedBy(GenerateRealTimeAlerts(Some(DetectSpec(data, params)), t), NewerOrSame)
    ensures multiset(GenerateRealTimeAlerts(Some(DetectSpec(data, params)), t)) ==
            multiset(CollectSpec(data, LowerAll(params), t))
  {
    var keys := LowerAll(params);
    var keep := (a: Anomaly) => ZAbove(a.zSquared, t);
    DetectedAnomalies(data, params);
    FilterSorted(DetectSpec(data, params), keep, NewerOrSame);
    FilterPermutation(DetectSpec(data, params), CollectSpec(data, keys, Threshold), keep);
    CollectThreshold(data, keys, Threshold, t);
  }
}
