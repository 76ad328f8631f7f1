/** The analytics dashboard (`web/src/components/AnalyticsDashboard.jsx`):
    the filter pipeline over the processed rows, the sorted equipment list,
    the chart series, the summary cards, the statistics memo's empty branch
    and the top-ten anomaly timeline at the slider's threshold. */
module Dashboard {
  import opened Wrappers
  import opened Seqs
  import opened Text
  import opened Statistics
  import opened ZScore

  /** The dropdowns' "no selection" value. */
  const All: string := "all"

  /** `parameterList`. */
  const Parameters: seq<string> := ["flowrate", "pressure", "temperature"]

  /** `useState(2)` for the anomaly threshold. */
  const InitialThreshold: real := 2.0

  predicate MatchesEquipment(d: Row, equipment: string)
  {
    equipment == All || d.equipment == equipment
  }

  predicate HasParameter(d: Row, parameter: string)
  {
    parameter == All || parameter in d.readings
  }

  /** An empty search term keeps everything (it is falsy). */
  predicate MatchesSearch(d: Row, term: string)
  {
    term == "" || Contains(Lower(d.equipment), Lower(term))
  }

  predicate Shown(d: Row, equipment: string, parameter: string, term: string)
  {
    MatchesEquipment(d, equipment) && HasParameter(d, parameter) && MatchesSearch(d, term)
  }

  function ShownBy(equipment: string, parameter: string, term: string): Row -> bool
  {
    d => Shown(d, equipment, parameter, term)
  }

  function EquipmentIs(equipment: string): Row -> bool
  {
    (d: Row) => d.equipment == equipment
  }

  function Defines(parameter: string): Row -> bool
  {
    (d: Row) => parameter in d.readings
  }

  function SearchHits(term: string): Row -> bool
  {
    (d: Row) => Contains(Lower(d.equipment), Lower(term))
  }

  function FirstStage(equipment: string): Row -> bool
  {
    d => MatchesEquipment(d, equipment)
  }

  function SecondStage(equipment: string, parameter: string): Row -> bool
  {
    d => MatchesEquipment(d, equipment) && HasParameter(d, parameter)
  }

  /** The `filteredData` memo: three optional `filter` passes, one after the other. */
  method FilterData(realData: seq<Row>, equipment: string, parameter: string, term: string) returns (filtered: seq<Row>)
    ensures filtered == Filter(realData, ShownBy(equipment, parameter, term))
  {
    filtered := realData;
    if equipment != All {
      filtered := Filter(filtered, EquipmentIs(equipment));
      FilterSame(realData, EquipmentIs(equipment), FirstStage(equipment));
    } else {
      FilterAll(realData, FirstStage(equipment));
    }
    assert filtered == Filter(realData, FirstStage(equipment));
    if parameter != All {
      filtered := Filter(filtered, Defines(parameter));
      FilterTwiceBy(realData, FirstStage(equipment), Defines(parameter), SecondStage(equipment, parameter));
    } else {
      FilterSame(realData, FirstStage(equipment), SecondStage(equipment, parameter));
    }
    assert filtered == Filter(realData, SecondStage(equipment, parameter));
    if term != "" {
      filtered := Filter(filtered, SearchHits(term));
      FilterTwiceBy(realData, SecondStage(equipment, parameter), SearchHits(term), ShownBy(equipment, parameter, term));
    } else {
      FilterSame(realData, SecondStage(equipment, parameter), ShownBy(equipment, parameter, term));
    }
  }

  /** The filtered rows are a subsequence of the data, each kept row has the
      selected equipment and parameter and matches the search, every such
      row is kept, and with no selection and no search everything is. */
  lemma FilteredDataFacts(realData: seq<Row>, equipment: string, parameter: string, term: string)
    ensures IsSubseq(Filter(realData, ShownBy(equipment, parameter, term)), realData)
    ensures forall d :: d in Filter(realData, ShownBy(equipment, parameter, term)) <==>
      d in realData && Shown(d, equipment, parameter, term)
    ensures equipment == All && parameter == All && term == "" ==>
      Filter(realData, ShownBy(equipment, parameter, term)) == realData
  {
    FilterIsSubseq(realData, ShownBy(equipment, parameter, term));
    if equipment == All && parameter == All && term == "" {
      FilterAll(realData, ShownBy(equipment, parameter, term));
    }
  }

  lemma LexLeIsTotalPreorder()
    ensures TotalPreorder(LexLe)
  {
    forall a, b ensures LexLe(a, b) || LexLe(b, a) {
      LexLeTotal(a, b);
    }
    forall a, b, c | LexLe(a, b) && LexLe(b, c) ensures LexLe(a, c) {
      LexLeTransitive(a, b, c);
    }
  }

  function EquipmentOf(realData: seq<Row>): (names: seq<string>)
    ensures |names| == |realData|
    ensures forall i :: 0 <= i < |realData| ==> names[i] == realData[i].equipment
  {
    seq(|realData|, i requires 0 <= i < |realData| => realData[i].equipment)
  }

  /** The `equipmentList` memo: the distinct equipment names, sorted. */
  function EquipmentList(realData: seq<Row>): seq<string>
  {
    if |realData| == 0 then []
    else
      LexLeIsTotalPreorder();
      SortBy(Distinct(EquipmentOf(realData)), LexLe)
  }

  /** The equipment list names each row's equipment exactly once, in
      strictly ascending order, and is empty exactly for empty data. */
  lemma EquipmentListFacts(realData: seq<Row>)
    ensures forall e :: e in EquipmentList(realData) <==> exists i :: 0 <= i < |realData| && realData[i].equipment == e
    ensures NoDuplicates(EquipmentList(realData))
    ensures forall i, j :: 0 <= i < j < |EquipmentList(realData)| ==>
      LexLe(EquipmentList(realData)[i], EquipmentList(realData)[j]) && EquipmentList(realData)[i] != EquipmentList(realData)[j]
    ensures EquipmentList(realData) == [] <==> realData == []
  {
    if |realData| > 0 {
      LexLeIsTotalPreorder();
      var names := EquipmentOf(realData);
      var distinct := Distinct(names);
      var list := EquipmentList(realData);
      PermutationNoDuplicates(list, distinct);
      forall e ensures e in list <==> exists i :: 0 <= i < |realData| && realData[i].equipment == e {
        assert e in list <==> e in multiset(distinct);
        if e in names {
          var i :| 0 <= i < |names| && names[i] == e;
          assert realData[i].equipment == e;
        }
      }
      assert realData[0].equipment in list;
    }
  }

  /** `filteredData.find(item => item.equipment === eq && item.timestamp === ts)`. */
  function FindRow(rows: seq<Row>, equipment: string, timestamp: int): (r: Option<Row>)
    ensures r.Some? ==> exists i :: (0 <= i < |rows| && rows[i] == r.value &&
      (forall j :: 0 <= j < i ==> !(rows[j].equipment == equipment && rows[j].timestamp == timestamp)))
    ensures r.Some? ==> r.value.equipment == equipment && r.value.timestamp == timestamp
    ensures r.None? <==> forall i :: 0 <= i < |rows| ==> !(rows[i].equipment == equipment && rows[i].timestamp == timestamp)
  {
    if rows == [] then None
    else if rows[0].equipment == equipment && rows[0].timestamp == timestamp then Some(rows[0])
    else
      var r := FindRow(rows[1..], equipment, timestamp);
      assert forall i :: 1 <= i < |rows| ==> rows[i] == rows[1..][i - 1];
      if r.Some? then
        assert exists i :: (0 <= i < |rows| && rows[i] == r.value &&
          (forall j :: 0 <= j < i ==> !(rows[j].equipment == equipment && rows[j].timestamp == timestamp))) by {
          var k :| 0 <= k < |rows[1..]| && rows[1..][k] == r.value &&
            (forall j :: 0 <= j < k ==> !(rows[1..][j].equipment == equipment && rows[1..][j].timestamp == timestamp));
          assert rows[k + 1] == r.value;
          forall j | 0 <= j < k + 1 ensures !(rows[j].equipment == equipment && rows[j].timestamp == timestamp) {
            if j > 0 {
              assert rows[j] == rows[1..][j - 1];
            }
          }
        }
        r
      else r
  }

  /** The parameter charted: the selected one, or flow rate for "all". */
  function ChartKey(parameter: string): string
  {
    if parameter == All then "flowrate" else parameter
  }

  /** A chart cell: `null`, `undefined`, or a reading. */
  datatype ChartValue = NullCell | Undefined | Reading(x: real)

  /** One chart cell: the charted value of the first row of that equipment
      at that time; `null` when there is no such row, `undefined` when the
      row found lacks the value. */
  function ChartCell(filtered: seq<Row>, equipment: string, timestamp: int, key: string): ChartValue
  {
    match FindRow(filtered, equipment, timestamp)
    case None => NullCell
    case Some(row) => if key in row.readings then Reading(row.readings[key]) else Undefined
  }

  datatype ChartPoint = ChartPoint(timestamp: int, values: map<string, ChartValue>)

  /** The `chartData` memo: one point per row among the last 50 filtered rows,
      with one cell per listed equipment. */
  function ChartData(filtered: seq<Row>, equipmentList: seq<string>, parameter: string): seq<ChartPoint>
  {
    var window := LastN(filtered, 50);
    seq(|window|, i requires 0 <= i < |window| =>
      ChartPoint(window[i].timestamp,
                 map e | e in equipmentList :: ChartCell(filtered, e, window[i].timestamp, ChartKey(parameter))))
  }

  /** The chart has at most 50 points, one per row of the last 50 filtered
      rows, in order, each with a cell for every listed equipment. */
  lemma ChartDataShape(filtered: seq<Row>, equipmentList: seq<string>, parameter: string)
    ensures var chart := ChartData(filtered, equipmentList, parameter);
      && |chart| == Min(50, |filtered|)
      && (forall i :: 0 <= i < |chart| ==> chart[i].timestamp == filtered[|filtered| - |chart| + i].timestamp)
      && (forall i, e :: 0 <= i < |chart| ==> (e in chart[i].values <==> e in equipmentList))
  {
  }

  /** When no two filtered rows share a timestamp, the cell of a row's own
      equipment holds that row's charted value. */
  lemma ChartCellOwnRow(filtered: seq<Row>, k: nat, key: string)
    requires k < |filtered|
    requires forall i, j :: 0 <= i < j < |filtered| ==> filtered[i].timestamp != filtered[j].timestamp
    ensures ChartCell(filtered, filtered[k].equipment, filtered[k].timestamp, key) ==
      if key in filtered[k].readings then Reading(filtered[k].readings[key]) else Undefined
  {
    var row := filtered[k];
    var found := FindRow(filtered, row.equipment, row.timestamp);
    assert found.Some?;
    var a :| 0 <= a < |filtered| && filtered[a] == found.value &&
      (forall j :: 0 <= j < a ==> !(filtered[j].equipment == row.equipment && filtered[j].timestamp == row.timestamp));
    assert a == k;
  }

  /** `Math.abs((value - 60) / 10) > anomalyThreshold`: a fixed baseline of
      60 and deviation of 10, stated on the square of the score. */
  predicate BaselineAlert(v: real, t: real)
  {
    ZAbove((v - 60.0) * (v - 60.0) / 100.0, t)
  }

  function Abs(x: real): real
  {
    if x < 0.0 then -x else x
  }

  /** The baseline test is "more than `10 t` away from 60". */
  lemma BaselineAlertIff(v: real, t: real)
    ensures BaselineAlert(v, t) <==> Abs(v - 60.0) > 10.0 * t
  {
    var z := Abs(v - 60.0) / 10.0;
    assert z * z == (v - 60.0) * (v - 60.0) / 100.0;
    ZAboveIff(z, t);
  }

  /** Some parameter of the row raises a baseline alert. */
  predicate RowAlerts(d: Row, t: real)
  {
    exists k :: k in Parameters && k in d.readings && BaselineAlert(d.readings[k], t)
  }

  function AlertsAt(t: real): Row -> bool
  {
    d => RowAlerts(d, t)
  }

  /** The "Active Alerts" card: the rows with a baseline alert. */
  function ActiveAlerts(filtered: seq<Row>, t: real): (n: nat)
    ensures n <= |filtered|
  {
    |Filter(filtered, AlertsAt(t))|
  }

  /** The "System Health" card, as a percentage before formatting. */
  function SystemHealth(filtered: seq<Row>, t: real): real
  {
    if |filtered| == 0 then 100.0
    else
      var h := 100.0 - ActiveAlerts(filtered, t) as real / |filtered| as real * 100.0;
      if h < 0.0 then 0.0 else h
  }

  /** Health lies between 0 and 100, is 100 exactly when no row alerts, and
      the clamp at zero never bites because alerts never exceed rows. */
  lemma SystemHealthFacts(filtered: seq<Row>, t: real)
    ensures 0.0 <= SystemHealth(filtered, t) <= 100.0
    ensures SystemHealth(filtered, t) == 100.0 <==> ActiveAlerts(filtered, t) == 0
    ensures |filtered| > 0 ==>
      SystemHealth(filtered, t) == 100.0 - ActiveAlerts(filtered, t) as real / |filtered| as real * 100.0
  {
    if |filtered| > 0 {
      var a := ActiveAlerts(filtered, t) as real;
      var n := |filtered| as real;
      DivBounds(0.0, a, 1.0, n);
      if a > 0.0 {
        assert a / n > 0.0;
      }
    } else {
      assert ActiveAlerts(filtered, t) == 0;
    }
  }

  /** Raising the threshold never raises the alert count. */
  lemma ActiveAlertsAntitone(filtered: seq<Row>, t1: real, t2: real)
    requires t1 <= t2
    ensures ActiveAlerts(filtered, t2) <= ActiveAlerts(filtered, t1)
  {
    forall d | RowAlerts(d, t2) ensures RowAlerts(d, t1) {
      RowAlertsAntitone(d, t1, t2);
    }
    FilterWeaker(filtered, AlertsAt(t2), AlertsAt(t1));
    SubseqLength(Filter(filtered, AlertsAt(t2)), Filter(filtered, AlertsAt(t1)));
  }

  /** A row alerting at a higher threshold alerts at a lower one. */
  lemma RowAlertsAntitone(d: Row, t1: real, t2: real)
    requires t1 <= t2 && RowAlerts(d, t2)
    ensures RowAlerts(d, t1)
  {
    var k :| k in Parameters && k in d.readings && BaselineAlert(d.readings[k], t2);
    ZAboveAntitone((d.readings[k] - 60.0) * (d.readings[k] - 60.0) / 100.0, t1, t2);
  }

  /** The values of the four summary cards. */
  datatype StatsCards = StatsCards(totalEquipment: nat, equipmentChange: string, activeAlerts: nat,
                                   dataPoints: nat, systemHealth: real)

  function StatsCardsOf(realData: seq<Row>, filtered: seq<Row>, t: real): StatsCards
  {
    var equipment := EquipmentList(realData);
    StatsCards(|equipment|, if |equipment| > 0 then "+2" else "0", ActiveAlerts(filtered, t), |filtered|,
               SystemHealth(filtered, t))
  }

  /** Alerts never exceed the data points shown beside them, and the
      equipment total counts the distinct equipment names. */
  lemma StatsCardsFacts(realData: seq<Row>, filtered: seq<Row>, t: real)
    ensures var cards := StatsCardsOf(realData, filtered, t);
      && cards.activeAlerts <= cards.dataPoints
      && cards.totalEquipment == |Distinct(EquipmentOf(realData))|
      && (cards.totalEquipment == 0 <==> realData == [])
      && 0.0 <= cards.systemHealth <= 100.0
  {
    EquipmentListFacts(realData);
    SystemHealthFacts(filtered, t);
  }

  /** The record of the `statistics` memo. */
  datatype DashboardStatistics = DashboardStatistics(anomalyRate: real, totalAnomalies: nat, totalReadings: nat,
                                                     equipmentRisk: map<string, real>)

  /** The `statistics` memo as written: the all-zero record for empty data,
      and `undefined` (`None`) otherwise, since its non-empty branch only
      declares a helper and returns nothing. */
  function StatisticsMemo(realData: seq<Row>): (r: Option<DashboardStatistics>)
    ensures r.Some? <==> realData == []
    ensures r.Some? ==> r.value.totalAnomalies == 0 && r.value.totalReadings == 0 && r.value.equipmentRisk == map[]
  {
    if |realData| == 0 then Some(DashboardStatistics(0.0, 0, 0, map[])) else None
  }

  /** The ten newest of some anomalies, newest first. */
  function NewestTen(found: seq<Anomaly>): seq<Anomaly>
  {
    NewerOrSameIsTotalPreorder();
    Take(SortBy(found, NewerOrSame), 10)
  }

  /** The timeline: the anomalies of the filtered rows at the slider's
      threshold, newest first, the first ten. */
  function TimelineSpec(filtered: seq<Row>, t: real): seq<Anomaly>
  {
    NewestTen(CollectSpec(filtered, Parameters, t))
  }

  /** The anomaly-timeline block: push every flagged pair, sort, keep ten. */
  method AnomalyTimeline(filtered: seq<Row>, t: real) returns (shown: seq<Anomaly>)
    ensures shown == TimelineSpec(filtered, t)
  {
    var found := Collect(filtered, Parameters, t);
    NewerOrSameIsTotalPreorder();
    var sorted := SortBy(found, NewerOrSame);
    shown := Take(sorted, 10);
  }

  /** At most ten, newest first, none older than one left out, all of them
      when there are ten or fewer. */
  lemma NewestTenFacts(found: seq<Anomaly>)
    ensures |NewestTen(found)| <= 10
    ensures SortedBy(NewestTen(found), NewerOrSame)
    ensures forall a :: a in NewestTen(found) ==> a in found
    ensures forall a, b :: a in NewestTen(found) && b in found && b !in NewestTen(found) ==> a.timestamp >= b.timestamp
    ensures |found| <= 10 ==> multiset(NewestTen(found)) == multiset(found)
  {
    NewerOrSameIsTotalPreorder();
    SortedTakeFacts(found, NewerOrSame, 10);
  }

  /** At most ten entries, newest first, none older than an anomaly left
      out; all anomalies appear when there are ten or fewer. */
  lemma TimelineOrder(filtered: seq<Row>, t: real)
    ensures |TimelineSpec(filtered, t)| <= 10
    ensures SortedBy(TimelineSpec(filtered, t), NewerOrSame)
    ensures forall a, b ::
      a in TimelineSpec(filtered, t) && b in CollectSpec(filtered, Parameters, t) && b !in TimelineSpec(filtered, t)
      ==> a.timestamp >= b.timestamp
    ensures |CollectSpec(filtered, Parameters, t)| <= 10 ==>
      multiset(TimelineSpec(filtered, t)) == multiset(CollectSpec(filtered, Parameters, t))
  {
    NewestTenFacts(CollectSpec(filtered, Parameters, t));
  }

  /** Each entry is a flagged (row, parameter) pair of the filtered rows whose
      z-score exceeds the threshold; the badge reads HIGH exactly when the
      z-score exceeds three. */
  lemma TimelineEntries(filtered: seq<Row>, t: real, a: Anomaly)
    requires a in TimelineSpec(filtered, t)
    ensures a.parameter in Parameters && a in AnomaliesFor(filtered, a.parameter, t)
    ensures a.index < |filtered| && ZAbove(a.zSquared, t)
    ensures a.severity == High <==> a.zSquared > 9.0
  {
    NewestTenFacts(CollectSpec(filtered, Parameters, t));
    CollectedAnomaliesWellFormed(filtered, Parameters, t);
    CollectMembers(filtered, Parameters, t, a);
  }
}
