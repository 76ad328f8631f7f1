/** Z-score anomaly detection over processed reading rows, shared by the
    analytics service (`detectRealAnomalies`) and the dashboard's anomaly
    timeline: for each parameter, the mean and population variance of the
    values present, then every row whose value lies more than `t` standard
    deviations from the mean, in row order, parameter after parameter. */
module ZScore {
  import opened Seqs
  import opened Statistics

  /** A processed row: synthetic timestamp (milliseconds), equipment label,
      position in the upload, and the numeric readings present, keyed by the
      lower-case parameter name. */
  datatype Row = Row(timestamp: int, equipment: string, index: nat, readings: map<string, real>)

  /** `data.map(d => d[key]).filter(v => v !== undefined)`. */
  function ValuesOf(data: seq<Row>, key: string): (vs: seq<real>)
    ensures |vs| <= |data|
  {
    if data == [] then []
    else
      var init := ValuesOf(data[..|data| - 1], key);
      var last := data[|data| - 1];
      if key in last.readings then init + [last.readings[key]] else init
  }

  /** One row carrying `key` is enough for the statistics to exist. */
  lemma {:induction false} ValuesOfNonEmpty(data: seq<Row>, key: string, i: nat)
    requires i < |data| && key in data[i].readings
    ensures |ValuesOf(data, key)| > 0
  {
    if i < |data| - 1 {
      ValuesOfNonEmpty(data[..|data| - 1], key, i);
    }
  }

  /** The values are exactly the readings of the rows that carry `key`. */
  lemma {:induction false} ValuesOfMembers(data: seq<Row>, key: string, v: real)
    ensures v in ValuesOf(data, key) <==> exists i :: 0 <= i < |data| && key in data[i].readings && data[i].readings[key] == v
  {
    if data != [] {
      var init := data[..|data| - 1];
      ValuesOfMembers(init, key, v);
      if exists i :: 0 <= i < |data| && key in data[i].readings && data[i].readings[key] == v {
        var i :| 0 <= i < |data| && key in data[i].readings && data[i].readings[key] == v;
        if i < |init| {
          assert init[i] == data[i];
        }
      }
      if exists i :: 0 <= i < |init| && key in init[i].readings && init[i].readings[key] == v {
        var i :| 0 <= i < |init| && key in init[i].readings && init[i].readings[key] == v;
        assert data[i] == init[i];
      }
    }
  }

  datatype Severity = Medium | High

  /** `zScore > 3 ? 'high' : 'medium'`, on the square of the z-score. */
  function SeverityOf(zSquared: real): Severity
  {
    if zSquared > 9.0 then High else Medium
  }

  /** The z-score of a high-severity anomaly exceeds three, and conversely. */
  lemma SeverityMeansThreeSigma(z: real)
    requires z >= 0.0
    ensures SeverityOf(z * z) == High <==> z > 3.0
  {
    ZAboveIff(z, 3.0);
  }

  /** One detected anomaly; `zSquared` is the square of its z-score. */
  datatype Anomaly = Anomaly(timestamp: int, equipment: string, parameter: string, value: real,
                             zSquared: real, severity: Severity, index: nat)

  /** The record pushed for row number `i`. */
  function Flag(row: Row, i: nat, key: string, mean: real, variance: real): (a: Anomaly)
    requires variance > 0.0 && key in row.readings
  {
    var z2 := ZSquared(row.readings[key], mean, variance);
    Anomaly(row.timestamp, row.equipment, key, row.readings[key], z2, SeverityOf(z2), i)
  }

  /** Row `i` of `data` is flagged for `key`, and `a` is its record. */
  predicate FlaggedAt(data: seq<Row>, i: int, key: string, mean: real, variance: real, t: real, a: Anomaly)
  {
    && 0 <= i < |data|
    && key in data[i].readings
    && Exceeds(data[i].readings[key], mean, variance, t)
    && a == Flag(data[i], i, key, mean, variance)
  }

  /** The anomalies of `key` among the first `n` rows, in row order. */
  function ScanPrefix(data: seq<Row>, n: nat, key: string, mean: real, variance: real, t: real): (found: seq<Anomaly>)
    requires n <= |data|
  {
    if n == 0 then []
    else
      var prev := ScanPrefix(data, n - 1, key, mean, variance, t);
      var row := data[n - 1];
      if key in row.readings && Exceeds(row.readings[key], mean, variance, t)
      then prev + [Flag(row, n - 1, key, mean, variance)]
      else prev
  }

  /** The anomalies of one parameter (none when no row carries it). */
  function AnomaliesFor(data: seq<Row>, key: string, t: real): seq<Anomaly>
  {
    var vs := ValuesOf(data, key);
    if |vs| == 0 then [] else ScanPrefix(data, |data|, key, Mean(vs), Variance(vs), t)
  }

  /** The anomalies of every parameter in `keys`, parameter after parameter. */
  function CollectSpec(data: seq<Row>, keys: seq<string>, t: real): seq<Anomaly>
  {
    if keys == [] then []
    else CollectSpec(data, keys[..|keys| - 1], t) + AnomaliesFor(data, keys[|keys| - 1], t)
  }

  /** The nested `forEach` loops that push every flagged row. */
  method Collect(data: seq<Row>, keys: seq<string>, t: real) returns (found: seq<Anomaly>)
    ensures found == CollectSpec(data, keys, t)
  {
    found := [];
    for k := 0 to |keys|
      invariant found == CollectSpec(data, keys[..k], t)
    {
      var key := keys[k];
      var values := ValuesOf(data, key);
      assert keys[..k + 1][..k] == keys[..k];
      if |values| > 0 {
        var mean := Mean(values);
        var variance := Variance(values);
        for i := 0 to |data|
          invariant found == CollectSpec(data, keys[..k], t) + ScanPrefix(data, i, key, mean, variance, t)
        {
          var row := data[i];
          if key in row.readings {
            var value := row.readings[key];
            if Exceeds(value, mean, variance, t) {
              found := found + [Flag(row, i, key, mean, variance)];
            }
          }
        }
      }
    }
    assert keys[..|keys|] == keys;
  }

  /** A row is reported exactly when it carries `key` and its value exceeds the threshold. */
  lemma {:induction false} ScanPrefixMembers(data: seq<Row>, n: nat, key: string, mean: real, variance: real, t: real)
    requires n <= |data|
    ensures forall a :: a in ScanPrefix(data, n, key, mean, variance, t) <==>
      exists i :: i < n && FlaggedAt(data, i, key, mean, variance, t, a)
  {
    if n > 0 {
      ScanPrefixMembers(data, n - 1, key, mean, variance, t);
      var prev := ScanPrefix(data, n - 1, key, mean, variance, t);
      forall a
        ensures a in ScanPrefix(data, n, key, mean, variance, t) <==>
          exists i :: i < n && FlaggedAt(data, i, key, mean, variance, t, a)
      {
        if exists i :: i < n && FlaggedAt(data, i, key, mean, variance, t, a) {
          var i :| i < n && FlaggedAt(data, i, key, mean, variance, t, a);
          if i < n - 1 {
            assert a in prev;
          }
        }
        if a in ScanPrefix(data, n, key, mean, variance, t) && a !in prev {
          assert FlaggedAt(data, n - 1, key, mean, variance, t, a);
        }
      }
    }
  }

  /** Every record points below row `n`, in strictly increasing row order. */
  predicate RowOrdered(found: seq<Anomaly>, n: nat)
  {
    && (forall j :: 0 <= j < |found| ==> found[j].index < n)
    && (forall j, k :: 0 <= j < k < |found| ==> found[j].index < found[k].index)
  }

  /** Rows are reported in increasing position. */
  lemma {:induction false} ScanPrefixOrdered(data: seq<Row>, n: nat, key: string, mean: real, variance: real, t: real)
    requires n <= |data|
    ensures RowOrdered(ScanPrefix(data, n, key, mean, variance, t), n)
  {
    if n > 0 {
      ScanPrefixOrdered(data, n - 1, key, mean, variance, t);
      var prev := ScanPrefix(data, n - 1, key, mean, variance, t);
      var found := ScanPrefix(data, n, key, mean, variance, t);
      var row := data[n - 1];
      if key in row.readings && Exceeds(row.readings[key], mean, variance, t) {
        var x := Flag(row, n - 1, key, mean, variance);
        assert found == prev + [x] && x.index == n - 1;
        forall j | 0 <= j < |found|
          ensures found[j].index < n
        {
          if j < |prev| {
            assert found[j] == prev[j];
          }
        }
        forall j, k | 0 <= j < k < |found|
          ensures found[j].index < found[k].index
        {
          assert found[j] == prev[j];
          if k < |prev| {
            assert found[k] == prev[k];
          }
        }
      }
    }
  }

  /** `AnomaliesFor` reports exactly the flagged rows of `key`. */
  lemma AnomaliesForMembers(data: seq<Row>, key: string, t: real, a: Anomaly)
    ensures a in AnomaliesFor(data, key, t) <==>
      var vs := ValuesOf(data, key);
      |vs| > 0 && exists i :: FlaggedAt(data, i, key, Mean(vs), Variance(vs), t, a)
  {
    var vs := ValuesOf(data, key);
    if |vs| > 0 {
      ScanPrefixMembers(data, |data|, key, Mean(vs), Variance(vs), t);
    }
  }

  /** Every reported anomaly names its parameter, exceeds the threshold, and
      is high-severity exactly when its z-score exceeds three. */
  lemma {:induction false} CollectedAnomaliesWellFormed(data: seq<Row>, keys: seq<string>, t: real)
    ensures forall a :: a in CollectSpec(data, keys, t) ==>
      && a.parameter in keys
      && a.index < |data|
      && ZAbove(a.zSquared, t)
      && (a.severity == High <==> a.zSquared > 9.0)
  {
    if keys != [] {
      var init := keys[..|keys| - 1];
      var key := keys[|keys| - 1];
      CollectedAnomaliesWellFormed(data, init, t);
      forall a | a in AnomaliesFor(data, key, t)
        ensures a.parameter == key && a.index < |data| && ZAbove(a.zSquared, t)
        ensures a.severity == High <==> a.zSquared > 9.0
      {
        AnomaliesForMembers(data, key, t, a);
      }
      assert forall a :: a in init ==> a in keys;
    }
  }

  /** An anomaly is reported exactly when its parameter is one of `keys` and
      its row is flagged for that parameter. */
  lemma {:induction false} CollectMembers(data: seq<Row>, keys: seq<string>, t: real, a: Anomaly)
    ensures a in CollectSpec(data, keys, t) <==> a.parameter in keys && a in AnomaliesFor(data, a.parameter, t)
  {
    if keys != [] {
      var init := keys[..|keys| - 1];
      var key := keys[|keys| - 1];
      CollectMembers(data, init, t, a);
      AnomaliesForMembers(data, key, t, a);
      assert keys == init + [key];
    }
  }

  /** With no spread (all values equal, or a single value) nothing can lie
      away from the mean: the row reports nothing. */
  lemma {:induction false} ScanPrefixNoSpread(data: seq<Row>, n: nat, key: string, mean: real, variance: real, t: real)
    requires n <= |data| && variance <= 0.0
    ensures ScanPrefix(data, n, key, mean, variance, t) == []
  {
    if n > 0 {
      ScanPrefixNoSpread(data, n - 1, key, mean, variance, t);
    }
  }

  /** A parameter whose readings are all equal has no anomalies at any threshold. */
  lemma ConstantReadingsNoAnomalies(data: seq<Row>, key: string, c: real, t: real)
    requires forall i :: 0 <= i < |data| && key in data[i].readings ==> data[i].readings[key] == c
    ensures AnomaliesFor(data, key, t) == []
  {
    var vs := ValuesOf(data, key);
    if |vs| > 0 {
      forall j | 0 <= j < |vs|
        ensures vs[j] == c
      {
        ValuesOfMembers(data, key, vs[j]);
      }
      ConstantStatistics(vs, c);
      ScanPrefixNoSpread(data, |data|, key, Mean(vs), Variance(vs), t);
    }
  }

  /** Detection at a higher threshold keeps exactly the anomalies found at a
      lower one whose z-score also exceeds the higher threshold, in the same order. */
  lemma {:induction false} ScanPrefixThreshold(data: seq<Row>, n: nat, key: string, mean: real, variance: real, t1: real, t2: real)
    requires n <= |data| && t1 <= t2
    ensures ScanPrefix(data, n, key, mean, variance, t2)
         == Filter(ScanPrefix(data, n, key, mean, variance, t1), (a: Anomaly) => ZAbove(a.zSquared, t2))
  {
    if n > 0 {
      var keep := (a: Anomaly) => ZAbove(a.zSquared, t2);
      ScanPrefixThreshold(data, n - 1, key, mean, variance, t1, t2);
      var prev := ScanPrefix(data, n - 1, key, mean, variance, t1);
      var row := data[n - 1];
      if key in row.readings {
        ExceedsAntitone(row.readings[key], mean, variance, t1, t2);
      }
      if key in row.readings && Exceeds(row.readings[key], mean, variance, t1) {
        var a := Flag(row, n - 1, key, mean, variance);
        assert ScanPrefix(data, n, key, mean, variance, t1) == prev + [a];
        FilterSnoc(prev, a, keep);
      }
    }
  }

  /** A value beyond a higher threshold is beyond a lower one. */
  lemma ExceedsAntitone(v: real, m: real, variance: real, t1: real, t2: real)
    requires t1 <= t2
    ensures Exceeds(v, m, variance, t2) ==> Exceeds(v, m, variance, t1)
  {
    if Exceeds(v, m, variance, t2) {
      ZAboveAntitone(ZSquared(v, m, variance), t1, t2);
    }
  }

  lemma {:induction false} CollectThreshold(data: seq<Row>, keys: seq<string>, t1: real, t2: real)
    requires t1 <= t2
    ensures CollectSpec(data, keys, t2) == Filter(CollectSpec(data, keys, t1), (a: Anomaly) => ZAbove(a.zSquared, t2))
  {
    if keys != [] {
      var keep := (a: Anomaly) => ZAbove(a.zSquared, t2);
      var init := keys[..|keys| - 1];
      var key := keys[|keys| - 1];
      CollectThreshold(data, init, t1, t2);
      var vs := ValuesOf(data, key);
      if |vs| > 0 {
        ScanPrefixThreshold(data, |data|, key, Mean(vs), Variance(vs), t1, t2);
      }
      FilterConcat(CollectSpec(data, init, t1), AnomaliesFor(data, key, t1), keep);
    }
  }

  /** `(a, b) => new Date(b.timestamp) - new Date(a.timestamp)`: newest first. */
  predicate NewerOrSame(a: Anomaly, b: Anomaly)
  {
    a.timestamp >= b.timestamp
  }

  lemma NewerOrSameIsTotalPreorder()
    ensures TotalPreorder(NewerOrSame)
  {
  }

  /** Three readings of 10 and one of 100: the outlier's z-score is sqrt(3),
      so the default threshold of 2 reports nothing, while a threshold of 1
      reports that single row, with medium severity. */
  lemma OutlierAmongFourReadings()
    ensures var data := [Row(0, "Pump", 0, map["flowrate" := 10.0]), Row(1, "Pump", 1, map["flowrate" := 10.0]),
                         Row(2, "Pump", 2, map["flowrate" := 10.0]), Row(3, "Valve", 3, map["flowrate" := 100.0])];
      && AnomaliesFor(data, "flowrate", 2.0) == []
      && AnomaliesFor(data, "flowrate", 1.0) == [Anomaly(3, "Valve", "flowrate", 100.0, 3.0, Medium, 3)]
  {
    var data := [Row(0, "Pump", 0, map["flowrate" := 10.0]), Row(1, "Pump", 1, map["flowrate" := 10.0]),
                 Row(2, "Pump", 2, map["flowrate" := 10.0]), Row(3, "Valve", 3, map["flowrate" := 100.0])];
    var vs := ValuesOf(data, "flowrate");
    assert data[..1][..0] == [] && data[..2][..1] == data[..1] && data[..3][..2] == data[..2] && data[..4] == data;
    assert ValuesOf(data[..1], "flowrate") == [10.0];
    assert ValuesOf(data[..2], "flowrate") == [10.0, 10.0];
    assert ValuesOf(data[..3], "flowrate") == [10.0, 10.0, 10.0];
    assert vs == [10.0, 10.0, 10.0, 100.0];
    var v1, v2, v3 := [10.0], [10.0, 10.0], [10.0, 10.0, 10.0];
    assert v1[..0] == [] && v2[..1] == v1 && v3[..2] == v2 && vs[..3] == v3;
    assert Sum(v1) == 10.0 && Sum(v2) == 20.0 && Sum(v3) == 30.0;
    assert Sum(vs) == 130.0;
    assert SquaredDeviations(v1, 32.5) == 506.25;
    assert SquaredDeviations(v2, 32.5) == 1012.5;
    assert SquaredDeviations(v3, 32.5) == 1518.75;
    assert SquaredDeviations(vs, 32.5) == 6075.0;
    assert Mean(vs) == 32.5;
    assert SquaredDeviations(vs, 32.5) == 6075.0 by {
      assert vs[..3][..2][..1][..0] == [];
    }
    assert Variance(vs) == 1518.75;
    assert ZSquared(10.0, 32.5, 1518.75) == 1.0 / 3.0;
    assert ZSquared(100.0, 32.5, 1518.75) == 3.0;
  }
}
