/** The Django upload API (`backend/api/views.py`): the summary computed over
    an uploaded CSV, the retention of the five newest datasets, the dataset
    list, the authentication refusals, and the "not found" answers of the
    report and data views. */
module BackendViews {
  import opened Wrappers
  import opened Seqs
  import opened Statistics

  /** One cell of a parsed CSV (`NaN` is `Missing`). */
  datatype Value = Missing | Number(x: real) | Label(s: string)

  /** A parsed CSV: its header and its rows (a key absent from a row reads as `Missing`). */
  datatype Frame = Frame(columns: seq<string>, rows: seq<map<string, Value>>)

  /** `df.sample(n=MAX_ROWS)` is applied above this many rows. */
  const MaxRows: nat := 50000

  const NumericColumns: seq<string> := ["Flowrate", "Pressure", "Temperature"]

  /** The rows of `sample` are `MaxRows` distinct rows of `frame`: the only
      thing relied upon of pandas' seeded random sample. */
  predicate IsSampleOf(sample: Frame, frame: Frame)
  {
    sample.columns == frame.columns && |sample.rows| == MaxRows && multiset(sample.rows) <= multiset(frame.rows)
  }

  function Cell(row: map<string, Value>, column: string): Value
  {
    if column in row then row[column] else Missing
  }

  /** `df[col].dropna().astype(float)`: the numbers of a column, in row order. */
  function ColumnValues(rows: seq<map<string, Value>>, column: string): (vs: seq<real>)
    ensures |vs| <= |rows|
  {
    if rows == [] then []
    else
      var init := ColumnValues(rows[..|rows| - 1], column);
      match Cell(rows[|rows| - 1], column)
      case Number(x) => init + [x]
      case _ => init
  }

  /** `astype(float)` raises on a text cell of a numeric column. */
  predicate NumericColumnsClean(frame: Frame)
  {
    forall c, i :: c in NumericColumns && c in frame.columns && 0 <= i < |frame.rows| ==> !Cell(frame.rows[i], c).Label?
  }

  /** `averages[col]`: `None` for an absent column, `NaN` for a column with
      no values, otherwise the mean. */
  datatype Average = NoColumn | NaNMean | Avg(value: real)

  function AverageOf(frame: Frame, column: string): Average
  {
    if column !in frame.columns then NoColumn
    else
      var vs := ColumnValues(frame.rows, column);
      if |vs| == 0 then NaNMean else Avg(Mean(vs))
  }

  /** `|x - mean| / std > 3` with the sample standard deviation. */
  predicate BeyondThreeSigma(x: real, vs: seq<real>)
    requires |vs| >= 2
  {
    Exceeds(x, Mean(vs), SampleVariance(vs), 3.0)
  }

  /** `anomalies[col]`: zero for an absent column, for fewer than two values
      (one value has a `NaN` standard deviation) and for a zero deviation. */
  function AnomalyCountOf(frame: Frame, column: string): nat
  {
    if column !in frame.columns then 0
    else
      var vs := ColumnValues(frame.rows, column);
      if |vs| < 2 || SampleVariance(vs) == 0.0 then 0
      else |Filter(vs, x => BeyondThreeSigma(x, vs))|
  }

  /** The non-missing values of the `Type` column, in row order. */
  function TypeValues(rows: seq<map<string, Value>>): (vs: seq<Value>)
    ensures forall v :: v in vs ==> v != Missing
  {
    if rows == [] then []
    else
      var init := TypeValues(rows[..|rows| - 1]);
      var v := Cell(rows[|rows| - 1], "Type");
      if v == Missing then init else init + [v]
  }

  /** `value_counts().to_dict()`. */
  function CountValues(vs: seq<Value>): map<Value, nat>
  {
    if vs == [] then map[]
    else
      var counts := CountValues(vs[..|vs| - 1]);
      var v := vs[|vs| - 1];
      counts[v := (if v in counts then counts[v] else 0) + 1]
  }

  function TypeDistribution(frame: Frame): map<Value, nat>
  {
    if "Type" in frame.columns then CountValues(TypeValues(frame.rows)) else map[]
  }

  datatype Summary = Summary(totalCount: nat, averages: map<string, Average>, anomalies: map<string, nat>,
                             typeDistribution: map<Value, nat>)

  function SummaryOf(frame: Frame): Summary
  {
    Summary(|frame.rows|,
            map c | c in NumericColumns :: AverageOf(frame, c),
            map c | c in NumericColumns :: AnomalyCountOf(frame, c),
            TypeDistribution(frame))
  }

  /** The two `for col in numeric_cols` loops and the type counts. */
  method Summarize(frame: Frame) returns (s: Summary)
    ensures s == SummaryOf(frame)
  {
    var averages: map<string, Average> := map[];
    for i := 0 to |NumericColumns|
      invariant forall c :: c in averages <==> c in NumericColumns[..i]
      invariant forall c :: c in averages ==> averages[c] == AverageOf(frame, c)
    {
      var col := NumericColumns[i];
      assert NumericColumns[..i + 1] == NumericColumns[..i] + [col];
      if col in frame.columns {
        var vs := ColumnValues(frame.rows, col);
        averages := averages[col := if |vs| == 0 then NaNMean else Avg(Mean(vs))];
      } else {
        averages := averages[col := NoColumn];
      }
    }
    var anomalies: map<string, nat> := map[];
    for i := 0 to |NumericColumns|
      invariant forall c :: c in anomalies <==> c in NumericColumns[..i]
      invariant forall c :: c in anomalies ==> anomalies[c] == AnomalyCountOf(frame, c)
    {
      var col := NumericColumns[i];
      assert NumericColumns[..i + 1] == NumericColumns[..i] + [col];
      var count := 0;
      if col in frame.columns {
        var data := ColumnValues(frame.rows, col);
        if |data| > 0 {
          if |data| >= 2 && SampleVariance(data) > 0.0 {
            count := |Filter(data, x => BeyondThreeSigma(x, data))|;
          }
        }
      }
      anomalies := anomalies[col := count];
    }
    assert NumericColumns[..|NumericColumns|] == NumericColumns;
    assert averages == map c | c in NumericColumns :: AverageOf(frame, c);
    assert anomalies == map c | c in NumericColumns :: AnomalyCountOf(frame, c);
    s := Summary(|frame.rows|, averages, anomalies, TypeDistribution(frame));
  }

  /** A present column's average is the mean of its values and so lies
      between their extremes; the average is `None` exactly when the column
      is absent. */
  lemma AverageFacts(frame: Frame, column: string)
    ensures AverageOf(frame, column) == NoColumn <==> column !in frame.columns
    ensures column in frame.columns && |ColumnValues(frame.rows, column)| > 0 ==>
      var vs := ColumnValues(frame.rows, column);
      Minimum(vs) <= AverageOf(frame, column).value <= Maximum(vs)
  {
    var vs := ColumnValues(frame.rows, column);
    if column in frame.columns && |vs| > 0 {
      MeanBetweenExtremes(vs);
    }
  }

  /** `k` copies of `c` added up. */
  function Times(c: real, k: nat): real
  {
    if k == 0 then 0.0 else Times(c, k - 1) + c
  }

  lemma {:induction false} TimesIsProduct(c: real, k: nat)
    ensures Times(c, k) == c * k as real
  {
    if k > 0 {
      TimesIsProduct(c, k - 1);
      assert c * k as real == c * (k - 1) as real + c;
    }
  }

  lemma DeviationStep(vs: seq<real>, m: real)
    requires vs != []
    ensures SquaredDeviations(vs, m) == SquaredDeviations(vs[..|vs| - 1], m) + (vs[|vs| - 1] - m) * (vs[|vs| - 1] - m)
  {
  }

  /** Squared deviations add up over the values selected by `p` when each of
      them deviates by more than `c`. */
  lemma {:induction false} SquaredDeviationsOfSelected(vs: seq<real>, m: real, c: real, p: real -> bool)
    requires c >= 0.0
    requires forall i :: 0 <= i < |vs| && p(vs[i]) ==> (vs[i] - m) * (vs[i] - m) > c
    ensures SquaredDeviations(vs, m) >= Times(c, |Filter(vs, p)|)
    ensures |Filter(vs, p)| > 0 ==> SquaredDeviations(vs, m) > Times(c, |Filter(vs, p)|)
  {
    if vs != [] {
      var init, last := vs[..|vs| - 1], vs[|vs| - 1];
      SelectedFront(vs, m, c, p);
      SquaredDeviationsOfSelected(init, m, c, p);
      LastDeviation(vs, m, c, p);
      FilterLengthLast(vs, p);
      SelectedStep(SquaredDeviations(init, m), SquaredDeviations(vs, m) - SquaredDeviations(init, m), c, |Filter(init, p)|, p(last));
    }
  }

  /** The selection condition holds on the front of the values, and on the
      last value when it is selected. */
  lemma SelectedFront(vs: seq<real>, m: real, c: real, p: real -> bool)
    requires vs != []
    requires forall i :: 0 <= i < |vs| && p(vs[i]) ==> (vs[i] - m) * (vs[i] - m) > c
    ensures var init := vs[..|vs| - 1];
      forall i :: 0 <= i < |init| && p(init[i]) ==> (init[i] - m) * (init[i] - m) > c
  {
    var init := vs[..|vs| - 1];
    forall i | 0 <= i < |init| && p(init[i])
      ensures (init[i] - m) * (init[i] - m) > c
    {
      assert init[i] == vs[i];
    }
  }

  /** The last value adds its squared deviation, which is never negative
      and exceeds `c` when the value is selected. */
  lemma LastDeviation(vs: seq<real>, m: real, c: real, p: real -> bool)
    requires vs != []
    requires forall i :: 0 <= i < |vs| && p(vs[i]) ==> (vs[i] - m) * (vs[i] - m) > c
    ensures SquaredDeviations(vs, m) - SquaredDeviations(vs[..|vs| - 1], m) >= 0.0
    ensures p(vs[|vs| - 1]) ==> SquaredDeviations(vs, m) - SquaredDeviations(vs[..|vs| - 1], m) > c
  {
    DeviationStep(vs, m);
    DeviationGrows(vs, m);
  }

  /** Adding a value never lowers the sum of squared deviations. */
  lemma DeviationGrows(vs: seq<real>, m: real)
    requires vs != []
    ensures SquaredDeviations(vs, m) >= SquaredDeviations(vs[..|vs| - 1], m)
  {
    DeviationStep(vs, m);
    SquareNonNegative(vs[|vs| - 1] - m);
  }

  /** One more value: its squared deviation adds at least `c` when it is
      selected and is never negative. */
  lemma SelectedStep(sd: real, sq: real, c: real, k: nat, selected: bool)
    requires c >= 0.0 && sq >= 0.0 && (selected ==> sq > c)
    requires sd >= Times(c, k) && (k > 0 ==> sd > Times(c, k))
    ensures var k' := if selected then k + 1 else k;
      sd + sq >= Times(c, k') && (k' > 0 ==> sd + sq > Times(c, k'))
  {
  }

  lemma ScaledBelow(a: real, b: real, s: real)
    requires s > 0.0 && a * s < b * s
    ensures a < b
  {
  }

  lemma QuotientTimesDivisor(a: real, b: real)
    requires b > 0.0
    ensures a / b * b == a
  {
  }

  /** A value beyond three sample deviations has a squared deviation above
      nine sample variances. */
  lemma BeyondThreeSigmaSquared(x: real, vs: seq<real>)
    requires |vs| >= 2 && BeyondThreeSigma(x, vs)
    ensures (x - Mean(vs)) * (x - Mean(vs)) > 9.0 * SampleVariance(vs)
  {
    QuotientCompare((x - Mean(vs)) * (x - Mean(vs)), SampleVariance(vs), 9.0);
  }

  /** Chebyshev's inequality for the sample deviation: fewer than one in nine
      of the values other than one lie beyond three deviations. */
  lemma Chebyshev(vs: seq<real>)
    requires |vs| >= 2 && SampleVariance(vs) > 0.0
    ensures var count := |Filter(vs, x => BeyondThreeSigma(x, vs))|;
      count > 0 ==> 9 * count < |vs| - 1
  {
    var sv := SampleVariance(vs);
    var m := Mean(vs);
    var p := x => BeyondThreeSigma(x, vs);
    forall i | 0 <= i < |vs| && p(vs[i]) ensures (vs[i] - m) * (vs[i] - m) > 9.0 * sv {
      BeyondThreeSigmaSquared(vs[i], vs);
    }
    SquaredDeviationsOfSelected(vs, m, 9.0 * sv, p);
    var count := |Filter(vs, p)|;
    if count > 0 {
      ChebyshevArithmetic(SquaredDeviations(vs, m), (|vs| - 1) as real, count);
    }
  }

  lemma ChebyshevArithmetic(sd: real, n1: real, k: nat)
    requires n1 > 0.0 && sd / n1 > 0.0 && k > 0
    requires sd > Times(9.0 * (sd / n1), k)
    ensures 9.0 * k as real < n1
  {
    var sv := sd / n1;
    TimesIsProduct(9.0 * sv, k);
    QuotientTimesDivisor(sd, n1);
    assert (9.0 * k as real) * sv < n1 * sv;
    ScaledBelow(9.0 * k as real, n1, sv);
  }

  /** The backend's anomaly count is at most the number of values, and by
      Chebyshev's inequality nine times it stays below the number of values
      minus one: a column of ten or fewer values never reports an anomaly. */
  lemma AnomalyCountBounds(frame: Frame, column: string)
    ensures AnomalyCountOf(frame, column) <= |ColumnValues(frame.rows, column)| <= |frame.rows|
    ensures AnomalyCountOf(frame, column) > 0 ==> 9 * AnomalyCountOf(frame, column) < |ColumnValues(frame.rows, column)| - 1
    ensures |ColumnValues(frame.rows, column)| <= 10 ==> AnomalyCountOf(frame, column) == 0
  {
    var vs := ColumnValues(frame.rows, column);
    if column in frame.columns && |vs| >= 2 && SampleVariance(vs) != 0.0 {
      Chebyshev(vs);
    }
  }

  /** A column whose values are all equal reports no anomaly. */
  lemma ConstantColumnNoAnomalies(frame: Frame, column: string, c: real)
    requires forall i :: 0 <= i < |ColumnValues(frame.rows, column)| ==> ColumnValues(frame.rows, column)[i] == c
    ensures AnomalyCountOf(frame, column) == 0
  {
    var vs := ColumnValues(frame.rows, column);
    if |vs| >= 2 {
      ConstantStatistics(vs, c);
    }
  }

  /** The counts are the multiplicities of the values counted. */
  lemma {:induction false} CountValuesFacts(vs: seq<Value>)
    ensures forall v :: v in CountValues(vs) <==> v in vs
    ensures forall v :: v in CountValues(vs) ==> CountValues(vs)[v] == multiset(vs)[v]
  {
    if vs != [] {
      var init := vs[..|vs| - 1];
      assert vs == init + [vs[|vs| - 1]];
      CountValuesFacts(init);
    }
  }

  /** `type_distribution` counts each non-missing `Type` value as often as it
      occurs, so the counts add up to the number of such values; it is empty
      without a `Type` column. */
  lemma TypeDistributionFacts(frame: Frame)
    ensures "Type" !in frame.columns ==> TypeDistribution(frame) == map[]
    ensures "Type" in frame.columns ==>
      && (forall v :: v in TypeDistribution(frame) <==> v in TypeValues(frame.rows))
      && (forall v :: v in TypeDistribution(frame) ==> TypeDistribution(frame)[v] == multiset(TypeValues(frame.rows))[v])
    ensures Missing !in TypeDistribution(frame)
  {
    CountValuesFacts(TypeValues(frame.rows));
  }

  /** A stored upload. */
  datatype Dataset = Dataset(id: nat, uploadedAt: int, frame: Frame, summary: Summary)

  /** `order_by('-uploaded_at')`: newest first. */
  predicate NewerUpload(a: Dataset, b: Dataset)
  {
    a.uploadedAt >= b.uploadedAt
  }

  lemma NewerUploadIsTotalPreorder()
    ensures TotalPreorder(NewerUpload)
  {
  }

  /** `Dataset.objects.order_by('-uploaded_at')[:5]`; datasets uploaded at
      the same time are taken in storage order, where the database leaves
      their order open. */
  function Newest(datasets: seq<Dataset>): (r: seq<Dataset>)
    ensures |r| <= 5
  {
    NewerUploadIsTotalPreorder();
    Take(SortBy(datasets, NewerUpload), 5)
  }

  function IdsOf(datasets: seq<Dataset>): (ids: seq<nat>)
    ensures |ids| == |datasets|
    ensures forall i :: 0 <= i < |datasets| ==> ids[i] == datasets[i].id
  {
    seq(|datasets|, i requires 0 <= i < |datasets| => datasets[i].id)
  }

  /** Whether a dataset's id is among those of the five newest of `datasets`. */
  function KeepNewest(datasets: seq<Dataset>): Dataset -> bool
  {
    var keep := IdsOf(Newest(datasets));
    (d: Dataset) => d.id in keep
  }

  /** The datasets that survive the retention loop, in storage order. */
  function Retained(datasets: seq<Dataset>): seq<Dataset>
  {
    Filter(datasets, KeepNewest(datasets))
  }

  /** The newest five, newest first, a selection of the stored datasets; any
      dataset left out is no newer than any listed. */
  lemma NewestFacts(datasets: seq<Dataset>)
    ensures SortedBy(Newest(datasets), NewerUpload)
    ensures forall d :: d in Newest(datasets) ==> d in datasets
    ensures |datasets| <= 5 ==> multiset(Newest(datasets)) == multiset(datasets)
    ensures forall d, e :: d in Newest(datasets) && e in datasets && e !in Newest(datasets) ==> NewerUpload(d, e)
  {
    NewerUploadIsTotalPreorder();
    SortedTakeFacts(datasets, NewerUpload, 5);
  }

  /** A duplicate-free sequence whose elements all occur in `b` is no longer than `b`. */
  lemma {:induction false} DistinctInclusionLength<T(!new)>(a: seq<T>, b: seq<T>)
    requires NoDuplicates(a)
    requires forall x :: x in a ==> x in b
    ensures |a| <= |b|
  {
    if a != [] {
      assert a[0] in a;
      var k :| 0 <= k < |b| && b[k] == a[0];
      var rest := b[..k] + b[k + 1..];
      forall x | x in a[1..] ensures x in rest {
        var i :| 1 <= i < |a| && a[i] == x;
        assert a[i] != a[0] && a[i] in a;
        var j :| 0 <= j < |b| && b[j] == x;
        if j < k {
          assert rest[j] == x;
        } else {
          assert rest[j - 1] == x;
        }
      }
      assert NoDuplicates(a[1..]) by {
        forall i, j | 0 <= i < j < |a[1..]| ensures a[1..][i] != a[1..][j] {
          assert a[1..][i] == a[i + 1] && a[1..][j] == a[j + 1];
        }
      }
      DistinctInclusionLength(a[1..], rest);
    }
  }

  /** With distinct ids, the retention keeps at most five datasets, keeps
      each of the five newest, and deletes none newer than one it keeps. */
  lemma RetainedFacts(datasets: seq<Dataset>)
    requires NoDuplicates(IdsOf(datasets))
    ensures |Retained(datasets)| <= 5
    ensures forall d :: d in Newest(datasets) ==> d in Retained(datasets)
    ensures forall d, e :: d in Retained(datasets) && e in datasets && e !in Retained(datasets) ==> NewerUpload(d, e)
  {
    var top := Newest(datasets);
    var keep := IdsOf(top);
    var kept := Retained(datasets);
    NewestFacts(datasets);
    // each kept dataset is the top entry with the same id
    forall d | d in kept ensures d in top {
      var i :| 0 <= i < |keep| && keep[i] == d.id;
      var t := top[i];
      assert t in datasets;
      var a :| 0 <= a < |datasets| && datasets[a] == t;
      var b :| 0 <= b < |datasets| && datasets[b] == d;
      assert IdsOf(datasets)[a] == IdsOf(datasets)[b];
      assert a == b;
    }
    var keptIds := IdsOf(kept);
    assert NoDuplicates(keptIds) by {
      forall i, j | 0 <= i < j < |kept| ensures keptIds[i] != keptIds[j] {
        KeptIdsDistinct(datasets, KeepNewest(datasets), i, j);
      }
    }
    forall x | x in keptIds ensures x in keep {
      var i :| 0 <= i < |keptIds| && keptIds[i] == x;
      assert kept[i] in kept;
    }
    DistinctInclusionLength(keptIds, keep);
    forall d | d in top ensures d in kept {
      var i :| 0 <= i < |top| && top[i] == d;
      assert keep[i] == d.id;
    }
  }

  /** Two positions of the retained list carry different ids. */
  lemma KeptIdsDistinct(datasets: seq<Dataset>, p: Dataset -> bool, i: nat, j: nat)
    requires NoDuplicates(IdsOf(datasets))
    requires i < j < |Filter(datasets, p)|
    ensures Filter(datasets, p)[i].id != Filter(datasets, p)[j].id
  {
    FilterPositions(datasets, p);
    var a, b := FilterSource(datasets, p, i), FilterSource(datasets, p, j);
    assert IdsOf(datasets)[a] == Filter(datasets, p)[i].id && IdsOf(datasets)[b] == Filter(datasets, p)[j].id;
  }

  /** The position in `s` that position `i` of the filtered sequence came from. */
  function FilterSource<T(!new)>(s: seq<T>, p: T -> bool, i: nat): nat
    requires i < |Filter(s, p)|
    decreases |s|
  {
    if p(s[0]) then (if i == 0 then 0 else 1 + FilterSource(s[1..], p, i - 1))
    else 1 + FilterSource(s[1..], p, i)
  }

  /** Positions of a filtered sequence come from increasing positions of the source. */
  lemma {:induction false} FilterPositions<T(!new)>(s: seq<T>, p: T -> bool)
    ensures forall i :: 0 <= i < |Filter(s, p)| ==>
      FilterSource(s, p, i) < |s| && s[FilterSource(s, p, i)] == Filter(s, p)[i]
    ensures forall i, j :: 0 <= i < j < |Filter(s, p)| ==> FilterSource(s, p, i) < FilterSource(s, p, j)
  {
    if s != [] {
      var t := s[1..];
      FilterPositions(t, p);
      var f, ft := Filter(s, p), Filter(t, p);
      assert f == (if p(s[0]) then [s[0]] else []) + ft;
      forall i | 0 <= i < |f|
        ensures FilterSource(s, p, i) < |s| && s[FilterSource(s, p, i)] == f[i]
      {
        if !p(s[0]) {
          assert f[i] == ft[i] && s[1 + FilterSource(t, p, i)] == t[FilterSource(t, p, i)];
        } else if i > 0 {
          assert f[i] == ft[i - 1] && s[1 + FilterSource(t, p, i - 1)] == t[FilterSource(t, p, i - 1)];
        }
      }
      forall i, j | 0 <= i < j < |f|
        ensures FilterSource(s, p, i) < FilterSource(s, p, j)
      {
      }
    }
  }

  datatype Response =
    | NotAuthenticated               // 401 or 403 from the `IsAuthenticated` permission
    | Created(dataset: Dataset)      // 201 with the serialized dataset
    | BadRequest(error: string)      // 400
    | NotFound(error: string)        // 404
    | ServerError                    // 500
    | Listing(datasets: seq<Dataset>)
    | Report(id: nat)                // the PDF of that dataset
    | Records(rows: seq<map<string, Value>>)

  /** What `pd.read_csv` made of the uploaded file: a frame, or the text of
      the exception it raised. */
  datatype CsvRead = Read(frame: Frame) | Unreadable(message: string)

  /** The two upload endpoints: the web one requires an authenticated user,
      the desktop one admits anybody. */
  datatype UploadEndpoint = WebUpload | DesktopUpload

  /** The view's permission class lets the request through. */
  predicate Admitted(endpoint: UploadEndpoint, authenticated: bool)
  {
    endpoint == DesktopUpload || authenticated
  }

  /** The `Dataset` table. */
  class DatasetStore {
    var datasets: seq<Dataset>
    var nextId: nat

    ghost predicate Valid()
      reads this
    {
      && NoDuplicates(IdsOf(datasets))
      && forall i :: 0 <= i < |datasets| ==> datasets[i].id < nextId
    }

    constructor()
      ensures Valid() && datasets == [] && nextId == 1
    {
      datasets := [];
      nextId := 1;
    }

    /** The retention loop: every dataset outside the five newest is deleted. */
    method Retain()
      modifies this
      ensures datasets == Retained(old(datasets)) && nextId == old(nextId)
    {
      var all := datasets;
      var keep := IdsOf(Newest(all));
      var p := KeepNewest(all);
      var survivors := [];
      for i := 0 to |all|
        invariant survivors == Filter(all[..i], p)
        invariant datasets == all && nextId == old(nextId)
      {
        FilterLast(all[..i + 1], p);
        assert all[..i + 1][..i] == all[..i];
        if p(all[i]) {
          survivors := survivors + [all[i]];
        }
      }
      assert all[..|all|] == all;
      datasets := survivors;
    }

    /** `UploadDatasetView.post` (`endpoint == WebUpload`) and
        `DesktopUploadDatasetView.post` (`endpoint == DesktopUpload`), which
        differ only in their permission class. `authenticated` is whether the
        request carries a valid user, `file` whether it holds a file,
        `parsed` what `read_csv` made of the file, `sample` the rows
        `df.sample` would pick, and `now` the upload time. */
    method Upload(endpoint: UploadEndpoint, authenticated: bool, file: bool, parsed: CsvRead, sample: Frame, now: int)
      returns (r: Response)
      requires Valid()
      requires parsed.Read? && |parsed.frame.rows| > MaxRows ==> IsSampleOf(sample, parsed.frame)
      modifies this
      ensures Valid()
      ensures !Admitted(endpoint, authenticated) ==> r == NotAuthenticated && unchanged(this)
      ensures Admitted(endpoint, authenticated) && !file ==> r == BadRequest("No file uploaded") && unchanged(this)
      ensures Admitted(endpoint, authenticated) && file && parsed.Unreadable? ==>
        r == BadRequest("Could not parse CSV: " + parsed.message) && unchanged(this)
      ensures Admitted(endpoint, authenticated) && file && parsed.Read? ==>
        var df := if |parsed.frame.rows| > MaxRows then sample else parsed.frame;
        if !NumericColumnsClean(df) then r == ServerError && unchanged(this)
        else
          && r == Created(Dataset(old(nextId), now, parsed.frame, SummaryOf(df)))
          && r.dataset.summary.totalCount <= MaxRows
          && (|parsed.frame.rows| <= MaxRows ==> r.dataset.summary.totalCount == |parsed.frame.rows|)
          && datasets == Retained(old(datasets) + [r.dataset])
          && |datasets| <= 5
    {
      if !Admitted(endpoint, authenticated) {
        return NotAuthenticated;
      }
      if !file {
        return BadRequest("No file uploaded");
      }
      if parsed.Unreadable? {
        return BadRequest("Could not parse CSV: " + parsed.message);
      }
      var df := parsed.frame;
      if |df.rows| > MaxRows {
        df := sample;
      }
      if !NumericColumnsClean(df) {
        return ServerError;
      }
      var summary := Summarize(df);
      var ds := Dataset(nextId, now, parsed.frame, summary);
      ghost var before := datasets;
      datasets := datasets + [ds];
      nextId := nextId + 1;
      assert NoDuplicates(IdsOf(datasets)) by {
        assert IdsOf(datasets) == IdsOf(before) + [ds.id];
      }
      RetainedFacts(datasets);
      ghost var all := datasets;
      Retain();
      RetainedValid(all, nextId);
      r := Created(ds);
    }

    /** `DatasetListView`: at most five datasets, newest first. */
    function List(): (r: seq<Dataset>)
      reads this
      ensures |r| <= 5
    {
      Newest(datasets)
    }

    /** `DatasetReportPDFView.get`, which requires an authenticated user. */
    function ReportFor(authenticated: bool, pk: nat): (r: Response)
      reads this
      ensures r == NotAuthenticated <==> !authenticated
      ensures r.NotFound? <==> authenticated && pk !in IdsOf(datasets)
      ensures r.NotFound? ==> r.error == "Dataset not found"
      ensures r.Report? <==> authenticated && pk in IdsOf(datasets)
      ensures r.Report? ==> r.id == pk
    {
      if !authenticated then NotAuthenticated
      else if pk in IdsOf(datasets) then Report(pk)
      else NotFound("Dataset not found")
    }

    /** `DatasetDataView.get`: the rows of the stored file. */
    function DataFor(pk: nat): (r: Response)
      reads this
      ensures r.NotFound? <==> pk !in IdsOf(datasets)
      ensures r.NotFound? ==> r.error == "Dataset not found"
      ensures r.Records? ==> exists d :: d in datasets && d.id == pk && r.rows == d.frame.rows
    {
      if pk in IdsOf(datasets) then
        var i := FirstIndex(IdsOf(datasets), pk);
        Records(datasets[i].frame.rows)
      else NotFound("Dataset not found")
    }
  }

  /** Retention keeps ids distinct and below the next id. */
  lemma RetainedValid(all: seq<Dataset>, nextId: nat)
    requires NoDuplicates(IdsOf(all)) && forall i :: 0 <= i < |all| ==> all[i].id < nextId
    ensures NoDuplicates(IdsOf(Retained(all)))
    ensures forall i :: 0 <= i < |Retained(all)| ==> Retained(all)[i].id < nextId
  {
    var keep := IdsOf(Newest(all));
    var kept := Retained(all);
    forall i, j | 0 <= i < j < |kept| ensures IdsOf(kept)[i] != IdsOf(kept)[j] {
      KeptIdsDistinct(all, KeepNewest(all), i, j);
    }
    forall i | 0 <= i < |kept| ensures kept[i].id < nextId {
      assert kept[i] in kept;
    }
  }
}
