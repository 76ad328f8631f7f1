/** The compound and report pages of the web client (`web/src/App.js`): the
    compound list filtered by a search box and a category, the report list
    made of six built-in reports and the reports saved in the browser's
    storage, sorted newest first and filtered by a search box and a type,
    and the store that the analytics page saves reports into. Dates are
    day numbers written `yyyymmdd`, so that their order as integers is the
    calendar order; the clock reading that gives a saved report its id and
    date is a parameter. */
module Reports {
  import opened Wrappers
  import opened Seqs
  import opened Text

  // ---- Compounds ----

  datatype Compound = Compound(name: string, formula: string, category: string)

  /** The category chooser's "no restriction" entry, shared by the type
      chooser of the report page. */
  const AllCategories: string := "all"

  /** The search term, lower-cased, occurs in the lower-cased name or
      formula, and the category is "all" or the compound's own. */
  predicate CompoundShown(term: string, category: string, c: Compound)
  {
    && (Contains(Lower(c.name), Lower(term)) || Contains(Lower(c.formula), Lower(term)))
    && (category == AllCategories || c.category == category)
  }

  function CompoundShownBy(term: string, category: string): Compound -> bool
  {
    c => CompoundShown(term, category, c)
  }

  /** `filteredCompounds`. */
  function FilteredCompounds(compounds: seq<Compound>, term: string, category: string): seq<Compound>
  {
    Filter(compounds, CompoundShownBy(term, category))
  }

  /** The filter keeps exactly the matching compounds, in their order; with
      an empty search and "all" it keeps every compound. */
  lemma FilteredCompoundsFacts(compounds: seq<Compound>, term: string, category: string)
    ensures IsSubseq(FilteredCompounds(compounds, term, category), compounds)
    ensures forall c :: c in FilteredCompounds(compounds, term, category) <==>
      c in compounds && CompoundShown(term, category, c)
    ensures term == "" && category == AllCategories ==> FilteredCompounds(compounds, term, category) == compounds
  {
    FilterIsSubseq(compounds, CompoundShownBy(term, category));
    if term == "" && category == AllCategories {
      forall c | c in compounds ensures CompoundShown(term, category, c) {
        EmptyContained(Lower(c.name));
      }
      FilterAll(compounds, CompoundShownBy(term, category));
    }
  }

  // ---- Reports ----

  datatype Report = Report(
    id: int, title: string, kind: string, date: int, status: string,
    description: string, datasets: int, anomalies: int, accuracy: string,
    downloadUrl: string, icon: string, content: string, data: Option<string>)

  function Builtin(id: int, title: string, kind: string, date: int, status: string,
                   description: string, datasets: int, anomalies: int, accuracy: string, icon: string): Report
  {
    Report(id, title, kind, date, status, description, datasets, anomalies, accuracy, "#", icon, "", None)
  }

  /** The six built-in reports. */
  const DefaultReports: seq<Report> := [
    Builtin(1, "Equipment Performance Analysis", "performance", 20240115, "completed",
      "Comprehensive analysis of equipment performance metrics and efficiency indicators", 12, 3, "98.5%", "📊"),
    Builtin(2, "Anomaly Detection Report", "anomaly", 20240114, "completed",
      "AI-powered anomaly detection with statistical analysis and risk assessment", 8, 7, "96.2%", "🚨"),
    Builtin(3, "Chemical Composition Analysis", "chemical", 20240113, "completed",
      "Detailed chemical composition analysis with quality control metrics", 15, 2, "99.1%", "🧪"),
    Builtin(4, "Trend Analysis Report", "trend", 20240112, "completed",
      "Long-term trend analysis with predictive modeling and forecasting", 24, 8, "94.7%", "📈"),
    Builtin(5, "Safety Compliance Report", "safety", 20240111, "scheduled",
      "Safety compliance assessment with regulatory standards verification", 15, 1, "100%", "🛡️"),
    Builtin(6, "Maintenance Optimization Report", "maintenance", 20240110, "completed",
      "Maintenance schedule optimization with cost-benefit analysis", 10, 4, "97.3%", "🔧")
  ]

  /** The sort's comparison: `a` goes before `b` when it is not older. */
  predicate NewerDate(a: Report, b: Report)
  {
    a.date >= b.date
  }

  lemma NewerDateIsTotalPreorder()
    ensures TotalPreorder(NewerDate)
  {
  }

  /** Reports merged and sorted newest first. */
  function NewestFirst(reports: seq<Report>): seq<Report>
  {
    NewerDateIsTotalPreorder();
    SortBy(reports, NewerDate)
  }

  /** `allReports`: the built-in reports and then the saved ones, newest
      first. */
  function AllReports(saved: seq<Report>): seq<Report>
  {
    NewestFirst(DefaultReports + saved)
  }

  lemma NewestFirstFacts(reports: seq<Report>)
    ensures |NewestFirst(reports)| == |reports|
    ensures multiset(NewestFirst(reports)) == multiset(reports)
    ensures forall i, j :: 0 <= i < j < |NewestFirst(reports)| ==> NewestFirst(reports)[i].date >= NewestFirst(reports)[j].date
  {
    NewerDateIsTotalPreorder();
  }

  /** Six built-in reports plus every saved one, each exactly as often as
      it occurs, newest first. */
  lemma AllReportsFacts(saved: seq<Report>)
    ensures |AllReports(saved)| == 6 + |saved|
    ensures multiset(AllReports(saved)) == multiset(DefaultReports) + multiset(saved)
    ensures forall r :: r in saved ==> r in AllReports(saved)
    ensures forall i, j :: 0 <= i < j < |AllReports(saved)| ==> AllReports(saved)[i].date >= AllReports(saved)[j].date
  {
    NewestFirstFacts(DefaultReports + saved);
    forall r | r in saved ensures r in AllReports(saved) {
      assert r in multiset(AllReports(saved));
    }
  }

  /** The search term, lower-cased, occurs in the lower-cased title, and the
      type is "all" or the report's own. */
  predicate ReportShown(term: string, kind: string, r: Report)
  {
    Contains(Lower(r.title), Lower(term)) && (kind == AllCategories || r.kind == kind)
  }

  function ReportShownBy(term: string, kind: string): Report -> bool
  {
    r => ReportShown(term, kind, r)
  }

  /** `filteredReports`. */
  function FilteredReports(reports: seq<Report>, term: string, kind: string): seq<Report>
  {
    Filter(reports, ReportShownBy(term, kind))
  }

  /** The report filter keeps exactly the matching reports, still newest
      first; with an empty search and "all" it keeps every report. */
  lemma FilteredReportsFacts(saved: seq<Report>, term: string, kind: string)
    ensures IsSubseq(FilteredReports(AllReports(saved), term, kind), AllReports(saved))
    ensures forall r :: r in FilteredReports(AllReports(saved), term, kind) <==>
      r in AllReports(saved) && ReportShown(term, kind, r)
    ensures SortedBy(FilteredReports(AllReports(saved), term, kind), NewerDate)
    ensures term == "" && kind == AllCategories ==> FilteredReports(AllReports(saved), term, kind) == AllReports(saved)
  {
    var all := AllReports(saved);
    NewerDateIsTotalPreorder();
    FilterIsSubseq(all, ReportShownBy(term, kind));
    FilterSorted(all, ReportShownBy(term, kind), NewerDate);
    if term == "" && kind == AllCategories {
      forall r | r in all ensures ReportShown(term, kind, r) {
        EmptyContained(Lower(r.title));
      }
      FilterAll(all, ReportShownBy(term, kind));
    }
  }

  // ---- Status badges ----

  const KnownStatuses: set<string> := {"completed", "processing", "scheduled"}
  const DefaultColor: string := "#6b7280"
  const DefaultIcon: string := "❓"

  /** `getStatusColor`. */
  function StatusColor(status: string): string
  {
    match status
    case "completed" => "#10b981"
    case "processing" => "#f59e0b"
    case "scheduled" => "#6366f1"
    case _ => DefaultColor
  }

  /** `getStatusIcon`. */
  function StatusIcon(status: string): string
  {
    match status
    case "completed" => "✅"
    case "processing" => "⏳"
    case "scheduled" => "📅"
    case _ => DefaultIcon
  }

  /** Both maps fall back to their default exactly for the statuses they do
      not know, and they tell the known statuses apart. */
  lemma StatusMapsTotal(status: string, other: string)
    ensures StatusColor(status) == DefaultColor <==> status !in KnownStatuses
    ensures StatusIcon(status) == DefaultIcon <==> status !in KnownStatuses
    ensures status in KnownStatuses && other in KnownStatuses && status != other ==>
      StatusColor(status) != StatusColor(other) && StatusIcon(status) != StatusIcon(other)
  {
  }

  // ---- Saving reports ----

  /** What the analytics page hands to `saveFosseReport`; a missing field
      is `None`, and an empty text or a zero count is falsy as well. */
  datatype ReportInput = ReportInput(
    title: Option<string>, kind: Option<string>, description: Option<string>,
    datasets: Option<int>, anomalies: Option<int>, accuracy: Option<string>,
    icon: Option<string>, content: Option<string>, data: Option<string>)

  function TextOr(v: Option<string>, fallback: string): (r: string)
    ensures v.Some? && v.value != "" ==> r == v.value
    ensures v.None? || v.value == "" ==> r == fallback
  {
    if v.Some? && v.value != "" then v.value else fallback
  }

  function CountOr(v: Option<int>, fallback: int): (r: int)
    ensures v.Some? && v.value != 0 ==> r == v.value
    ensures v.None? || v.value == 0 ==> r == fallback
  {
    if v.Some? && v.value != 0 then v.value else fallback
  }

  const DefaultTitle: string := "Analytics Report"
  const DefaultDescription: string := "Real-time equipment analysis report generated from analytics dashboard"

  /** The report `saveFosseReport` builds: the clock gives its id and date,
      it is always completed and links to `#`, and every falsy field takes
      its default. */
  function NewReport(input: ReportInput, now: int, today: int): Report
  {
    Report(
      now, TextOr(input.title, DefaultTitle), TextOr(input.kind, "analytics"), today, "completed",
      TextOr(input.description, DefaultDescription),
      CountOr(input.datasets, 1), CountOr(input.anomalies, 0), TextOr(input.accuracy, "95.0%"),
      "#", TextOr(input.icon, "📊"), TextOr(input.content, ""),
      if input.data.Some? && input.data.value != "" then input.data else None)
  }

  /** A new report is completed, dated today and downloadable from `#`; a
      zero or missing count of datasets becomes one, and a missing or empty
      title becomes "Analytics Report". */
  lemma NewReportDefaults(input: ReportInput, now: int, today: int)
    ensures var r := NewReport(input, now, today);
      && r.status == "completed" && r.downloadUrl == "#" && r.id == now && r.date == today
      && (input.datasets.None? || input.datasets.value == 0 ==> r.datasets == 1)
      && (input.datasets.Some? && input.datasets.value != 0 ==> r.datasets == input.datasets.value)
      && (input.title.None? || input.title.value == "" ==> r.title == DefaultTitle)
      && (input.title.Some? && input.title.value != "" ==> r.title == input.title.value)
      && StatusColor(r.status) == "#10b981" && StatusIcon(r.status) == "✅"
  {
  }

  /** The browser storage entry holding the saved reports. */
  class ReportStore {
    var reports: seq<Report>

    constructor (reports: seq<Report>)
      ensures this.reports == reports
    {
      this.reports := reports;
    }

    /** `window.saveFosseReport`: the new report is appended to the stored
        list and returned. */
    method Save(input: ReportInput, now: int, today: int) returns (saved: Report)
      modifies this
      ensures saved == NewReport(input, now, today)
      ensures reports == old(reports) + [saved]
    {
      var existing := reports;
      saved := NewReport(input, now, today);
      existing := existing + [saved];
      reports := existing;
    }

    /** `localStorage.removeItem`. */
    method Remove()
      modifies this
      ensures reports == []
    {
      reports := [];
    }
  }

  /** The report page's copy of the saved reports. */
  class ReportsPage {
    const store: ReportStore
    var saved: seq<Report>

    /** The page reads the store when it is first shown. */
    constructor (store: ReportStore)
      ensures this.store == store && saved == store.reports
    {
      this.store := store;
      saved := store.reports;
    }

    /** `refreshReports`: the page's copy becomes the stored list. */
    method Refresh()
      modifies this
      ensures saved == store.reports
    {
      saved := store.reports;
    }

    /** `handleClearSavedReports`: only when the user confirms are the store
        and the page's copy emptied; otherwise nothing changes. */
    method ClearSaved(confirmed: bool)
      modifies this, store
      ensures confirmed ==> saved == [] && store.reports == []
      ensures !confirmed ==> saved == old(saved) && store.reports == old(store.reports)
    {
      if confirmed {
        store.Remove();
        saved := [];
      }
    }
  }

  /** A saved report, once the page has refreshed, is listed among all
      reports, which grow by one. */
  lemma SavedReportListed(saved: seq<Report>, r: Report)
    ensures r in AllReports(saved + [r])
    ensures |AllReports(saved + [r])| == |AllReports(saved)| + 1
  {
    AllReportsFacts(saved + [r]);
    AllReportsFacts(saved);
  }

  /** After a confirmed clear only the six built-in reports are listed. */
  lemma ClearedListsBuiltins()
    ensures |AllReports([])| == 6
    ensures multiset(AllReports([])) == multiset(DefaultReports)
  {
    AllReportsFacts([]);
  }
}
