/** The search box in the web client's header
    (`web/src/components/GlobalSearch.jsx`): typing a term lists up to six
    matching entries of a fixed catalogue of pages, equipment, compounds,
    reports and features; Enter or a click opens an entry's page. The
    300-millisecond delay before the list appears is collapsed: the state
    after typing is the state once the delay has passed. */
module GlobalSearch {
  import opened Wrappers
  import opened Seqs
  import opened Text

  /** A catalogue entry (its icon is left out). */
  datatype Item = Item(id: nat, title: string, category: string, path: string, description: string)

  /** The fixed catalogue. */
  const SearchData: seq<Item> := [
    Item(1, "Home", "Navigation", "/", "Return to main dashboard"),
    Item(2, "Analytics", "Navigation", "/analysis", "View equipment analytics"),
    Item(3, "Compounds", "Navigation", "/compounds", "Browse chemical compounds"),
    Item(4, "Reports", "Navigation", "/reports", "Generate and view reports"),
    Item(5, "Reactor Vessel", "Equipment", "/equipment/reactor", "Main chemical reactor unit"),
    Item(6, "Heat Exchanger", "Equipment", "/equipment/heat-exchanger", "Temperature control system"),
    Item(7, "Distillation Column", "Equipment", "/equipment/distillation", "Separation and purification"),
    Item(8, "Storage Tank", "Equipment", "/equipment/storage", "Chemical storage vessel"),
    Item(9, "Benzene", "Compound", "/compounds/benzene", "Aromatic hydrocarbon C₆H₆"),
    Item(10, "Ethanol", "Compound", "/compounds/ethanol", "Alcohol compound C₂H₅OH"),
    Item(11, "Methane", "Compound", "/compounds/methane", "Simple hydrocarbon CH₄"),
    Item(12, "Ammonia", "Compound", "/compounds/ammonia", "Nitrogen compound NH₃"),
    Item(13, "Equipment Analysis", "Report", "/reports/equipment", "Equipment performance report"),
    Item(14, "Safety Report", "Report", "/reports/safety", "Safety compliance report"),
    Item(15, "Quality Control", "Report", "/reports/quality", "Quality assurance report"),
    Item(16, "Maintenance Log", "Report", "/reports/maintenance", "Equipment maintenance report"),
    Item(17, "Real-time Monitoring", "Feature", "/features/monitoring", "Live equipment monitoring"),
    Item(18, "Predictive Analytics", "Feature", "/features/analytics", "AI-powered predictions"),
    Item(19, "Alert System", "Feature", "/features/alerts", "Real-time alerts"),
    Item(20, "Data Export", "Feature", "/features/export", "Export analysis data")
  ]

  /** At most this many suggestions are listed. */
  const MaxSuggestions: nat := 6

  /** The lower-cased term occurs in the lower-cased title, description or
      category. */
  predicate Matches(term: string, item: Item)
  {
    var t := Lower(term);
    Contains(Lower(item.title), t) || Contains(Lower(item.description), t) || Contains(Lower(item.category), t)
  }

  function MatchesBy(term: string): Item -> bool
  {
    item => Matches(term, item)
  }

  /** The suggestion list: the matching entries in catalogue order, the
      first six of them. */
  function Suggestions(items: seq<Item>, term: string): seq<Item>
  {
    Take(Filter(items, MatchesBy(term)), MaxSuggestions)
  }

  /** At most six suggestions, in catalogue order, each of them matching;
      no matching entry is left out while there is room: a matching entry
      with fewer than six matches before it in the catalogue is listed. */
  lemma SuggestionsFacts(items: seq<Item>, term: string)
    ensures |Suggestions(items, term)| <= MaxSuggestions
    ensures IsSubseq(Suggestions(items, term), items)
    ensures forall item :: item in Suggestions(items, term) ==> item in items && Matches(term, item)
    ensures |Filter(items, MatchesBy(term))| <= MaxSuggestions ==>
      forall item :: item in items && Matches(term, item) ==> item in Suggestions(items, term)
    ensures forall j :: 0 <= j < |items| && Matches(term, items[j]) && |Filter(items[..j], MatchesBy(term))| < MaxSuggestions ==>
      items[j] in Suggestions(items, term)
  {
    var found := Filter(items, MatchesBy(term));
    var shown := Suggestions(items, term);
    FilterIsSubseq(items, MatchesBy(term));
    PrefixIsSubseq(found, |shown|);
    SubseqTrans(shown, found, items);
    forall item | item in shown ensures item in found {
      var k :| 0 <= k < |shown| && shown[k] == item;
      assert found[k] == item;
    }
    if |found| <= MaxSuggestions {
      assert shown == found;
    }
    forall j | 0 <= j < |items| && Matches(term, items[j]) && |Filter(items[..j], MatchesBy(term))| < MaxSuggestions
      ensures items[j] in shown
    {
      var before := Filter(items[..j], MatchesBy(term));
      assert items == items[..j] + items[j..];
      FilterConcat(items[..j], items[j..], MatchesBy(term));
      assert items[j..][0] == items[j];
      assert Filter(items[j..], MatchesBy(term))[0] == items[j];
      assert found[|before|] == items[j];
      assert shown[|before|] == items[j];
    }
  }

  /** What the box shows: the term, whether the list is open and the list. */
  datatype SearchState = SearchState(term: string, open: bool, suggestions: seq<Item>)

  const Initial: SearchState := SearchState("", false, [])

  /** The effect run when the term changes: a non-empty term opens the list
      of its suggestions from `catalogue` (the component's `searchData`,
      `SearchData` above), an empty one closes and empties it. */
  function TermChanged(s: SearchState, term: string, catalogue: seq<Item>): (r: SearchState)
    ensures r.term == term
    ensures term == "" ==> !r.open && r.suggestions == [] && r == Initial
    ensures term != "" ==> r.open && r.suggestions == Suggestions(catalogue, term)
  {
    if |term| > 0 then SearchState(term, true, Suggestions(catalogue, term))
    else SearchState(term, false, [])
  }

  /** `handleSearch`: the entry's page is opened, the term cleared and the
      list closed; the term change then empties the list. */
  function Select(s: SearchState, item: Item): (r: (SearchState, string))
    ensures r.1 == item.path
    ensures forall catalogue :: r.0 == TermChanged(s, "", catalogue)
  {
    var cleared := s.(term := "", open := false);
    (SearchState(cleared.term, false, []), item.path)
  }

  /** The outcome of a key press: the new state and the page opened, if any. */
  datatype KeyOutcome = KeyOutcome(state: SearchState, navigate: Option<string>)

  /** `handleKeyDown`: Enter with a non-empty list selects its first entry,
      Escape closes the list, any other key changes nothing. */
  function KeyDown(s: SearchState, key: string): (r: KeyOutcome)
    ensures key == "Enter" && s.suggestions != [] ==>
      r.navigate == Some(s.suggestions[0].path) && r.state == Initial
    ensures key == "Escape" ==> r.navigate == None && r.state == s.(open := false)
    ensures r.navigate.Some? <==> key == "Enter" && s.suggestions != []
    ensures r.state != s ==> r.navigate.Some? || key == "Escape"
  {
    if key == "Enter" && |s.suggestions| > 0 then
      var (next, path) := Select(s, s.suggestions[0]);
      KeyOutcome(next, Some(path))
    else if key == "Escape" then KeyOutcome(s.(open := false), None)
    else KeyOutcome(s, None)
  }

  /** The list is non-empty exactly when some entry matches, and it starts
      with the first matching entry. */
  lemma FirstSuggestion(items: seq<Item>, term: string)
    ensures Suggestions(items, term) != [] <==> exists item :: item in items && Matches(term, item)
    ensures Suggestions(items, term) != [] ==> Suggestions(items, term)[0] == Filter(items, MatchesBy(term))[0]
  {
    var found := Filter(items, MatchesBy(term));
    if found != [] {
      assert found[0] in found;
    }
    if exists item :: item in items && Matches(term, item) {
      var item :| item in items && Matches(term, item);
      assert item in found;
    }
  }

  /** Typing a term and pressing Enter opens the page of the first matching
      catalogue entry, if there is one, and leaves the box empty. */
  lemma EnterOpensFirstMatch(s: SearchState, term: string, catalogue: seq<Item>)
    requires term != ""
    ensures var r := KeyDown(TermChanged(s, term, catalogue), "Enter");
      && (r.navigate.Some? <==> exists item :: item in catalogue && Matches(term, item))
      && (r.navigate.Some? ==>
            && Filter(catalogue, MatchesBy(term)) != []
            && r.navigate.value == Filter(catalogue, MatchesBy(term))[0].path
            && r.state == Initial)
  {
    FirstSuggestion(catalogue, term);
  }

  /** `getCategoryColor`. */
  function CategoryColor(category: string): string
  {
    match category
    case "Navigation" => "#667eea"
    case "Equipment" => "#764ba2"
    case "Compound" => "#f093fb"
    case "Report" => "#10b981"
    case "Feature" => "#f59e0b"
    case _ => "#6b7280"
  }

  const KnownCategories: set<string> := {"Navigation", "Equipment", "Compound", "Report", "Feature"}

  /** Every catalogue category has its own colour; any other category gets
      the grey default. */
  lemma CategoryColorTotal(category: string, other: string)
    ensures CategoryColor(category) == "#6b7280" <==> category !in KnownCategories
    ensures category in KnownCategories && other in KnownCategories && category != other ==>
      CategoryColor(category) != CategoryColor(other)
  {
  }
}
