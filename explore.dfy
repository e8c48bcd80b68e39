/** frontend/src/pages/Explore.jsx: the explore page's list logic. The page
    keeps the fetched listing, reconciles it with the answers of the toggles,
    collects the tag buttons, and derives the visible list from the query,
    the selected tag and the sort choice. */
module Explore {
  import opened Common
  import opened Text
  import opened Lists
  import opened Ordering
  import opened Projects
  import opened ProjectsGrid
  import opened Engagement

  // ---------------------------------------------------------------------------
  // Reconciling toggle answers

  function Voted(v: View, voted: bool): View {
    v.(row := v.row.(votes := Some(VotesOrZero(v) + if voted then 1 else -1)), voted := voted)
  }

  /** `handleUpvote(id)` once `toggleUpvote` has answered: a failed toggle is
      caught and changes nothing. */
  function ApplyVote(views: seq<View>, id: string, res: Result<bool>): seq<View> {
    if res.Err? then views
    else seq(|views|, i requires 0 <= i < |views| => if views[i].row.id == id then Voted(views[i], res.value) else views[i])
  }

  /** `handleStar(id)` once `toggleStar` has answered. */
  function ApplyStar(views: seq<View>, id: string, res: Result<bool>): seq<View> {
    if res.Err? then views
    else seq(|views|, i requires 0 <= i < |views| => if views[i].row.id == id then views[i].(starred := res.value) else views[i])
  }

  /** The vote update keeps length and order, changes only the projects with
      the id, and moves their count by one in the answered direction without
      clamping; every other field stays. */
  lemma ApplyVoteEffect(views: seq<View>, id: string, res: Result<bool>)
    ensures var r := ApplyVote(views, id, res);
      && |r| == |views|
      && (res.Err? ==> r == views)
      && forall i | 0 <= i < |views| ::
           && (views[i].row.id != id ==> r[i] == views[i])
           && (views[i].row.id == id && res.Ok? ==>
                 && r[i].voted == res.value
                 && VotesOrZero(r[i]) == VotesOrZero(views[i]) + (if res.value then 1 else -1)
                 && r[i].row.(votes := views[i].row.votes) == views[i].row
                 && r[i].(row := views[i].row, voted := views[i].voted) == views[i])
  {
  }

  /** The star update sets `starred` on the projects with the id only. */
  lemma ApplyStarEffect(views: seq<View>, id: string, res: Result<bool>)
    ensures var r := ApplyStar(views, id, res);
      && |r| == |views|
      && (res.Err? ==> r == views)
      && forall i | 0 <= i < |views| ::
           && (views[i].row.id != id ==> r[i] == views[i])
           && (views[i].row.id == id && res.Ok? ==> r[i] == views[i].(starred := res.value))
  {
  }

  /** An upvote followed by its withdrawal restores the count the page shows. */
  lemma VoteThenUnvote(views: seq<View>, id: string)
    ensures var r := ApplyVote(ApplyVote(views, id, Ok(true)), id, Ok(false));
      |r| == |views| && forall i | 0 <= i < |views| :: VotesOrZero(r[i]) == VotesOrZero(views[i])
  {
  }

  /** With the checked toggle the reconciled `voted` flag of the project is
      the store's truth: the pair is in the relation exactly when the page
      shows the project as voted. The as-written toggle does not give this
      (`ToggleMisreports`). */
  lemma VotedFlagMatchesStore(views: seq<View>, rows: set<Pair>, rejects: set<Op>, user: string, id: string)
    ensures var t := ToggleChecked(rows, rejects, Some(user), id);
      var r := ApplyVote(views, id, t.result);
      forall i | 0 <= i < |views| && views[i].row.id == id && t.result.Ok? ::
        r[i].voted <==> Pair(user, id) in t.rows
  {
    ToggleCheckedReportsMembership(rows, rejects, Some(user), id);
  }

  // ---------------------------------------------------------------------------
  // Tag buttons

  function TagsOf(v: View): seq<string> {
    ListOrEmpty(v.row.tech) + ListOrEmpty(v.row.languages)
  }

  /** `projects.flatMap(p => [...(p.tech || []), ...(p.languages || [])])`. */
  function FlatTags(views: seq<View>): seq<string> {
    if views == [] then [] else TagsOf(views[0]) + FlatTags(views[1..])
  }

  lemma {:induction false} FlatTagsMembers(views: seq<View>, t: string)
    ensures t in FlatTags(views) <==> exists i | 0 <= i < |views| :: t in TagsOf(views[i])
  {
    if views != [] {
      FlatTagsMembers(views[1..], t);
      if t in FlatTags(views[1..]) {
        var i :| 0 <= i < |views[1..]| && t in TagsOf(views[1..][i]);
        assert t in TagsOf(views[i + 1]);
      }
      if exists i | 0 <= i < |views| :: t in TagsOf(views[i]) {
        var i :| 0 <= i < |views| && t in TagsOf(views[i]);
        if i > 0 {
          assert t in TagsOf(views[1..][i - 1]);
        }
      }
    }
  }

  const MaxTagButtons := 15

  /** `Array.from(new Set(...)).slice(0, 15)`. */
  function AllTags(views: seq<View>): seq<string> {
    var d := Distinct(FlatTags(views));
    if |d| <= MaxTagButtons then d else d[..MaxTagButtons]
  }

  /** The tag buttons: at most 15 distinct tags, each a tech or language of
      some project, in the order of their first occurrence; with at most 15
      distinct tags every tag gets a button, and with more there are exactly
      15 buttons. No tag that first occurs before a shown one is left out,
      so the buttons are the first distinct tags. */
  lemma AllTagsShape(views: seq<View>)
    ensures var r := AllTags(views);
      && |r| <= MaxTagButtons
      && NoDuplicates(r)
      && (forall k | 0 <= k < |r| :: exists i | 0 <= i < |views| :: r[k] in TagsOf(views[i]))
      && (forall j, k | 0 <= j < k < |r| ::
            IndexOf(FlatTags(views), r[j]) < IndexOf(FlatTags(views), r[k]))
      && (|Distinct(FlatTags(views))| <= MaxTagButtons ==>
            forall i, t | 0 <= i < |views| && t in TagsOf(views[i]) :: t in r)
      && (|Distinct(FlatTags(views))| > MaxTagButtons ==> |r| == MaxTagButtons)
      && (forall k, t | 0 <= k < |r| && t in FlatTags(views) && IndexOf(FlatTags(views), t) <= IndexOf(FlatTags(views), r[k]) ::
            t in r)
  {
    var flat := FlatTags(views);
    var d := Distinct(flat);
    var r := AllTags(views);
    DistinctInFirstOccurrenceOrder(flat);
    assert forall k | 0 <= k < |r| :: r[k] == d[k];
    forall k | 0 <= k < |r| ensures exists i | 0 <= i < |views| :: r[k] in TagsOf(views[i]) {
      assert r[k] in d;
      FlatTagsMembers(views, r[k]);
    }
    forall i, t | 0 <= i < |views| && t in TagsOf(views[i]) && |d| <= MaxTagButtons ensures t in r {
      FlatTagsMembers(views, t);
    }
    DistinctPrefixClosed(flat, |r|);
    assert r == d[..|r|];
  }

  /** A tag button selects its tag, or clears the selection when it is the
      selected one. */
  function ClickTag(selected: Option<string>, tag: string): (r: Option<string>)
    ensures r.None? <==> selected == Some(tag)
    ensures r.Some? ==> r.value == tag
  {
    if selected == Some(tag) then None else Some(tag)
  }

  // ---------------------------------------------------------------------------
  // The visible list

  /** The query test: the lowercased title, description or author name
      contains `q`. */
  predicate MatchesQuery(v: View, q: string) {
    Contains(Lower(v.row.title), q) || Contains(Lower(v.row.description), q) || Contains(Lower(v.author.name), q)
  }

  /** The tag test: an exact member of the tech or the languages. */
  predicate HasTag(v: View, tag: string) {
    tag in ListOrEmpty(v.row.tech) || tag in ListOrEmpty(v.row.languages)
  }

  /** The search applies only to a query that is not blank, and then with the
      lowercased query as typed, surrounding spaces included. */
  predicate PassesQuery(v: View, query: string) {
    Trim(query) == "" || MatchesQuery(v, Lower(query))
  }

  predicate PassesTag(v: View, selectedTag: Option<string>) {
    !Truthy(selectedTag) || HasTag(v, selectedTag.value)
  }

  /** The two filters of the effect: by query, then by tag. */
  function Narrowed(views: seq<View>, query: string, selectedTag: Option<string>): seq<View> {
    var byQuery := if Trim(query) != "" then Filter(views, v => MatchesQuery(v, Lower(query))) else views;
    if Truthy(selectedTag) then Filter(byQuery, v => HasTag(v, selectedTag.value)) else byQuery
  }

  /** The filter/sort effect: filter by query, then by tag, then sort a copy
      by votes ("trending") or by creation time ("newest"). */
  function Visible(views: seq<View>, query: string, sort: string, selectedTag: Option<string>): seq<View> {
    var narrowed := Narrowed(views, query, selectedTag);
    if sort == "trending" then SortDesc(narrowed, VotesOrZero)
    else if sort == "newest" then SortDesc(narrowed, CreatedOf)
    else narrowed
  }

  /** The visible list holds exactly the projects that pass both filters, as
      often as in the listing. */
  lemma VisibleMembers(views: seq<View>, query: string, sort: string, selectedTag: Option<string>)
    ensures forall v :: (multiset(Visible(views, query, sort, selectedTag))[v] ==
      if PassesQuery(v, query) && PassesTag(v, selectedTag) then multiset(views)[v] else 0)
  {
    FilterSteps(views, query, selectedTag);
    assert multiset(Visible(views, query, sort, selectedTag)) == multiset(Narrowed(views, query, selectedTag));
  }

  /** "trending" puts the most votes first, counting missing votes as 0;
      "newest" the latest creation time first; any other choice keeps the
      listing's order. Sorting is stable. */
  lemma VisibleOrder(views: seq<View>, query: string, sort: string, selectedTag: Option<string>, k: int)
    ensures sort == "trending" ==> SortedDesc(Visible(views, query, sort, selectedTag), VotesOrZero)
    ensures sort == "newest" ==> SortedDesc(Visible(views, query, sort, selectedTag), CreatedOf)
    ensures sort == "trending" ==>
      WithKey(Visible(views, query, sort, selectedTag), VotesOrZero, k)
        == WithKey(Filter(views, v => PassesQuery(v, query) && PassesTag(v, selectedTag)), VotesOrZero, k)
    ensures sort == "newest" ==>
      WithKey(Visible(views, query, sort, selectedTag), CreatedOf, k)
        == WithKey(Filter(views, v => PassesQuery(v, query) && PassesTag(v, selectedTag)), CreatedOf, k)
    ensures sort != "trending" && sort != "newest" ==>
      Visible(views, query, sort, selectedTag) == Filter(views, v => PassesQuery(v, query) && PassesTag(v, selectedTag))
  {
    FilterSteps(views, query, selectedTag);
    var narrowed := Narrowed(views, query, selectedTag);
    if sort == "trending" {
      SortDescStable(narrowed, VotesOrZero, k);
    } else if sort == "newest" {
      SortDescStable(narrowed, CreatedOf, k);
    }
  }

  lemma FilterSteps(views: seq<View>, query: string, selectedTag: Option<string>)
    ensures Narrowed(views, query, selectedTag) == Filter(views, v => PassesQuery(v, query) && PassesTag(v, selectedTag))
  {
    var both := (v: View) => PassesQuery(v, query) && PassesTag(v, selectedTag);
    if Trim(query) != "" && Truthy(selectedTag) {
      FilterTwice(views, v => MatchesQuery(v, Lower(query)), v => HasTag(v, selectedTag.value), both);
    } else if Trim(query) != "" {
      FilterSame(views, v => MatchesQuery(v, Lower(query)), both);
    } else if Truthy(selectedTag) {
      FilterSame(views, v => HasTag(v, selectedTag.value), both);
    } else {
      FilterAll(views, both);
    }
  }

  lemma {:induction false} FilterTwice(s: seq<View>, f: View -> bool, g: View -> bool, h: View -> bool)
    requires forall v :: h(v) == (f(v) && g(v))
    ensures Filter(Filter(s, f), g) == Filter(s, h)
  {
    if s != [] {
      var rest := Filter(s[1..], f);
      FilterTwice(s[1..], f, g, h);
      assert Filter(s, f) == (if f(s[0]) then [s[0]] else []) + rest;
      assert Filter(s, h) == (if h(s[0]) then [s[0]] else []) + Filter(s[1..], h);
      if f(s[0]) {
        FilterCons(s[0], rest, g);
      } else {
        assert Filter(s, f) == rest;
      }
    }
  }

  lemma {:induction false} FilterSame(s: seq<View>, f: View -> bool, h: View -> bool)
    requires forall v :: h(v) == f(v)
    ensures Filter(s, f) == Filter(s, h)
  {
    if s != [] {
      FilterSame(s[1..], f, h);
    }
  }

  /** The query is not trimmed before the match: a query holding a space,
      such as " re", hides every project whose title, description and author
      name hold none, even where the trimmed query would match. */
  lemma QueryKeepsSpaces(v: View, query: string)
    requires ' ' in query && Trim(query) != ""
    requires ' ' !in v.row.title && ' ' !in v.row.description && ' ' !in v.author.name
    ensures !PassesQuery(v, query)
  {
    var i :| 0 <= i < |query| && query[i] == ' ';
    assert Lower(query)[i] == ' ';
    LowerKeepsOutSpace(v.row.title);
    LowerKeepsOutSpace(v.row.description);
    LowerKeepsOutSpace(v.author.name);
    ContainsNeedsChar(Lower(v.row.title), Lower(query), ' ');
    ContainsNeedsChar(Lower(v.row.description), Lower(query), ' ');
    ContainsNeedsChar(Lower(v.author.name), Lower(query), ' ');
  }

  lemma LowerKeepsOutSpace(s: string)
    requires ' ' !in s
    ensures ' ' !in Lower(s)
  {
  }

  // ---------------------------------------------------------------------------
  // The page state

  /** The page's React state. `filtered` is what the effect last derived; the
      effect runs after every change of the listing, the query, the sort
      choice or the selected tag, so each handler below ends with it. */
  class Page {
    var query: string
    var sort: string
    var selectedTag: Option<string>
    var projects: seq<View>
    var filtered: seq<View>

    /** The derived list agrees with the state it derives from. */
    ghost predicate Synced()
      reads this
    {
      filtered == Visible(projects, query, sort, selectedTag)
    }

    /** The initial state: empty query, "trending", no tag, an empty listing. */
    constructor()
      ensures query == "" && sort == "trending" && selectedTag == None
      ensures projects == [] && filtered == []
      ensures Synced()
    {
      query, sort, selectedTag := "", "trending", None;
      projects, filtered := [], [];
    }

    /** The filter/sort effect: narrow a copy of the listing step by step,
        then sort it. */
    method Refilter()
      modifies this`filtered
      ensures filtered == Visible(projects, query, sort, selectedTag)
    {
      var results := projects;
      var typed := query;
      if Trim(typed) != "" {
        results := Filter(results, v => MatchesQuery(v, Lower(typed)));
      }
      if Truthy(selectedTag) {
        var tag := selectedTag.value;
        results := Filter(results, v => HasTag(v, tag));
      }
      if sort == "trending" {
        results := SortDesc(results, VotesOrZero);
      } else if sort == "newest" {
        results := SortDesc(results, CreatedOf);
      }
      filtered := results;
    }

    /** `loadData`: a fetched listing replaces the old one; a failed fetch is
        caught and changes nothing. */
    method Loaded(data: Result<seq<View>>)
      modifies this`projects, this`filtered
      ensures projects == if data.Ok? then data.value else old(projects)
      ensures Synced()
    {
      if data.Ok? {
        projects := data.value;
      }
      Refilter();
    }

    /** `handleUpvote` with the toggle's answer. */
    method HandleUpvote(id: string, res: Result<bool>)
      modifies this`projects, this`filtered
      ensures projects == ApplyVote(old(projects), id, res)
      ensures Synced()
    {
      projects := ApplyVote(projects, id, res);
      Refilter();
    }

    /** `handleStar` with the toggle's answer. */
    method HandleStar(id: string, res: Result<bool>)
      modifies this`projects, this`filtered
      ensures projects == ApplyStar(old(projects), id, res)
      ensures Synced()
    {
      projects := ApplyStar(projects, id, res);
      Refilter();
    }

    method SetQuery(q: string)
      modifies this`query, this`filtered
      ensures query == q
      ensures Synced()
    {
      query := q;
      Refilter();
    }

    method SetSort(choice: string)
      modifies this`sort, this`filtered
      ensures sort == choice
      ensures Synced()
    {
      sort := choice;
      Refilter();
    }

    /** A click on a tag button. */
    method ClickTagButton(tag: string)
      modifies this`selectedTag, this`filtered
      ensures selectedTag == ClickTag(old(selectedTag), tag)
      ensures Synced()
    {
      selectedTag := ClickTag(selectedTag, tag);
      Refilter();
    }
  }

  // ---------------------------------------------------------------------------
  // The page and its grid

  /** The page hands `filtered` to the grid, which sorts it again with its own
      choice ("latest" at first), so the list on screen is ordered by the
      grid's choice whatever the page's sort choice is. */
  lemma ShownOrderIsTheGrids(views: seq<View>, query: string, sort: string, selectedTag: Option<string>,
                              gridQuery: string, gridSort: string)
    ensures var shown := Grid(Visible(views, query, sort, selectedTag), gridQuery, gridSort);
      && (gridSort == "top" ==> SortedDesc(shown, VotesOrZero))
      && (gridSort != "top" ==> SortedDesc(shown, CreatedOf))
  {
    GridOrder(Visible(views, query, sort, selectedTag), gridQuery, gridSort, 0);
  }

  /** With the grid's query blank and its sort at "latest", the page's
      "newest" order reaches the screen unchanged. */
  lemma NewestSurvivesGrid(views: seq<View>, query: string, selectedTag: Option<string>, gridQuery: string)
    requires Trim(gridQuery) == ""
    ensures Grid(Visible(views, query, "newest", selectedTag), gridQuery, "latest") == Visible(views, query, "newest", selectedTag)
  {
    SortDescOfSorted(Visible(views, query, "newest", selectedTag), CreatedOf);
  }

  function ExampleView(id: string, votes: Option<int>, createdAt: int): View {
    View(Project(id, None, id, "", None, None, None, createdAt, votes), Author("Unknown", None), false, false, None, None)
  }

  /** With "trending" chosen on the page and the grid at "latest", an older
      project with five votes is shown after a newer one with none. */
  lemma TrendingNotShown()
    ensures var older, newer := ExampleView("a", Some(5), 1), ExampleView("b", None, 2);
      && Visible([older, newer], "", "trending", None) == [older, newer]
      && Grid(Visible([older, newer], "", "trending", None), "", "latest") == [newer, older]
  {
    var older, newer := ExampleView("a", Some(5), 1), ExampleView("b", None, 2);
    var both := [older, newer];
    assert both[1..] == [newer] && [newer][1..] == [];
    assert Trim("") == "";
    assert SortDesc([newer], VotesOrZero) == [newer];
    assert InsertDesc(older, [newer], VotesOrZero) == both;
    assert Visible(both, "", "trending", None) == both;
    assert SortDesc([newer], CreatedOf) == [newer];
    assert InsertDesc(older, [], CreatedOf) == [older];
    assert InsertDesc(older, [newer], CreatedOf) == [newer, older];
  }
}
