/** frontend/src/components/ProjectsGrid.jsx: the grid's own search box and
    sort choice over the projects it is given. */
module ProjectsGrid {
  import opened Text
  import opened Lists
  import opened Ordering
  import opened Projects

  /** The grid's query test: the lowercased title, description or tech list
      joined by spaces contains `q`. */
  predicate GridMatches(v: View, q: string) {
    || Contains(Lower(v.row.title), q)
    || Contains(Lower(v.row.description), q)
    || Contains(Lower(Join(ListOrEmpty(v.row.tech), " ")), q)
  }

  predicate PassesGridQuery(v: View, query: string) {
    Trim(query) == "" || GridMatches(v, Lower(query))
  }

  /** The `filtered` memo: filter when the trimmed query is not empty, then
      sort a copy by votes ("top") or, for any other choice, by creation
      time. */
  function Grid(views: seq<View>, query: string, sort: string): seq<View> {
    var res := if Trim(query) != "" then Filter(views, v => GridMatches(v, Lower(query))) else views;
    if sort == "top" then SortDesc(res, VotesOrZero) else SortDesc(res, CreatedOf)
  }

  /** The grid shows exactly the projects that pass the query, as often as
      they were given; a blank query keeps every one. */
  lemma GridMembers(views: seq<View>, query: string, sort: string)
    ensures forall v :: (multiset(Grid(views, query, sort))[v] ==
      if PassesGridQuery(v, query) then multiset(views)[v] else 0)
    ensures Trim(query) == "" ==> multiset(Grid(views, query, sort)) == multiset(views)
  {
  }

  /** "top" orders by votes, a missing count as 0; every other choice by
      creation time, newest first. Ties keep the given order. */
  lemma GridOrder(views: seq<View>, query: string, sort: string, k: int)
    ensures sort == "top" ==> SortedDesc(Grid(views, query, sort), VotesOrZero)
    ensures sort != "top" ==> SortedDesc(Grid(views, query, sort), CreatedOf)
    ensures sort == "top" ==>
      WithKey(Grid(views, query, sort), VotesOrZero, k)
        == WithKey(if Trim(query) != "" then Filter(views, v => GridMatches(v, Lower(query))) else views, VotesOrZero, k)
    ensures sort != "top" ==>
      WithKey(Grid(views, query, sort), CreatedOf, k)
        == WithKey(if Trim(query) != "" then Filter(views, v => GridMatches(v, Lower(query))) else views, CreatedOf, k)
  {
    var res := if Trim(query) != "" then Filter(views, v => GridMatches(v, Lower(query))) else views;
    if sort == "top" {
      SortDescStable(res, VotesOrZero, k);
    } else {
      SortDescStable(res, CreatedOf, k);
    }
  }

  /** Each tag lowercased. */
  function LowerAll(parts: seq<string>): (r: seq<string>)
    ensures |r| == |parts|
    ensures forall i | 0 <= i < |parts| :: r[i] == Lower(parts[i])
  {
    seq(|parts|, i requires 0 <= i < |parts| => Lower(parts[i]))
  }

  lemma LowerAppend(a: string, b: string)
    ensures Lower(a + b) == Lower(a) + Lower(b)
  {
  }

  /** Lowercasing the joined list is joining the lowercased tags. */
  lemma {:induction false} LowerJoin(parts: seq<string>)
    ensures Lower(Join(parts, " ")) == Join(LowerAll(parts), " ")
  {
    if |parts| > 1 {
      LowerJoin(parts[1..]);
      assert LowerAll(parts)[1..] == LowerAll(parts[1..]);
      LowerAppend(parts[0], " ");
      LowerAppend(parts[0] + " ", Join(parts[1..], " "));
    }
  }

  /** A query found in one tech tag, ignoring case, finds the project. */
  lemma TechTagMatches(v: View, query: string, i: nat)
    requires i < |ListOrEmpty(v.row.tech)|
    requires Contains(Lower(ListOrEmpty(v.row.tech)[i]), Lower(query))
    ensures GridMatches(v, Lower(query))
  {
    var tags := ListOrEmpty(v.row.tech);
    LowerJoin(tags);
    JoinContainsParts(LowerAll(tags), " ", i, Lower(query));
  }
}
