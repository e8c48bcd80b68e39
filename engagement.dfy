/** The engagement relations `project_upvotes` and `project_stars`: a row says
    that a user upvoted (or starred) a project, and the store keeps at most
    one row per (user, project) pair. The toggle of
    frontend/src/lib/api/upvotes.js and frontend/src/lib/api/stars.js is one
    algorithm over either relation, modelled once here. */
module Engagement {
  import opened Common

  datatype Pair = Pair(user: string, project: string)

  /** The answer to a write and the relation's rows afterwards. */
  datatype Changed = Changed(result: Result<()>, rows: set<Pair>)

  /** The answer to a toggle and the relation's rows afterwards. */
  datatype Toggled = Toggled(result: Result<bool>, rows: set<Pair>)

  /** `insert({user_id, project_id})`: the uniqueness constraint refuses a
      pair that is already there. */
  function InsertPair(rows: set<Pair>, rejects: set<Op>, p: Pair): (c: Changed)
    ensures c.result.Ok? <==> Insert !in rejects && p !in rows
    ensures c.rows == if c.result.Ok? then rows + {p} else rows
  {
    if Insert in rejects then Changed(Err(Rejected(Insert)), rows)
    else if p in rows then Changed(Err(DuplicateKey), rows)
    else Changed(Ok(()), rows + {p})
  }

  /** `delete().eq(...)`: deleting a pair that is not there affects no row
      and is not an error. */
  function DeletePair(rows: set<Pair>, rejects: set<Op>, p: Pair): (c: Changed)
    ensures c.result.Ok? <==> Delete !in rejects
    ensures c.rows == if c.result.Ok? then rows - {p} else rows
  {
    if Delete in rejects then Changed(Err(Rejected(Delete)), rows)
    else Changed(Ok(()), rows - {p})
  }

  /** The toggle as written: the session user's id is read without a check,
      the lookup's `.single()` only yields a row when exactly one matches, and
      the answers of the delete and the insert are never inspected. */
  function Toggle(rows: set<Pair>, rejects: set<Op>, user: Option<string>, project: string): Toggled {
    match user
    case None => Toggled(Err(NullUser), rows)
    case Some(u) =>
      var p := Pair(u, project);
      if SelectPair !in rejects && p in rows then Toggled(Ok(false), DeletePair(rows, rejects, p).rows)
      else Toggled(Ok(true), InsertPair(rows, rejects, p).rows)
  }

  /** The toggle with the store's answers checked: an error of the lookup, the
      delete or the insert is passed on instead of a made-up new state. */
  function ToggleChecked(rows: set<Pair>, rejects: set<Op>, user: Option<string>, project: string): Toggled {
    match user
    case None => Toggled(Err(NotLoggedIn), rows)
    case Some(u) =>
      var p := Pair(u, project);
      if SelectPair in rejects then Toggled(Err(Rejected(SelectPair)), rows)
      else
        var c := if p in rows then DeletePair(rows, rejects, p) else InsertPair(rows, rejects, p);
        if c.result.Err? then Toggled(Err(c.result.error), rows)
        else Toggled(Ok(p !in rows), c.rows)
  }

  /** The as-written toggle reports a new state even when the store refused
      the write: with inserts rejected it answers `true` and no row exists. */
  lemma ToggleMisreports()
    ensures var t := Toggle({}, {Insert}, Some("ana"), "p1");
      t.result == Ok(true) && Pair("ana", "p1") !in t.rows
  {
  }

  /** The checked toggle's answer is the pair's membership afterwards, and
      the relation changes in that one pair; on an error nothing changes. */
  lemma ToggleCheckedReportsMembership(rows: set<Pair>, rejects: set<Op>, user: Option<string>, project: string)
    ensures var t := ToggleChecked(rows, rejects, user, project);
      && (t.result.Ok? ==>
            && user.Some?
            && var p := Pair(user.value, project);
            && t.result.value == (p !in rows)
            && (p in t.rows <==> t.result.value)
            && t.rows == if t.result.value then rows + {p} else rows - {p})
      && (t.result.Err? ==> t.rows == rows)
      && (user.None? <==> t.result == Err(NotLoggedIn))
  {
  }

  /** When the store answers every call, the as-written toggle and the checked
      one agree on a signed-in user. */
  lemma ToggleAgreesWhenStoreAnswers(rows: set<Pair>, user: string, project: string)
    ensures Toggle(rows, {}, Some(user), project) == ToggleChecked(rows, {}, Some(user), project)
  {
  }

  /** Whatever the store answers, a toggle touches no pair but its own. */
  lemma ToggleTouchesOnlyItsPair(rows: set<Pair>, rejects: set<Op>, user: string, project: string, q: Pair)
    requires q != Pair(user, project)
    ensures q in Toggle(rows, rejects, Some(user), project).rows <==> q in rows
    ensures q in ToggleChecked(rows, rejects, Some(user), project).rows <==> q in rows
  {
  }

  /** Two successful checked toggles in a row answer opposite values and
      leave the relation as it was. */
  lemma ToggleTwiceRestores(rows: set<Pair>, rejects: set<Op>, user: Option<string>, project: string)
    requires ToggleChecked(rows, rejects, user, project).result.Ok?
    requires
      var t := ToggleChecked(rows, rejects, user, project);
      ToggleChecked(t.rows, rejects, user, project).result.Ok?
    ensures
      var t := ToggleChecked(rows, rejects, user, project);
      var t' := ToggleChecked(t.rows, rejects, user, project);
      t'.rows == rows && t'.result.value == !t.result.value
  {
    ToggleCheckedReportsMembership(rows, rejects, user, project);
    var t := ToggleChecked(rows, rejects, user, project);
    ToggleCheckedReportsMembership(t.rows, rejects, user, project);
  }

  /** With the store answering every call, the as-written toggle alternates
      too: toggling twice restores the relation. */
  lemma ToggleTwiceRestoresWhenStoreAnswers(rows: set<Pair>, user: string, project: string)
    ensures
      var t := Toggle(rows, {}, Some(user), project);
      var t' := Toggle(t.rows, {}, Some(user), project);
      t'.rows == rows && t.result.value != t'.result.value
  {
    ToggleAgreesWhenStoreAnswers(rows, user, project);
    var t := Toggle(rows, {}, Some(user), project);
    ToggleAgreesWhenStoreAnswers(t.rows, user, project);
    ToggleTwiceRestores(rows, {}, Some(user), project);
  }

  /** Adding a fresh pair and deleting it again restores the relation. */
  lemma InsertThenDeleteRestores(rows: set<Pair>, rejects: set<Op>, p: Pair)
    requires InsertPair(rows, rejects, p).result.Ok?
    requires DeletePair(InsertPair(rows, rejects, p).rows, rejects, p).result.Ok?
    ensures DeletePair(InsertPair(rows, rejects, p).rows, rejects, p).rows == rows
  {
  }

  /** The projects `user` engaged with. */
  function ProjectIdsOf(rows: set<Pair>, user: string): (r: set<string>)
    ensures forall id :: id in r <==> Pair(user, id) in rows
  {
    set q | q in rows && q.user == user :: q.project
  }

  /** One of the relation tables of the store. */
  class RelationTable {
    var rows: set<Pair>
    /** The calls the store currently answers with an error. */
    var rejects: set<Op>

    /** `select("*").eq("user_id", ..).eq("project_id", ..).single()`. */
    method FindPair(p: Pair) returns (r: Result<bool>)
      ensures r == if SelectPair in rejects then Err(Rejected(SelectPair)) else Ok(p in rows)
    {
      if SelectPair in rejects {
        r := Err(Rejected(SelectPair));
      } else {
        r := Ok(p in rows);
      }
    }

    method AddPair(p: Pair) returns (r: Result<()>)
      modifies this`rows
      ensures Changed(r, rows) == InsertPair(old(rows), rejects, p)
    {
      var c := InsertPair(rows, rejects, p);
      r, rows := c.result, c.rows;
    }

    method RemovePair(p: Pair) returns (r: Result<()>)
      modifies this`rows
      ensures Changed(r, rows) == DeletePair(old(rows), rejects, p)
    {
      var c := DeletePair(rows, rejects, p);
      r, rows := c.result, c.rows;
    }

    /** `select("project_id").eq("user_id", user)`, as a set of project ids. */
    method ProjectsOf(user: string) returns (r: Result<set<string>>)
      ensures r == if SelectByUser in rejects then Err(Rejected(SelectByUser)) else Ok(ProjectIdsOf(rows, user))
    {
      if SelectByUser in rejects {
        r := Err(Rejected(SelectByUser));
      } else {
        r := Ok(ProjectIdsOf(rows, user));
      }
    }
  }

  /** `toggleUpvote` / `toggleStar`: look the pair up, then delete it or
      insert it, without inspecting either write's answer. */
  method ToggleRelation(t: RelationTable, user: Option<string>, project: string) returns (r: Result<bool>)
    modifies t`rows
    ensures Toggled(r, t.rows) == Toggle(old(t.rows), t.rejects, user, project)
  {
    if user.None? {
      return Err(NullUser);
    }
    var p := Pair(user.value, project);
    var existing := t.FindPair(p);
    if existing == Ok(true) {
      var _ := t.RemovePair(p);
      return Ok(false);
    }
    var _ := t.AddPair(p);
    r := Ok(true);
  }

  /** The toggle with every answer checked; the rest of the model uses it. */
  method ToggleRelationChecked(t: RelationTable, user: Option<string>, project: string) returns (r: Result<bool>)
    modifies t`rows
    ensures Toggled(r, t.rows) == ToggleChecked(old(t.rows), t.rejects, user, project)
  {
    if user.None? {
      return Err(NotLoggedIn);
    }
    var p := Pair(user.value, project);
    var existing := t.FindPair(p);
    if existing.Err? {
      return Err(existing.error);
    }
    var written;
    if existing.value {
      written := t.RemovePair(p);
    } else {
      written := t.AddPair(p);
    }
    if written.Err? {
      return Err(written.error);
    }
    r := Ok(!existing.value);
  }
}
