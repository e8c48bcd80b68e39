/** frontend/src/lib/api/stars.js: the star helpers over the `project_stars`
    relation. Unlike the upvote helpers, none of them checks for a session
    user before reading its id. */
module Stars {
  import opened Common
  import opened Engagement

  /** `starProject(project_id)`. */
  method StarProject(t: RelationTable, user: Option<string>, project: string) returns (r: Result<Pair>)
    modifies t`rows
    ensures user.None? ==> r == Err(NullUser) && t.rows == old(t.rows)
    ensures user.Some? ==>
      var c := InsertPair(old(t.rows), t.rejects, Pair(user.value, project));
      t.rows == c.rows && (r.Ok? <==> c.result.Ok?) && (r.Ok? ==> r.value == Pair(user.value, project))
      && (r.Err? ==> r.error == c.result.error)
  {
    if user.None? {
      return Err(NullUser);
    }
    var p := Pair(user.value, project);
    var written := t.AddPair(p);
    if written.Err? {
      return Err(written.error);
    }
    r := Ok(p);
  }

  /** `unstarProject(project_id)`. */
  method UnstarProject(t: RelationTable, user: Option<string>, project: string) returns (r: Result<()>)
    modifies t`rows
    ensures user.None? ==> r == Err(NullUser) && t.rows == old(t.rows)
    ensures user.Some? ==> Changed(r, t.rows) == DeletePair(old(t.rows), t.rejects, Pair(user.value, project))
  {
    if user.None? {
      return Err(NullUser);
    }
    r := t.RemovePair(Pair(user.value, project));
  }

  /** `toggleStar(projectId)`, as written. */
  method ToggleStar(t: RelationTable, user: Option<string>, project: string) returns (r: Result<bool>)
    modifies t`rows
    ensures Toggled(r, t.rows) == Toggle(old(t.rows), t.rejects, user, project)
  {
    r := ToggleRelation(t, user, project);
  }
}
