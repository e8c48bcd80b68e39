/** frontend/src/lib/api/upvotes.js: the upvote helpers over the
    `project_upvotes` relation. */
module Upvotes {
  import opened Common
  import opened Engagement

  /** `upvoteProject(project_id)`: "Not logged in" without a session user,
      else the pair is inserted and the store's refusal (a second upvote, a
      rejected call) is passed on. */
  method UpvoteProject(t: RelationTable, user: Option<string>, project: string) returns (r: Result<Pair>)
    modifies t`rows
    ensures user.None? ==> r == Err(NotLoggedIn) && t.rows == old(t.rows)
    ensures user.Some? ==>
      var c := InsertPair(old(t.rows), t.rejects, Pair(user.value, project));
      t.rows == c.rows && (r.Ok? <==> c.result.Ok?) && (r.Ok? ==> r.value == Pair(user.value, project))
      && (r.Err? ==> r.error == c.result.error)
  {
    if user.None? {
      return Err(NotLoggedIn);
    }
    var p := Pair(user.value, project);
    var written := t.AddPair(p);
    if written.Err? {
      return Err(written.error);
    }
    r := Ok(p);
  }

  /** `removeUpvote(project_id)`: reads the session user's id unchecked. */
  method RemoveUpvote(t: RelationTable, user: Option<string>, project: string) returns (r: Result<()>)
    modifies t`rows
    ensures user.None? ==> r == Err(NullUser) && t.rows == old(t.rows)
    ensures user.Some? ==> Changed(r, t.rows) == DeletePair(old(t.rows), t.rejects, Pair(user.value, project))
  {
    if user.None? {
      return Err(NullUser);
    }
    r := t.RemovePair(Pair(user.value, project));
  }

  /** `toggleUpvote(projectId)`, as written. */
  method ToggleUpvote(t: RelationTable, user: Option<string>, project: string) returns (r: Result<bool>)
    modifies t`rows
    ensures Toggled(r, t.rows) == Toggle(old(t.rows), t.rejects, user, project)
  {
    r := ToggleRelation(t, user, project);
  }
}
