/** frontend/src/lib/api/projects.js: creating a project (after making sure its
    author has a profile) and the projection `getProjects` builds for the
    listing pages. */
module Projects {
  import opened Common
  import opened Text
  import opened Profiles
  import opened Engagement
  import opened Ordering

  /** An entry of a project's `platforms` column. */
  datatype Platform = Platform(name: Option<string>, url: Option<string>)

  /** A row of the `projects` table. `platforms` is `None` when the column
      does not hold an array; its entries may be null. */
  datatype Project = Project(
    id: string,
    userId: Option<string>,
    title: string,
    description: string,
    tech: Option<seq<string>>,
    languages: Option<seq<string>>,
    platforms: Option<seq<Option<Platform>>>,
    createdAt: int,
    votes: Option<int>)

  /** What a caller of `createProject` passes; the store assigns `id` and
      `created_at`. */
  datatype Draft = Draft(
    userId: Option<string>,
    title: string,
    description: string,
    tech: Option<seq<string>>,
    languages: Option<seq<string>>,
    platforms: Option<seq<Option<Platform>>>)

  /** The `author` object of a listed project. */
  datatype Author = Author(name: string, avatarUrl: Option<string>)

  /** A listed project: the row, its author, the viewer's engagement and the
      two derived links. */
  datatype View = View(
    row: Project,
    author: Author,
    starred: bool,
    voted: bool,
    github: Option<string>,
    preview: Option<string>)

  // ---------------------------------------------------------------------------
  // The `projects` table

  predicate UniqueIds(rows: seq<Project>) {
    forall i, j | 0 <= i < j < |rows| :: rows[i].id != rows[j].id
  }

  /** The answer to an insert and the rows afterwards. */
  datatype Stored = Stored(result: Result<Project>, rows: seq<Project>)

  function InsertProjectRow(rows: seq<Project>, rejects: set<Op>, p: Project): (s: Stored)
    ensures s.result.Ok? ==> s.result.value == p && s.rows == rows + [p]
    ensures s.result.Err? ==> s.rows == rows
    ensures UniqueIds(rows) ==> UniqueIds(s.rows)
  {
    if Insert in rejects then Stored(Err(Rejected(Insert)), rows)
    else if exists i | 0 <= i < |rows| :: rows[i].id == p.id then Stored(Err(DuplicateKey), rows)
    else Stored(Ok(p), rows + [p])
  }

  function CreatedAt(p: Project): int {
    p.createdAt
  }

  class ProjectTable {
    /** The rows in insertion order. */
    var rows: seq<Project>
    /** The calls the store currently answers with an error. */
    var rejects: set<Op>

    ghost predicate Valid()
      reads this
    {
      UniqueIds(rows)
    }

    /** `insert(payload).select().single()`. */
    method InsertProject(p: Project) returns (r: Result<Project>)
      modifies this`rows
      ensures Stored(r, rows) == InsertProjectRow(old(rows), rejects, p)
    {
      var s := InsertProjectRow(rows, rejects, p);
      r, rows := s.result, s.rows;
    }

    /** `select(...).order("created_at", { ascending: false })`, ties in
        insertion order. */
    method SelectNewestFirst() returns (r: Result<seq<Project>>)
      ensures r == if SelectAll in rejects then Err(Rejected(SelectAll)) else Ok(SortDesc(rows, CreatedAt))
    {
      if SelectAll in rejects {
        return Err(Rejected(SelectAll));
      }
      r := Ok(SortDesc(rows, CreatedAt));
    }
  }

  // ---------------------------------------------------------------------------
  // ensureProfile and createProject

  /** The hint order of `ensureProfile`: username, then the local part of the
      email. */
  function ProjectHints(u: Principal): seq<Option<string>> {
    [u.meta.username, EmailHint(u.email)]
  }

  /** `ensureProfile(user)`: the provisioning of the user's profile, answering
      nothing on success. */
  method EnsureProfile(t: ProfileTable, u: Principal, rand: seq<Draw>) returns (r: Result<()>, ghost checked: seq<string>)
    requires 5 <= |rand|
    modifies t`rows
    ensures var o := Provisioning(old(t.rows), t.rejects, u, ProjectHints(u), rand);
      && t.rows == o.rows && checked == o.checked
      && r == if o.result.Ok? then Ok(()) else Err(o.result.error)
  {
    var ref;
    ref, checked := ProvisionProfile(t, u, ProjectHints(u), rand);
    if ref.Err? {
      return Err(ref.error), checked;
    }
    r := Ok(());
  }

  /** The row `createProject` inserts: the draft's owner if it names one
      (`project.user_id ?? userId`), else the caller. */
  function Payload(d: Draft, uid: string, id: string, now: int): Project {
    Project(id, if d.userId.Some? then d.userId else Some(uid), d.title, d.description,
            d.tech, d.languages, d.platforms, now, None)
  }

  /** The answer to `createProject` and both tables afterwards. */
  datatype Creation = Creation(result: Result<Project>, projects: seq<Project>, profiles: Rows, checked: seq<string>)

  function Creating(projects: seq<Project>, projectRejects: set<Op>, profiles: Rows, profileRejects: set<Op>,
                    session: Option<Principal>, d: Draft, id: string, now: int, rand: seq<Draw>): Creation
    requires 5 <= |rand|
  {
    if session.None? || session.value.id == "" then Creation(Err(NotLoggedIn), projects, profiles, [])
    else
      var u := session.value;
      var o := Provisioning(profiles, profileRejects, u, ProjectHints(u), rand);
      if o.result.Err? then Creation(Err(o.result.error), projects, o.rows, o.checked)
      else
        var s := InsertProjectRow(projects, projectRejects, Payload(d, u.id, id, now));
        Creation(s.result, s.rows, o.rows, o.checked)
  }

  /** Without a session user, or with an empty id, nothing is written. */
  lemma CreatingNeedsUser(projects: seq<Project>, projectRejects: set<Op>, profiles: Rows, profileRejects: set<Op>,
                          session: Option<Principal>, d: Draft, id: string, now: int, rand: seq<Draw>)
    requires 5 <= |rand|
    ensures var c := Creating(projects, projectRejects, profiles, profileRejects, session, d, id, now, rand);
      (session.None? || session.value.id == "") <==>
        (c.result == Err(NotLoggedIn) && c.projects == projects && c.profiles == profiles && c.checked == [])
  {
    if session.Some? && session.value.id != "" {
      var u := session.value;
      ProvisioningErrors(profiles, profileRejects, u, ProjectHints(u), rand);
    }
  }

  /** A created project has an author with a profile: on success the caller's
      profile exists, and the table gained exactly the payload row, owned by
      the draft's owner or else the caller. */
  lemma CreatingProvisionsAuthor(projects: seq<Project>, projectRejects: set<Op>, profiles: Rows, profileRejects: set<Op>,
                                 session: Option<Principal>, d: Draft, id: string, now: int, rand: seq<Draw>)
    requires 5 <= |rand|
    ensures var c := Creating(projects, projectRejects, profiles, profileRejects, session, d, id, now, rand);
      c.result.Ok? ==>
        && session.Some? && session.value.id in c.profiles
        && c.projects == projects + [c.result.value]
        && c.result.value.userId == (if d.userId.Some? then d.userId else Some(session.value.id))
        && c.result.value.title == d.title && c.result.value.description == d.description
        && c.result.value.tech == d.tech && c.result.value.languages == d.languages
        && c.result.value.platforms == d.platforms
  {
    if session.Some? && session.value.id != "" && session.value.id !in profiles {
      var u := session.value;
      ProvisioningInsertsOnlyFreeName(profiles, profileRejects, u, ProjectHints(u), rand);
    }
  }

  /** When provisioning the author fails, no project row is written. */
  lemma CreatingStopsOnProfileError(projects: seq<Project>, projectRejects: set<Op>, profiles: Rows,
                                    profileRejects: set<Op>, u: Principal, d: Draft, id: string, now: int,
                                    rand: seq<Draw>)
    requires 5 <= |rand| && u.id != ""
    requires Provisioning(profiles, profileRejects, u, ProjectHints(u), rand).result.Err?
    ensures var c := Creating(projects, projectRejects, profiles, profileRejects, Some(u), d, id, now, rand);
      c.projects == projects && c.result == Err(Provisioning(profiles, profileRejects, u, ProjectHints(u), rand).result.error)
  {
  }

  /** Creating keeps project ids and usernames unique. */
  lemma CreatingKeepsTablesValid(projects: seq<Project>, projectRejects: set<Op>, profiles: Rows, profileRejects: set<Op>,
                                 session: Option<Principal>, d: Draft, id: string, now: int, rand: seq<Draw>)
    requires 5 <= |rand| && UniqueIds(projects) && WellFormed(profiles)
    ensures var c := Creating(projects, projectRejects, profiles, profileRejects, session, d, id, now, rand);
      UniqueIds(c.projects) && WellFormed(c.profiles)
  {
    if session.Some? && session.value.id != "" {
      var u := session.value;
      ProvisioningKeepsUsernamesUnique(profiles, profileRejects, u, ProjectHints(u), rand);
    }
  }

  /** `createProject(project)`; the store assigns `id` and `now`. */
  method CreateProject(t: ProjectTable, profiles: ProfileTable, session: Option<Principal>, d: Draft,
                       id: string, now: int, rand: seq<Draw>)
    returns (r: Result<Project>, ghost checked: seq<string>)
    requires 5 <= |rand|
    modifies t`rows, profiles`rows
    ensures Creation(r, t.rows, profiles.rows, checked)
         == Creating(old(t.rows), t.rejects, old(profiles.rows), profiles.rejects, session, d, id, now, rand)
  {
    if session.None? || session.value.id == "" {
      return Err(NotLoggedIn), [];
    }
    var u := session.value;
    var ensured;
    ensured, checked := EnsureProfile(profiles, u, rand);
    if ensured.Err? {
      return Err(ensured.error), checked;
    }
    var payload := Payload(d, u.id, id, now);
    r := t.InsertProject(payload);
  }

  // ---------------------------------------------------------------------------
  // The listing projection of getProjects

  /** `Array.isArray(p.platforms) ? p.platforms : []`. */
  function PlatformsOf(p: Project): seq<Option<Platform>> {
    if p.platforms.Some? then p.platforms.value else []
  }

  /** `(pl?.name || "").toLowerCase()`. */
  function NameOf(pl: Option<Platform>): string {
    Lower(if pl.Some? && Truthy(pl.value.name) then pl.value.name.value else "")
  }

  /** `pl?.url || null`. */
  function UrlOf(pl: Option<Platform>): (r: Option<string>)
    ensures r.Some? ==> r.value != ""
  {
    if pl.Some? && Truthy(pl.value.url) then pl.value.url else None
  }

  /** The index `platforms.find` stops at: the first entry whose lowercased
      name is one of `names`. */
  function FirstNamed(pls: seq<Option<Platform>>, names: seq<string>): (r: Option<nat>)
    ensures r.Some? ==> r.value < |pls| && NameOf(pls[r.value]) in names
    ensures r.Some? ==> forall j | 0 <= j < r.value :: NameOf(pls[j]) !in names
    ensures r.None? ==> forall j | 0 <= j < |pls| :: NameOf(pls[j]) !in names
  {
    if pls == [] then None
    else if NameOf(pls[0]) in names then Some(0)
    else
      var rest := FirstNamed(pls[1..], names);
      assert forall j | 1 <= j < |pls| :: pls[1..][j - 1] == pls[j];
      if rest.None? then None else Some(rest.value + 1)
  }

  /** `findByName(names)`. */
  function FindByName(pls: seq<Option<Platform>>, names: seq<string>): Option<string> {
    var k := FirstNamed(pls, names);
    if k.None? then None else UrlOf(pls[k.value])
  }

  /** `findByName(["github"]) || platforms[0]?.url || null`. */
  function GithubUrl(pls: seq<Option<Platform>>): Option<string> {
    var named := FindByName(pls, ["github"]);
    if named.Some? then named else if pls == [] then None else UrlOf(pls[0])
  }

  const PreviewNames: seq<string> := ["preview", "live", "demo", "website"]

  function PreviewUrl(pls: seq<Option<Platform>>): Option<string> {
    FindByName(pls, PreviewNames)
  }

  /** `{ name: p.profiles?.username || "Unknown", avatar_url: p.profiles?.avatar_url }`. */
  function AuthorOf(profile: Option<Profile>): Author {
    if profile.None? then Author("Unknown", None)
    else Author(if profile.value.username != "" then profile.value.username else "Unknown", profile.value.avatarUrl)
  }

  /** The `profiles:profiles(username, avatar_url)` join along `user_id`. */
  function JoinedProfile(profiles: Rows, p: Project): Option<Profile> {
    if p.userId.Some? && p.userId.value in profiles then Some(profiles[p.userId.value]) else None
  }

  function ToView(p: Project, profiles: Rows, stars: set<string>, votes: set<string>): View {
    var pls := PlatformsOf(p);
    View(p, AuthorOf(JoinedProfile(profiles, p)), p.id in stars, p.id in votes, GithubUrl(pls), PreviewUrl(pls))
  }

  function Listing(rows: seq<Project>, profiles: Rows, stars: set<string>, votes: set<string>): (r: seq<View>)
    ensures |r| == |rows|
    ensures forall i | 0 <= i < |rows| :: r[i] == ToView(rows[i], profiles, stars, votes)
  {
    seq(|rows|, i requires 0 <= i < |rows| => ToView(rows[i], profiles, stars, votes))
  }

  /** `p.votes || 0`. */
  function VotesOrZero(v: View): int {
    if v.row.votes.Some? then v.row.votes.value else 0
  }

  /** The `created_at` of a listed project. */
  function CreatedOf(v: View): int {
    v.row.createdAt
  }

  /** `p.tech || []`, `p.languages || []`. */
  function ListOrEmpty(s: Option<seq<string>>): seq<string> {
    if s.Some? then s.value else []
  }

  /** `auth?.user?.id || null`. */
  function Viewer(session: Option<string>): Option<string> {
    if Truthy(session) then session else None
  }

  /** What `getProjects()` answers. */
  function Feed(projects: seq<Project>, projectRejects: set<Op>, profiles: Rows,
                stars: set<Pair>, starRejects: set<Op>, votes: set<Pair>, voteRejects: set<Op>,
                session: Option<string>): Result<seq<View>>
  {
    if SelectAll in projectRejects then Err(Rejected(SelectAll))
    else
      var rows := SortDesc(projects, CreatedAt);
      match Viewer(session)
      case None => Ok(Listing(rows, profiles, {}, {}))
      case Some(v) =>
        if SelectByUser in starRejects then Err(Rejected(SelectByUser))
        else if SelectByUser in voteRejects then Err(Rejected(SelectByUser))
        else Ok(Listing(rows, profiles, ProjectIdsOf(stars, v), ProjectIdsOf(votes, v)))
  }

  /** `getProjects()`, given the session user's id. */
  method GetProjects(projects: ProjectTable, profiles: ProfileTable, stars: RelationTable, votes: RelationTable,
                     session: Option<string>) returns (r: Result<seq<View>>)
    ensures r == Feed(projects.rows, projects.rejects, profiles.rows, stars.rows, stars.rejects,
                      votes.rows, votes.rejects, session)
  {
    var viewer := Viewer(session);
    var rows := projects.SelectNewestFirst();
    if rows.Err? {
      return Err(rows.error);
    }
    var starSet: set<string> := {};
    var voteSet: set<string> := {};
    if viewer.Some? {
      var starred := stars.ProjectsOf(viewer.value);
      var voted := votes.ProjectsOf(viewer.value);
      if starred.Err? {
        return Err(starred.error);
      }
      if voted.Err? {
        return Err(voted.error);
      }
      starSet, voteSet := starred.value, voted.value;
    }
    r := Ok(Listing(rows.value, profiles.rows, starSet, voteSet));
  }

  /** The listing holds every project once, newest first, in a stable order. */
  lemma FeedOrder(projects: seq<Project>, projectRejects: set<Op>, profiles: Rows,
                  stars: set<Pair>, starRejects: set<Op>, votes: set<Pair>, voteRejects: set<Op>,
                  session: Option<string>)
    ensures var f := Feed(projects, projectRejects, profiles, stars, starRejects, votes, voteRejects, session);
      f.Ok? ==>
        var rows := seq(|f.value|, i requires 0 <= i < |f.value| => f.value[i].row);
        && multiset(rows) == multiset(projects)
        && SortedDesc(rows, CreatedAt)
        && forall t :: WithKey(rows, CreatedAt, t) == WithKey(projects, CreatedAt, t)
  {
    var f := Feed(projects, projectRejects, profiles, stars, starRejects, votes, voteRejects, session);
    if f.Ok? {
      var sorted := SortDesc(projects, CreatedAt);
      var rows := seq(|f.value|, i requires 0 <= i < |f.value| => f.value[i].row);
      assert rows == sorted;
      forall t ensures WithKey(rows, CreatedAt, t) == WithKey(projects, CreatedAt, t) {
        SortDescStable(projects, CreatedAt, t);
      }
    }
  }

  /** Each listed project says whether the viewer starred it and voted for it;
      without a viewer both are false for every project. */
  lemma FeedViewerState(projects: seq<Project>, projectRejects: set<Op>, profiles: Rows,
                        stars: set<Pair>, starRejects: set<Op>, votes: set<Pair>, voteRejects: set<Op>,
                        session: Option<string>)
    ensures var f := Feed(projects, projectRejects, profiles, stars, starRejects, votes, voteRejects, session);
      f.Ok? ==> forall i | 0 <= i < |f.value| ::
        && (f.value[i].starred <==> Truthy(session) && Pair(session.value, f.value[i].row.id) in stars)
        && (f.value[i].voted <==> Truthy(session) && Pair(session.value, f.value[i].row.id) in votes)
  {
  }

  /** Without a viewer the relation tables are not queried, so their errors
      cannot fail the listing; with one, either query's error does. */
  lemma FeedErrors(projects: seq<Project>, projectRejects: set<Op>, profiles: Rows,
                   stars: set<Pair>, starRejects: set<Op>, votes: set<Pair>, voteRejects: set<Op>,
                   session: Option<string>)
    ensures var f := Feed(projects, projectRejects, profiles, stars, starRejects, votes, voteRejects, session);
      f.Err? <==>
        || SelectAll in projectRejects
        || (Truthy(session) && (SelectByUser in starRejects || SelectByUser in voteRejects))
  {
  }

  /** The author falls back to "Unknown" when the owner has no profile. */
  lemma AuthorFallback(profiles: Rows, p: Project)
    ensures AuthorOf(JoinedProfile(profiles, p)).name != ""
    ensures (p.userId.None? || p.userId.value !in profiles) ==> AuthorOf(JoinedProfile(profiles, p)) == Author("Unknown", None)
    ensures p.userId.Some? && p.userId.value in profiles && profiles[p.userId.value].username != "" ==>
      AuthorOf(JoinedProfile(profiles, p)).name == profiles[p.userId.value].username
  {
  }

  /** `github` is the URL of the first platform named "github" in any letter
      case; when there is none, or that entry has no URL, it is the first
      platform's URL. Empty URLs count as missing. */
  lemma GithubUrlChoice(pls: seq<Option<Platform>>)
    ensures GithubUrl(pls).Some? ==> GithubUrl(pls).value != ""
    ensures forall k | 0 <= k < |pls| && NameOf(pls[k]) == "github" &&
                       (forall j | 0 <= j < k :: NameOf(pls[j]) != "github") ::
      GithubUrl(pls) == if UrlOf(pls[k]).Some? then UrlOf(pls[k]) else UrlOf(pls[0])
    ensures (forall k | 0 <= k < |pls| :: NameOf(pls[k]) != "github") ==>
      GithubUrl(pls) == if pls == [] then None else UrlOf(pls[0])
  {
    var f := FirstNamed(pls, ["github"]);
    if f.Some? {
      assert NameOf(pls[f.value]) == "github";
      forall k | 0 <= k < |pls| && NameOf(pls[k]) == "github" && (forall j | 0 <= j < k :: NameOf(pls[j]) != "github")
        ensures k == f.value
      {
      }
    }
  }

  /** `preview` is the URL of the first platform named "preview", "live",
      "demo" or "website" in any letter case, and missing when there is none. */
  lemma PreviewUrlChoice(pls: seq<Option<Platform>>)
    ensures PreviewUrl(pls).Some? ==> PreviewUrl(pls).value != ""
    ensures forall k | 0 <= k < |pls| && NameOf(pls[k]) in PreviewNames &&
                       (forall j | 0 <= j < k :: NameOf(pls[j]) !in PreviewNames) ::
      PreviewUrl(pls) == UrlOf(pls[k])
    ensures (forall k | 0 <= k < |pls| :: NameOf(pls[k]) !in PreviewNames) ==> PreviewUrl(pls) == None
  {
    var f := FirstNamed(pls, PreviewNames);
    if f.Some? {
      forall k | 0 <= k < |pls| && NameOf(pls[k]) in PreviewNames && (forall j | 0 <= j < k :: NameOf(pls[j]) !in PreviewNames)
        ensures k == f.value
      {
      }
    }
  }

  /** The name match ignores case. */
  lemma GithubExample()
    ensures GithubUrl([Some(Platform(Some("Live"), Some("https://a.dev"))),
                       Some(Platform(Some("GitHub"), Some("https://gh/a")))]) == Some("https://gh/a")
  {
    assert NameOf(Some(Platform(Some("Live"), Some("https://a.dev")))) == "live";
    assert NameOf(Some(Platform(Some("GitHub"), Some("https://gh/a")))) == "github";
  }

  /** A github entry without a URL falls back to the first entry. */
  lemma GithubFallbackExample()
    ensures GithubUrl([Some(Platform(Some("Docs"), Some("https://d"))),
                       Some(Platform(Some("github"), None))]) == Some("https://d")
  {
    assert NameOf(Some(Platform(Some("Docs"), Some("https://d")))) == "docs";
    assert NameOf(Some(Platform(Some("github"), None))) == "github";
  }

  /** Null entries are skipped by the name match. */
  lemma PreviewExample()
    ensures PreviewUrl([None, Some(Platform(Some("DEMO"), Some("https://x")))]) == Some("https://x")
  {
    assert NameOf(None) == "";
    assert NameOf(Some(Platform(Some("DEMO"), Some("https://x")))) == "demo";
  }
}
