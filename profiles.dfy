/** The `profiles` table and the helpers of frontend/src/lib/api/profiles.js:
    reading and updating a profile, and provisioning one for a signed-in
    user, with a username derived from the user's identity hints and made
    unique by at most five availability checks. */
module Profiles {
  import opened Common
  import opened Text

  /** The identity hints the authentication service keeps in `user_metadata`. */
  datatype Metadata = Metadata(
    username: Option<string>,
    preferredUsername: Option<string>,
    fullName: Option<string>,
    avatarUrl: Option<string>,
    picture: Option<string>)

  /** The signed-in user the authentication service reports. */
  datatype Principal = Principal(id: string, email: Option<string>, meta: Metadata)

  /** A row of the `profiles` table. */
  datatype Profile = Profile(
    id: string,
    username: string,
    fullName: Option<string>,
    avatarUrl: Option<string>,
    bio: Option<string>)

  /** The `id, username` columns the provisioning queries select. */
  datatype ProfileRef = ProfileRef(id: string, username: string)

  /** The columns an update changes; `None` leaves a column as it is. */
  datatype Patch = Patch(
    username: Option<string>,
    fullName: Option<string>,
    avatarUrl: Option<string>,
    bio: Option<string>)

  /** The table's rows, keyed by `id`. */
  type Rows = map<string, Profile>

  predicate Taken(rows: Rows, username: string) {
    exists id | id in rows :: rows[id].username == username
  }

  /** The store's constraints: rows are keyed by their own id and usernames are
      unique. */
  ghost predicate WellFormed(rows: Rows) {
    && (forall id | id in rows :: rows[id].id == id)
    && (forall a, b | a in rows && b in rows && rows[a].username == rows[b].username :: a == b)
  }

  /** The answer to a write call and the rows afterwards. */
  datatype Written<T> = Written(result: Result<T>, rows: Rows)

  /** What the store does with `insert(p)`. */
  function InsertRow(rows: Rows, rejects: set<Op>, p: Profile): (w: Written<ProfileRef>)
    ensures w.result.Ok? ==>
      && p.id !in rows && !Taken(rows, p.username)
      && w.rows == rows[p.id := p] && w.result.value == ProfileRef(p.id, p.username)
    ensures w.result.Err? ==> w.rows == rows
    ensures w.result.Err? ==> w.result.error == Rejected(Insert) || w.result.error == DuplicateKey
  {
    if Insert in rejects then Written(Err(Rejected(Insert)), rows)
    else if p.id in rows || Taken(rows, p.username) then Written(Err(DuplicateKey), rows)
    else Written(Ok(ProfileRef(p.id, p.username)), rows[p.id := p])
  }

  /** A row with a new id and an unused username keeps the table well formed. */
  lemma AddKeepsWellFormed(rows: Rows, p: Profile)
    requires WellFormed(rows) && p.id !in rows && !Taken(rows, p.username)
    ensures WellFormed(rows[p.id := p])
  {
  }

  /** The insert keeps the store's constraints. */
  lemma InsertRowKeepsWellFormed(rows: Rows, rejects: set<Op>, p: Profile)
    requires WellFormed(rows)
    ensures WellFormed(InsertRow(rows, rejects, p).rows)
  {
    if InsertRow(rows, rejects, p).result.Ok? {
      AddKeepsWellFormed(rows, p);
    }
  }

  function Patched(p: Profile, patch: Patch): Profile {
    Profile(
      p.id,
      if patch.username.Some? then patch.username.value else p.username,
      if patch.fullName.Some? then patch.fullName else p.fullName,
      if patch.avatarUrl.Some? then patch.avatarUrl else p.avatarUrl,
      if patch.bio.Some? then patch.bio else p.bio)
  }

  /** What the store does with `update(patch).eq("id", id).select().single()`:
      the one row with that id changes, or the call fails. */
  function UpdateRow(rows: Rows, rejects: set<Op>, id: string, patch: Patch): (w: Written<Profile>)
    ensures w.result.Ok? ==>
      && id in rows && w.result.value == Patched(rows[id], patch)
      && w.rows == rows[id := w.result.value]
    ensures w.result.Err? ==> w.rows == rows
    ensures id !in rows && Update !in rejects ==> w.result == Err(NoRows)
  {
    if Update in rejects then Written(Err(Rejected(Update)), rows)
    else if id !in rows then Written(Err(NoRows), rows)
    else
      var q := Patched(rows[id], patch);
      if q.username != rows[id].username && Taken(rows, q.username) then Written(Err(DuplicateKey), rows)
      else Written(Ok(q), rows[id := q])
  }

  /** The update keeps the store's constraints: a username taken by another
      row is refused. */
  lemma UpdateRowKeepsWellFormed(rows: Rows, rejects: set<Op>, id: string, patch: Patch)
    requires WellFormed(rows)
    ensures WellFormed(UpdateRow(rows, rejects, id, patch).rows)
  {
    var w := UpdateRow(rows, rejects, id, patch);
    if w.result.Ok? {
      var q := w.result.value;
      forall a, b | a in w.rows && b in w.rows && w.rows[a].username == w.rows[b].username ensures a == b {
      }
    }
  }

  /** The `profiles` table of the store. */
  class ProfileTable {
    var rows: Rows
    /** The calls the store currently answers with an error. */
    var rejects: set<Op>

    ghost predicate Valid()
      reads this
    {
      WellFormed(rows)
    }

    method FindById(id: string) returns (r: Result<Option<Profile>>)
      ensures SelectById in rejects ==> r == Err(Rejected(SelectById))
      ensures SelectById !in rejects ==> r == Ok(if id in rows then Some(rows[id]) else None)
    {
      if SelectById in rejects {
        r := Err(Rejected(SelectById));
      } else if id in rows {
        r := Ok(Some(rows[id]));
      } else {
        r := Ok(None);
      }
    }

    method FindByUsername(username: string) returns (r: Result<Option<Profile>>)
      ensures SelectByUsername in rejects ==> r == Err(Rejected(SelectByUsername))
      ensures SelectByUsername !in rejects ==> r.Ok? && (r.value.None? <==> !Taken(rows, username))
      ensures r.Ok? && r.value.Some? ==>
        var p := r.value.value;
        p.username == username && exists id | id in rows :: rows[id] == p
    {
      if SelectByUsername in rejects {
        r := Err(Rejected(SelectByUsername));
      } else if Taken(rows, username) {
        var id :| id in rows && rows[id].username == username;
        r := Ok(Some(rows[id]));
      } else {
        r := Ok(None);
      }
    }

    method InsertProfile(p: Profile) returns (r: Result<ProfileRef>)
      modifies this`rows
      ensures Written(r, rows) == InsertRow(old(rows), rejects, p)
    {
      var w := InsertRow(rows, rejects, p);
      r, rows := w.result, w.rows;
    }

    method UpdateById(id: string, patch: Patch) returns (r: Result<Profile>)
      modifies this`rows
      ensures Written(r, rows) == UpdateRow(old(rows), rejects, id, patch)
    {
      var w := UpdateRow(rows, rejects, id, patch);
      r, rows := w.result, w.rows;
    }
  }

  /** `getProfile(username)`: the profile with that username, or
      "Profile not found". */
  method GetProfile(t: ProfileTable, username: string) returns (r: Result<Profile>)
    ensures SelectByUsername in t.rejects ==> r == Err(Rejected(SelectByUsername))
    ensures SelectByUsername !in t.rejects ==> (r == Err(ProfileNotFound) <==> !Taken(t.rows, username))
    ensures SelectByUsername !in t.rejects && Taken(t.rows, username) ==> r.Ok?
    ensures r.Ok? ==> r.value.username == username && exists id | id in t.rows :: t.rows[id] == r.value
  {
    var found := t.FindByUsername(username);
    if found.Err? {
      return Err(found.error);
    }
    if found.value.None? {
      return Err(ProfileNotFound);
    }
    r := Ok(found.value.value);
  }

  /** In a well-formed table the profile `GetProfile` finds is the only one
      with that username. */
  lemma UsernameDeterminesProfile(rows: Rows, a: string, b: string)
    requires WellFormed(rows) && a in rows && b in rows
    requires rows[a].username == rows[b].username
    ensures rows[a] == rows[b]
  {
  }

  /** `updateProfile(updates)`: "Not logged in" without a session user, else
      the user's own row is updated. */
  method UpdateProfile(t: ProfileTable, session: Option<Principal>, patch: Patch) returns (r: Result<Profile>)
    requires t.Valid()
    modifies t`rows
    ensures t.Valid()
    ensures session.None? ==> r == Err(NotLoggedIn) && t.rows == old(t.rows)
    ensures session.Some? ==> Written(r, t.rows) == UpdateRow(old(t.rows), t.rejects, session.value.id, patch)
  {
    if session.None? {
      return Err(NotLoggedIn);
    }
    UpdateRowKeepsWellFormed(t.rows, t.rejects, session.value.id, patch);
    r := t.UpdateById(session.value.id, patch);
  }

  /** `getMyProfile()`: "Not logged in" without a session user; `.single()`
      fails when the user has no row. */
  method GetMyProfile(t: ProfileTable, session: Option<Principal>) returns (r: Result<Profile>)
    ensures session.None? ==> r == Err(NotLoggedIn)
    ensures session.Some? && SelectById in t.rejects ==> r == Err(Rejected(SelectById))
    ensures session.Some? && SelectById !in t.rejects ==>
      r == if session.value.id in t.rows then Ok(t.rows[session.value.id]) else Err(NoRows)
  {
    if session.None? {
      return Err(NotLoggedIn);
    }
    var found := t.FindById(session.value.id);
    if found.Err? {
      return Err(found.error);
    }
    if found.value.None? {
      return Err(NoRows);
    }
    r := Ok(found.value.value);
  }

  // ---------------------------------------------------------------------------
  // Deriving a username

  /** `email.split("@")[0]`: the text before the first '@'. */
  function EmailLocalPart(email: string): (r: string)
    ensures r <= email && '@' !in r
    ensures |r| < |email| ==> email[|r|] == '@'
  {
    if email == [] || email[0] == '@' then [] else [email[0]] + EmailLocalPart(email[1..])
  }

  /** `user.email?.split("@")[0]`. */
  function EmailHint(email: Option<string>): Option<string> {
    if email.None? then None else Some(EmailLocalPart(email.value))
  }

  /** `h0 || h1 || ... || fallback` over possibly missing strings. */
  function FirstTruthy(hints: seq<Option<string>>, fallback: string): string {
    if hints == [] then fallback
    else if Truthy(hints[0]) then hints[0].value
    else FirstTruthy(hints[1..], fallback)
  }

  /** The result is the first present, non-empty hint, or the fallback when
      there is none. */
  lemma {:induction false} FirstTruthyPicks(hints: seq<Option<string>>, fallback: string)
    ensures (forall k | 0 <= k < |hints| :: !Truthy(hints[k])) ==> FirstTruthy(hints, fallback) == fallback
    ensures forall k | 0 <= k < |hints| && Truthy(hints[k]) ::
      (forall j | 0 <= j < k :: !Truthy(hints[j])) ==> FirstTruthy(hints, fallback) == hints[k].value
  {
    if hints != [] && !Truthy(hints[0]) {
      var tail := hints[1..];
      FirstTruthyPicks(tail, fallback);
      forall k | 1 <= k < |hints| ensures tail[k - 1] == hints[k] {
      }
    }
  }


  /** The hint order of `ensureMyProfile`: username, preferred username, full
      name, the local part of the email. */
  function MyHints(u: Principal): seq<Option<string>> {
    [u.meta.username, u.meta.preferredUsername, u.meta.fullName, EmailHint(u.email)]
  }

  /** The characters `/[^a-z0-9_\-\.]/g` does not remove. */
  predicate IsUsernameChar(c: char) {
    ('a' <= c <= 'z') || ('0' <= c <= '9') || c == '_' || c == '-' || c == '.'
  }

  /** `s.replace(/[^a-z0-9_\-\.]/g, "")`. */
  function KeepUsernameChars(s: string): (r: string)
    ensures forall i | 0 <= i < |r| :: IsUsernameChar(r[i])
  {
    if s == [] then []
    else (if IsUsernameChar(s[0]) then [s[0]] else []) + KeepUsernameChars(s[1..])
  }

  /** Cleaning keeps every username character of the hint, as often as it
      occurs, and nothing else. */
  lemma {:induction false} KeepUsernameCharsCounts(s: string)
    ensures forall c :: multiset(KeepUsernameChars(s))[c] == if IsUsernameChar(c) then multiset(s)[c] else 0
  {
    if s != [] {
      assert s == [s[0]] + s[1..];
      KeepUsernameCharsCounts(s[1..]);
    }
  }

  /** The base username: the cleaned, lowercased hint cut to 24 characters, or
      `user_` and the first six characters of the id when nothing is left. */
  function BaseName(raw: string, id: string): string {
    var cleaned := Take(KeepUsernameChars(raw), 24);
    if cleaned != "" then cleaned else "user_" + Take(id, 6)
  }

  /** The base name never exceeds 24 characters; it is either the start of the
      cleaned hint, made only of username characters, or the id fallback. */
  lemma BaseNameShape(raw: string, id: string)
    ensures |BaseName(raw, id)| <= 24
    ensures KeepUsernameChars(raw) != "" ==>
      && BaseName(raw, id) <= KeepUsernameChars(raw)
      && BaseName(raw, id) != ""
      && forall i | 0 <= i < |BaseName(raw, id)| :: IsUsernameChar(BaseName(raw, id)[i])
    ensures KeepUsernameChars(raw) == "" ==> BaseName(raw, id) == "user_" + Take(id, 6)
  {
    TakeIsPrefix(KeepUsernameChars(raw), 24);
    TakeIsPrefix(id, 6);
  }

  /** One decimal digit, 0 to 9. */
  type DecimalDigit = d: int | 0 <= d < 10

  /** A value of `Math.floor(Math.random() * 1000)`, given by its three decimal
      digits. */
  datatype Draw = Draw(hundreds: DecimalDigit, tens: DecimalDigit, ones: DecimalDigit)

  function DrawValue(n: Draw): (v: nat)
    ensures v < 1000
  {
    100 * n.hundreds + 10 * n.tens + n.ones
  }

  /** Every value from 0 to 999 is the value of a draw. */
  lemma EveryValueIsADraw(v: nat)
    requires v < 1000
    ensures exists n: Draw :: DrawValue(n) == v
  {
    var h, rest := v / 100, v % 100;
    assert v == 100 * h + rest && rest < 100;
    var t, o := rest / 10, rest % 10;
    assert rest == 10 * t + o && o < 10;
    var n := Draw(h, t, o);
    assert DrawValue(n) == v;
  }

  /** `${n}`: the draw's value in decimal, without leading zeros. */
  function DrawText(n: Draw): string {
    if n.hundreds != 0 then [Digit(n.hundreds), Digit(n.tens), Digit(n.ones)]
    else if n.tens != 0 then [Digit(n.tens), Digit(n.ones)]
    else [Digit(n.ones)]
  }

  /** One to three digits, with no leading zero unless the value is 0, that
      read back as the value. */
  lemma DrawTextRoundTrip(n: Draw)
    ensures var r := DrawText(n);
      && 1 <= |r| <= 3
      && (forall i | 0 <= i < |r| :: '0' <= r[i] <= '9')
      && (r[0] == '0' ==> DrawValue(n) == 0)
      && DecimalValue(r) == DrawValue(n)
  {
    var h, t, o := Digit(n.hundreds), Digit(n.tens), Digit(n.ones);
    assert DecimalValue([o]) == n.ones;
    assert [t, o][..1] == [t];
    assert DecimalValue([t, o]) == 10 * n.tens + n.ones;
    if n.hundreds != 0 {
      assert [h, t, o][..2] == [h, t];
      assert [h, t][..1] == [h];
      assert DecimalValue([h, t]) == 10 * n.hundreds + n.tens;
    }
  }

  /** A retry candidate: `${base}${n}`.slice(0, 28). */
  function Candidate(base: string, n: Draw): string {
    Take(base + DrawText(n), 28)
  }

  /** With a base of at most 24 characters the slice never cuts: a candidate
      is the base followed by the draw's decimal form, at most 27 characters,
      and the suffix reads back as the draw. */
  lemma CandidateUncut(base: string, n: Draw)
    requires |base| <= 24
    ensures Candidate(base, n) == base + DrawText(n)
    ensures base <= Candidate(base, n) && |Candidate(base, n)| <= 27
    ensures DecimalValue(Candidate(base, n)[|base|..]) == DrawValue(n)
  {
    DrawTextRoundTrip(n);
    TakeIsPrefix(base + DrawText(n), 28);
    assert (base + DrawText(n))[|base|..] == DrawText(n);
  }

  /** The row inserted for `u` with a claimed username. */
  function NewProfile(u: Principal, username: string): Profile {
    Profile(
      u.id,
      username,
      u.meta.fullName,
      if u.meta.avatarUrl.Some? then u.meta.avatarUrl else u.meta.picture,
      None)
  }

  // ---------------------------------------------------------------------------
  // Provisioning

  /** The answer of a provisioning call, the rows afterwards, and the usernames
      whose availability it checked, in order. */
  datatype Outcome = Outcome(result: Result<ProfileRef>, rows: Rows, checked: seq<string>)

  /** The claim loop from round `round` on, `candidate` being the name to check
      in that round. */
  function Claim(rows: Rows, rejects: set<Op>, u: Principal, base: string, rand: seq<Draw>,
                 round: nat, candidate: string): Outcome
    requires round <= 5 <= |rand|
    decreases 5 - round
  {
    if round == 5 then Outcome(Err(UnableToCreateProfile), rows, [])
    else if SelectByUsername in rejects then Outcome(Err(Rejected(SelectByUsername)), rows, [candidate])
    else if !Taken(rows, candidate) then
      var w := InsertRow(rows, rejects, NewProfile(u, candidate));
      Outcome(w.result, w.rows, [candidate])
    else
      var rest := Claim(rows, rejects, u, base, rand, round + 1, Candidate(base, rand[round]));
      Outcome(rest.result, rest.rows, [candidate] + rest.checked)
  }

  /** Looking up the user's row, then claiming a username derived from `hints`. */
  function Provisioning(rows: Rows, rejects: set<Op>, u: Principal, hints: seq<Option<string>>,
                        rand: seq<Draw>): Outcome
    requires 5 <= |rand|
  {
    if SelectById in rejects then Outcome(Err(Rejected(SelectById)), rows, [])
    else if u.id in rows then Outcome(Ok(ProfileRef(rows[u.id].id, rows[u.id].username)), rows, [])
    else
      var base := BaseName(Lower(FirstTruthy(hints, "user")), u.id);
      Claim(rows, rejects, u, base, rand, 0, base)
  }

  /** `ensureMyProfile()` for the session user `session`. */
  function MyProvisioning(rows: Rows, rejects: set<Op>, session: Option<Principal>, rand: seq<Draw>): Outcome
    requires 5 <= |rand|
  {
    match session
    case None => Outcome(Err(NotLoggedIn), rows, [])
    case Some(u) => Provisioning(rows, rejects, u, MyHints(u), rand)
  }

  /** The name checked in round `k` of a claim that starts from `base`. */
  function CandidateAt(base: string, rand: seq<Draw>, k: nat): string
    requires k <= |rand|
  {
    if k == 0 then base else Candidate(base, rand[k - 1])
  }

  /** A claim checks at most one name per remaining round, starting with
      `candidate`. */
  lemma {:induction false} ClaimCheckCount(rows: Rows, rejects: set<Op>, u: Principal, base: string,
                                           rand: seq<Draw>, round: nat, candidate: string)
    requires round <= 5 <= |rand|
    ensures var c := Claim(rows, rejects, u, base, rand, round, candidate);
      && |c.checked| <= 5 - round
      && (round < 5 ==> |c.checked| >= 1 && c.checked[0] == candidate)
    decreases 5 - round
  {
    if round < 5 && SelectByUsername !in rejects && Taken(rows, candidate) {
      ClaimCheckCount(rows, rejects, u, base, rand, round + 1, Candidate(base, rand[round]));
    }
  }

  /** Each name after the first is the base followed by the draw of the
      round before it, counting rounds from `round`. */
  predicate RetriesFollow(names: seq<string>, base: string, rand: seq<Draw>, round: nat) {
    forall k | 1 <= k < |names| :: round + k - 1 < |rand| && names[k] == Candidate(base, rand[round + k - 1])
  }

  /** After the first, the name checked in each round is the base with that
      round's draw. */
  lemma {:induction false} ClaimChecks(rows: Rows, rejects: set<Op>, u: Principal, base: string,
                                       rand: seq<Draw>, round: nat, candidate: string)
    requires round <= 5 <= |rand|
    ensures var c := Claim(rows, rejects, u, base, rand, round, candidate);
      |c.checked| <= 5 - round && RetriesFollow(c.checked, base, rand, round)
    decreases 5 - round
  {
    ClaimCheckCount(rows, rejects, u, base, rand, round, candidate);
    if round < 5 && SelectByUsername !in rejects && Taken(rows, candidate) {
      var next := Candidate(base, rand[round]);
      var rest := Claim(rows, rejects, u, base, rand, round + 1, next);
      ClaimChecks(rows, rejects, u, base, rand, round + 1, next);
      ClaimCheckCount(rows, rejects, u, base, rand, round + 1, next);
      ClaimRetries(rows, rejects, u, base, rand, round, candidate);
      ChecksShift(candidate, rest.checked, base, rand, round);
    } else if round < 5 {
      ClaimStops(rows, rejects, u, base, rand, round, candidate);
    }
  }

  lemma ChecksShift(candidate: string, rest: seq<string>, base: string, rand: seq<Draw>, round: nat)
    requires round < |rand|
    requires |rest| >= 1 ==> rest[0] == Candidate(base, rand[round])
    requires RetriesFollow(rest, base, rand, round + 1)
    ensures RetriesFollow([candidate] + rest, base, rand, round)
  {
    var all := [candidate] + rest;
    forall k | 1 <= k < |all| ensures round + k - 1 < |rand| && all[k] == Candidate(base, rand[round + k - 1]) {
      assert all[k] == rest[k - 1];
    }
  }


  /** Every name a claim checked before its last one was taken. */
  lemma {:induction false} ClaimSkipsTaken(rows: Rows, rejects: set<Op>, u: Principal, base: string,
                                           rand: seq<Draw>, round: nat, candidate: string)
    requires round <= 5 <= |rand|
    ensures TakenButLast(rows, Claim(rows, rejects, u, base, rand, round, candidate).checked)
    decreases 5 - round
  {
    var c := Claim(rows, rejects, u, base, rand, round, candidate);
    if round < 5 && SelectByUsername !in rejects && Taken(rows, candidate) {
      var next := Candidate(base, rand[round]);
      var rest := Claim(rows, rejects, u, base, rand, round + 1, next);
      ClaimSkipsTaken(rows, rejects, u, base, rand, round + 1, next);
      assert c.checked == [candidate] + rest.checked;
      TakenShift(rows, candidate, rest.checked);
    } else {
      ClaimCheckCount(rows, rejects, u, base, rand, round, candidate);
    }
  }

  /** Every name but the last is taken. */
  predicate TakenButLast(rows: Rows, names: seq<string>) {
    forall k | 0 <= k < |names| - 1 :: Taken(rows, names[k])
  }

  lemma TakenShift(rows: Rows, candidate: string, rest: seq<string>)
    requires Taken(rows, candidate) && TakenButLast(rows, rest)
    ensures TakenButLast(rows, [candidate] + rest)
  {
    var all := [candidate] + rest;
    forall k | 0 <= k < |all| - 1 ensures Taken(rows, all[k]) {
      if k > 0 {
        assert all[k] == rest[k - 1];
      }
    }
  }

  /** A successful claim of `u`: the last checked name was free, and exactly
      the user's row with it was added. */
  predicate Claimed(rows: Rows, u: Principal, c: Outcome) {
    && |c.checked| >= 1
    && var name := c.checked[|c.checked| - 1];
    && c.result == Ok(ProfileRef(u.id, name))
    && u.id !in rows && !Taken(rows, name)
    && c.rows == rows[u.id := NewProfile(u, name)]
  }

  /** A claim either fails leaving the table as it was, or succeeds as
      `Claimed` says. */
  lemma {:induction false} ClaimEffect(rows: Rows, rejects: set<Op>, u: Principal, base: string,
                                       rand: seq<Draw>, round: nat, candidate: string)
    requires round <= 5 <= |rand|
    ensures var c := Claim(rows, rejects, u, base, rand, round, candidate);
      && (c.result.Err? ==> c.rows == rows)
      && (c.result.Ok? ==> Claimed(rows, u, c))
    decreases 5 - round
  {
    if round < 5 && SelectByUsername !in rejects && Taken(rows, candidate) {
      var next := Candidate(base, rand[round]);
      ClaimEffect(rows, rejects, u, base, rand, round + 1, next);
      var rest := Claim(rows, rejects, u, base, rand, round + 1, next);
      var c := Claim(rows, rejects, u, base, rand, round, candidate);
      assert c.checked == [candidate] + rest.checked;
      if rest.result.Ok? {
        assert c.checked[|c.checked| - 1] == rest.checked[|rest.checked| - 1];
      }
    }
  }

  /** "Unable to create profile" comes after `5 - round` checks that all
      found their name taken. */
  lemma {:induction false} ClaimExhausted(rows: Rows, rejects: set<Op>, u: Principal, base: string,
                                          rand: seq<Draw>, round: nat, candidate: string)
    requires round <= 5 <= |rand|
    ensures var c := Claim(rows, rejects, u, base, rand, round, candidate);
      c.result == Err(UnableToCreateProfile) ==>
        |c.checked| == 5 - round && forall k | 0 <= k < |c.checked| :: Taken(rows, c.checked[k])
    decreases 5 - round
  {
    if round < 5 && SelectByUsername !in rejects && Taken(rows, candidate) {
      var next := Candidate(base, rand[round]);
      ClaimExhausted(rows, rejects, u, base, rand, round + 1, next);
      var rest := Claim(rows, rejects, u, base, rand, round + 1, next);
      var c := Claim(rows, rejects, u, base, rand, round, candidate);
      assert c == Outcome(rest.result, rest.rows, [candidate] + rest.checked);
      if rest.result == Err(UnableToCreateProfile) {
        forall k | 0 <= k < |c.checked| ensures Taken(rows, c.checked[k]) {
          if k > 0 {
            assert c.checked[k] == rest.checked[k - 1];
          }
        }
      }
    }
  }

  /** Every name the claim would check from round `round` to round 4 is
      taken. */
  predicate TakenFrom(rows: Rows, base: string, rand: seq<Draw>, round: nat)
    requires 5 <= |rand|
  {
    forall k | round <= k < 5 :: Taken(rows, CandidateAt(base, rand, k))
  }

  /** With the checks answered, a claim whose remaining candidates are all
      taken ends with "Unable to create profile". */
  lemma {:induction false} ClaimAllTaken(rows: Rows, rejects: set<Op>, u: Principal, base: string,
                                         rand: seq<Draw>, round: nat, candidate: string)
    requires round <= 5 <= |rand| && SelectByUsername !in rejects
    requires round < 5 ==> candidate == CandidateAt(base, rand, round)
    requires TakenFrom(rows, base, rand, round)
    ensures Claim(rows, rejects, u, base, rand, round, candidate).result == Err(UnableToCreateProfile)
    decreases 5 - round
  {
    if round < 5 {
      assert Taken(rows, CandidateAt(base, rand, round));
      ClaimAllTaken(rows, rejects, u, base, rand, round + 1, Candidate(base, rand[round]));
    }
  }

  /** With the checks and the insert answered, a claim whose candidates are
      taken up to round `j` and free at `j` claims the name of round `j`. */
  lemma {:induction false} ClaimFindsFree(rows: Rows, rejects: set<Op>, u: Principal, base: string,
                                          rand: seq<Draw>, round: nat, candidate: string, j: nat)
    requires round <= j < 5 <= |rand| && SelectByUsername !in rejects && Insert !in rejects
    requires u.id !in rows && candidate == CandidateAt(base, rand, round)
    requires forall k | round <= k < j :: Taken(rows, CandidateAt(base, rand, k))
    requires !Taken(rows, CandidateAt(base, rand, j))
    ensures var c := Claim(rows, rejects, u, base, rand, round, candidate);
      && c.result == Ok(ProfileRef(u.id, CandidateAt(base, rand, j)))
      && c.rows == rows[u.id := NewProfile(u, CandidateAt(base, rand, j))]
    decreases 5 - round
  {
    if round < j {
      assert Taken(rows, CandidateAt(base, rand, round));
      ClaimRetries(rows, rejects, u, base, rand, round, candidate);
      ClaimFindsFree(rows, rejects, u, base, rand, round + 1, Candidate(base, rand[round]), j);
    } else {
      ClaimStops(rows, rejects, u, base, rand, round, candidate);
    }
  }

  /** A claim keeps the store's constraints. */
  lemma ClaimKeepsWellFormed(rows: Rows, rejects: set<Op>, u: Principal, base: string,
                             rand: seq<Draw>, round: nat, candidate: string)
    requires round <= 5 <= |rand| && WellFormed(rows)
    ensures WellFormed(Claim(rows, rejects, u, base, rand, round, candidate).rows)
  {
    ClaimEffect(rows, rejects, u, base, rand, round, candidate);
    var c := Claim(rows, rejects, u, base, rand, round, candidate);
    if c.result.Ok? {
      AddKeepsWellFormed(rows, NewProfile(u, c.checked[|c.checked| - 1]));
    }
  }

  /** The existing row is returned and nothing is inserted or checked. */
  lemma ProvisioningKeepsExisting(rows: Rows, rejects: set<Op>, u: Principal, hints: seq<Option<string>>,
                                  rand: seq<Draw>)
    requires 5 <= |rand| && SelectById !in rejects && u.id in rows
    ensures Provisioning(rows, rejects, u, hints, rand)
         == Outcome(Ok(ProfileRef(rows[u.id].id, rows[u.id].username)), rows, [])
  {
  }

  /** At most five availability checks; the first of the base name, each later
      one of the base followed by a draw; every check but the last found its
      name taken. */
  lemma ProvisioningChecks(rows: Rows, rejects: set<Op>, u: Principal, hints: seq<Option<string>>,
                           rand: seq<Draw>)
    requires 5 <= |rand|
    ensures var o := Provisioning(rows, rejects, u, hints, rand);
      var base := BaseName(Lower(FirstTruthy(hints, "user")), u.id);
      && |o.checked| <= 5
      && (forall k | 0 <= k < |o.checked| :: o.checked[k] == CandidateAt(base, rand, k))
      && (forall k | 0 <= k < |o.checked| - 1 :: Taken(rows, o.checked[k]))
      && (forall k | 0 <= k < |o.checked| :: |o.checked[k]| <= 27 && base <= o.checked[k])
  {
    var o := Provisioning(rows, rejects, u, hints, rand);
    var base := BaseName(Lower(FirstTruthy(hints, "user")), u.id);
    if SelectById !in rejects && u.id !in rows {
      var c := Claim(rows, rejects, u, base, rand, 0, base);
      assert o == c;
      ClaimCheckCount(rows, rejects, u, base, rand, 0, base);
      ClaimChecks(rows, rejects, u, base, rand, 0, base);
      ClaimSkipsTaken(rows, rejects, u, base, rand, 0, base);
      BaseNameShape(Lower(FirstTruthy(hints, "user")), u.id);
      forall k | 0 <= k < |c.checked| ensures c.checked[k] == CandidateAt(base, rand, k) {
      }
      forall k | 0 <= k < |c.checked| ensures |c.checked[k]| <= 27 && base <= c.checked[k] {
        if k > 0 {
          CandidateUncut(base, rand[k - 1]);
        }
      }
    } else {
      assert o.checked == [];
    }
  }

  /** A row is inserted only for a name the check found free: on success the
      table gains exactly the row `(u.id, name)`; on failure it is unchanged. */
  lemma ProvisioningInsertsOnlyFreeName(rows: Rows, rejects: set<Op>, u: Principal,
                                        hints: seq<Option<string>>, rand: seq<Draw>)
    requires 5 <= |rand| && u.id !in rows
    ensures var o := Provisioning(rows, rejects, u, hints, rand);
      && (o.result.Err? ==> o.rows == rows)
      && (o.result.Ok? ==>
            && o.checked != []
            && var name := o.checked[|o.checked| - 1];
            && o.result.value == ProfileRef(u.id, name)
            && !Taken(rows, name)
            && o.rows == rows[u.id := NewProfile(u, name)])
  {
    if SelectById !in rejects {
      var base := BaseName(Lower(FirstTruthy(hints, "user")), u.id);
      ClaimEffect(rows, rejects, u, base, rand, 0, base);
    }
  }

  /** A call that fails with "Unable to create profile" checked five names,
      all taken, and left the table unchanged. */
  lemma ProvisioningExhausted(rows: Rows, rejects: set<Op>, u: Principal, hints: seq<Option<string>>,
                              rand: seq<Draw>)
    requires 5 <= |rand|
    ensures var o := Provisioning(rows, rejects, u, hints, rand);
      o.result == Err(UnableToCreateProfile) ==>
        && o.rows == rows && |o.checked| == 5
        && forall k | 0 <= k < 5 :: Taken(rows, o.checked[k])
  {
    if SelectById !in rejects && u.id !in rows {
      var base := BaseName(Lower(FirstTruthy(hints, "user")), u.id);
      ClaimEffect(rows, rejects, u, base, rand, 0, base);
      ClaimExhausted(rows, rejects, u, base, rand, 0, base);
    }
  }

  /** For a user without a row, with the lookups answered, five taken
      candidates make the call fail with "Unable to create profile" and leave
      the table unchanged. */
  lemma ProvisioningAllTaken(rows: Rows, rejects: set<Op>, u: Principal, hints: seq<Option<string>>,
                             rand: seq<Draw>)
    requires 5 <= |rand| && SelectById !in rejects && SelectByUsername !in rejects && u.id !in rows
    requires TakenFrom(rows, BaseName(Lower(FirstTruthy(hints, "user")), u.id), rand, 0)
    ensures var o := Provisioning(rows, rejects, u, hints, rand);
      o.result == Err(UnableToCreateProfile) && o.rows == rows
  {
    var base := BaseName(Lower(FirstTruthy(hints, "user")), u.id);
    ClaimAllTaken(rows, rejects, u, base, rand, 0, base);
    ClaimEffect(rows, rejects, u, base, rand, 0, base);
  }

  /** For a user without a row, with the store answering, the first free
      candidate is claimed: inserted and returned. */
  lemma ProvisioningFindsFree(rows: Rows, rejects: set<Op>, u: Principal, hints: seq<Option<string>>,
                              rand: seq<Draw>, j: nat)
    requires 5 <= |rand| && j < 5 && u.id !in rows
    requires SelectById !in rejects && SelectByUsername !in rejects && Insert !in rejects
    requires var base := BaseName(Lower(FirstTruthy(hints, "user")), u.id);
      && (forall k | 0 <= k < j :: Taken(rows, CandidateAt(base, rand, k)))
      && !Taken(rows, CandidateAt(base, rand, j))
    ensures var base := BaseName(Lower(FirstTruthy(hints, "user")), u.id);
      var o := Provisioning(rows, rejects, u, hints, rand);
      && o.result == Ok(ProfileRef(u.id, CandidateAt(base, rand, j)))
      && o.rows == rows[u.id := NewProfile(u, CandidateAt(base, rand, j))]
  {
    var base := BaseName(Lower(FirstTruthy(hints, "user")), u.id);
    ClaimFindsFree(rows, rejects, u, base, rand, 0, base, j);
  }

  /** An insert error ends the call: it is not retried with another name, even
      though the checked name was free. */
  lemma ProvisioningInsertErrorNotRetried(rows: Rows, rejects: set<Op>, u: Principal,
                                          hints: seq<Option<string>>, rand: seq<Draw>)
    requires 5 <= |rand| && Insert in rejects && SelectById !in rejects && SelectByUsername !in rejects
    requires u.id !in rows
    ensures var o := Provisioning(rows, rejects, u, hints, rand);
      o.result.Err? && o.rows == rows &&
      (o.result == Err(Rejected(Insert)) <==> SomeFree(rows, o.checked))
  {
    var base := BaseName(Lower(FirstTruthy(hints, "user")), u.id);
    ClaimEffect(rows, rejects, u, base, rand, 0, base);
    ClaimRejectedInsert(rows, rejects, u, base, rand, 0, base);
  }

  /** Some name of `names` is free. */
  predicate SomeFree(rows: Rows, names: seq<string>) {
    exists k | 0 <= k < |names| :: !Taken(rows, names[k])
  }

  lemma SomeFreeCons(rows: Rows, name: string, names: seq<string>)
    ensures SomeFree(rows, [name] + names) <==> !Taken(rows, name) || SomeFree(rows, names)
  {
    var all := [name] + names;
    if SomeFree(rows, all) && Taken(rows, name) {
      var k :| 0 <= k < |all| && !Taken(rows, all[k]);
      assert all[k] == names[k - 1];
    }
    if SomeFree(rows, names) {
      var k :| 0 <= k < |names| && !Taken(rows, names[k]);
      assert all[k + 1] == names[k];
    }
    if !Taken(rows, name) {
      assert all[0] == name;
    }
  }

  lemma {:induction false} ClaimRejectedInsert(rows: Rows, rejects: set<Op>, u: Principal, base: string,
                                               rand: seq<Draw>, round: nat, candidate: string)
    requires round <= 5 <= |rand| && Insert in rejects && SelectByUsername !in rejects
    ensures var c := Claim(rows, rejects, u, base, rand, round, candidate);
      && c.result.Err?
      && (c.result == Err(Rejected(Insert)) || c.result == Err(UnableToCreateProfile))
      && (c.result == Err(Rejected(Insert)) <==> SomeFree(rows, c.checked))
    decreases 5 - round
  {
    var c := Claim(rows, rejects, u, base, rand, round, candidate);
    if round == 5 {
      assert c.checked == [];
    } else if Taken(rows, candidate) {
      var next := Candidate(base, rand[round]);
      ClaimRejectedInsert(rows, rejects, u, base, rand, round + 1, next);
      var rest := Claim(rows, rejects, u, base, rand, round + 1, next);
      assert c == Outcome(rest.result, rest.rows, [candidate] + rest.checked);
      SomeFreeCons(rows, candidate, rest.checked);
    } else {
      assert c == Outcome(Err(Rejected(Insert)), rows, [candidate]);
      SomeFreeCons(rows, candidate, []);
    }
  }

  /** Provisioning keeps the store's constraints, so usernames stay unique. */
  lemma ProvisioningKeepsUsernamesUnique(rows: Rows, rejects: set<Op>, u: Principal,
                                         hints: seq<Option<string>>, rand: seq<Draw>)
    requires 5 <= |rand| && WellFormed(rows)
    ensures WellFormed(Provisioning(rows, rejects, u, hints, rand).rows)
  {
    if SelectById !in rejects && u.id !in rows {
      var base := BaseName(Lower(FirstTruthy(hints, "user")), u.id);
      ClaimKeepsWellFormed(rows, rejects, u, base, rand, 0, base);
    }
  }

  /** A second call after a successful one returns the same row, checks no name
      and inserts nothing, whatever the draws. */
  lemma ProvisioningIdempotent(rows: Rows, rejects: set<Op>, u: Principal, hints: seq<Option<string>>,
                               rand: seq<Draw>, rand': seq<Draw>)
    requires 5 <= |rand| && 5 <= |rand'| && WellFormed(rows)
    requires Provisioning(rows, rejects, u, hints, rand).result.Ok?
    ensures var o := Provisioning(rows, rejects, u, hints, rand);
      Provisioning(o.rows, rejects, u, hints, rand') == Outcome(o.result, o.rows, [])
  {
    if u.id !in rows {
      var base := BaseName(Lower(FirstTruthy(hints, "user")), u.id);
      ClaimEffect(rows, rejects, u, base, rand, 0, base);
    }
  }

  /** Provisioning never fails with "Not logged in": that error belongs to the
      callers' guards. */
  lemma ProvisioningErrors(rows: Rows, rejects: set<Op>, u: Principal, hints: seq<Option<string>>, rand: seq<Draw>)
    requires 5 <= |rand|
    ensures Provisioning(rows, rejects, u, hints, rand).result != Err(NotLoggedIn)
  {
    if SelectById !in rejects && u.id !in rows {
      var base := BaseName(Lower(FirstTruthy(hints, "user")), u.id);
      ClaimNeverNotLoggedIn(rows, rejects, u, base, rand, 0, base);
    }
  }

  lemma {:induction false} ClaimNeverNotLoggedIn(rows: Rows, rejects: set<Op>, u: Principal, base: string,
                                                 rand: seq<Draw>, round: nat, candidate: string)
    requires round <= 5 <= |rand|
    ensures Claim(rows, rejects, u, base, rand, round, candidate).result != Err(NotLoggedIn)
    decreases 5 - round
  {
    if round < 5 && SelectByUsername !in rejects && Taken(rows, candidate) {
      ClaimNeverNotLoggedIn(rows, rejects, u, base, rand, round + 1, Candidate(base, rand[round]));
    }
  }

  /** Without a session user the call fails with "Not logged in" before any
      store call. */
  lemma MyProvisioningNeedsUser(rows: Rows, rejects: set<Op>, rand: seq<Draw>)
    requires 5 <= |rand|
    ensures MyProvisioning(rows, rejects, None, rand) == Outcome(Err(NotLoggedIn), rows, [])
  {
  }

  /** The raw hint of `ensureMyProfile` is the first truthy of username,
      preferred username, full name and email local part, else "user". */
  lemma MyHintOrder(u: Principal)
    ensures FirstTruthy(MyHints(u), "user") ==
      if Truthy(u.meta.username) then u.meta.username.value
      else if Truthy(u.meta.preferredUsername) then u.meta.preferredUsername.value
      else if Truthy(u.meta.fullName) then u.meta.fullName.value
      else if Truthy(EmailHint(u.email)) then EmailHint(u.email).value
      else "user"
  {
    var h := MyHints(u);
    FirstTruthyPicks(h, "user");
    assert h[0] == u.meta.username && h[1] == u.meta.preferredUsername;
    assert h[2] == u.meta.fullName && h[3] == EmailHint(u.email);
  }

  /** The normalisation examples: characters outside `[a-z0-9_.-]` vanish,
      and a hint with nothing left falls back to the id. */
  lemma NormalisationExamples()
    ensures BaseName(Lower("Zo\U{00EB} K"), "0f3c9a27-77") == "zok"
    ensures BaseName(Lower("!!!"), "0f3c9a27-77") == "user_0f3c9a"
  {
    CleanedExample();
    FallbackExample();
  }

  lemma CleanedExample()
    ensures BaseName(Lower("Zo\U{00EB} K"), "0f3c9a27-77") == "zok"
  {
    assert Lower("Zo\U{00EB} K") == "zo\U{00EB} k";
    assert KeepUsernameChars("zo\U{00EB} k") == "zok";
  }

  lemma FallbackExample()
    ensures BaseName(Lower("!!!"), "0f3c9a27-77") == "user_0f3c9a"
  {
    assert Lower("!!!") == "!!!";
    assert KeepUsernameChars("!!!") == "";
    assert Take("0f3c9a27-77", 6) == "0f3c9a";
  }

  // ---------------------------------------------------------------------------
  // The provisioning methods

  function Prefixed(checked: seq<string>, o: Outcome): Outcome {
    Outcome(o.result, o.rows, checked + o.checked)
  }

  /** A round whose name is taken hands on to the next round. */
  lemma ClaimRetries(rows: Rows, rejects: set<Op>, u: Principal, base: string, rand: seq<Draw>,
                     round: nat, candidate: string)
    requires round < 5 <= |rand| && SelectByUsername !in rejects && Taken(rows, candidate)
    ensures Claim(rows, rejects, u, base, rand, round, candidate)
         == Prefixed([candidate], Claim(rows, rejects, u, base, rand, round + 1, Candidate(base, rand[round])))
  {
  }

  /** A round whose check fails or whose name is free ends the claim. */
  lemma ClaimStops(rows: Rows, rejects: set<Op>, u: Principal, base: string, rand: seq<Draw>,
                   round: nat, candidate: string)
    requires round < 5 <= |rand| && (SelectByUsername in rejects || !Taken(rows, candidate))
    ensures var c := Claim(rows, rejects, u, base, rand, round, candidate);
      && c.checked == [candidate]
      && (SelectByUsername in rejects ==> c.result == Err(Rejected(SelectByUsername)) && c.rows == rows)
      && (SelectByUsername !in rejects ==>
            Written(c.result, c.rows) == InsertRow(rows, rejects, NewProfile(u, candidate)))
  {
  }

  lemma PrefixedTwice(a: seq<string>, b: seq<string>, o: Outcome)
    ensures Prefixed(a, Prefixed(b, o)) == Prefixed(a + b, o)
  {
    assert (a + b) + o.checked == a + (b + o.checked);
  }

  /** The bounded claim loop shared by `ensureMyProfile` and `ensureProfile`. */
  method ClaimUsername(t: ProfileTable, u: Principal, base: string, rand: seq<Draw>)
    returns (r: Result<ProfileRef>, ghost checked: seq<string>)
    requires 5 <= |rand|
    modifies t`rows
    ensures Outcome(r, t.rows, checked) == Claim(old(t.rows), t.rejects, u, base, rand, 0, base)
  {
    ghost var rows0 := t.rows;
    var candidate := base;
    checked := [];
    for i := 0 to 5
      invariant t.rows == rows0
      invariant Claim(rows0, t.rejects, u, base, rand, 0, base)
             == Prefixed(checked, Claim(rows0, t.rejects, u, base, rand, i, candidate))
    {
      var conflict := t.FindByUsername(candidate);
      ghost var before := checked;
      checked := checked + [candidate];
      if conflict.Err? {
        r := Err(conflict.error);
        ClaimStops(rows0, t.rejects, u, base, rand, i, candidate);
        return;
      }
      if conflict.value.None? {
        // an insert error is passed on, not retried
        r := t.InsertProfile(NewProfile(u, candidate));
        ClaimStops(rows0, t.rejects, u, base, rand, i, candidate);
        return;
      }
      ClaimRetries(rows0, t.rejects, u, base, rand, i, candidate);
      PrefixedTwice(before, [candidate], Claim(rows0, t.rejects, u, base, rand, i + 1, Candidate(base, rand[i])));
      candidate := Candidate(base, rand[i]);
    }
    r := Err(UnableToCreateProfile);
  }

  /** The user's existing row, or a freshly claimed one. */
  method ProvisionProfile(t: ProfileTable, u: Principal, hints: seq<Option<string>>, rand: seq<Draw>)
    returns (r: Result<ProfileRef>, ghost checked: seq<string>)
    requires 5 <= |rand|
    modifies t`rows
    ensures Outcome(r, t.rows, checked) == Provisioning(old(t.rows), t.rejects, u, hints, rand)
  {
    var found := t.FindById(u.id);
    if found.Err? {
      return Err(found.error), [];
    }
    if found.value.Some? {
      return Ok(ProfileRef(found.value.value.id, found.value.value.username)), [];
    }
    var raw := Lower(FirstTruthy(hints, "user"));
    var base := BaseName(raw, u.id);
    r, checked := ClaimUsername(t, u, base, rand);
  }

  /** `ensureMyProfile()`. */
  method EnsureMyProfile(t: ProfileTable, session: Option<Principal>, rand: seq<Draw>)
    returns (r: Result<ProfileRef>, ghost checked: seq<string>)
    requires 5 <= |rand| && t.Valid()
    modifies t`rows
    ensures t.Valid()
    ensures Outcome(r, t.rows, checked) == MyProvisioning(old(t.rows), t.rejects, session, rand)
  {
    if session.None? {
      return Err(NotLoggedIn), [];
    }
    var u := session.value;
    ProvisioningKeepsUsernamesUnique(t.rows, t.rejects, u, MyHints(u), rand);
    r, checked := ProvisionProfile(t, u, MyHints(u), rand);
  }
}
