# DevShowcase core, modelled in Dafny

DevShowcase is a site where developers submit projects that others can
browse, upvote and star. This project models the parts of its browser code
that hold the logic:

- **Username provisioning.** `ensureMyProfile` and the private `ensureProfile`
  give a signed-in user a `profiles` row. The username comes from the first
  truthy identity hint. It is lowercased, cleaned to `[a-z0-9_.-]` and cut to
  24 characters, with `user_<first six id characters>` as the fallback. It is
  then made unique by at most five availability checks, each retry adding a
  random number below 1000. The guards of `getProfile`, `updateProfile` and
  `getMyProfile` are modelled too.
- **Engagement toggles.** `toggleUpvote` and `toggleStar` flip a
  (user, project) pair in the `project_upvotes` or `project_stars` table. The
  insert and delete helpers around them are modelled as well.
- **Projects.** `createProject` ensures the author has a profile and then
  inserts the payload. `getProjects` lists projects newest first, joined with
  author, starred and voted flags, a github link and a preview link.
- **Tag editing.** `TagInput` adds, removes, Backspace-deletes and pastes tags.
- **Client-side lists.** The Explore page reconciles toggle answers, collects
  tag buttons, filters and sorts. The grid component searches and sorts again.

The store (Supabase) is modelled by classes, one per table (`ProfileTable`,
`ProjectTable`, `RelationTable`). Each has `rows` and a set `rejects` naming
the calls it currently answers with an error, so every store-error path of
the source can be reached. Each multi-step operation has two parts:

- a pure specification function: `Claim`/`Provisioning`, `Toggle`, `Creating`,
  `Feed`, `PasteFold` or `Visible`;
- the imperative method that walks the same steps, with a postcondition tying
  its result and new state to that function.

The properties are lemmas about the specification functions.

Where the specification and the code disagree, the model follows the code:

- The toggles do not maintain a vote counter. They only insert or delete the
  pair, and no `votes` column is ever written.
- An insert that fails during provisioning is not retried with another name.
  The error is thrown (`ProvisioningInsertErrorNotRetried`).
- The random suffix is `Math.floor(Math.random() * 1000)`, a value in 0..999.
- The toggles do not turn a missing session user into "Not logged in". They
  read `user.id` unchecked, which is modelled as the error `NullUser`. The
  same holds for `removeUpvote`, `starProject` and `unstarProject`.

Environment inputs are parameters:

- The session user is an `Option`.
- The ids and `created_at` the store assigns are given by the caller.
- `Math.random` is a sequence of `Draw` values, one per retry round. A draw is the value of `Math.floor(Math.random() * 1000)`, given by its three decimal digits.

## Model

| member | source | states |
|---|---|---|
| Profiles.InsertRow | frontend/src/lib/api/profiles.js:77-88 | an insert that succeeds had a new id and an unused username and adds exactly that row, answering its id and username; a failed one changes nothing and is the store's refusal or a duplicate key |
| Profiles.InsertRowKeepsWellFormed | frontend/src/lib/api/profiles.js:77-87 | the insert keeps rows keyed by their id and usernames unique |
| Profiles.UpdateRow | frontend/src/lib/api/profiles.js:19-27 | a successful update had the row and replaces exactly it by its patched form; a failure changes nothing; an accepted call on a missing row is the no-rows error of `.single()` |
| Profiles.UpdateRowKeepsWellFormed | frontend/src/lib/api/profiles.js:19-26 | the update keeps rows keyed by their id and never gives a second row the same username |
| Profiles.ProfileTable.FindById | frontend/src/lib/api/profiles.js:50-55 | the lookup by id answers the row, none, or the store's error |
| Profiles.ProfileTable.FindByUsername | frontend/src/lib/api/profiles.js:70-75 | the lookup by username answers a row with that username exactly when the name is taken |
| Profiles.ProfileTable.InsertProfile | frontend/src/lib/api/profiles.js:77-87 | the table changes as the insert specification says |
| Profiles.ProfileTable.UpdateById | frontend/src/lib/api/profiles.js:19-26 | the table changes as the update specification says |
| Profiles.GetProfile | frontend/src/lib/api/profiles.js:3-13 | answers the store's error, "Profile not found" exactly when no row has the username, and for a taken username with the select accepted a stored row with that username |
| Profiles.UsernameDeterminesProfile | frontend/src/lib/api/profiles.js:4-8 | with unique usernames, at most one profile matches a username |
| Profiles.UpdateProfile | frontend/src/lib/api/profiles.js:15-28 | "Not logged in" without a session user and nothing changes; otherwise the user's own row is updated; unique usernames are kept |
| Profiles.GetMyProfile | frontend/src/lib/api/profiles.js:30-42 | "Not logged in" without a session user; the user's row, or the no-rows error of `.single()` when there is none |
| Profiles.EmailLocalPart | frontend/src/lib/api/profiles.js:63 | the result is the prefix of the email before its first '@' |
| Profiles.FirstTruthyPicks | frontend/src/lib/api/profiles.js:59-64 | the result is the first present, non-empty hint, or the fallback when there is none |
| Profiles.MyHintOrder | frontend/src/lib/api/profiles.js:59-65 | the hint order is username, preferred username, full name, email local part, then "user" |
| Profiles.KeepUsernameChars | frontend/src/lib/api/profiles.js:66 | the cleaned hint holds only characters of `[a-z0-9_.-]` |
| Profiles.KeepUsernameCharsCounts | frontend/src/lib/api/profiles.js:66 | cleaning keeps each allowed character as often as it occurs and drops all others |
| Profiles.BaseNameShape | frontend/src/lib/api/profiles.js:66 | the base is at most 24 characters: a non-empty prefix of the cleaned hint, or `user_` and the first six id characters when nothing is left |
| Profiles.EveryValueIsADraw | frontend/src/lib/api/profiles.js:90 | every value 0 to 999 of `Math.floor(Math.random() * 1000)` is the value of some draw |
| Profiles.DrawTextRoundTrip | frontend/src/lib/api/profiles.js:90 | the draw's decimal form has one to three digits, no leading zero unless it is 0, and reads back as the draw's value |
| Profiles.CandidateUncut | frontend/src/lib/api/profiles.js:90 | with a base of at most 24 characters the 28-character cut never bites: a retry name is the base and the draw's digits, at most 27 characters, and its suffix reads back as the draw's value |
| Profiles.NormalisationExamples | frontend/src/lib/api/profiles.js:59-66 | "Zoë K" gives "zok"; "!!!" gives `user_0f3c9a` for id "0f3c9a27-77" |
| Profiles.Claim | frontend/src/lib/api/profiles.js:67-93 | the five-round claim loop as a function: check the candidate, insert it when free, otherwise go on with the base plus the round's draw; specified by `ClaimCheckCount`, `ClaimChecks`, `ClaimSkipsTaken`, `ClaimEffect`, `ClaimExhausted`, `ClaimAllTaken`, `ClaimFindsFree` and `ClaimRejectedInsert` |
| Profiles.ClaimCheckCount | frontend/src/lib/api/profiles.js:67-74 | the rounds left bound the names checked, and the first one checked is the current candidate |
| Profiles.ClaimChecks | frontend/src/lib/api/profiles.js:69-91 | at most five names are checked, each after the first being the base plus the previous round's draw |
| Profiles.ClaimSkipsTaken | frontend/src/lib/api/profiles.js:70-76 | every checked name before the last one was taken |
| Profiles.ClaimEffect | frontend/src/lib/api/profiles.js:69-93 | an error leaves the table unchanged; success answers and inserts exactly the user's row with the last checked name, which was free, for a user without a row |
| Profiles.ClaimExhausted | frontend/src/lib/api/profiles.js:69-93 | "Unable to create profile" means every remaining round checked a name and all were taken |
| Profiles.ClaimAllTaken | frontend/src/lib/api/profiles.js:69-93 | with the checks answered and every remaining candidate taken, the claim ends with "Unable to create profile" |
| Profiles.ClaimFindsFree | frontend/src/lib/api/profiles.js:69-90 | with the checks and the insert answered, the first free candidate is inserted and returned |
| Profiles.ClaimKeepsWellFormed | frontend/src/lib/api/profiles.js:69-91 | the claim keeps rows keyed by their id and usernames unique |
| Profiles.ClaimRetries | frontend/src/lib/api/profiles.js:70-90 | a round whose name is taken records it and goes on with the base plus that round's draw |
| Profiles.ClaimStops | frontend/src/lib/api/profiles.js:70-88 | a round whose check fails, or whose name is free, checks only that name and ends with the check's error or the insert's answer |
| Profiles.ClaimRejectedInsert | frontend/src/lib/api/profiles.js:76-88 | with inserts rejected the claim fails, with the insert error exactly when some checked name was free |
| Profiles.ClaimNeverNotLoggedIn | frontend/src/lib/api/profiles.js:69-93 | the claim loop never answers "Not logged in" |
| Profiles.Provisioning | frontend/src/lib/api/profiles.js:49-93 | the lookup of the user's row followed by the claim, as a function; specified by the `Provisioning…` lemmas below |
| Profiles.ProvisioningKeepsExisting | frontend/src/lib/api/profiles.js:50-56 | an existing row is returned; nothing is checked or inserted |
| Profiles.ProvisioningChecks | frontend/src/lib/api/profiles.js:66-91 | at most five checks; check k is of the k-th candidate; all but the last were taken; each checked name starts with the base and has at most 27 characters |
| Profiles.ProvisioningInsertsOnlyFreeName | frontend/src/lib/api/profiles.js:76-88 | for a user without a row, success adds exactly `(id, last checked name)` and that name was free; failure leaves the table unchanged |
| Profiles.ProvisioningExhausted | frontend/src/lib/api/profiles.js:69-93 | "Unable to create profile" comes only after five taken names and leaves the table unchanged |
| Profiles.ProvisioningAllTaken | frontend/src/lib/api/profiles.js:69-93 | for a user without a row, with the lookups answered, five taken candidates give "Unable to create profile" and an unchanged table |
| Profiles.ProvisioningFindsFree | frontend/src/lib/api/profiles.js:69-90 | for a user without a row, with the store answering, the first free candidate is inserted as the user's row and returned |
| Profiles.ProvisioningInsertErrorNotRetried | frontend/src/lib/api/profiles.js:87 | a rejected insert ends the call with the table unchanged; the insert error comes exactly when some checked name was free |
| Profiles.ProvisioningKeepsUsernamesUnique | frontend/src/lib/api/profiles.js:76-88 | provisioning keeps ids and usernames unique |
| Profiles.ProvisioningIdempotent | frontend/src/lib/api/profiles.js:50-56 | after a success, a second call returns the same row, checks nothing and inserts nothing, whatever the draws |
| Profiles.ProvisioningErrors | frontend/src/lib/api/profiles.js:49-93 | provisioning itself never answers "Not logged in" |
| Profiles.MyProvisioningNeedsUser | frontend/src/lib/api/profiles.js:45-47 | without a session user the answer is "Not logged in" before any store call |
| Profiles.ClaimUsername | frontend/src/lib/api/profiles.js:67-93 | the five-round loop's answer, new table and checked names are those of the claim specification |
| Profiles.ProvisionProfile | frontend/src/lib/api/profiles.js:49-93 | the lookup followed by the claim agrees with the provisioning specification |
| Profiles.EnsureMyProfile | frontend/src/lib/api/profiles.js:44-94 | `ensureMyProfile` agrees with the specification for the session user and keeps the table well formed |
| Engagement.InsertPair | frontend/src/lib/api/upvotes.js:53-55 | an insert succeeds exactly when it is accepted and the pair is new, and then adds exactly that pair |
| Engagement.DeletePair | frontend/src/lib/api/upvotes.js:24-28 | a delete fails only when rejected; deleting an absent pair is no error; on success exactly that pair is gone |
| Engagement.Toggle | frontend/src/lib/api/upvotes.js:34-58 | the toggle as written, shared with stars.js:32-59; specified by `ToggleMisreports`, `ToggleAgreesWhenStoreAnswers`, `ToggleTouchesOnlyItsPair` and `ToggleTwiceRestoresWhenStoreAnswers` |
| Engagement.ToggleChecked | frontend/src/lib/api/upvotes.js:34-58 | the toggle with every store error passed on; specified by `ToggleCheckedReportsMembership` and `ToggleTwiceRestores` |
| Engagement.ToggleMisreports | frontend/src/lib/api/upvotes.js:34-58 | as written, with inserts rejected the toggle answers "voted" although no row exists |
| Engagement.ToggleCheckedReportsMembership | frontend/src/lib/api/upvotes.js:34-58 | the checked toggle answers whether the pair is present afterwards, adds or removes exactly that pair, changes nothing on an error, and answers "Not logged in" exactly without a user |
| Engagement.ToggleAgreesWhenStoreAnswers | frontend/src/lib/api/upvotes.js:34-58 | when the store accepts every call, the as-written and checked toggles agree for a signed-in user |
| Engagement.ToggleTouchesOnlyItsPair | frontend/src/lib/api/upvotes.js:44-57 | whatever the store answers, no other pair changes |
| Engagement.ToggleTwiceRestores | frontend/src/lib/api/upvotes.js:34-58 | two successful checked toggles answer opposite values and restore the relation |
| Engagement.ToggleTwiceRestoresWhenStoreAnswers | frontend/src/lib/api/upvotes.js:34-58 | with every call accepted the as-written toggle alternates and two toggles restore the relation |
| Engagement.InsertThenDeleteRestores | frontend/src/lib/api/upvotes.js:3-31 | a successful upvote followed by a successful removal restores the relation |
| Engagement.ProjectIdsOf | frontend/src/lib/api/projects.js:81-87 | a project id is in the set exactly when the user's pair with it is stored |
| Engagement.RelationTable.FindPair | frontend/src/lib/api/upvotes.js:37-42 | the lookup answers the pair's presence or the store's error |
| Engagement.RelationTable.AddPair | frontend/src/lib/api/upvotes.js:53-55 | the relation changes as the insert specification says |
| Engagement.RelationTable.RemovePair | frontend/src/lib/api/upvotes.js:24-28 | the relation changes as the delete specification says |
| Engagement.RelationTable.ProjectsOf | frontend/src/lib/api/projects.js:81-82 | the user's project ids, or the store's error |
| Engagement.ToggleRelation | frontend/src/lib/api/upvotes.js:34-58 | the toggle method agrees with the as-written toggle specification |
| Engagement.ToggleRelationChecked | frontend/src/lib/api/upvotes.js:34-58 | the checked toggle method agrees with its specification |
| Upvotes.UpvoteProject | frontend/src/lib/api/upvotes.js:3-19 | "Not logged in" without a user; otherwise the pair is inserted and the store's refusal, such as a second upvote, is passed on |
| Upvotes.RemoveUpvote | frontend/src/lib/api/upvotes.js:21-31 | the user's pair is deleted; without a user reading the id fails and nothing changes |
| Upvotes.ToggleUpvote | frontend/src/lib/api/upvotes.js:34-58 | `toggleUpvote` is the as-written toggle over the upvote relation |
| Stars.StarProject | frontend/src/lib/api/stars.js:3-17 | the pair is inserted and a refusal is passed on; without a user reading the id fails |
| Stars.UnstarProject | frontend/src/lib/api/stars.js:19-29 | the user's pair is deleted; without a user reading the id fails |
| Stars.ToggleStar | frontend/src/lib/api/stars.js:32-59 | `toggleStar` is the as-written toggle over the star relation |
| Ordering.InsertDescPermutes | frontend/src/lib/api/projects.js:73 | inserting one element adds exactly that element |
| Ordering.InsertDescSorted | frontend/src/lib/api/projects.js:73 | inserting into a list in non-increasing key order keeps it in that order |
| Ordering.InsertDescStable | frontend/src/lib/api/projects.js:73 | inserting one element puts it first among the elements with its key and keeps their order |
| Ordering.SortDesc | frontend/src/lib/api/projects.js:73 | the sort is a permutation in non-increasing key order |
| Ordering.SortDescStable | frontend/src/lib/api/projects.js:73 | elements with equal keys keep their relative order |
| Ordering.SortDescOfSorted | frontend/src/components/ProjectsGrid.jsx:22 | sorting a list that is already in order leaves it unchanged |
| Projects.InsertProjectRow | frontend/src/lib/api/projects.js:52-58 | a successful insert appends exactly the payload; a failed one changes nothing; ids stay unique |
| Projects.ProjectTable.InsertProject | frontend/src/lib/api/projects.js:52-58 | the table changes as the insert specification says |
| Projects.ProjectTable.SelectNewestFirst | frontend/src/lib/api/projects.js:67-74 | the rows newest first, or the store's error |
| Projects.EnsureProfile | frontend/src/lib/api/projects.js:3-37 | `ensureProfile` is provisioning with the hints username then email local part, answering nothing on success |
| Projects.Creating | frontend/src/lib/api/projects.js:39-60 | `createProject` as a function; specified by `CreatingNeedsUser`, `CreatingProvisionsAuthor`, `CreatingStopsOnProfileError` and `CreatingKeepsTablesValid` |
| Projects.CreatingNeedsUser | frontend/src/lib/api/projects.js:40-43 | "Not logged in", with nothing written, exactly when there is no session user or its id is empty |
| Projects.CreatingProvisionsAuthor | frontend/src/lib/api/projects.js:45-58 | on success the caller has a profile and the table gained exactly the payload, owned by the draft's owner or else the caller, with the draft's fields |
| Projects.CreatingStopsOnProfileError | frontend/src/lib/api/projects.js:45 | when provisioning fails its error is the answer and no project is written |
| Projects.CreatingKeepsTablesValid | frontend/src/lib/api/projects.js:39-60 | creating keeps project ids and usernames unique |
| Projects.CreateProject | frontend/src/lib/api/projects.js:39-60 | the method agrees with the creation specification on the answer and both tables |
| Projects.UrlOf | frontend/src/lib/api/projects.js:92 | a platform's URL counts only when it is non-empty |
| Projects.FirstNamed | frontend/src/lib/api/projects.js:92 | the name match stops at the first platform whose lowercased name is listed, and finds none when none is |
| Projects.Feed | frontend/src/lib/api/projects.js:62-110 | `getProjects` as a function; specified by `FeedOrder`, `FeedViewerState`, `FeedErrors`, `AuthorFallback`, `GithubUrlChoice` and `PreviewUrlChoice` |
| Projects.GetProjects | frontend/src/lib/api/projects.js:62-110 | the method answers the listing specification |
| Projects.FeedOrder | frontend/src/lib/api/projects.js:73 | the listing holds every project once, newest first, with ties in store order |
| Projects.FeedViewerState | frontend/src/lib/api/projects.js:76-101 | a project is starred or voted exactly when the viewer's pair is stored; without a viewer no project is |
| Projects.FeedErrors | frontend/src/lib/api/projects.js:67-88 | the listing fails exactly when the project query fails, or when there is a viewer and one relation query fails |
| Projects.AuthorFallback | frontend/src/lib/api/projects.js:99 | the author name is the owner's username, or "Unknown" when there is no profile or an empty username |
| Projects.GithubUrlChoice | frontend/src/lib/api/projects.js:93-95 | the github link is the first "github" platform's URL in any letter case, else the first platform's URL; empty URLs count as missing |
| Projects.PreviewUrlChoice | frontend/src/lib/api/projects.js:96 | the preview link is the first preview, live, demo or website platform's URL in any letter case, else missing |
| Projects.GithubExample | frontend/src/lib/api/projects.js:92-95 | "GitHub" matches "github" past an earlier "Live" entry |
| Projects.GithubFallbackExample | frontend/src/lib/api/projects.js:93-95 | a github entry without URL falls back to the first platform |
| Projects.PreviewExample | frontend/src/lib/api/projects.js:96 | a null platform entry is skipped and "DEMO" matches |
| Text.Lower | frontend/src/components/TagInput.jsx:12 | lowercasing keeps the length and maps every character by itself |
| Text.Trim | frontend/src/components/TagInput.jsx:8 | `trim`; specified by `TrimIsSlice`, `TrimShape` and `TrimOfTrimmed` |
| Text.TrimIsSlice | frontend/src/components/TagInput.jsx:8 | the trimmed text is a contiguous part of the text with only white space cut off before and after it |
| Text.TrimShape | frontend/src/components/TagInput.jsx:8-9 | the trimmed text has no white space at either end and is empty exactly when the text is blank |
| Text.TrimOfTrimmed | frontend/src/components/TagInput.jsx:8 | a text without white space at its ends is its own trim |
| Text.Collapse | frontend/src/components/TagInput.jsx:11 | `replace(/\s+/g, " ")`; specified by `CollapseIsScan`, `CollapseRunBetweenWords` and `CollapseShape` |
| Text.CollapseIsScan | frontend/src/components/TagInput.jsx:11 | collapsing equals the one-character-at-a-time scan that keeps every other character in order and turns each maximal white-space run into exactly one plain space |
| Text.CollapseRunBetweenWords | frontend/src/components/TagInput.jsx:11 | one white-space run between two words without white space becomes a single plain space |
| Text.CollapseEnds | frontend/src/components/TagInput.jsx:11 | collapsing keeps emptiness and whether each end is white space |
| Text.CollapsePlainSpaces | frontend/src/components/TagInput.jsx:11 | every white-space character left after collapsing is a plain space |
| Text.CollapseNoRuns | frontend/src/components/TagInput.jsx:11 | no two white-space characters are neighbours after collapsing |
| Text.CollapseShape | frontend/src/components/TagInput.jsx:11 | collapsing is empty exactly for the empty text, keeps whether each end is white space, and leaves single plain spaces only |
| Text.CollapseWithoutSpace | frontend/src/components/TagInput.jsx:11 | a text without white space collapses to itself |
| Text.ContainsIsSubstring | frontend/src/pages/Explore.jsx:68-72 | `includes` holds exactly when the query occurs at some index |
| Text.ContainsNeedsChar | frontend/src/pages/Explore.jsx:68-72 | a text without a character contains no query holding it |
| Text.TakeIsPrefix | frontend/src/lib/api/profiles.js:66 | `slice(0, n)` is the start of the text, `n` long unless the text is shorter |
| Text.JoinContainsParts | frontend/src/components/ProjectsGrid.jsx:16 | a query found in one part is found in the joined text |
| TagInput.NormalizeTagShape | frontend/src/components/TagInput.jsx:8-11 | a normalised non-blank tag is non-empty, has no white space at its ends and no white-space runs |
| TagInput.AddTag | frontend/src/components/TagInput.jsx:7-23 | `addTag` on the field; specified by `AddTagOutcome`, `AddTagKeepsBound` and `AddTagKeepsDistinct` |
| TagInput.AddTagOutcome | frontend/src/components/TagInput.jsx:7-23 | blank input changes nothing; otherwise the text is cleared and the normalised tag is appended, exactly when it is new ignoring case and the list is below the bound |
| TagInput.AddTagKeepsBound | frontend/src/components/TagInput.jsx:17-20 | adding never takes a list past `maxTags` |
| TagInput.AddTagKeepsDistinct | frontend/src/components/TagInput.jsx:12-16 | adding keeps the tags distinct ignoring case |
| TagInput.Splice | frontend/src/components/TagInput.jsx:26-27 | `splice(idx, 1)` removes one tag for an index in range, counting negative ones from the end, and none past the end |
| TagInput.RemoveTagExact | frontend/src/components/TagInput.jsx:25-30 | removing index idx drops exactly that tag and keeps the others in order |
| TagInput.RemoveTagOtherIndexes | frontend/src/components/TagInput.jsx:27 | an index past the end removes nothing; a negative one counts from the end |
| TagInput.BackspaceRemovesLast | frontend/src/components/TagInput.jsx:36-38 | Backspace in an empty box removes the last tag and otherwise does nothing |
| TagInput.SplitRuns | frontend/src/components/TagInput.jsx:46 | splitting yields at least one piece, none holding a newline or comma |
| TagInput.SplitRunsOfPiece | frontend/src/components/TagInput.jsx:46 | a text without newline or comma is one piece |
| TagInput.SplitRunsLosesOnlySeparators | frontend/src/components/TagInput.jsx:46 | the pieces put together are the text without its newlines and commas |
| TagInput.SplitRunsJoin | frontend/src/components/TagInput.jsx:46 | the pieces joined with commas are the text with each maximal run of newlines and commas made one comma; as no piece holds a separator, this fixes where the cuts are |
| TagInput.TrimmedNonEmptyWords | frontend/src/components/TagInput.jsx:46 | every part is non-empty and trimmed, and there are no more parts than pieces |
| TagInput.Paste | frontend/src/components/TagInput.jsx:42-58 | `onPaste` on the field; specified through `PasteFold` and `OnPaste` |
| TagInput.PasteFold | frontend/src/components/TagInput.jsx:48-53 | the paste loop as written; specified by the `PasteFold…` lemmas below, `PasteKeepsDistinct` and `PasteOvershootsFullList` |
| TagInput.OnPaste | frontend/src/components/TagInput.jsx:42-58 | the loop with its early break computes the paste specification |
| TagInput.PasteFoldKeepsPrefix | frontend/src/components/TagInput.jsx:48-53 | pasting keeps the old tags as a prefix and adds at most one tag per part |
| TagInput.PasteFoldAppendsParts | frontend/src/components/TagInput.jsx:49-51 | every appended tag is a whitespace-collapsed part |
| TagInput.PasteFoldAddsEveryPart | frontend/src/components/TagInput.jsx:49-53 | unless the loop stopped at `maxTags`, every collapsed part is in the final list, ignoring case |
| TagInput.PasteFoldAppendsNewTags | frontend/src/components/TagInput.jsx:51 | every appended tag differs, ignoring case, from all tags before it |
| TagInput.PasteKeepsDistinct | frontend/src/components/TagInput.jsx:49-53 | pasting keeps the tags distinct ignoring case |
| TagInput.PasteFoldBound | frontend/src/components/TagInput.jsx:52 | pasting into a list below `maxTags` ends with at most `maxTags` tags |
| TagInput.PasteOvershootsFullList | frontend/src/components/TagInput.jsx:49-53 | as written, pasting "b" into the full list ["a"] with `maxTags` 1 gives ["a", "b"] |
| TagInput.PasteFoldBoundedCorrect | frontend/src/components/TagInput.jsx:49-53 | the bound checked before each push never passes `maxTags`, leaves a full list alone, and agrees with the source below the bound |
| TagInput.PasteBoundedKeepsBound | frontend/src/components/TagInput.jsx:42-58 | the corrected paste keeps a list within `maxTags` |
| Lists.Filter | frontend/src/pages/Explore.jsx:68-79 | the filtered elements are exactly those passing the test, each as often as before |
| Lists.Distinct | frontend/src/pages/Explore.jsx:44-48 | the distinct elements are exactly the members, once each |
| Lists.DistinctInFirstOccurrenceOrder | frontend/src/pages/Explore.jsx:44-48 | a `Set` keeps elements in the order of their first occurrence |
| Lists.DistinctPrefixClosed | frontend/src/pages/Explore.jsx:43-49 | a prefix of the distinct list, such as the one `slice` keeps, holds every element whose first occurrence comes before that of one it holds |
| Explore.ApplyVote | frontend/src/pages/Explore.jsx:21-30 | the `handleUpvote` reconciliation; specified by `ApplyVoteEffect`, `VoteThenUnvote` and `VotedFlagMatchesStore` |
| Explore.ApplyStar | frontend/src/pages/Explore.jsx:32-41 | the `handleStar` reconciliation; specified by `ApplyStarEffect` |
| Explore.ApplyVoteEffect | frontend/src/pages/Explore.jsx:24-26 | a failed toggle changes nothing; otherwise only projects with the id change, in order, their `voted` set to the answer and votes moved by ±1 from missing-as-0 without clamping |
| Explore.ApplyStarEffect | frontend/src/pages/Explore.jsx:35-37 | only projects with the id change, and only `starred`; a failed toggle changes nothing |
| Explore.VoteThenUnvote | frontend/src/pages/Explore.jsx:24-26 | an upvote followed by its withdrawal restores every shown count |
| Explore.VotedFlagMatchesStore | frontend/src/pages/Explore.jsx:21-30 | after a checked toggle the page shows the project as voted exactly when the pair is stored |
| Explore.AllTags | frontend/src/pages/Explore.jsx:43-49 | the `allTags` value: the first 15 distinct tags in first-occurrence order, or all of them when there are fewer; specified by `FlatTagsMembers` and `AllTagsShape` |
| Explore.FlatTagsMembers | frontend/src/pages/Explore.jsx:45-47 | a tag is collected exactly when it is a tech or language of some project |
| Explore.AllTagsShape | frontend/src/pages/Explore.jsx:43-49 | at most 15 distinct tag buttons, each a tag of some project, in first-occurrence order; all tags appear when there are at most 15, exactly 15 when there are more, and every tag that first occurs before a shown one is shown too, so they are the first 15 |
| Explore.ClickTag | frontend/src/pages/Explore.jsx:124 | a click clears the selection exactly when the tag was selected, and otherwise selects the tag |
| Explore.Visible | frontend/src/pages/Explore.jsx:63-89 | the filter/sort effect as a function; specified by `VisibleMembers`, `VisibleOrder`, `FilterSteps` and `QueryKeepsSpaces` |
| Explore.VisibleMembers | frontend/src/pages/Explore.jsx:63-89 | the list holds exactly the projects passing the query (only when non-blank) and the tag filter (only when one is selected), as often as listed |
| Explore.VisibleOrder | frontend/src/pages/Explore.jsx:82-86 | "trending" gives votes non-increasing, missing votes as 0; "newest" gives creation time non-increasing; both sorts keep projects with equal keys in the filtered order; any other choice keeps the listing's order |
| Explore.FilterSteps | frontend/src/pages/Explore.jsx:64-80 | filtering by query then by tag is filtering once by both tests |
| Explore.QueryKeepsSpaces | frontend/src/pages/Explore.jsx:66-72 | the query is matched untrimmed: one holding a space hides every project whose fields hold none |
| Explore.Page.constructor | frontend/src/pages/Explore.jsx:10-14 | the initial state is an empty query, "trending", no tag and an empty listing |
| Explore.Page.Refilter | frontend/src/pages/Explore.jsx:63-89 | the effect derives the visible list of the current state |
| Explore.Page.Loaded | frontend/src/pages/Explore.jsx:52-60 | a fetched listing replaces the old one, a failed fetch changes nothing, and the visible list follows |
| Explore.Page.HandleUpvote | frontend/src/pages/Explore.jsx:21-30 | the listing is reconciled with the answer and the visible list follows |
| Explore.Page.HandleStar | frontend/src/pages/Explore.jsx:32-41 | the listing is reconciled with the answer and the visible list follows |
| Explore.Page.SetQuery | frontend/src/pages/Explore.jsx:101 | a typed query is kept and the visible list follows |
| Explore.Page.SetSort | frontend/src/pages/Explore.jsx:113 | the chosen sort is kept and the visible list follows |
| Explore.Page.ClickTagButton | frontend/src/pages/Explore.jsx:124 | the selection is toggled and the visible list follows |
| Explore.ShownOrderIsTheGrids | frontend/src/pages/Explore.jsx:150-157 | what the grid shows is ordered by the grid's own choice, whatever the page's sort |
| Explore.NewestSurvivesGrid | frontend/src/pages/Explore.jsx:150-157 | with a blank grid query and "latest", the page's "newest" order is shown unchanged |
| Explore.TrendingNotShown | frontend/src/pages/Explore.jsx:150-157 | "trending" puts an older 5-vote project first, yet the grid at "latest" shows the newer unvoted one first |
| ProjectsGrid.Grid | frontend/src/components/ProjectsGrid.jsx:9-22 | the `filtered` memo; specified by `GridMembers`, `GridOrder` and `TechTagMatches` |
| ProjectsGrid.GridMembers | frontend/src/components/ProjectsGrid.jsx:9-18 | the grid shows exactly the projects whose title, description or joined tech list contains the lowercased query; a blank query keeps all |
| ProjectsGrid.GridOrder | frontend/src/components/ProjectsGrid.jsx:19-22 | "top" gives votes non-increasing and any other choice creation time non-increasing, ties in the given order |
| ProjectsGrid.LowerJoin | frontend/src/components/ProjectsGrid.jsx:16 | lowercasing the joined tech list is joining the lowercased tags |
| ProjectsGrid.TechTagMatches | frontend/src/components/ProjectsGrid.jsx:16 | a query found in one tech tag, ignoring case, finds the project |

## Left out

- Network, authentication and concurrency are not modelled. Calls run one at a time. A store failure is modelled by the table's `rejects` set. The session user, store-assigned ids and timestamps, and the random draws are parameters.
- The toggles look a pair up with `.single()`. The model counts the pair as found when it is stored, since the uniqueness constraint allows at most one such row. The store's own constraints are assumed: unique profile ids and usernames, unique project ids, one row per pair.
- `toggleUpvote` and `toggleStar` delete by the row's `id`, not by the pair. Relation rows are modelled as the pair itself, so the two deletes coincide.
- Lowercasing is ASCII lowercasing, and no Unicode case mapping is modelled. `created_at` is an integer timestamp, not a parsed date. `p.title` and `p.description` are assumed to be strings, never null.
- Profiles.UpdateRow: a patch can only set columns to values. It cannot set a column to null, change an `id`, or touch columns outside `username`, `full_name`, `avatar_url` and `bio`.
- Projects.Payload: the payload spreads the caller's object. The model's draft has the known columns only, and `votes` starts missing.
- Sorting, `Array.prototype.sort` and the store's `order`, is modelled on values as a stable insertion sort. The sort runs on a copy in the source, so no aliasing is lost. The store's order for equal `created_at` values is taken to be insertion order.
- `TagInput` does not own its list: the parent is taken to pass back every list handed to `onChange`, so the next event sees it as `value`.
- `TagInput` splices a copy of the list, modelled on values. Input focus and `preventDefault` are left out. A paste with no parts falls through to the browser's own paste into the box, which is not modelled.
- Logging is not modelled: the `console.error` calls in `getProjects` and in the Explore page's caught failures have no effect on the model's state.
- The Explore page's navigation, markup and loading flag are left out. So are the grid's skeleton cards and markup, and the presentational components.
- Not part of this model: `comments.js`, `getProjectById` and `deleteProject`, and the Home page, whose mock data and one-line optimistic vote increment, which always adds 1 and sets no `voted` flag, resemble the upvote branch of `Explore.ApplyVote`.

## Findings

| source | as written | input that shows it | evidently intended | confidence | as-written member | corrected member |
|---|---|---|---|---|---|---|
| frontend/src/lib/api/upvotes.js:37-57 | the lookup, delete and insert errors are never inspected; the toggle answers from the lookup alone | store refuses the insert, no upvote stored: the answer is `{ voted: true }` and still no row exists (same in stars.js:36-58) | pass store errors on, so the answer is the pair's presence afterwards | not executed | Engagement.ToggleMisreports | Engagement.ToggleCheckedReportsMembership |
| frontend/src/components/TagInput.jsx:49-53 | the bound is checked only after a push | tags ["a"], `maxTags` 1, paste "b": the list becomes ["a", "b"] | check the bound before pushing, as `addTag` does at lines 17-20 | not executed | TagInput.PasteOvershootsFullList | TagInput.PasteFoldBoundedCorrect |
