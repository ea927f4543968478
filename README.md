# Fraternity maintenance tracker — a Dafny model of its data core

The tracker lets fraternity members report maintenance issues, upvote them
and follow their status (Pending, In Progress, Fixed). Two front ends share
one design: the main app (`src/`) talks to a Supabase backend and the
`maintenance-app/` variant to Firestore. When no backend is configured both
fall back to a browser-local store, and a fixed list of authorized email
addresses with one demo password stands in for real accounts.

This project models:

- the issue and user records (`types.dfy`);
- the local store of `src/services/localStorageService.ts`, as the class
  `LocalStorage.LocalStorageService` whose two fields are the two storage
  keys (`local_storage.dfy`), with the list operations it is built from and
  their laws in `issues.dfy`;
- the two issue providers, as classes holding the in-memory mirror of the
  issue list (`issues_context.dfy`, `maintenance_issues_context.dfy`), the
  list rewrites they apply to the mirror and the relation that keeps a
  local-mode mirror in step with the store (`mirror.dfy`);
- the two authentication providers and the authorized and administrator
  lists (`accounts.dfy`, `auth_context.dfy`, `maintenance_auth_context.dfy`).

The backend, the clock and id generation are outside the model: each remote
call becomes a `BackendResult` parameter (`Success` or `Failure`), and the
current time and a new id are parameters of the operations that read them.
A rejected promise is `Rejected(error)` in the `Outcome` an operation
returns. Mutations that need the signed-in user take it as a parameter.

Where the code and the design notes of the project differ, the model
follows the code:

- the local store returns issues in the order they were stored (new issues
  are appended) and never sorts them; the mirror puts a new issue first,
  and only the two remote queries (the Supabase fetch and the Firestore
  subscription) ask the backend for newest first;
- `deleteIssue` in the local store removes every issue with the id, not one;
- the local-mode `updateIssue` and `deleteIssue` of both providers do not
  check that a user is signed in;
- an id is `Date.now()` as a string, so uniqueness is not guaranteed; the
  lemmas that need unique ids take a fresh id as a hypothesis;
- when the local store refuses an operation (unknown id, repeated upvote),
  the provider still resolves and leaves its mirror unchanged.

## Model

| member | source | states |
|---|---|---|
| Issues.FindIndex | src/services/localStorageService.ts:64 | the index found is -1 exactly when no issue has the id; otherwise it holds the id and no earlier issue does |
| Issues.RemoveId | src/services/localStorageService.ts:75 | the filter keeps exactly the issues with another id, and is shorter exactly when some issue had the id |
| Issues.RemoveIdAppend | src/services/localStorageService.ts:75 | filtering by id distributes over concatenation |
| Issues.RemoveIdAbsent | src/services/localStorageService.ts:73-81 | filtering a collection that lacks the id changes nothing, so a second delete finds nothing |
| Issues.RemoveIdCount | src/services/localStorageService.ts:75 | the filter keeps every copy of an issue with another id and no copy of one with the id |
| Issues.RemoveIdKeepsUnique | src/services/localStorageService.ts:75 | filtering keeps ids unique |
| Issues.FindIndexSameIds | src/services/localStorageService.ts:85-89 | rewriting an issue's upvotes does not move which issue an id finds |
| Issues.Patched | src/services/localStorageService.ts:68 | a patch keeps id, author, date and upvotes, and each field the patch carries replaces the old one |
| Issues.PatchedIdempotent | src/services/localStorageService.ts:68 | applying the same patch twice is applying it once |
| Issues.RemoveAll | src/services/localStorageService.ts:100 | removing an email keeps exactly the other entries |
| Issues.RemoveAllAppend | src/services/localStorageService.ts:100 | removing an email distributes over concatenation |
| Issues.RemoveAllAbsent | src/services/localStorageService.ts:100 | removing an email that is not there changes nothing |
| Issues.AddThenRemoveRestores | src/services/localStorageService.ts:83-103 | appending a new email and removing it again restores the list |
| Issues.RemoveAllKeepsNoDup | src/services/localStorageService.ts:100 | removing an email keeps an upvote list free of repeats |
| Issues.AppendKeepsNoDup | src/services/localStorageService.ts:87-89 | appending an email only when absent keeps the list free of repeats and holds it once |
| Issues.NoDupCountOne | src/services/localStorageService.ts:87 | in a list without repeats an email that is present occurs once |
| Issues.UpvoteTwiceRefused | src/services/localStorageService.ts:83-92 | after a successful upvote the same issue is still found and already holds the email, exactly once, so a second upvote is refused |
| Issues.UpvoteRoundTrip | src/services/localStorageService.ts:83-103 | removing an upvote right after adding it restores the collection |
| Issues.AppendKeepsWellFormed | src/services/localStorageService.ts:45-60 | appending an issue with a fresh id and no upvotes keeps ids unique and upvote lists free of repeats |
| Issues.PatchKeepsWellFormed | src/services/localStorageService.ts:62-71 | patching keeps the collection well formed |
| Issues.RemoveIdKeepsWellFormed | src/services/localStorageService.ts:73-81 | deleting keeps the collection well formed |
| Issues.WithUpvoteKeepsWellFormed | src/services/localStorageService.ts:83-92 | adding an absent upvote keeps the collection well formed |
| Issues.WithoutUpvoteKeepsWellFormed | src/services/localStorageService.ts:94-103 | removing an upvote keeps the collection well formed |
| Issues.SampleIssues | src/services/localStorageService.ts:109-137 | the sample is three issues with ids 1, 2, 3, the first the washing machine, In Progress with two upvotes, dated oldest first, ids unique and no repeated or empty upvote |
| LocalStorage.LocalStorageService.SetCurrentUser | src/services/localStorageService.ts:15-21 | the user key holds the user, or is removed when there is none; the issue key is untouched |
| LocalStorage.LocalStorageService.GetCurrentUser | src/services/localStorageService.ts:23-26 | returns what the user key holds, none when absent |
| LocalStorage.LocalStorageService.GetIssues | src/services/localStorageService.ts:29-39 | returns the stored collection, or the empty one when the key is absent |
| LocalStorage.LocalStorageService.SaveIssues | src/services/localStorageService.ts:41-43 | the issue key holds the given collection |
| LocalStorage.LocalStorageService.CreateIssue | src/services/localStorageService.ts:45-60 | the new issue carries the form, the author, the id, the time, no upvotes and Pending; it is appended; a fresh id keeps the store well formed |
| LocalStorage.LocalStorageService.UpdateIssue | src/services/localStorageService.ts:62-71 | an unknown id gives none and writes nothing; otherwise the first issue with the id is patched in place and returned |
| LocalStorage.LocalStorageService.DeleteIssue | src/services/localStorageService.ts:73-81 | reports true exactly when an issue had the id; then every issue with it is removed, otherwise nothing is written; afterwards no issue has the id |
| LocalStorage.LocalStorageService.AddUpvote | src/services/localStorageService.ts:83-92 | succeeds exactly when the issue exists and the email has not upvoted it, then appends the email; otherwise writes nothing |
| LocalStorage.LocalStorageService.RemoveUpvote | src/services/localStorageService.ts:94-103 | succeeds exactly when the issue exists and holds the email, then removes it; otherwise writes nothing |
| LocalStorage.LocalStorageService.InitializeSampleData | src/services/localStorageService.ts:106-141 | seeds the sample exactly when the collection is empty, otherwise leaves it |
| LocalStorage.LocalStorageService.ClearAllData | src/services/localStorageService.ts:143-146 | both keys are removed |
| LocalStorage.CurrentUserRoundTrip | src/services/localStorageService.ts:15-26 | reading the user back gives what was last saved, none after clearing |
| LocalStorage.SeedFreshStore | src/services/localStorageService.ts:106-141 | a fresh store loads no issues, and after seeding loads the three samples led by the washing machine |
| LocalStorage.DeleteTwice | src/services/localStorageService.ts:73-81 | the first delete reports whether the id existed, the second reports false, and the id is gone |
| LocalStorage.UpvoteTwice | src/services/localStorageService.ts:83-92 | a second upvote by the same email is refused and the email is held once |
| LocalStorage.UpvoteThenUnvote | src/services/localStorageService.ts:83-103 | an upvote that was added and then removed leaves the store as it was |
| Mirror.MapById | src/contexts/IssuesContext.tsx:135 | every mirror entry with the id is rewritten and every other entry stays in place |
| Mirror.MapByIdAbsent | src/contexts/IssuesContext.tsx:135 | a mirror without the id is left unchanged |
| Mirror.MapByIdUnique | src/contexts/IssuesContext.tsx:135 | with unique ids the rewrite touches exactly one position |
| Mirror.ReloadInSync | src/contexts/IssuesContext.tsx:183-187 | a mirror reloaded from a well-formed store is in sync with it |
| Mirror.CreateKeepsSync | src/contexts/IssuesContext.tsx:108-111 | store appending and mirror prepending a fresh issue stay in sync |
| Mirror.UpdateKeepsSync | src/contexts/IssuesContext.tsx:132-136 | the store patching the first match and the mirror replacing every match stay in sync |
| Mirror.DeleteKeepsSync | src/contexts/IssuesContext.tsx:159-163 | store and mirror filtering the same id stay in sync |
| IssuesContext.RowToIssue | src/contexts/IssuesContext.tsx:68-76 | snake_case columns map to the record; present upvotes and status are copied, missing upvotes read as none and a missing status as Pending |
| IssuesContext.RowsToIssues | src/contexts/IssuesContext.tsx:67-76 | the fetched rows map one to one, in order |
| IssuesContext.RowRoundTrip | src/contexts/IssuesContext.tsx:68-76 | an issue written as a row reads back as itself |
| IssuesContext.RemoteCreateMatchesLocal | src/contexts/IssuesContext.tsx:116-123 | the inserted row reads back as the issue the local store would create |
| IssuesContext.UpdatePayload | src/contexts/IssuesContext.tsx:142-145 | the payload holds a column exactly when the patch carries that field, with its value, and no other column |
| IssuesContext.RemoteUpdateMatchesLocal | src/contexts/IssuesContext.tsx:141-150 | a row updated with the payload reads back as the locally patched issue |
| IssuesContext.Dedup | src/contexts/IssuesContext.tsx:222 | the result has no repeats and the same members |
| IssuesContext.DedupOfNoDup | src/contexts/IssuesContext.tsx:222 | a list without repeats is its own deduplication |
| IssuesContext.DedupAppendPresent | src/contexts/IssuesContext.tsx:222 | appending an email already present does not change the deduplicated list |
| IssuesContext.MergedUpvotes | src/contexts/IssuesContext.tsx:222 | the merged list has no repeats and holds the old entries plus the email, minus empty ones |
| IssuesContext.MergeMatchesLocalAdd | src/contexts/IssuesContext.tsx:219-224 | on a clean list without the email the merge is the local append |
| IssuesContext.MergeAlreadyPresent | src/contexts/IssuesContext.tsx:219-224 | on a clean list already holding the email the merge changes nothing |
| IssuesContext.MergeIdempotent | src/contexts/IssuesContext.tsx:222 | merging the same email twice is merging it once |
| IssuesContext.OptimisticUpvoteEffect | src/contexts/IssuesContext.tsx:219-224 | the optimistic patch keeps the mirror's length and every other entry, and the entry holds the email |
| IssuesContext.OptimisticUpvoteIdempotent | src/contexts/IssuesContext.tsx:219-224 | applying the optimistic upvote twice is applying it once |
| IssuesContext.OptimisticUpvoteMatchesLocal | src/contexts/IssuesContext.tsx:219-224 | with unique ids and a new non-empty voter on a clean list, the optimistic patch equals the local store's upvote |
| IssuesContext.OptimisticRemoveMatchesLocal | src/contexts/IssuesContext.tsx:266-270 | with unique ids the optimistic removal equals the local store's removal |
| IssuesContext.OptimisticRemoveEffect | src/contexts/IssuesContext.tsx:266-270 | the entries with the id keep every other field and exactly their voters other than the email; every other entry is unchanged |
| IssuesContext.IssuesProvider.FetchIssues | src/contexts/IssuesContext.tsx:53-81 | a successful fetch replaces the mirror with the mapped rows; a failure leaves it; loading ends |
| IssuesContext.IssuesProvider.Initialize | src/contexts/IssuesContext.tsx:32-103 | local mode loads the store into the mirror; without a client loading ends; otherwise the mirror is fetched |
| IssuesContext.IssuesProvider.CreateIssue | src/contexts/IssuesContext.tsx:105-129 | no user rejects; local mode appends to the store and prepends to the mirror; remote mode rejects without a client or on failure, else resolves; remote mode leaves the mirror; loading is untouched |
| IssuesContext.IssuesProvider.UpdateIssue | src/contexts/IssuesContext.tsx:131-156 | local mode patches store and mirror when the id exists; remote mode sends exactly the payload of the defined fields, reports the outcome and leaves the mirror; loading is untouched |
| IssuesContext.IssuesProvider.DeleteIssue | src/contexts/IssuesContext.tsx:158-178 | local mode filters store and mirror when the id existed; remote mode reports the outcome and leaves the mirror; loading is untouched |
| IssuesContext.IssuesProvider.UpvoteIssue | src/contexts/IssuesContext.tsx:180-225 | no user rejects; local mode reloads the mirror after a store upvote; remote mode patches the mirror only after both calls succeed; loading is untouched |
| IssuesContext.IssuesProvider.RemoveUpvote | src/contexts/IssuesContext.tsx:227-271 | no user rejects; local mode reloads the mirror after a store removal; remote mode patches the mirror only after both calls succeed; loading is untouched |
| MaintenanceIssuesContext.DocToIssue | maintenance-app/src/contexts/IssuesContext.tsx:64-73 | the document id becomes the issue id; present upvotes and status are copied, missing upvotes read as none and a missing status as Pending |
| MaintenanceIssuesContext.SnapshotIssues | maintenance-app/src/contexts/IssuesContext.tsx:61-75 | the snapshot maps one issue per document, in snapshot order |
| MaintenanceIssuesContext.SnapshotRoundTrip | maintenance-app/src/contexts/IssuesContext.tsx:61-75 | a snapshot of the documents a list of issues is stored as reads back as that list, in order |
| MaintenanceIssuesContext.RemoteCreateMatchesLocal | maintenance-app/src/contexts/IssuesContext.tsx:92-98 | the added document reads back as the issue the local store would create |
| MaintenanceIssuesContext.IssuesProvider.Initialize | maintenance-app/src/contexts/IssuesContext.tsx:44-80 | local mode loads the store into the mirror; without a client loading ends; otherwise nothing changes until a snapshot |
| MaintenanceIssuesContext.IssuesProvider.ApplySnapshot | maintenance-app/src/contexts/IssuesContext.tsx:60-76 | a snapshot replaces the mirror and ends loading |
| MaintenanceIssuesContext.IssuesProvider.CreateIssue | maintenance-app/src/contexts/IssuesContext.tsx:82-99 | no user rejects; local mode appends to the store and prepends to the mirror; remote mode only reports the outcome; loading is untouched |
| MaintenanceIssuesContext.IssuesProvider.UpdateIssue | maintenance-app/src/contexts/IssuesContext.tsx:101-113 | local mode patches store and mirror when the id exists; remote mode reports the outcome and leaves the mirror; loading is untouched |
| MaintenanceIssuesContext.IssuesProvider.DeleteIssue | maintenance-app/src/contexts/IssuesContext.tsx:115-127 | local mode filters store and mirror when the id existed; remote mode reports the outcome and leaves the mirror; loading is untouched |
| MaintenanceIssuesContext.IssuesProvider.UpvoteIssue | maintenance-app/src/contexts/IssuesContext.tsx:129-145 | no user rejects; local mode reloads the mirror after a store upvote; remote mode leaves the mirror; loading is untouched |
| MaintenanceIssuesContext.IssuesProvider.RemoveUpvote | maintenance-app/src/contexts/IssuesContext.tsx:147-163 | no user rejects; local mode reloads the mirror after a store removal; remote mode leaves the mirror; loading is untouched |
| AuthContext.AuthProvider.Login | src/contexts/AuthContext.tsx:41-73 | local mode signs in exactly the authorized emails with the demo password, persists the user, and the user is authorized; otherwise rejects with invalid credentials and changes nothing |
| AuthContext.AuthProvider.Signup | src/contexts/AuthContext.tsx:75-91 | local mode always rejects; remote mode reports the outcome; no state changes |
| AuthContext.AuthProvider.Logout | src/contexts/AuthContext.tsx:93-105 | local mode clears the user and the persisted user; remote mode reports the outcome |
| AuthContext.AuthProvider.Initialize | src/contexts/AuthContext.tsx:109-121 | local mode restores the persisted user, is never admin, ends loading and seeds the sample data |
| AuthContext.SessionSurvivesReload | src/contexts/AuthContext.tsx:47-55 | a local login is restored after a reload, and the restored user is authorized |
| AuthContext.LogoutSurvivesReload | src/contexts/AuthContext.tsx:93-98 | after a local logout a reload restores no user |
| MaintenanceAuthContext.AdminsAreAuthorized | maintenance-app/src/contexts/AuthContext.tsx:31-42 | every administrator email is an authorized email |
| MaintenanceAuthContext.AuthProvider.IsAdmin | maintenance-app/src/contexts/AuthContext.tsx:84 | no user is no admin, and an admin is always authorized |
| MaintenanceAuthContext.AuthProvider.Login | maintenance-app/src/contexts/AuthContext.tsx:49-71 | local mode signs in exactly the authorized emails with the demo password; the user is then admin exactly when listed as one |
| MaintenanceAuthContext.AuthProvider.Logout | maintenance-app/src/contexts/AuthContext.tsx:73-81 | local mode clears the user and the persisted user; remote mode reports the outcome |
| MaintenanceAuthContext.AuthProvider.Initialize | maintenance-app/src/contexts/AuthContext.tsx:86-95 | local mode restores the persisted user, ends loading and seeds the sample data |
| MaintenanceAuthContext.AdminAfterReload | maintenance-app/src/contexts/AuthContext.tsx:83-96 | a local login restored after a reload is authorized, and admin exactly when listed as one |

## Left out

- Serialization: a storage key is taken to hold exactly the value saved under it; the `Date` revival in `getIssues` and a malformed stored value are not modelled.
- Time and ids: `Date.now()` and the generated document or row ids are parameters; dates are integers in milliseconds.
- The backend: Supabase and Firestore calls are reduced to their success or failure; what the backend itself stores is not modelled, except the row and document shapes read back.
- The remote upvote write: `src/contexts/IssuesContext.tsx` sends the fetched list with the email appended, without removing repeats, and the maintenance app sends `arrayUnion`/`arrayRemove`; the model keeps only the outcome of these writes and the deduplicating patch of the mirror.
- IssuesContext.IssuesProvider.FetchIssues: accepts the rows in whatever order they arrive; the descending `date_submitted` order the query asks for is not modelled, and neither is the Firestore `orderBy` for `ApplySnapshot`.
- Concurrency: the realtime subscriptions, the Firestore snapshot listener's timing, the auth-state listener, the `isMounted` flag and the loading timeout are not modelled; `ApplySnapshot` and `FetchIssues` are what those callbacks do when they run.
- MaintenanceIssuesContext.IssuesProvider.Initialize: states nothing about the snapshot subscription it opens in remote mode.
- IssuesContext.IssuesProvider.Initialize: the realtime channel that refetches on every change is not modelled.
- AuthContext.AuthProvider.Login: in remote mode only the outcome is stated; the session and the administrator flag set by the auth listener and the profile lookup are not modelled.
- AuthContext.AuthProvider.Initialize: only local mode is stated; the remote session restore and `checkAdminStatus` are not modelled.
- MaintenanceAuthContext.AuthProvider.Initialize: only local mode is stated; the remote path only subscribes.
- Missing user email: an absent email is represented as the empty string, which is what `currentUser.email || ''` reads.
- Explicitly undefined keys in an update patch are treated as absent.
- Unique ids: the store does not enforce them, so the mirror-sync and well-formedness results for create take a fresh id as a hypothesis.
- Rendering, console logging, the loading screen and the configuration files that decide which backend exists (`firebase.ts`, `supabase.ts`) are not part of this model; which mode is active is a constant of each provider.
