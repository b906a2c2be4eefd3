# openrepo session supervisor — a Dafny model

This project models the session lifecycle of openrepo. openrepo is a small
server that creates per-session workspaces, clones a GitHub repository into
each one and runs an `opencode serve` agent on the session's port. The model
covers these parts:

- the `sessions` table (`Schema`);
- the `SessionManager` operations as pure transitions over an immutable store
  (`SessionManager`), plus the properties that relate them (`Lifecycle`);
- the server's error handler and its graceful-shutdown reconciliation (`Server`);
- the `/api/sessions` routes, including the create → clone → start composition
  of POST (`SessionsApi`);
- three pure pieces of the web UI: the GitHub Actions badge (`ActionsStatus`)
  and the selection and validation rules of the two creation forms
  (`ProjectForm`, `SessionForm`).

These rest on four helper modules: `Wrappers` (Option/Result), `Text`
(JavaScript `||` on strings, `split` on one character and its inverse `join`,
and decimal rendering of integers with its parser) and `RepoSlug` (the
`const [owner, name] = repo.split("/")` guard shared by the badge and both
forms) and `FormRules` (the "main" fallback branch and the required-field
validator of both forms).

The store is a `map` from session id to record. Being a map, it holds at most
one record per id, as the primary key requires. Each manager operation that
writes the store or the system (create, clone, start, stop, delete) returns a
`Step`: the store after the call, the side effects attempted in order
(mkdir, config write, git clone, spawn, `kill -9`, `rm -rf`), and the returned
value or the thrown error. The read operations (get, get-port, list) return
plain values. On error the store is the one passed in, except
where the source really does leave partial state behind. For example, a POST
whose clone fails keeps the new `stopped` record. The only store error modelled
is a refused duplicate-key insert; every other store read and write is taken
to succeed (see "## Left out").

Values the source draws from outside are parameters: the generated id, the
random port, the clock, the outcomes of mkdir, config write, clone and spawn,
and the spawned pid. The outcomes of `kill -9` and `rm -rf` are discarded by
the source, so they are not parameters at all. The model makes no claim about
port uniqueness or id freshness. The port oracle is unconstrained because the
code never checks ports. A reused id is refused by the store's primary key.

The model follows the code, including these behaviours a reader might not
expect:

- `pid` is treated as stored with the record, although `src/db/schema.ts`
  declares no such column (see "## Left out").
- Under that assumption, graceful shutdown sends `kill -9` to each running
  session with a truthy pid before marking it stopped.
- Ports are never checked for uniqueness.
- An agent process that exits does not change its session's status.
- Starting a session does not look at its current status.

## Model

| member | source | states |
|---|---|---|
| Text.Split | src/app/home/actions-status.tsx:29 | `split("/")` yields at least one piece and no piece contains the separator |
| Text.JoinSplit | src/app/home/actions-status.tsx:29 | joining the pieces of a split with the separator gives back the original string |
| Text.SplitJoin | src/app/home/actions-status.tsx:29 | splitting a join of separator-free pieces gives back exactly those pieces |
| RepoSlug.SlugAccepted | src/app/home/actions-status.tsx:29-31 | a non-empty owner and name without `/`, followed by nothing or by `/…`, pass the owner/name guard and are read back unchanged |
| RepoSlug.SlugDecomposed | src/app/home/actions-status.tsx:29-31 | a repo string that passes the guard is exactly owner, `/`, name and a tail that is empty or starts with `/` |
| RepoSlug.NoSeparatorNoName | src/app/home/actions-status.tsx:29-31 | a string without `/` has no name segment and fails the guard |
| RepoSlug.LeadingSeparatorNoOwner | src/app/home/actions-status.tsx:29-31 | an empty string or one starting with `/` has an empty owner and fails the guard |
| Schema.Insert | src/db/schema.ts:3-16 | an insert is refused, leaving the table unchanged, exactly when the id is already present; otherwise it adds one record and keeps all others; `status` defaults to `stopped`, `id` and `createdAt` default to the fresh uuid and the current time |
| SessionManager.CreateSession | src/lib/session-manager.ts:15-55 | mkdir comes first, then the config write carrying the port and hostname; a record is inserted only if both succeed and the id is new; the record is `stopped` with no pid and the given repo/branch/port; the result carries no pid or serverUrl; other records are unchanged |
| SessionManager.CloneUrl | src/lib/session-manager.ts:64-66 | the clone URL starts with `https://` and ends with `github.com/<repo>`; what lies between is non-empty exactly when the token is truthy, and is then the token followed by `@` |
| SessionManager.CloneRepo | src/lib/session-manager.ts:57-72 | never changes the store; an unknown id throws "Session not found" with no clone attempted; otherwise one shallow clone of the session's branch into `<dir>/repo`, with the token embedded in the URL only when truthy; a clone failure becomes `Git clone failed: …` |
| SessionManager.ServerUrlRoundTrip | src/lib/session-manager.ts:138 | the port can be read back from `serverUrl` by parsing what follows `http://127.0.0.1:` |
| SessionManager.StartOpenCode | src/lib/session-manager.ts:74-95 | an unknown id throws and does nothing; otherwise `opencode serve --port <port> --hostname http://127.0.0.1` is spawned in the repo dir; on success the record becomes `running` with the new pid whatever its prior status, and repo/branch/port/createdAt and every other record are unchanged; a spawn that throws leaves the store unchanged |
| SessionManager.StopSession | src/lib/session-manager.ts:97-109 | an unknown id throws and does nothing; otherwise the recorded pid is sent `kill -9` and the record ends `stopped` with no pid regardless, and nothing else changes |
| SessionManager.DeleteSession | src/lib/session-manager.ts:111-121 | an unknown id throws (from the stop) and removes nothing; otherwise the kill comes before the workspace removal, and exactly that record is removed while all others are kept |
| SessionManager.GetSession | src/lib/session-manager.ts:123-140 | null exactly for an unknown id; otherwise the record's fields including pid, with `serverUrl` exactly `http://127.0.0.1:<port>` in decimal, from which the record's port reads back |
| SessionManager.GetSessionPort | src/lib/session-manager.ts:158-161 | null exactly when getSession is null; otherwise the record's port, which equals the port in getSession's `serverUrl` |
| SessionManager.ListSessions | src/lib/session-manager.ts:142-156 | every record appears exactly once, in ascending createdAt order, and each entry is that record's list entry (its fields without the pid, with its `serverUrl`) |
| SessionManager.ListedIsGetSessionWithoutPid | src/lib/session-manager.ts:123-156 | a list entry equals getSession's view of the same id with the pid left out |
| Lifecycle.OperationsPreservePidMatch | src/lib/session-manager.ts:34-120 | create, clone, start, stop and delete all keep the invariant "a pid is on record exactly while the status is running" |
| Lifecycle.StopIdempotent | src/lib/session-manager.ts:97-109 | a second stop succeeds, leaves the same store as the first, and targets no pid |
| Lifecycle.StartThenStop | src/lib/session-manager.ts:92-108 | stopping a just-started session gives the same store as stopping it directly |
| Lifecycle.DeleteImpliesGone | src/lib/session-manager.ts:111-128 | after delete, getSession returns null for that id and the same as before for every other id; the first effect is the stop's kill |
| Lifecycle.SpawnFailureKeepsStatus | src/lib/session-manager.ts:80-94 | if the spawn throws, a stopped session stays stopped |
| SessionManager.ServerUrlInjective | src/lib/session-manager.ts:138 | two different ports never produce the same `serverUrl` |
| Lifecycle.UnknownIdIsInert | src/lib/session-manager.ts:57-112 | for an unknown id, clone, start, stop and delete all throw "Session not found" with the store unchanged and no side effect |
| Lifecycle.FullLifecycle | src/lib/session-manager.ts:15-121 | create → clone → start → stop → delete passes through stopped, running (serverUrl carries the port) and stopped, and ends with the store exactly as it was before create |
| Server.OnError | src/server.ts:10-15 | status 400 exactly for code `VALIDATION`, else 500; the body is the error's message, or "Internal Error" for a non-Error |
| Server.GracefulShutdown | src/server.ts:18-34 | afterwards no record is running; formerly running records have no pid and keep repo/branch/port/createdAt; stopped records are untouched; the kill set is exactly the running records with a truthy pid, with their pids |
| Server.ShutdownIdempotent | src/server.ts:20-32 | a second shutdown kills nothing and changes nothing |
| Server.ShutdownClearsPids | src/server.ts:32 | on a store where pids track running status, shutdown leaves every record stopped with no pid |
| Server.ThreeSessionExample | src/server.ts:18-32 | two running records and one stopped record all end stopped; the running one with pid 0 is not killed |
| SessionsApi.ResolveToken | src/api/sessions.ts:21-34 | a token is passed on only when the cookie's token id is truthy and a token record has that id, and it is that record's access token |
| SessionsApi.CreateCloneStart | src/api/sessions.ts:36-42 | a failed create is returned as-is; a failed clone throws `Git clone failed`, no spawn is attempted, and the new record stays stopped; a failed spawn leaves the create's store; on success the reply is exactly what create returned (so it says `stopped`), and the store is create's store with the new record set to `running` with the spawned pid; success happens exactly when every step succeeds |
| SessionsApi.ErrorReply | src/server.ts:10-15 | a thrown error is answered with its message and status 400 for validation failures, 500 otherwise |
| SessionsApi.Handle | src/api/sessions.ts:8-60 | GET by id answers 404 "Session not found" exactly for an unknown id, else the session; list replies with every record exactly once, sorted by createdAt, each as its list entry; list and get leave the store alone; start, stop and delete pass the same id to the manager and leave the store the manager leaves; unknown ids give 500 "Session not found"; start answers 200 exactly when the spawn succeeds; a body failing validation gives 400 with no change; POST replies with the created session or the thrown message |
| SessionsApi.PostClonesWithResolvedToken | src/api/sessions.ts:21-40 | once create succeeds, POST's third side effect is the clone of the body's repo and branch into the new workspace; its URL carries a token exactly when the cookie names a stored, non-empty access token |
| SessionsApi.FailedCloneLeavesStoppedSession | src/api/sessions.ts:36-41 | a POST whose clone fails leaves a readable session that is stopped and has no pid |
| ActionsStatus.RunBadge | src/app/home/actions-status.tsx:101-130 | the text is "Actions: " + label; emerald iff success, destructive iff failure, secondary iff neither; linked iff html_url is non-empty |
| ActionsStatus.Classify | src/app/home/actions-status.tsx:28-130 | invalid repo first, then user loading → loading, no user → connect GitHub, runs loading → loading, error or no data → unavailable, empty list → no runs; a coloured badge appears exactly when all guards pass and a run exists, and it is the first run's badge |
| ActionsStatus.SuccessExcludesFailure | src/app/home/actions-status.tsx:104-112 | a run is never both success and failure |
| ActionsStatus.ColouredRunsAreCompleted | src/app/home/actions-status.tsx:101-105 | a success or failure run's label is its conclusion |
| ActionsStatus.RunBadgeNeedsEnabledQuery | src/app/home/actions-status.tsx:45-57 | a coloured badge implies the runs query was enabled (user signed in, owner and name present) |
| ProjectForm.FindIndex | src/app/home/create-project-form.tsx:64 | `find` returns the first repository whose full name matches, or none when no entry matches |
| ProjectForm.SelectRepo | src/app/home/create-project-form.tsx:63-77 | the repo value and field take the value; branch state and field take the match's default branch, else "main", and are never empty; an untouched name becomes the suggested name, a touched one is kept |
| ProjectForm.EditName | src/app/home/create-project-form.tsx:103-106 | typing sets the name and marks it touched; nothing else changes |
| ProjectForm.SelectBranch | src/app/home/create-project-form.tsx:176-178 | the branch state and field take the value, or "main" when it is empty; name and repo are unchanged |
| FormRules.Required | src/app/home/create-project-form.tsx:91 | a field validator rejects exactly the empty value, with that field's message; the project form uses it for name, repo (line 117) and branch (line 166), the session form for repo and branch (create-session-form.tsx lines 85 and 142) |
| RepoSlug.LookupEnabled | src/app/home/create-project-form.tsx:37-46 | the branch lookup (the same rule at create-session-form.tsx:45-56 and the runs lookup of the badge) runs iff a user is signed in and both `/`-segments of the repo value are non-empty, so never for a value without `/` or starting with `/` |
| ProjectForm.TypedNameSticks | src/app/home/create-project-form.tsx:63-106 | once the name is touched, no sequence of selections or other edits changes it or clears the touched mark |
| ProjectForm.SuggestsSecondSegment | src/app/home/create-project-form.tsx:74 | with no matching repository, "owner/name…" suggests "name" |
| ProjectForm.InitialState | src/app/home/create-project-form.tsx:20-50 | the form starts untouched with repo "" and branch "main" in both the combobox and the fields, so the name and repo validators fail and the branch validator passes |
| ProjectForm.ChoicesSatisfyBranchValidator | src/app/home/create-project-form.tsx:65-178 | after choosing a repository or a branch, the default-branch validator passes |
| SessionForm.SelectRepo | src/app/home/create-session-form.tsx:94-99 | the repo value and field take the value; the branch state and field are reset to "main" |
| SessionForm.SelectBranch | src/app/home/create-session-form.tsx:151-154 | the branch state and field take the value, or "main" when it is empty; the repo is unchanged |
| SessionForm.BranchComboboxNeverEmpty | src/app/home/create-session-form.tsx:22-154 | starting from a non-empty branch, no sequence of actions empties the branch combobox |
| SessionForm.ChoicesKeepFieldsInSync | src/app/home/create-session-form.tsx:94-154 | through any sequence of combobox choices, the local values and the fields agree and the branch validator passes |
| SessionForm.RepoChoiceDiscardsBranch | src/app/home/create-session-form.tsx:97-98 | a branch picked before the repository is reset to "main" by the repository choice |
| SessionForm.InitialSatisfiesSync | src/app/home/create-session-form.tsx:61 | the form starts with repo "" (so the repo validator fails) and branch "main" (so the branch validator passes), with values and fields in agreement |

## Left out

- SessionManager.CreateSession: the `Failed to create session` branch (src/lib/session-manager.ts:43-45) cannot fire in the model. A successful insert always returns its row. An insert with a duplicate id is refused with the storage engine's own error, which the model propagates as `StoreRejected`.
- SessionManager.ListSessions: records with equal `createdAt` come in no particular order, because the source's `ORDER BY created_at` does not break ties.
- Server.GracefulShutdown: the kills are given as a map from session to pid, without the order in which the source awaits them. `process.exit(0)` and the SIGINT/SIGTERM hookup are left out (signals and process exit).
- The `createdAt` clock: the clock parameter is taken to be the stored timestamp. The second-granularity storage of `mode: "timestamp"` is folded into it.
- The content of `opencode.json` is modelled as its three values (schema URL, port, hostname), not as the pretty-printed JSON text.
- The agent's exit callback (src/lib/session-manager.ts:86-88) only logs, so it has no effect on the model. A session whose process has died stays `running` until it is stopped or the server shuts down.
- `runGitCommand`, `listFiles`, `readFile`, `writeFile` and their routes (src/lib/session-manager.ts:163-199, src/api/sessions.ts:61-80). They pass subprocess and filesystem calls straight through, so they have no state to model.
- `generateId` and `getRandomPort` live in `./utils`, which is not part of this model. They are parameters: no port-uniqueness or id-freshness claim is made.
- SessionsApi.Handle: it assumes the errors thrown by the router's handlers reach the app-level `onError` hook with code `UNKNOWN`. How the web framework scopes hooks is outside this model. The framework's validation message is a parameter.
- GitHub REST client, OAuth routes, project CRUD routes, router wiring, client setup, the websocket demo, and rendering-only UI. These are I/O wrappers or markup with no logic beyond what is modelled.
- ActionsStatus.Classify: the two query states are inputs. How the query library derives `isLoading`, `isError` and `data` is left out (a library outside this model).
- ProjectForm / SessionForm: combobox values are modelled as strings, their declared type, so `value || ""` is the identity. Submission, query invalidation, and when the form library lets a submit through are left out.
- The `pid` column: `src/db/schema.ts` declares none, while the manager and the shutdown handler read and write `pid`. The model treats it as stored. If the ORM builds its UPDATE and SELECT lists only from the declared columns, the pid writes are dropped and every read gives `undefined`. Stop and delete would then run `kill -9` with no pid, and shutdown would kill nothing. The model does not cover that reading.
- Ports and pids are JavaScript numbers, modelled as unbounded `int`. Their decimal rendering is exact only below 10^21 in magnitude, where JavaScript switches to exponent form. Real ports and pids are far below that.
- Store failures other than the duplicate-key insert: every other read, update and delete is taken to succeed. In the source each `await db…` can throw after a side effect has already happened, and the model does not cover that. The consequences would be:
  - a failed update after the spawn (src/lib/session-manager.ts:92-94) leaves a live agent process that no record shows;
  - a failed update after the kill (src/lib/session-manager.ts:106-108) leaves a killed session still marked `running` with its old pid;
  - a failed delete after `rm -rf` (src/lib/session-manager.ts:120) keeps a record whose workspace is gone;
  - a failed update during shutdown (src/server.ts:32) leaves that killed session marked `running`.
- Concurrency between requests is left out. Each operation is atomic and runs one after another.
