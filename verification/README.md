# mongosyncer in Dafny

mongosyncer is a small Go tool that drives MongoDB's `mongosync` cluster-to-cluster
migration engine. It reads two cluster URIs from the environment. If the `mongosync`
binary is missing, it downloads it with retries and exponential backoff. It can then:

- launch the engine as a child process;
- clean the destination cluster;
- drive the engine's REST control plane: start, wait until the sync can commit,
  commit, and verify the commit.

This project models the decision rules under that plumbing and proves what they promise.
Every I/O result enters the model as an input value: the answers of HTTP calls, the MongoDB
driver's listings and drop results, and the outcomes of `curl`, `tar`, `chmod`, rename,
remove and process spawn, wait and kill. Sleeps, drops and process events are recorded in
ghost logs.

| file | module | models |
|---|---|---|
| `wrappers.dfy` | `Wrappers` | `Option`, `Outcome` (nil error or an error) and `Result` |
| `config.dfy` | `Config` | `LoadConfig`: the environment is a map |
| `control_plane.dfy` | `ControlPlane` | the three polling loops, `StartSync` and `Commit` |
| `cleanup.dfy` | `Cleanup` | the drop rules of `CleanDestination` and `ThoroughCleanDestination`; the destination is a class over a store from database names to collection names |
| `downloader.dfy` | `Downloader` | `EnsureBinary`, `downloadBinary` and `downloadWithRetry` |
| `supervisor.dfy` | `Supervisor` | the `Manager` process supervisor as a class over its `cmd` field |

Each polling loop is a method over a finite sequence of already classified HTTP exchanges
(transport error, or status, body, whether the body was read in full, and what it decoded
to). It returns the index of the first poll at which the Go loop would return, or `None`
("still polling").

The destination is a `Destination` object that holds the store and a ghost log of every
drop sent; its `Send` method issues one drop. The drop loops and the two cleanups are
module-level methods that take a `Destination` and change it through `Send`. Each loop is
proved against specification functions (`UserPhaseDrops`, `UserPhaseStore`, `ThoroughDrops`,
`ThoroughStore`), and the safety properties are proved as lemmas about those functions.

Two behaviours of the code that the model keeps as written:

- `Commit` returns the read error before it looks at the status code
  (pkg/api/client.go:174-181), so an unread non-200 answer fails as a read failure.
- `WaitForReadyState` checks neither the status code nor the read error
  (pkg/api/client.go:62-76). It decodes whatever body was read.

## Model

| member | source | states |
|---|---|---|
| Config.LoadConfig | pkg/config/config.go:16-31 | fails, with the one "missing environment" error, exactly when `MONGOSYNC_SOURCE` or `MONGOSYNC_TARGET` is unset or empty; on success the URIs are the variables' values and binary path, API base URL and download URL are the fixed defaults |
| Config.LoadConfigOnlyEndpointsVary | pkg/config/config.go:24-30 | any two successful loads agree on every field except the two endpoints |
| Config.LoadConfigReadsOnlyTwoVariables | pkg/config/config.go:17-18 | setting any other environment variable does not change the outcome |
| ControlPlane.Classify | pkg/api/client.go:121-149 | in the order the loop checks: a transport error, then an unread body, then a non-200 status (keeping status and body), then an undecodable body each give their own verdict; a snapshot comes iff the poll was fetched, read, 200 and decoded |
| ControlPlane.WaitForReadyState | pkg/api/client.go:59-79 | returns at the first poll whose body decoded with a state other than IDLE (no status check), and asked for one 5-second wait per poll before it |
| ControlPlane.WaitForCanCommit | pkg/api/client.go:116-161 | returns at the first poll that was fetched, read, 200, decoded and has `canCommit` true; one 5-second wait per earlier poll |
| ControlPlane.VerifyCommitted | pkg/api/client.go:197-242 | returns at the first good poll whose state is COMMITTED; one 5-second wait per earlier poll |
| ControlPlane.FirstReached | pkg/api/client.go:121-160 | the index returned satisfies the loop's goal and no earlier poll does; `None` means no poll does |
| ControlPlane.TransientPollsOnlyDelay | pkg/api/client.go:121-149 | any run of transport, read, status or decode failures in front of the polls only delays the return of `WaitForCanCommit` and `VerifyCommitted` by exactly its length |
| ControlPlane.CommitReadyIgnoresState | pkg/api/client.go:153-156 | a good poll ends `WaitForCanCommit` exactly when `canCommit` holds, whatever the state, and ends `VerifyCommitted` exactly when the state is COMMITTED, whatever `canCommit` |
| ControlPlane.LeftIdleIgnoresStatus | pkg/api/client.go:62-76 | for `WaitForReadyState` only the decoded state matters: even an unread 500 answer whose body decodes with an empty state ends the wait |
| ControlPlane.FourthPollIsCommitReady | pkg/api/client.go:121-160 | three not-ready snapshots and then a ready one: the wait returns at the fourth poll |
| ControlPlane.StartSyncRequest | pkg/api/client.go:83-100 | the start payload is always source cluster0, destination cluster1, verification disabled, write blocking on source and destination |
| ControlPlane.CommitRequest | pkg/api/client.go:165-168 | the commit request carries an empty JSON object |
| ControlPlane.StartSync | pkg/api/client.go:100-112 | succeeds iff a response arrived with status 200; otherwise the error carries the status and the body verbatim |
| ControlPlane.Commit | pkg/api/client.go:168-193 | succeeds iff a response arrived, was read, had status 200, decoded and said `success: true` |
| ControlPlane.NonOkStatusIsRejected | pkg/api/client.go:106-109 | a non-200 answer read in full is rejected by `StartSync` and by `Commit` with status and body verbatim; `Commit` does so whatever the body would decode to |
| ControlPlane.CommitNeedsSuccessFlag | pkg/api/client.go:183-190 | a 200 answer with `success: false` or an undecodable body is still a failed commit, each with its own error |
| ControlPlane.CommitSuccessImpliesStartSuccess | pkg/api/client.go:168-193 | every answer `Commit` accepts, `StartSync` would accept too: commit is the stricter check |
| Cleanup.IsUserDatabase | pkg/api/client.go:265-272 | a database is a user database exactly when its name is none of `admin`, `local` and `config`, compared exactly and case-sensitively |
| Cleanup.IsBookkeeping | pkg/api/client.go:326 | the collections of `local` that are dropped are exactly `oplog.rs`, `replset.minvalid` and `replset.oplogTruncateAfterPoint` |
| Cleanup.IsAdminDroppable | pkg/api/client.go:339-346 | a collection of `admin` that is dropped is never `system.users`, `system.roles` or `system.version`, and never starts with `system.` |
| Cleanup.CompletedPrefix | pkg/api/client.go:271-278 | every user-database drop before the returned position succeeds, and the database at that position is a user database whose drop fails |
| Cleanup.Destination.constructor | pkg/api/client.go:252-256 | a connected destination holding the given store, no drop sent yet |
| Cleanup.Destination.Send | pkg/api/client.go:274-276 | every drop is logged; the store changes only when the drop was acknowledged |
| Cleanup.DropUserDatabases | pkg/api/client.go:271-278 | drops the listed user databases in order and stops at the first failing drop, returning its name; the log and the new store are `UserPhaseDrops` and `UserPhaseStore` |
| Cleanup.DropSelectedCollections | pkg/api/client.go:322-333 | when the listing failed, sends nothing; otherwise a drop for each listed collection the rule selects, in list order; failed drops are skipped and only acknowledged ones leave the store |
| Cleanup.CleanDestination | pkg/api/client.go:245-282 | connect failure and list failure return their error and touch nothing; otherwise the user-database phase runs and its first failing drop is the error |
| Cleanup.DropSystemCollections | pkg/api/client.go:319-353 | bookkeeping collections of `local`, then non-system collections of `admin`; a failed listing skips its pass; the log and store are `SystemPhaseDrops` and `SystemPhaseStore` |
| Cleanup.ThoroughCleanDestination | pkg/api/client.go:285-357 | as `CleanDestination` for the user-database phase; once that succeeded the result is success whatever the system-collection listings and drops do |
| Cleanup.UserPhaseDropsOnlyUserDatabases | pkg/api/client.go:264-278 | every drop of the user-database phase drops a whole database other than admin, local and config |
| Cleanup.UserPhaseStopsAtFirstFailure | pkg/api/client.go:271-278 | with no failure every listed user database is dropped in list order; after a failure that database's drop is the last sent and no database listed only after it is dropped |
| Cleanup.ThoroughDropsAreSafe | pkg/api/client.go:304-352 | every drop `ThoroughCleanDestination` sends is a user database, one of the three bookkeeping collections of `local`, or a non-essential, non-`system.` collection of `admin` |
| Cleanup.ThoroughStoreKeepsProtected | pkg/api/client.go:304-352 | whatever the listings and failures, the system databases, all of `config`, the non-bookkeeping collections of `local` and the `system.*` collections of `admin` are left exactly as they were |
| Cleanup.CleanupKeepsProtected | pkg/api/client.go:310-352 | removing user databases, bookkeeping collections of `local` and droppable collections of `admin` leaves the protected part of the store unchanged |
| Cleanup.SafeDropKeepsProtected | pkg/api/client.go:328-348 | a single acknowledged drop the safety rule permits leaves the protected part unchanged |
| Cleanup.CleanLeavesOnlySystemDatabases | pkg/api/client.go:258-278 | when the listing names every database and no drop fails, only admin, local and config remain |
| Cleanup.AdminDroppableIffNotSystem | pkg/api/client.go:339-346 | a collection of `admin` is dropped exactly when its name does not start with `system.` (the essential list is subsumed by the prefix rule) |
| Cleanup.OnlyUserDatabasesSelected | pkg/api/client.go:265-272 | of admin, local, config and shop only shop is selected; matching is exact, so `Admin` and `LOCAL` are selected |
| Downloader.LeadingFailures | pkg/downloader/downloader.go:75-104 | at most `maxRetries` attempts are counted, every counted attempt failed, and the next one, if any is allowed, succeeds |
| Downloader.DownloadWithRetry | pkg/downloader/downloader.go:72-107 | returns nil at the first successful attempt; when all fail, the last attempt's error; the step log is exactly the failed attempts (remove, curl, backoff wait) and the successful one |
| Downloader.DownloadBinary | pkg/downloader/downloader.go:32-69 | succeeds iff download, extraction, the rename (only when the path is not `./mongosync`) and chmod succeed; each failure gives its own error, the download one carrying the count 5 and the last cause; the step log is exactly `InstallLog`: the retry run, then extraction, the rename when the path differs, chmod of the target path and the archive removal, stopping at the first failing step; a failed removal does not matter |
| Downloader.EnsureBinary | pkg/downloader/downloader.go:23-30 | does nothing and succeeds, with no step, unless the binary path does not exist; then it is `downloadBinary`: the same error for each failing step and exactly the same step log `InstallLog` |
| Downloader.AfterDownloadShape | pkg/downloader/downloader.go:44-66 | after a successful download the extraction always runs, the rename runs exactly when the extraction worked and the path is not `./mongosync`, and the archive is removed, as the last step, exactly when extraction, rename and chmod all succeeded |
| Downloader.InstallLogShape | pkg/downloader/downloader.go:32-69 | the install log starts with a curl run, holds the rename exactly when download and extraction worked and the path differs, and removes the archive after the retry run (then as its last step) exactly when the installation succeeds: any failure leaves the archive on disk |
| Downloader.MissingBinaryDownloadsFail | pkg/downloader/downloader.go:23-41 | a missing binary whose five download attempts all fail yields the download error with count 5 and the fifth attempt's cause, after waits of 1, 2, 4 and 8 seconds, with no rename, the fifth curl run being the last step |
| Downloader.FailedAttemptsWaits | pkg/downloader/downloader.go:91-97 | after k failed attempts the waits are 1, 2, 4, … seconds, one per attempt except the final one of all `maxRetries` |
| Downloader.BackoffTotal | pkg/downloader/downloader.go:93-94 | the first k backoff waits sum to 2^k − 1 seconds |
| Downloader.AllAttemptsFailedWaits | pkg/downloader/downloader.go:34-97 | with 5 failing attempts the waits are 1, 2, 4 and 8 seconds (15 in all) and the last step is the fifth curl run, not a wait |
| Downloader.FailedAttemptsCount | pkg/downloader/downloader.go:75-87 | k failed attempts run curl exactly k times |
| Downloader.AttemptsBounded | pkg/downloader/downloader.go:75 | no run makes more than `maxRetries` attempts, and none when `maxRetries` is not positive |
| Downloader.RemoveBeforeEveryRetry | pkg/downloader/downloader.go:75-104 | in the whole step log of a retry run, whether it ends with a successful attempt or with all attempts failed, every curl run after the first is immediately preceded by removing the temp archive |
| Supervisor.LaunchArgs | pkg/mongosync/manager.go:32-37 | the command line is the binary path, `--acceptDisclaimer`, `--cluster0` and the source URI, `--cluster1` and the target URI, in that order and nothing else |
| Supervisor.LaunchArgsCarryEndpoints | pkg/mongosync/manager.go:32-37 | `--cluster0` is followed by the source URI and `--cluster1` by the target URI |
| Supervisor.Manager.constructor | pkg/mongosync/manager.go:20-27 | holds the binary path and URIs given, with no command |
| Supervisor.Manager.Start | pkg/mongosync/manager.go:29-51 | sets `cmd` to the fixed command line before spawning; a failed spawn returns its error with no settle wait; a successful one waits 5 seconds and returns nil |
| Supervisor.Manager.Wait | pkg/mongosync/manager.go:54-66 | "not started" when there is no command; otherwise nil iff the spawn produced a process and it exited cleanly; after a failed spawn always the wrapped "exec: not started" error, else the wrapped exit error |
| Supervisor.FailedStartScenario | pkg/mongosync/manager.go:43-75 | after a failed spawn, the start returns the launch error, waiting fails with "exec: not started" whatever the exit outcome, and stopping succeeds; the only event is the spawn, so no kill is sent |
| Supervisor.Manager.Stop | pkg/mongosync/manager.go:69-76 | with no command or no process: nil and nothing sent; otherwise one kill, whose error is returned |
| Supervisor.StopBeforeStartScenario | pkg/mongosync/manager.go:29-72 | stopping a manager that never started succeeds and sends no kill; a later successful start logs only the spawn of the fixed command line and one 5-second settle wait |

## Left out

- `DiagnoseDestination` (pkg/api/client.go:360-407) is read-only: it lists and counts, issues no drop, and its only output is log lines.
- main.go is not part of this model. It is an older entry point that downloads and runs the binary with other flags, and it is pure I/O. No workflow orchestrator appears in the source files, so none is modelled.
- HTTP transport, JSON encoding and decoding, and `io.ReadAll` are not modelled. Each exchange is an already classified value.
- The start payload cannot fail to marshal, so that error path of `StartSync` is not modelled.
- The MongoDB driver is not modelled: connection, listings, drops, disconnect and the 30 and 60 second context timeouts. Connection and listing outcomes are inputs, and failing drops are given as sets of names.
- `time.Sleep` and the HTTP client's 30 second timeout are not modelled. Requested waits are recorded in ghost logs.
- The unbounded polling loops are modelled over finite poll sequences. Their termination, which depends on the engine, is not modelled.
- `exec.Command`, `os.Stat`, `os.Rename`, `os.Remove` and stdio forwarding to the child process: only their success or failure enters the model.
- Waiting twice on the same command, and killing a process that has already exited, are folded into the wait and kill outcomes.
- Error messages are structured values that carry the same data (status, body, database name, cause, attempt count), not formatted strings.
- Logging through `slog` is not modelled.
- Concurrency between this process and the child process is not modelled.
- Downloader.DownloadWithRetry: the backoff `time.Duration(1<<(attempt-1)) * time.Second` is an unbounded power of two, so the 64-bit overflow it would reach after 34 attempts is not modelled; with the 5 attempts `downloadBinary` uses it cannot occur.
- Supervisor.LaunchArgsCarryEndpoints: the target URI is only shown to follow `--cluster1` when the source URI is not itself the string `--cluster1`. The lemma reads flags by first occurrence, as a simple flag parser would.
