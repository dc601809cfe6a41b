# File-session tracking: a verified model

The system watches office documents on a workstation and reports who
edited which file and for how long. It has three parts, and each part has
modules here.

- **Monitoring agent.** File-system notifications and a polling scanner
  report created, modified, deleted and moved files.
  - The agent classifies each name as MAIN, TEMPORARY or IGNORE.
  - It keeps a local table of editing sessions keyed by (path, user) and
    tracks files it believes are still open.
  - It hashes the files and sends one outbound message per event to the
    central service.
- **Session service.** It stores users, files, file sessions, file events
  and comments. It reconciles every incoming event against the stored
  sessions: it refreshes, resumes, opens or closes one. It also serves the
  session, comment, username, current-editor and user-activity endpoints.
- **Notification service.** It decides from per-user preferences and a
  log of sent notifications whether a reminder, an aggregated reminder or
  a daily summary may go out. It records each notification that was sent.

Modules, in dependency order:

| file | module | contents |
|---|---|---|
| base.dfy | `Base` | `Option`, ASCII lower-casing, prefix/suffix/substring tests, path basename and extension, `split` |
| classifier.dfy | `FileClassifier` | name classification and the `FileValidator` class with its category cache |
| session_table.dfy | `SessionTable` | the agent's `SessionManager`: active table, capped closed history, expiry sweep |
| hash_regions.dfy | `HashRegions` | which bytes are fed to the hasher, the chunk loop and the retry loop |
| agent_events.dfy | `AgentEvents` | the agent's `EventHandler`: dispatch, rename bookkeeping, open-file closer, outbound messages |
| polling_monitor.dfy | `PollingMonitor` | the polling `FileMonitor`: snapshot diff and directory pruning |
| service_store.dfy | `ServiceStore` | the service's tables as a `Store` class over value tables, and its query semantics |
| service_handlers.dfy | `ServiceHandlers` | the event handlers, each a method proved equal to a function on the tables |
| service_laws.dfy | `ServiceLaws` | properties of the handlers: append-only logging, at most one active session, validity |
| service_endpoints.dfy | `ServiceEndpoints` | `create_session`, `create_comment`, `update_username`, `get_current_editors`, `get_user_activity` |
| notifications.dfy | `Notifications` | reminder throttling and routing in `NotificationManager` |

Conventions used throughout the model:

- Time is integer seconds. Every `datetime.now()` becomes an explicit `now`
  parameter.
- The session key `"path:user"` is modelled as a pair. `SessionTable.SourceKeyInjective`
  shows that the pair and the joined string agree when user names hold no
  `:`. `SessionTable.SourceKeyCollides` shows two Windows keys that the
  joined string confuses.
- In the service, a row's id is its position in its table, and a new row's
  id is the table's length. Rows are never deleted.
- The outside world is passed in as values:
  - file existence, owners and the process table (`World`);
  - file contents (`seq<bv8>` or `None` for a missing file);
  - the verdicts of the event handler and of the mail sender (function
    parameters);
  - whether the service accepted a message.
- Each method that changes state is proved equal to a function of the old
  state (`(db.State(), r) == FileCreated(old(db.State()), ...)`). The
  properties are then lemmas about those functions.

## Model

| member | source | states |
|---|---|---|
| Base.Lower | monitoring_agent/app/file_validator.py:204 | the lower-cased name has the same length and each character is lower-cased |
| Base.LowerIdempotent | monitoring_agent/app/file_validator.py:204 | lower-casing twice is lower-casing once |
| Base.BaseNameFacts | monitoring_agent/app/file_validator.py:103 | the basename is a suffix of the path and holds no separator |
| Base.ExtensionFacts | monitoring_agent/app/file_validator.py:128 | the extension is a suffix of the name, empty or starting with the last dot |
| Base.AfterLast | monitoring_agent/app/event_handler.py:75-77 | the text after the last `c` is a suffix without `c`; with no `c` it is the whole text |
| Base.SplitLast | monitoring_agent/app/event_handler.py:75-77 | the last piece of `split(c)` is the text after the last `c` |
| Base.Backslashed | monitoring_agent/app/file_validator.py:302 | the path keeps its length and holds no `/`: `normpath` unifies separators first |
| Base.NormCompsNormal | monitoring_agent/app/file_validator.py:302 | the component pass of `normpath` leaves no empty or `.` component, `..` only in a leading run, and none below a root |
| Base.NormCompsFixes | monitoring_agent/app/file_validator.py:302 | components already in that form are left unchanged |
| Base.NormCompsIdempotent | monitoring_agent/app/file_validator.py:302 | normalising components twice is normalising them once |
| Base.ParentCancels | monitoring_agent/app/file_validator.py:302 | a `..` removes the ordinary component before it, so `a\temp\..\b` keeps no `temp` |
| Base.PlainNameNormalises | monitoring_agent/app/file_validator.py:306 | `normpath` leaves a plain directory name alone and strips one trailing `\` or `/` after it |
| Base.SplitSeparatorCount | monitoring_agent/app/event_handler.py:75-77 | `split(c)` yields one piece exactly when `c` does not occur |
| FileClassifier.GlobLiteral | monitoring_agent/app/file_validator.py:240-259 | a pattern without `*` matches exactly the identical text |
| FileClassifier.LiteralPatternMatchesOnlyItself | monitoring_agent/app/file_validator.py:240-268 | a pattern without `*` matches only the identical lower-cased name |
| FileClassifier.AnyMatchLiterals | monitoring_agent/app/file_validator.py:186-200 | a list of literal patterns matches exactly the names it lists |
| FileClassifier.ClassifyPrecedence | monitoring_agent/app/file_validator.py:117-135 | IGNORE if an ignore rule fires or no later rule does; else TEMPORARY if a temporary rule fires; else MAIN iff the extension is listed |
| FileClassifier.StaticTemporaryListIsExact | monitoring_agent/app/file_validator.py:40-49 | the fixed temporary patterns match only names equal to one of them, so `.tmp` matches only `.tmp` |
| FileClassifier.OfficeOwnerFileIsTemporary | monitoring_agent/app/file_validator.py:222 | a `~$` name not ignored is TEMPORARY |
| FileClassifier.OfficeScratchFileIsTemporary | monitoring_agent/app/file_validator.py:217-220 | `~wrl<digits>.tmp`, `~wrd<digits>.tmp` and `~rf….tmp` names not ignored are TEMPORARY |
| FileClassifier.ShortAlnumNameIsTemporary | monitoring_agent/app/file_validator.py:92-93 | an extensionless 4–8 character alphanumeric name not ignored is TEMPORARY |
| FileClassifier.ShortOpaqueNameIsTemporary | monitoring_agent/app/file_validator.py:233-236 | a short all-upper-case or all-hex alphanumeric name not ignored is TEMPORARY |
| FileClassifier.ListedExtensionIsMain | monitoring_agent/app/file_validator.py:128-131 | a name with a listed extension that no earlier rule catches is MAIN |
| FileClassifier.MonitoredByNameIffKept | monitoring_agent/app/file_validator.py:166-184 | monitoring by name holds exactly when the category is TEMPORARY or MAIN |
| FileClassifier.NestedIgnoreDirNeverMatches | monitoring_agent/app/file_validator.py:296-311 | an ignore directory that still holds a separator after `normpath` never matches, since each part of the normalised path is compared whole |
| FileClassifier.TrailingSeparatorIgnoreDir | monitoring_agent/app/file_validator.py:296-311 | a plain ignore directory written with a trailing `\` or `/` excludes the same paths as without it, namely those whose normalised, lower-cased path has it as a component |
| FileClassifier.FileValidator.constructor | monitoring_agent/app/file_validator.py:8-99 | the configured patterns are stored and the cache and its counters start empty |
| FileClassifier.FileValidator.GetFileCategory | monitoring_agent/app/file_validator.py:101-135 | the category is the classification of the basename, whether served from the cache or computed; a cache of more than 1000 entries is emptied before the lookup, so it never exceeds 1001; hits and misses are counted |
| FileClassifier.FileValidator.ShouldMonitorFile | monitoring_agent/app/file_validator.py:142-164 | true iff the path is a file and its name is TEMPORARY, or MAIN and it passes the extension check, the directory check on the `normpath`-normalised path and the 10-byte size check |
| FileClassifier.FileValidator.ShouldMonitorFileByName | monitoring_agent/app/file_validator.py:166-184 | equals monitoring by name, without touching the disk |
| SessionTable.SourceKeyInjective | monitoring_agent/app/session_manager.py:21-23 | joined keys of two pairs are equal only for equal pairs when user names hold no `:` |
| SessionTable.SourceKeyCollides | monitoring_agent/app/session_manager.py:21-23 | a Windows path with a drive colon and a user name with a colon give two pairs with one joined key |
| SessionTable.CloseRecord | monitoring_agent/app/session_manager.py:266-268 | the closed record carries `ended_at = now` and the given hash; its id and key are kept |
| SessionTable.ResumedRecord | monitoring_agent/app/session_manager.py:50-80 | a resumed record is open again, counts one more resume and is refreshed to `now` |
| SessionTable.NewRecord | monitoring_agent/app/session_manager.py:199-219 | a new record has the fresh id, `resume_count = 0`, no `hash_after`, no `ended_at`, is not commented, and has `started_at = last_activity = now` |
| SessionTable.FindRecentlyClosed | monitoring_agent/app/session_manager.py:25-48 | over a history in which every record is closed, no record can be resumed |
| SessionTable.Archive | monitoring_agent/app/session_manager.py:270-282 | the history never holds more than 5 records |
| SessionTable.ArchiveKeepsNewest | monitoring_agent/app/session_manager.py:276-282 | archiving keeps the last 5 records of the history extended by the record, and adds nothing when its id is already present |
| SessionTable.AfterClose | monitoring_agent/app/session_manager.py:255-298 | with no active session both tables are unchanged; otherwise the key leaves the active table and its closed record is archived |
| SessionTable.SmartCreateResult | monitoring_agent/app/session_manager.py:161-181 | afterwards the key is active; a live session is returned with only `last_activity` refreshed, otherwise a new record is made |
| SessionTable.RemoveFirst | monitoring_agent/app/session_manager.py:60-61 | removing the first occurrence drops one element and keeps the rest in order |
| SessionTable.RemoveFirstKeepsHistoryOk | monitoring_agent/app/session_manager.py:60-61 | removing from a well-formed history keeps it well formed |
| SessionTable.ArchiveKeepsHistoryOk | monitoring_agent/app/session_manager.py:270-282 | archiving a closed record with an issued id keeps the history well formed: capped, closed, unique ids |
| SessionTable.HistoryNeverResumable | monitoring_agent/app/session_manager.py:387-396 | no record in a well-formed history passes the resume test, because each has `ended_at` set |
| SessionTable.TotalHistoryRemove | monitoring_agent/app/session_manager.py:335-351 | the total history count splits into one key's count plus the rest |
| SessionTable.MultiUserCountRemove | monitoring_agent/app/session_manager.py:335-351 | the multi-user count splits into one key's share plus the rest |
| SessionTable.SweptStep | monitoring_agent/app/session_manager.py:123-159 | closing one more expired key archives its closed record and leaves the other histories as they were |
| SessionTable.SweptRecordsAt | monitoring_agent/app/session_manager.py:123-159 | each swept record is the closed copy of the active record at that key |
| SessionTable.SweptReport | monitoring_agent/app/session_manager.py:123-159 | the sweep's report lists each expired key once, in the order the sweep visited them |
| SessionTable.HistoryOkMonotone | monitoring_agent/app/session_manager.py:199-219 | a well-formed history stays well formed as ids advance, and never holds the next id |
| SessionTable.SessionManager.constructor | monitoring_agent/app/session_manager.py:9-19 | both tables start empty with the configured timeout and maximum age |
| SessionTable.SessionManager.CloseSession | monitoring_agent/app/session_manager.py:255-298 | returns the closed record iff the key was active, and the tables become `AfterClose` |
| SessionTable.SessionManager.GetActiveSession | monitoring_agent/app/session_manager.py:82-121 | a live session is returned with `last_activity = now`; an expired one is closed and none is returned |
| SessionTable.SessionManager.CreateNewSession | monitoring_agent/app/session_manager.py:199-219 | the new record becomes the key's only active entry and the id counter advances |
| SessionTable.SessionManager.ResumeSession | monitoring_agent/app/session_manager.py:50-80 | the resumed record replaces the active entry and leaves the key's history |
| SessionTable.SessionManager.CanResumeSession | monitoring_agent/app/session_manager.py:183-197 | true exactly when the key has an active session |
| SessionTable.SessionManager.SmartCreateSession | monitoring_agent/app/session_manager.py:161-181 | the result and tables are `SmartCreateResult`; the resume branch is never taken |
| SessionTable.SessionManager.CheckAndCloseExpiredSessions | monitoring_agent/app/session_manager.py:100-159 | returns exactly the expired sessions (idle over the timeout or older than the maximum age), each closed at `now`, archived and removed from the active table |
| SessionTable.SessionManager.MarkSessionAsCommented | monitoring_agent/app/session_manager.py:353-385 | marks the active session if one exists, else the newest archived one, and false iff neither exists; afterwards `is_session_commented` holds when it returned true |
| SessionTable.SessionManager.GetSessionStats | monitoring_agent/app/session_manager.py:335-351 | the counts equal the active entries, the archived records and the multi-user sessions |
| HashRegions.PartialFed | monitoring_agent/app/hash_calculator.py:57-76 | the partial hash is fed the first 64 KiB, then the last 64 KiB iff the size exceeds 128 KiB, then 64 KiB from the middle iff it exceeds 256 KiB |
| HashRegions.PartialPositionAt | monitoring_agent/app/hash_calculator.py:57-76 | the k-th byte fed to the partial hash is the file's byte at the k-th region position, which lies inside the file |
| HashRegions.PartialRegionsDisjoint | monitoring_agent/app/hash_calculator.py:57-76 | every byte fed to the partial hash is read from its own distinct position in the file, so the head, middle and tail regions never feed a byte twice |
| HashRegions.PartialIgnoresTail | monitoring_agent/app/hash_calculator.py:32-40 | a large file of at most 128 KiB hashes partially from its first 64 KiB alone |
| HashRegions.PartialDependsOnRegions | monitoring_agent/app/hash_calculator.py:57-76 | two equal-size files that agree on the chosen regions feed the same bytes |
| HashRegions.FullHashSeesEverything | monitoring_agent/app/hash_calculator.py:32-40 | below the size limit the bytes fed are the whole file, so different files feed different bytes |
| HashRegions.AttemptsFrom | monitoring_agent/app/hash_calculator.py:13-24 | no more than `max_retries` attempts are made |
| HashRegions.AllLockedGivesNone | monitoring_agent/app/hash_calculator.py:13-24 | when every attempt fails with a locked or permission error the result is none |
| HashRegions.FirstDecisiveAttempt | monitoring_agent/app/hash_calculator.py:13-24 | the outcome is decided by the first attempt that succeeds or fails with a non-retryable error |
| HashRegions.RaisedIsNotRetryable | monitoring_agent/app/hash_calculator.py:13-24 | an error is propagated only when its text is neither a lock nor a permission error |
| HashRegions.HashCalculator.CalculateFullHash | monitoring_agent/app/hash_calculator.py:46-55 | the 4096-byte chunk loop feeds the whole file in order and ends at its end |
| HashRegions.HashCalculator.CalculatePartialHash | monitoring_agent/app/hash_calculator.py:57-76 | the seek-and-read steps feed exactly the partial regions |
| HashRegions.HashCalculator.CalculateFileHash | monitoring_agent/app/hash_calculator.py:26-44 | a missing file gives none; otherwise the digest of the whole file up to the limit, of the regions above it |
| HashRegions.HashCalculator.CalculateFileHashWithRetry | monitoring_agent/app/hash_calculator.py:13-24 | the loop's result equals the retry specification over the failure oracle |
| AgentEvents.NormalizeUsername | monitoring_agent/app/event_handler.py:65-79 | an empty name becomes the current user; a name with a backslash keeps what follows the last one; others are unchanged |
| AgentEvents.NormalizeUsernameIdempotent | monitoring_agent/app/event_handler.py:65-79 | a non-empty normalised name normalises to itself |
| AgentEvents.OwnerFileMoveIsTemporary | monitoring_agent/app/event_handler.py:373-380 | a move onto a `~$` name is a temporary operation |
| AgentEvents.FileModifier | monitoring_agent/app/event_handler.py:357-365 | a missing or temporary file, or one without a known owner, is attributed to the current user |
| AgentEvents.HoldingEmpty | monitoring_agent/app/event_handler.py:228-258 | no holder is reported iff no process has the path open |
| AgentEvents.ProcessesUsingFile | monitoring_agent/app/event_handler.py:228-258 | the loop reports exactly the processes holding the path |
| AgentEvents.CountEvent | monitoring_agent/app/event_handler.py:84 | every event adds one to `events_processed` |
| AgentEvents.ChangeComposed | monitoring_agent/app/event_handler.py:96-122 | open-file tracking followed by the creation or modification handler composes to `ChangeDone`, the whole state after the event |
| AgentEvents.ChangeDoneReports | monitoring_agent/app/event_handler.py:96-122 | after a creation or modification the event counters are untouched, a held file is tracked as opened now, and unless a creation hit a rename target the pair has an active session reported in the last message |
| AgentEvents.DeletionComposed | monitoring_agent/app/event_handler.py:96-133 | dropping the file from tracking and then the deletion handler, with a raised handler counted as a failure, composes to `DeletionDone` |
| AgentEvents.MovedTables | monitoring_agent/app/event_handler.py:399-403 | with no session on the old path the tables are unchanged; otherwise the new path gets an active session and the old path has none |
| AgentEvents.ClosedMessage | monitoring_agent/app/event_handler.py:319-339 | a closed message carries `event_timestamp = ended_at` and `session_duration = ended_at − started_at` |
| AgentEvents.ClosedReport | monitoring_agent/app/event_handler.py:312-349 | one closed message iff the key was active, none otherwise |
| AgentEvents.ChangeMessage | monitoring_agent/app/event_handler.py:437-489 | created and modified messages carry the session's id, resume count and the hash |
| AgentEvents.CreationFacts | monitoring_agent/app/event_handler.py:437-467 | a creation on a rename destination does nothing; otherwise the session is opened and one created message is sent |
| AgentEvents.TrackedFacts | monitoring_agent/app/event_handler.py:183-226 | a held file is tracked with the event; an unheld file idle past 5 s is closed and untracked; otherwise only `last_checked` moves |
| AgentEvents.IdleFiles | monitoring_agent/app/event_handler.py:266-306 | only tracked files are chosen for closing |
| AgentEvents.Recheck | monitoring_agent/app/event_handler.py:266-306 | a recheck keeps the user, activity and event, and refreshes `last_checked` |
| AgentEvents.Rechecked | monitoring_agent/app/event_handler.py:266-306 | the recheck keeps the set of tracked files |
| AgentEvents.CloseFold | monitoring_agent/app/event_handler.py:266-306 | closing idle files issues no new ids and sends at most one closed message per file |
| AgentEvents.CloseFoldActive | monitoring_agent/app/event_handler.py:266-306 | after closing, no closed file's key stays active |
| AgentEvents.DropListed | monitoring_agent/app/event_handler.py:266-306 | removing the listed files one by one removes exactly that set |
| AgentEvents.EventHandler.constructor | monitoring_agent/app/event_handler.py:24-63 | all tables, counters and the outbox start empty |
| AgentEvents.EventHandler.ShouldProcessFile | monitoring_agent/app/event_handler.py:351-355 | deletions pass by name; other events need the full file check |
| AgentEvents.EventHandler.HandleFileEvent | monitoring_agent/app/event_handler.py:81-133 | counts every event; a move goes to the move handler with the whole new state given by `MoveDone`, and temporary moves change nothing else; a filtered event succeeds, and `closed`, unknown kinds and a move without a destination fail, all leaving every table and the outbox unchanged; a deletion ends as `DeletionDone`, a creation or modification as `ChangeDone` |
| AgentEvents.EventHandler.ProcessCreation | monitoring_agent/app/event_handler.py:96-120 | the tracked files, counters, tables and outbox end as `ChangeDone` for a creation, and no event is counted as failed |
| AgentEvents.EventHandler.ProcessModification | monitoring_agent/app/event_handler.py:96-122 | the tracked files, counters, tables and outbox end as `ChangeDone` for a modification |
| AgentEvents.EventHandler.ProcessDeletion | monitoring_agent/app/event_handler.py:96-133 | the tracked files, counters, tables and outbox end as `DeletionDone`: the file is untracked and its session closed; with no active session the event fails, since the fallback calls a method the session table lacks |
| AgentEvents.EventHandler.HandleFileClosed | monitoring_agent/app/event_handler.py:312-349 | closes the key and sends one closed message iff it was active |
| AgentEvents.EventHandler.HandleFileCreated | monitoring_agent/app/event_handler.py:437-467 | a rename destination is dropped; otherwise a session is opened and one created message is sent |
| AgentEvents.EventHandler.HandleFileModified | monitoring_agent/app/event_handler.py:469-489 | the tables become those of `smart_create_session` with the pair's liveness before the call, one modified message carrying that session is sent, and the verdict is the service's |
| AgentEvents.EventHandler.HandleFileDeleted | monitoring_agent/app/event_handler.py:491-547 | always closes the key; a rename source changes nothing else; otherwise the deletion is counted and the file untracked, a deleted message is sent iff a session was active, and the fallback raises when none was (`DeleteHandled`) |
| AgentEvents.EventHandler.HandleFileMoved | monitoring_agent/app/event_handler.py:382-420 | temporary moves change nothing; others record the rename, leave the tables as `MovedTables`, send one moved message and return the service's verdict (`MoveDone`) |
| AgentEvents.EventHandler.MoveSessions | monitoring_agent/app/event_handler.py:399-403 | the tables become `MovedTables` of the old tables |
| AgentEvents.EventHandler.UpdateOpenFileTracking | monitoring_agent/app/event_handler.py:183-226 | the tracking table and sessions change as `Tracked` states |
| AgentEvents.EventHandler.CloseTracked | monitoring_agent/app/event_handler.py:204-223 | removes the file, counts one close, closes its session and reports it |
| AgentEvents.EventHandler.CheckOpenFiles | monitoring_agent/app/event_handler.py:260-310 | does nothing within 30 s of the previous run or without a process table; otherwise sweeps and stamps the run |
| AgentEvents.EventHandler.SweepOpenFiles | monitoring_agent/app/event_handler.py:266-306 | rechecks every tracked file, then closes exactly the idle ones |
| AgentEvents.EventHandler.RecheckOpenFiles | monitoring_agent/app/event_handler.py:266-306 | refreshes every tracked file and lists each idle file once |
| AgentEvents.EventHandler.CloseIdleFiles | monitoring_agent/app/event_handler.py:266-306 | drops the listed files, counts them, and leaves tables and outbox as the closing fold |
| PollingMonitor.ShouldIgnoreDir | monitoring_agent/app/file_monitor.py:216-234 | true iff the basename is listed, or a `*x` pattern suffix-matches, an `x*` pattern prefix-matches or a pattern occurs in it |
| PollingMonitor.StarIgnoresEveryDir | monitoring_agent/app/file_monitor.py:226-232 | the pattern `*` prunes every directory |
| PollingMonitor.EmptyPatternIgnoresEveryDir | monitoring_agent/app/file_monitor.py:226-232 | an empty pattern prunes every directory |
| PollingMonitor.NothingConfiguredIgnoresNothing | monitoring_agent/app/file_monitor.py:216-234 | with no directories and no patterns nothing is pruned |
| PollingMonitor.Reported | monitoring_agent/app/file_monitor.py:199-214 | one call is made; the state is stored only on success of a non-deletion |
| PollingMonitor.CheckChange | monitoring_agent/app/file_monitor.py:156-185 | an unknown path emits created; a known one emits modified only when mtime and size both changed; an mtime-only change overwrites silently |
| PollingMonitor.ScanFoldKeys | monitoring_agent/app/file_monitor.py:132-154 | the scan adds only paths it walked |
| PollingMonitor.ScanFoldSeen | monitoring_agent/app/file_monitor.py:132-154 | a path is marked seen iff it was walked and kept |
| PollingMonitor.ScanFoldCalls | monitoring_agent/app/file_monitor.py:132-154 | every call the scan makes is a creation or modification of a walked path |
| PollingMonitor.DeletedCalls | monitoring_agent/app/file_monitor.py:187-197 | deletion calls are made only for vanished paths that pass the name check |
| PollingMonitor.DeletedCallsComplete | monitoring_agent/app/file_monitor.py:187-197 | every vanished path that passes the name check gets a deletion call |
| PollingMonitor.DeletionsFacts | monitoring_agent/app/file_monitor.py:187-197 | after the pass only seen paths remain tracked, whether or not a call was made |
| PollingMonitor.FileMonitor.constructor | monitoring_agent/app/file_monitor.py:12-44 | the state table and call log start empty |
| PollingMonitor.FileMonitor.ProcessFileEvent | monitoring_agent/app/file_monitor.py:199-214 | one call is logged; the state is stored iff the handler accepts a non-deletion |
| PollingMonitor.FileMonitor.CheckFileChanges | monitoring_agent/app/file_monitor.py:156-185 | state and calls change as `CheckChange` |
| PollingMonitor.FileMonitor.CheckDeletedFiles | monitoring_agent/app/file_monitor.py:187-197 | every tracked path not seen is removed, with a deletion call when its name passes |
| PollingMonitor.FileMonitor.ScanFiles | monitoring_agent/app/file_monitor.py:132-154 | the walk and the deletion pass leave only seen paths tracked |
| PollingMonitor.FileMonitor.WalkFiles | monitoring_agent/app/file_monitor.py:136-151 | the walk equals the scan fold over the reachable files |
| PollingMonitor.FileMonitor.ReachedByWalk | monitoring_agent/app/file_monitor.py:140-142 | a file is visited iff no directory on its way is pruned |
| ServiceStore.FindUser | session_service/app/crud.py:11-12 | finds the first user with the name, or none iff none has it |
| ServiceStore.FindFile | session_service/app/crud.py:25-26 | finds the first file with the path, or none iff none has it |
| ServiceStore.FindUserUnique | session_service/app/crud.py:11-12 | with unique names the lookup returns the holder |
| ServiceStore.SortDesc | session_service/app/crud.py:104-110 | the sort is a permutation |
| ServiceStore.SortDescSorted | session_service/app/crud.py:104-110 | the sort is ordered by descending key |
| ServiceStore.ActiveSessionsSpec | session_service/app/crud.py:104-110 | exactly the (user, file) sessions with no `ended_at`, each once, by `last_activity` descending |
| ServiceStore.RecentClosedIn | session_service/app/crud.py:121-128 | the (user, file) session closed at or after the cutoff with the latest `ended_at`, or none iff there is none |
| ServiceStore.RecentClosedIgnoresComments | session_service/app/crud.py:121-128 | the lookup ignores `is_commented`, so a commented session can be resumed |
| ServiceStore.SessionsWithComments | session_service/app/crud.py:149-165 | the commented sessions in id order after skipping `skip`, at most `limit` of them |
| ServiceStore.CreateFileRow | session_service/app/crud.py:28-38 | a known path returns its row unchanged; an unknown one appends a row |
| ServiceStore.CreateFileIdempotent | session_service/app/crud.py:28-38 | a second creation of the same path returns the same id and store |
| ServiceStore.UserRow | session_service/app/main.py:86-90 | get-or-create a user by name |
| ServiceStore.TouchSession | session_service/app/crud.py:51-57 | only `last_activity` of an existing session changes; a missing id changes nothing |
| ServiceStore.CloseSessionRow | session_service/app/crud.py:112-119 | only `ended_at` of an existing session changes; a missing id changes nothing |
| ServiceStore.CommentRow | session_service/app/crud.py:68-80 | the comment is appended and the session, when it exists, is marked commented |
| ServiceStore.Store.GetOrCreateUser | session_service/app/crud.py:14-19 | the table changes as `UserRow` |
| ServiceStore.Store.CreateFile | session_service/app/crud.py:28-38 | the table changes as `CreateFileRow` |
| ServiceStore.Store.CreateFileSession | session_service/app/crud.py:41-46 | appends the row and returns its id |
| ServiceStore.Store.CreateFileEvent | session_service/app/crud.py:60-65 | appends the event |
| ServiceStore.Store.UpdateFileSessionActivity | session_service/app/crud.py:51-57 | the table changes as `TouchSession` |
| ServiceStore.Store.CloseSession | session_service/app/crud.py:112-119 | the table changes as `CloseSessionRow` |
| ServiceStore.Store.CreateComment | session_service/app/crud.py:68-80 | the tables change as `CommentRow` |
| ServiceHandlers.GetFileSession | session_service/app/main.py:256-262 | a session is found by id iff the id is a well-formed existing one |
| ServiceHandlers.Target | session_service/app/main.py:256-268 | the session found by id, else the first active one; none iff neither exists |
| ServiceHandlers.HandleFileMoved | session_service/app/main.py:110-183 | the tables and reply are `FileMoved` of the old tables |
| ServiceHandlers.ReopenSession | session_service/app/main.py:158-183 | the tables and reply are `Reopened` |
| ServiceHandlers.MoveSession | session_service/app/main.py:126-156 | the tables and reply are `Relocated` |
| ServiceHandlers.HandleFileCreated | session_service/app/main.py:185-250 | the tables and reply are `FileCreated` |
| ServiceHandlers.HandleFileModified | session_service/app/main.py:252-306 | the tables and reply are `FileModified` |
| ServiceHandlers.HandleFileDeleted | session_service/app/main.py:308-373 | the tables and reply are `FileDeletedAsWritten`: the code as written, whose standalone session is stored open |
| ServiceHandlers.HandleFileClosed | session_service/app/main.py:375-424 | the tables and reply are `FileClosed` |
| ServiceHandlers.ProcessFileEvent | session_service/app/main.py:70-108 | the tables and reply are `ProcessEvent`, whose deletions are the code as written |
| ServiceLaws.ExtendsTrans | session_service/app/main.py:70-108 | extension of the store is transitive |
| ServiceLaws.LookupsExtend | session_service/app/main.py:86-96 | the get-or-create lookups only extend the store |
| ServiceLaws.CreatedStep | session_service/app/main.py:185-250 | a creation extends the store, logs one event and touches only (user, file) sessions |
| ServiceLaws.ModifiedStep | session_service/app/main.py:252-306 | a modification extends the store, logs one event and touches only (user, file) sessions |
| ServiceLaws.DeletedStep | session_service/app/main.py:308-373 | a deletion, as written or corrected, extends the store, logs one event and touches only (user, file) sessions |
| ServiceLaws.ClosedStep | session_service/app/main.py:375-424 | a close logs one event iff it found its session |
| ServiceLaws.DispatchStep | session_service/app/main.py:86-108 | each dispatched kind keeps those step properties |
| ServiceLaws.RelocatedStep | session_service/app/main.py:126-156 | moving a session extends the store and logs one moved event |
| ServiceLaws.ReopenedStep | session_service/app/main.py:158-183 | opening a session after a move extends the store and logs one moved event |
| ServiceLaws.MovedStep | session_service/app/main.py:110-183 | a move extends the store and logs one event iff it succeeds |
| ServiceLaws.LookedExtends | session_service/app/main.py:86-96 | after the lookups the user and file exist under the event's name and path, and sessions and events are untouched |
| ServiceLaws.ProcessEventStep | session_service/app/main.py:70-108 | every processed event extends the store and logs exactly one event when it succeeds |
| ServiceLaws.HandlersNeverComment | session_service/app/main.py:70-424 | no event handler changes `is_commented`, and new sessions are uncommented |
| ServiceLaws.TimestampedEventsSucceed | session_service/app/main.py:185-373 | created, modified and deleted events with a timestamp always succeed |
| ServiceLaws.ClosedWritesIffFound | session_service/app/main.py:375-424 | `no_session_found` is returned iff the id names no session, and then nothing is written |
| ServiceLaws.ClosedStampsEnd | session_service/app/main.py:377-418 | a found session gets `ended_at` from the event or from now, and the reply's duration is measured from its start |
| ServiceLaws.DispatchAfterLookup | session_service/app/main.py:70-108 | non-move events find their user and file afterwards; an unknown type fails with 500 and writes no session or event |
| ServiceLaws.MoveWithoutSessionOpensOne | session_service/app/main.py:158-183 | a move with no source session opens a new active session on the destination |
| ServiceLaws.CreatedRefreshesActive | session_service/app/main.py:188-209 | with an active session, creation refreshes `last_activity`, replaces `hash_before` only when given, overwrites `resume_count`, and adds no session |
| ServiceLaws.CreatedResumesOnlyWhenCounted | session_service/app/main.py:211-239 | without one, creation resumes iff the incoming resume count is positive and a recently closed session exists, and else opens a new one |
| ServiceLaws.ModifiedKeepsEndings | session_service/app/main.py:252-295 | a modification never changes `ended_at`, only raises `resume_count`, and adds at most one session |
| ServiceLaws.ModifiedTouchesClosedById | session_service/app/main.py:256-262 | a modification that names a closed session updates it and leaves it closed |
| ServiceLaws.StandaloneDeletionIsClosed | session_service/app/main.py:346-373 | the corrected standalone deletion opens a session already closed at the event time |
| ServiceLaws.StandaloneDeletionStaysActive | session_service/app/main.py:346-373 | the deletion as written leaves its new session as the only active one |
| ServiceLaws.UpdateKeepsOne | session_service/app/main.py:188-209 | rewriting a row without reopening it keeps at most one active session per (user, file) |
| ServiceLaws.ReopenKeepsOne | session_service/app/crud.py:121-128 | reopening where nothing is active keeps at most one active session |
| ServiceLaws.AppendKeepsOne | session_service/app/crud.py:41-46 | appending an open row where nothing is active keeps at most one active session |
| ServiceLaws.CreatedKeepsOne | session_service/app/main.py:185-250 | creation keeps at most one active session per (user, file) |
| ServiceLaws.ModifiedKeepsOne | session_service/app/main.py:252-306 | modification keeps at most one active session per (user, file) |
| ServiceLaws.DeletedKeepsOne | session_service/app/main.py:308-373 | a deletion, as written or corrected, keeps at most one active session per (user, file) |
| ServiceLaws.ClosedKeepsOne | session_service/app/main.py:375-424 | closing keeps at most one active session per (user, file) |
| ServiceLaws.ProcessEventKeepsOne | session_service/app/main.py:70-108 | every non-move event keeps at most one active session per (user, file) |
| ServiceLaws.MoveCanOpenSecondSession | session_service/app/main.py:158-183 | a move onto a file that already has an active session opens a second one |
| ServiceLaws.ValidAfterStep | session_service/app/models.py:10-77 | a step with those properties keeps names and paths unique and every reference in range |
| ServiceLaws.UserRowValid | session_service/app/crud.py:14-19 | get-or-create of a user keeps the store valid |
| ServiceLaws.FileRowValid | session_service/app/crud.py:28-38 | get-or-create of a file keeps the store valid |
| ServiceLaws.ProcessEventKeepsValid | session_service/app/main.py:70-108 | every non-move event keeps the store valid |
| ServiceLaws.MovedKeepsValid | session_service/app/main.py:110-183 | a move keeps the store valid |
| ServiceLaws.RelocatedKeepsValid | session_service/app/main.py:135-138 | renaming a file keeps paths unique, since the unique path column refuses a taken path |
| ServiceEndpoints.OpenSessionSpec | session_service/app/main.py:426-469 | an existing active session is returned and nothing changes; otherwise one open row with the request's hash and resume count is appended and is the only active one |
| ServiceEndpoints.OpenSessionIdempotent | session_service/app/main.py:446-450 | a second request returns the session the first one returned, with no change |
| ServiceEndpoints.UserRowIdempotent | session_service/app/crud.py:11-19 | get-or-create of a user is idempotent |
| ServiceEndpoints.OpenSessionKeepsOne | session_service/app/main.py:426-469 | opening keeps at most one active session per (user, file) |
| ServiceEndpoints.OpenSessionKeepsValid | session_service/app/main.py:426-469 | opening keeps the store valid |
| ServiceEndpoints.CreateSession | session_service/app/main.py:426-469 | the tables and reply are `OpenSession` |
| ServiceEndpoints.CommentOn | session_service/app/crud.py:82-83 | finds the first comment on the session, or none iff there is none |
| ServiceEndpoints.AddCommentSpec | session_service/app/main.py:518-550 | stored iff the session and user exist and the session has no comment; refusals are 404, 404, 400 with no change; storing sets `is_commented` and overwrites `ended_at` with now |
| ServiceEndpoints.SecondCommentRefused | session_service/app/main.py:531-534 | a second comment on the same session is refused with 400 |
| ServiceEndpoints.AddCommentKeepsValid | session_service/app/main.py:518-550 | commenting keeps the store valid |
| ServiceEndpoints.PostComment | session_service/app/main.py:518-550 | the tables and reply are `AddComment` |
| ServiceEndpoints.RenameSpec | session_service/app/main.py:810-861 | renamed iff the id is valid and known, the name is not blank and no other user holds it; afterwards the name finds that user |
| ServiceEndpoints.RenameKeepsValid | session_service/app/main.py:810-861 | renaming keeps user names unique |
| ServiceEndpoints.UpdateUsername | session_service/app/main.py:810-861 | the users table and reply are `Rename` |
| ServiceEndpoints.EditorsIn | session_service/app/main.py:729-742 | the loop collects exactly the active sessions on the file, in id order |
| ServiceEndpoints.CurrentEditorsSpec | session_service/app/main.py:720-756 | no file iff the path is unknown; otherwise the active sessions on the file, each once, by last activity descending |
| ServiceEndpoints.GetCurrentEditors | session_service/app/main.py:720-756 | the loop's reply equals `CurrentEditors` |
| ServiceEndpoints.ActivityIn | session_service/app/main.py:871-904 | the loop collects exactly the user's open sessions and those closed within 24 hours |
| ServiceEndpoints.UnknownUserIsServerError | session_service/app/main.py:864-919 | as written, an unknown user gives status 500 |
| ServiceEndpoints.UserActivitySpec | session_service/app/main.py:864-919 | fails iff the user is unknown, then with 404; otherwise reports the open and recent sessions |
| ServiceEndpoints.GetUserActivity | session_service/app/main.py:864-919 | the loop's reply equals `UserActivityAsWritten`, where an unknown user gets status 500 |
| Notifications.DefaultRowInserted | notification_service/notification_manager.py:84-98 | with no preference row, a row with all four flags true is inserted before deciding |
| Notifications.KnownRowKept | notification_service/notification_manager.py:84-98 | with a row, the decision changes nothing |
| Notifications.EmailOffBlocksAll | notification_service/notification_manager.py:100-101 | email switched off blocks every kind |
| Notifications.FlagsGate | notification_service/notification_manager.py:103-107 | a reminder passes iff reminders are on, a daily summary iff summaries are on; an aggregated reminder ignores both |
| Notifications.WindowGate | notification_service/notification_manager.py:110-120 | with aggregation on, an earlier notice of the same kind in the window blocks the send |
| Notifications.AttemptSpec | notification_service/notification_manager.py:124-156 | a send succeeds iff allowed and delivered, and exactly then one record with the pending ids is logged |
| Notifications.RepeatWithinWindowBlocked | notification_service/notification_manager.py:110-156 | a notice that was sent blocks a repeat of its kind until the window passes |
| Notifications.RunSpec | notification_service/notification_manager.py:158-256 | one result per user; the log grows by exactly the records of the successes; in aggregated mode a user below the threshold never succeeds |
| Notifications.RoutedByThreshold | notification_service/notification_manager.py:237-256 | users at or above the threshold get the aggregated reminder, others the individual one |
| Notifications.NotificationManager.constructor | notification_service/notification_manager.py:23-27 | starts from the given preferences, log and configuration |
| Notifications.NotificationManager.ShouldSendReminder | notification_service/notification_manager.py:81-122 | the preferences and verdict are `ShouldSend` |
| Notifications.NotificationManager.Deliver | notification_service/notification_manager.py:124-156 | the log and verdict are `Attempt` |
| Notifications.NotificationManager.SendReminderNotification | notification_service/notification_manager.py:124-156 | the log and verdict are `Attempt` for a reminder |
| Notifications.NotificationManager.SendAggregatedReminder | notification_service/notification_manager.py:158-197 | the loop's log and results are `Run` in aggregated mode |
| Notifications.NotificationManager.SendDailySummary | notification_service/notification_manager.py:199-235 | the loop's log and results are `Run` in daily mode |
| Notifications.NotificationManager.ProcessReminders | notification_service/notification_manager.py:237-256 | the loop's log is `Run` in routing mode, with one (username, result) pair per user |
| Notifications.NotificationManager.RouteReminder | notification_service/notification_manager.py:244-250 | a user at or above the threshold gets the aggregated reminder's single result, a user below it the individual reminder |

## Left out

- HTTP layers are not modelled: FastAPI routing, request parsing and the `except Exception` paths that turn any crash into a 500. Replies are result datatypes; status codes appear only where the handler sets them.
- The agent's Flask server, the web interface, the background checker thread, the watchdog observer and the agent's bootstrap are not part of this model.
- The API client's network retries and its JSON cache file are left out. The outbox is a sequence of messages, and the service's verdict on each message is an input.
- `cleanup_expired_sessions` and the event handler's `check_expired_sessions` only wrap the expiry sweep with hashing and sending, and are left out.
- `get_multi_user_files` calls `db.func`, which the ORM session does not offer, so it is left out.
- `get_users_with_pending_sessions` is raw SQL and is left out. Its rows are the `UserInfo` input.
- Email templates, the subject line, SMTP delivery and the scheduler are left out. Delivery is a function parameter.
- Timestamps are integer seconds and `total_seconds()` floats are not modelled. Where a handler reads the clock twice, one `now` stands for both.
- Digests are abstract: a digest is the algorithm name and the bytes fed to it.
- The process table, file owners, file existence and sizes, `os.walk` and `getpass` are inputs.
- General regular expressions and `fnmatch` are modelled only for literal, `*x` and `x*` patterns. Lower-casing is ASCII only, so the Cyrillic default office names are not lower-cased.
- Exceptions raised inside the agent's hashing are not modelled. A missing hash is `None`.
- The service's ids are table positions, not UUIDs. A malformed id is one variant of the id argument.
- A missing user or file in `handle_file_closed`'s reply cannot happen in a valid store, so that branch is not modelled.
- `create_session` takes the basename after the last `/` when no name is given.
- Ties in the service's sorts are ordered by the stable insertion sort. The database leaves their order unspecified.
- `ntpath.normpath` is modelled for drive letters and a leading separator; a UNC `\\server\share` prefix is treated as a plain root.
- SweptReport: the sweep visits the active sessions in dictionary order, which the model leaves arbitrary (any order of the expired keys), so no particular order is promised; monitoring_agent/app/session_manager.py:123-159 iterates a dictionary copy.
- CheckOpenFiles: the open-file sweep likewise visits the tracked files in an arbitrary order, returned as the ghost `order`; monitoring_agent/app/event_handler.py:266-306 iterates a dictionary copy.
- UpdateUsername: session_service/app/main.py:812 names `schemas.UsernameUpdate`, which session_service/app/schemas.py does not define; the model takes the request body to carry one username string.
- The commented-out second `close_session` in the session manager is not modelled.
- The service's `created_at`, `updated_at`, email and `sent_at` bookkeeping columns are carried where a contract needs them, and are not otherwise modelled.

## Findings

| source | as written | input that shows it | evidently intended | confidence | as-written member | corrected member |
|---|---|---|---|---|---|---|
| session_service/app/main.py:346-373 | a deletion with no matching session builds the new session with `ended_at`, but the creation schema (session_service/app/schemas.py:35-42) has no such field, so the row is stored open | a `deleted` event with a timestamp and no session id, for a (user, file) with no active session | the new session is stored closed at the event time | not executed | ServiceLaws.StandaloneDeletionStaysActive | ServiceLaws.StandaloneDeletionIsClosed |
| session_service/app/main.py:864-919 | the 404 for an unknown user is raised inside the `try` and caught by `except Exception`, which replies 500 | `GET /api/user-activity/{username}` for a name no user has | reply 404 "User not found" | not executed | ServiceEndpoints.UnknownUserIsServerError | ServiceEndpoints.UserActivitySpec |
