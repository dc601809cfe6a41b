/** The central service's reconciliation of agent events: `process_file_event`
    and the five per-type handlers.  Each handler is specified by a function
    on store values (`FileCreated`, ...) and implemented by a method that
    updates the session rows field by field and appends the event row. */
module ServiceHandlers {
  import opened Base
  import opened ServiceStore

  /** The `session_id` an event carries: none (or empty), text that is not a
      UUID, or a UUID naming the row with that id if there is one. */
  datatype SessionArg = NoSessionId | MalformedId | SessionUuid(id: nat)

  /** An event as the agent posts it.  `timestamp` is None when
      `event_timestamp` is missing. */
  datatype Event = Event(
    eventType: string, filePath: string, fileName: string, username: string,
    oldFilePath: string, fileHash: Option<string>, sessionId: SessionArg,
    resumeCount: int, timestamp: Option<int>)

  datatype Action = SessionMoved | SessionCreated | SessionUpdated | SessionClosed | DeletedEventCreated

  /** What a handler returns; `Failed` is an exception that reaches the
      endpoint and becomes HTTP status `status`. */
  datatype Reply =
    | Done(action: Action, sessionId: nat, resumed: Option<bool>)
    | ClosedSession(sessionId: nat, duration: int, endedAt: int, resumeCount: int)
    | NoSessionFound
    | Failed(status: nat, detail: string)

  const NoTimestamp := "event_timestamp is missing"
  const PathTaken := "file_path is already used by another file"

  /** Python truthiness of an optional hash. */
  predicate Truthy(h: Option<string>) { h.Some? && h.value != "" }

  // ---------------------------------------------------------------------
  // Row helpers

  function WithEvent(db: Db, ev: FileEvent): Db { db.(events := db.events + [ev]) }

  function WithSession(db: Db, row: FileSession): Db { db.(sessions := db.sessions + [row]) }

  function Update(db: Db, s: nat, row: FileSession): Db
    requires s < |db.sessions|
  {
    db.(sessions := db.sessions[s := row])
  }

  /** A session opened at `ts`, as every handler creates one. */
  function Opened(userId: nat, fileId: nat, ts: int, hash: Option<string>, resumeCount: int): FileSession
  {
    FileSession(userId, fileId, ts, ts, None, hash, None, false, resumeCount)
  }

  /** `get_file_session(uuid.UUID(session_id))`, with a malformed id ignored. */
  function GetFileSession(db: Db, arg: SessionArg): (r: Option<nat>)
    ensures r.Some? <==> arg.SessionUuid? && arg.id < |db.sessions|
    ensures r.Some? ==> r.value == arg.id
  {
    if arg.SessionUuid? && arg.id < |db.sessions| then Some(arg.id) else None
  }

  /** The session a modified or deleted event applies to: the one named by
      its id, else the most recently active (user, file) session. */
  function Target(db: Db, userId: nat, fileId: nat, arg: SessionArg): (r: Option<nat>)
    ensures r.Some? ==> r.value < |db.sessions|
    ensures r.None? <==> GetFileSession(db, arg).None? && ActiveSessions(db, userId, fileId) == []
  {
    var byId := GetFileSession(db, arg);
    if byId.Some? then byId
    else
      var active := ActiveSessions(db, userId, fileId);
      if active != [] then Some(active[0]) else None
  }

  // ---------------------------------------------------------------------
  // The handlers, on values

  /** `handle_file_moved`: the user's most recent active session on the old
      path moves with the file row; otherwise a new session is opened on the
      new path.  Renaming onto a path another file holds violates the unique
      path constraint; a missing timestamp fails after the rename is
      committed. */
  function FileMoved(db: Db, e: Event): (r: (Db, Reply))
  {
    var (db1, u) := UserRow(db, e.username);
    var source := FindFile(db1.files, e.oldFilePath);
    var active := if source.Some? then ActiveSessions(db1, u, source.value) else [];
    if active != [] then Relocated(db1, source.value, active[0], e)
    else Reopened(db1, u, e)
  }

  /** The branch of `handle_file_moved` that opens a session for user `u`
      on the new path. */
  function Reopened(db: Db, u: nat, e: Event): (r: (Db, Reply))
  {
    var (db1, f) := CreateFileRow(db, e.filePath, e.fileName);
    if e.timestamp.None? then (db1, Failed(500, NoTimestamp))
    else
      var ts := e.timestamp.value;
      var s := |db1.sessions|;
      (WithEvent(WithSession(db1, Opened(u, f, ts, e.fileHash, 0)), FileEvent(s, Moved, e.fileHash, ts)),
       Done(SessionCreated, s, None))
  }

  /** The branch of `handle_file_moved` that renames file row `fileId` and
      carries session `s` along. */
  function Relocated(db: Db, fileId: nat, s: nat, e: Event): (r: (Db, Reply))
    requires fileId < |db.files| && s < |db.sessions|
  {
    var taken := FindFile(db.files, e.filePath);
    if taken.Some? && taken.value != fileId then (db, Failed(500, PathTaken))
    else
      var db1 := db.(files := db.files[fileId := File(e.filePath, e.fileName)]);
      if e.timestamp.None? then (db1, Failed(500, NoTimestamp))
      else
        var ts := e.timestamp.value;
        var prev := db1.sessions[s];
        var row := prev.(lastActivity := ts, hashAfter := if Truthy(e.fileHash) then e.fileHash else prev.hashAfter);
        (WithEvent(Update(db1, s, row), FileEvent(s, Moved, e.fileHash, ts)), Done(SessionMoved, s, None))
  }

  /** `handle_file_created`: refresh the active session, else resume the
      latest session closed within the hour when the agent counts a resume,
      else open a new one. */
  function FileCreated(db: Db, u: nat, f: nat, e: Event, now: int): (r: (Db, Reply))
  {
    var active := ActiveSessions(db, u, f);
    if active != [] then
      if e.timestamp.None? then (db, Failed(500, NoTimestamp))
      else
        var s := active[0];
        var ts := e.timestamp.value;
        var prev := db.sessions[s];
        var row := prev.(lastActivity := ts,
                        hashBefore := if Truthy(e.fileHash) then e.fileHash else prev.hashBefore,
                        resumeCount := e.resumeCount);
        (WithEvent(Update(db, s, row), FileEvent(s, Created, e.fileHash, ts)), Done(SessionUpdated, s, Some(false)))
    else
      var recent := if e.resumeCount > 0 then RecentClosed(db, u, f, now) else None;
      if e.timestamp.None? then (db, Failed(500, NoTimestamp))
      else
        var ts := e.timestamp.value;
        var (db1, s) :=
          if recent.Some? then
            (Update(db, recent.value, db.sessions[recent.value].(endedAt := None, lastActivity := ts,
                                                               resumeCount := e.resumeCount, hashBefore := e.fileHash)),
             recent.value)
          else (WithSession(db, Opened(u, f, ts, e.fileHash, e.resumeCount)), |db.sessions|);
        (WithEvent(db1, FileEvent(s, Created, e.fileHash, ts)), Done(SessionCreated, s, Some(recent.Some?)))
  }

  /** `handle_file_modified`: touch the target session (raising its resume
      count, replacing `hash_after` when a hash is given), else open one. */
  function FileModified(db: Db, u: nat, f: nat, e: Event): (r: (Db, Reply))
  {
    var target := Target(db, u, f, e.sessionId);
    if e.timestamp.None? then (db, Failed(500, NoTimestamp))
    else
      var ts := e.timestamp.value;
      var (db1, s, action) :=
        match target
        case Some(s) =>
          var prev := db.sessions[s];
          (Update(db, s, prev.(lastActivity := ts,
                              hashAfter := if Truthy(e.fileHash) then e.fileHash else prev.hashAfter,
                              resumeCount := if e.resumeCount > prev.resumeCount then e.resumeCount else prev.resumeCount)),
           s, SessionUpdated)
        case None => (WithSession(db, Opened(u, f, ts, e.fileHash, e.resumeCount)), |db.sessions|, SessionCreated);
      (WithEvent(db1, FileEvent(s, Modified, e.fileHash, ts)), Done(action, s, None))
  }

  /** `handle_file_deleted`: close the target session; with none, record the
      deletion on a standalone session.  `standaloneClosed` says whether that
      session is stored closed. */
  function Deletion(db: Db, u: nat, f: nat, e: Event, standaloneClosed: bool): (r: (Db, Reply))
  {
    var target := Target(db, u, f, e.sessionId);
    if e.timestamp.None? then (db, Failed(500, NoTimestamp))
    else
      var ts := e.timestamp.value;
      match target
      case Some(s) =>
        (WithEvent(Update(db, s, db.sessions[s].(endedAt := Some(ts))), FileEvent(s, Deleted, None, ts)),
         Done(SessionClosed, s, None))
      case None =>
        var row := FileSession(u, f, ts, ts, if standaloneClosed then Some(ts) else None, None, None, false, 0);
        (WithEvent(WithSession(db, row), FileEvent(|db.sessions|, Deleted, None, ts)),
         Done(DeletedEventCreated, |db.sessions|, None))
  }

  /** The deletion as the code stores it: the `ended_at` given for the
      standalone session is not a field of the creation schema and is
      dropped, so the session is stored open. */
  function FileDeletedAsWritten(db: Db, u: nat, f: nat, e: Event): (Db, Reply)
  {
    Deletion(db, u, f, e, false)
  }

  /** The deletion as intended: the standalone session is stored closed at
      the event time. */
  function FileDeleted(db: Db, u: nat, f: nat, e: Event): (Db, Reply)
  {
    Deletion(db, u, f, e, true)
  }

  /** `handle_file_closed`: close the session named by id at the event time
      (now if the event has none); without such a session nothing is
      written. */
  function FileClosed(db: Db, e: Event, now: int): (r: (Db, Reply))
  {
    match GetFileSession(db, e.sessionId)
    case None => (db, NoSessionFound)
    case Some(s) =>
      var ended := if e.timestamp.Some? then e.timestamp.value else now;
      var prev := db.sessions[s];
      var row := prev.(endedAt := Some(ended), hashAfter := if Truthy(e.fileHash) then e.fileHash else prev.hashAfter);
      (WithEvent(Update(db, s, row), FileEvent(s, Closed, e.fileHash, ended)),
       ClosedSession(s, ended - prev.startedAt, ended, prev.resumeCount))
  }

  /** `process_file_event`: a move is handled before any lookup; every other
      type first gets or creates the user and the file, then dispatches; an
      unknown type fails after those two rows are written. */
  function ProcessEvent(db: Db, e: Event, now: int): (r: (Db, Reply))
  {
    if e.eventType == "moved" then FileMoved(db, e)
    else
      var (db1, u) := UserRow(db, e.username);
      var (db2, f) := CreateFileRow(db1, e.filePath, e.fileName);
      Dispatch(db2, u, f, e, now)
  }

  /** The per-type dispatch of `process_file_event` once user `u` and file
      `f` are known. */
  function Dispatch(db: Db, u: nat, f: nat, e: Event, now: int): (r: (Db, Reply))
  {
    if e.eventType == "created" then FileCreated(db, u, f, e, now)
    else if e.eventType == "modified" then FileModified(db, u, f, e)
    else if e.eventType == "deleted" then FileDeletedAsWritten(db, u, f, e)
    else if e.eventType == "closed" then FileClosed(db, e, now)
    else (db, Failed(500, "Unknown event type: " + e.eventType))
  }

  // ---------------------------------------------------------------------
  // The handlers, on the store

  method HandleFileMoved(db: Store, e: Event) returns (r: Reply)
    modifies db
    ensures (db.State(), r) == FileMoved(old(db.State()), e)
  {
    var u := db.GetOrCreateUser(e.username);
    var source := FindFile(db.files, e.oldFilePath);
    var active := if source.Some? then ActiveSessions(db.State(), u, source.value) else [];
    if active != [] {
      r := MoveSession(db, source.value, active[0], e);
    } else {
      r := ReopenSession(db, u, e);
    }
  }

  method ReopenSession(db: Store, u: nat, e: Event) returns (r: Reply)
    modifies db
    ensures (db.State(), r) == Reopened(old(db.State()), u, e)
  {
    var f := db.CreateFile(e.filePath, e.fileName);
    if e.timestamp.None? {
      return Failed(500, NoTimestamp);
    }
    var ts := e.timestamp.value;
    var s := db.CreateFileSession(Opened(u, f, ts, e.fileHash, 0));
    db.CreateFileEvent(FileEvent(s, Moved, e.fileHash, ts));
    return Done(SessionCreated, s, None);
  }

  method MoveSession(db: Store, fileId: nat, s: nat, e: Event) returns (r: Reply)
    requires fileId < |db.files| && s < |db.sessions|
    modifies db
    ensures (db.State(), r) == Relocated(old(db.State()), fileId, s, e)
  {
    var taken := FindFile(db.files, e.filePath);
    if taken.Some? && taken.value != fileId {
      return Failed(500, PathTaken);
    }
    db.files := db.files[fileId := File(e.filePath, e.fileName)];
    if e.timestamp.None? {
      return Failed(500, NoTimestamp);
    }
    var ts := e.timestamp.value;
    var row := db.sessions[s].(lastActivity := ts);
    if Truthy(e.fileHash) {
      row := row.(hashAfter := e.fileHash);
    }
    db.sessions := db.sessions[s := row];
    db.CreateFileEvent(FileEvent(s, Moved, e.fileHash, ts));
    return Done(SessionMoved, s, None);
  }

  method HandleFileCreated(db: Store, u: nat, f: nat, e: Event, now: int) returns (r: Reply)
    modifies db
    ensures (db.State(), r) == FileCreated(old(db.State()), u, f, e, now)
  {
    var active := ActiveSessions(db.State(), u, f);
    if active != [] {
      if e.timestamp.None? {
        return Failed(500, NoTimestamp);
      }
      var s := active[0];
      var ts := e.timestamp.value;
      var row := db.sessions[s].(lastActivity := ts);
      if Truthy(e.fileHash) {
        row := row.(hashBefore := e.fileHash);
      }
      row := row.(resumeCount := e.resumeCount);
      db.sessions := db.sessions[s := row];
      db.CreateFileEvent(FileEvent(s, Created, e.fileHash, ts));
      return Done(SessionUpdated, s, Some(false));
    }
    var recent := None;
    if e.resumeCount > 0 {
      recent := RecentClosed(db.State(), u, f, now);
    }
    if e.timestamp.None? {
      return Failed(500, NoTimestamp);
    }
    var ts := e.timestamp.value;
    var s;
    if recent.Some? {
      s := recent.value;
      db.sessions := db.sessions[s := db.sessions[s].(endedAt := None, lastActivity := ts,
                                                      resumeCount := e.resumeCount, hashBefore := e.fileHash)];
    } else {
      s := db.CreateFileSession(Opened(u, f, ts, e.fileHash, e.resumeCount));
    }
    db.CreateFileEvent(FileEvent(s, Created, e.fileHash, ts));
    return Done(SessionCreated, s, Some(recent.Some?));
  }

  method HandleFileModified(db: Store, u: nat, f: nat, e: Event) returns (r: Reply)
    modifies db
    ensures (db.State(), r) == FileModified(old(db.State()), u, f, e)
  {
    var target := Target(db.State(), u, f, e.sessionId);
    if e.timestamp.None? {
      return Failed(500, NoTimestamp);
    }
    var ts := e.timestamp.value;
    var s, action;
    if target.Some? {
      s := target.value;
      var row := db.sessions[s].(lastActivity := ts);
      if Truthy(e.fileHash) {
        row := row.(hashAfter := e.fileHash);
      }
      if e.resumeCount > row.resumeCount {
        row := row.(resumeCount := e.resumeCount);
      }
      db.sessions := db.sessions[s := row];
      action := SessionUpdated;
    } else {
      s := db.CreateFileSession(Opened(u, f, ts, e.fileHash, e.resumeCount));
      action := SessionCreated;
    }
    db.CreateFileEvent(FileEvent(s, Modified, e.fileHash, ts));
    return Done(action, s, None);
  }

  method HandleFileDeleted(db: Store, u: nat, f: nat, e: Event) returns (r: Reply)
    modifies db
    ensures (db.State(), r) == FileDeletedAsWritten(old(db.State()), u, f, e)
  {
    var target := Target(db.State(), u, f, e.sessionId);
    if e.timestamp.None? {
      return Failed(500, NoTimestamp);
    }
    var ts := e.timestamp.value;
    if target.Some? {
      var s := target.value;
      db.sessions := db.sessions[s := db.sessions[s].(endedAt := Some(ts))];
      db.CreateFileEvent(FileEvent(s, Deleted, None, ts));
      return Done(SessionClosed, s, None);
    }
    // `ended_at` is not a field of the creation schema, so the row is stored open.
    var s := db.CreateFileSession(FileSession(u, f, ts, ts, None, None, None, false, 0));
    db.CreateFileEvent(FileEvent(s, Deleted, None, ts));
    return Done(DeletedEventCreated, s, None);
  }

  method HandleFileClosed(db: Store, e: Event, now: int) returns (r: Reply)
    modifies db
    ensures (db.State(), r) == FileClosed(old(db.State()), e, now)
  {
    var found := GetFileSession(db.State(), e.sessionId);
    if found.None? {
      return NoSessionFound;
    }
    var s := found.value;
    var ended := if e.timestamp.Some? then e.timestamp.value else now;
    var row := db.sessions[s].(endedAt := Some(ended));
    if Truthy(e.fileHash) {
      row := row.(hashAfter := e.fileHash);
    }
    db.sessions := db.sessions[s := row];
    db.CreateFileEvent(FileEvent(s, Closed, e.fileHash, ended));
    return ClosedSession(s, ended - row.startedAt, ended, row.resumeCount);
  }

  method ProcessFileEvent(db: Store, e: Event, now: int) returns (r: Reply)
    modifies db
    ensures (db.State(), r) == ProcessEvent(old(db.State()), e, now)
  {
    if e.eventType == "moved" {
      r := HandleFileMoved(db, e);
      return;
    }
    var u := db.GetOrCreateUser(e.username);
    var f := db.CreateFile(e.filePath, e.fileName);
    if e.eventType == "created" {
      r := HandleFileCreated(db, u, f, e, now);
    } else if e.eventType == "modified" {
      r := HandleFileModified(db, u, f, e);
    } else if e.eventType == "deleted" {
      r := HandleFileDeleted(db, u, f, e);
    } else if e.eventType == "closed" {
      r := HandleFileClosed(db, e, now);
    } else {
      r := Failed(500, "Unknown event type: " + e.eventType);
    }
  }
}
