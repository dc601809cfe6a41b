/** What the central service's event handlers guarantee about the store:
    nothing is ever removed, `is_commented` is never written, each handled
    event leaves exactly one event row, and "one active session per user and
    file" survives every event type except a move. */
module ServiceLaws {
  import opened Base
  import opened ServiceStore
  import opened ServiceHandlers

  // ---------------------------------------------------------------------
  // Growth of the store

  /** The parts of a session no handler rewrites. */
  predicate Keeps(a: FileSession, b: FileSession)
  {
    a.userId == b.userId && a.fileId == b.fileId && a.startedAt == b.startedAt && a.isCommented == b.isCommented
  }

  /** `db2` is `db` after handler writes: users and events only appended,
      files and sessions only appended or edited in place, comments
      untouched, and every added session uncommented. */
  ghost predicate Extends(db: Db, db2: Db)
  {
    db.users <= db2.users && |db.files| <= |db2.files| && db.events <= db2.events
    && db.comments == db2.comments && |db.sessions| <= |db2.sessions|
    && (forall i | 0 <= i < |db.sessions| :: Keeps(db.sessions[i], db2.sessions[i]))
    && (forall i | |db.sessions| <= i < |db2.sessions| :: !db2.sessions[i].isCommented)
  }

  lemma ExtendsTrans(a: Db, b: Db, c: Db)
    requires Extends(a, b) && Extends(b, c)
    ensures Extends(a, c)
  {
    forall i | |a.sessions| <= i < |c.sessions| ensures !c.sessions[i].isCommented {
      if i < |b.sessions| {
        assert Keeps(b.sessions[i], c.sessions[i]);
      }
    }
  }

  lemma LookupsExtend(db: Db, e: Event)
    ensures Extends(db, UserRow(db, e.username).0)
    ensures var db1 := UserRow(db, e.username).0; Extends(db1, CreateFileRow(db1, e.filePath, e.fileName).0)
  {
  }

  lemma UpdateExtends(db: Db, s: nat, row: FileSession)
    requires s < |db.sessions| && Keeps(db.sessions[s], row)
    ensures Extends(db, Update(db, s, row))
  {
  }

  lemma AppendExtends(db: Db, row: FileSession)
    requires !row.isCommented
    ensures Extends(db, WithSession(db, row))
  {
  }

  lemma EventExtends(db: Db, ev: FileEvent)
    ensures Extends(db, WithEvent(db, ev))
  {
  }

  /** The user and file tables are unchanged, at most one session was
      added (for user `u` and file `f`), and at most one event was logged. */
  ghost predicate StepOk(db: Db, db2: Db, r: Reply, kind: Option<EventType>, u: nat, f: nat)
  {
    Extends(db, db2) && LoggedOnce(db, db2, r, kind) && AddsFor(db, db2, u, f)
    && db2.users == db.users && db2.files == db.files
  }

  /** `db2` has at most one session more than `db`, opened for (u, f). */
  ghost predicate AddsFor(db: Db, db2: Db, u: nat, f: nat)
  {
    |db2.sessions| <= |db.sessions| + 1
    && forall i | |db.sessions| <= i < |db2.sessions| :: db2.sessions[i].userId == u && db2.sessions[i].fileId == f
  }

  lemma CreatedStep(db: Db, u: nat, f: nat, e: Event, now: int)
    ensures var (db2, r) := FileCreated(db, u, f, e, now); StepOk(db, db2, r, Some(Created), u, f)
  {
    if e.timestamp.Some? {
      if ActiveSessions(db, u, f) != [] {
        CreatedOnActiveStep(db, u, f, e, now);
      } else if e.resumeCount > 0 && RecentClosed(db, u, f, now).Some? {
        CreatedResumeStep(db, u, f, e, now);
      } else {
        CreatedOpenStep(db, u, f, e, now);
      }
    }
  }

  lemma CreatedOnActiveStep(db: Db, u: nat, f: nat, e: Event, now: int)
    requires e.timestamp.Some? && ActiveSessions(db, u, f) != []
    ensures var (db2, r) := FileCreated(db, u, f, e, now); StepOk(db, db2, r, Some(Created), u, f)
  {
    var ts := e.timestamp.value;
    var s := ActiveSessions(db, u, f)[0];
    var prev := db.sessions[s];
    var row := prev.(lastActivity := ts,
                     hashBefore := if Truthy(e.fileHash) then e.fileHash else prev.hashBefore,
                     resumeCount := e.resumeCount);
    UpdateExtends(db, s, row);
    EventExtends(Update(db, s, row), FileEvent(s, Created, e.fileHash, ts));
    ExtendsTrans(db, Update(db, s, row), FileCreated(db, u, f, e, now).0);
  }

  lemma CreatedResumeStep(db: Db, u: nat, f: nat, e: Event, now: int)
    requires e.timestamp.Some? && ActiveSessions(db, u, f) == []
    requires e.resumeCount > 0 && RecentClosed(db, u, f, now).Some?
    ensures var (db2, r) := FileCreated(db, u, f, e, now); StepOk(db, db2, r, Some(Created), u, f)
  {
    var ts := e.timestamp.value;
    var s := RecentClosed(db, u, f, now).value;
    var row := db.sessions[s].(endedAt := None, lastActivity := ts,
                               resumeCount := e.resumeCount, hashBefore := e.fileHash);
    UpdateExtends(db, s, row);
    EventExtends(Update(db, s, row), FileEvent(s, Created, e.fileHash, ts));
    ExtendsTrans(db, Update(db, s, row), FileCreated(db, u, f, e, now).0);
  }

  lemma CreatedOpenStep(db: Db, u: nat, f: nat, e: Event, now: int)
    requires e.timestamp.Some? && ActiveSessions(db, u, f) == []
    requires !(e.resumeCount > 0 && RecentClosed(db, u, f, now).Some?)
    ensures var (db2, r) := FileCreated(db, u, f, e, now); StepOk(db, db2, r, Some(Created), u, f)
  {
    var ts := e.timestamp.value;
    var row := Opened(u, f, ts, e.fileHash, e.resumeCount);
    AppendExtends(db, row);
    EventExtends(WithSession(db, row), FileEvent(|db.sessions|, Created, e.fileHash, ts));
    ExtendsTrans(db, WithSession(db, row), FileCreated(db, u, f, e, now).0);
  }

  lemma ModifiedStep(db: Db, u: nat, f: nat, e: Event)
    ensures var (db2, r) := FileModified(db, u, f, e); StepOk(db, db2, r, Some(Modified), u, f)
  {
    if e.timestamp.Some? {
      var ts := e.timestamp.value;
      match Target(db, u, f, e.sessionId)
      case Some(s) =>
        var prev := db.sessions[s];
        var row := prev.(lastActivity := ts,
                         hashAfter := if Truthy(e.fileHash) then e.fileHash else prev.hashAfter,
                         resumeCount := if e.resumeCount > prev.resumeCount then e.resumeCount else prev.resumeCount);
        UpdateExtends(db, s, row);
        EventExtends(Update(db, s, row), FileEvent(s, Modified, e.fileHash, ts));
        ExtendsTrans(db, Update(db, s, row), FileModified(db, u, f, e).0);
      case None =>
        var row := Opened(u, f, ts, e.fileHash, e.resumeCount);
        AppendExtends(db, row);
        EventExtends(WithSession(db, row), FileEvent(|db.sessions|, Modified, e.fileHash, ts));
        ExtendsTrans(db, WithSession(db, row), FileModified(db, u, f, e).0);
    }
  }

  /** Both the deletion as written and the corrected one keep `StepOk`. */
  lemma DeletedStep(db: Db, u: nat, f: nat, e: Event, standaloneClosed: bool)
    ensures var (db2, r) := Deletion(db, u, f, e, standaloneClosed); StepOk(db, db2, r, Some(Deleted), u, f)
  {
    var db2 := Deletion(db, u, f, e, standaloneClosed).0;
    if e.timestamp.Some? {
      var ts := e.timestamp.value;
      match Target(db, u, f, e.sessionId)
      case Some(s) =>
        var row := db.sessions[s].(endedAt := Some(ts));
        UpdateExtends(db, s, row);
        EventExtends(Update(db, s, row), FileEvent(s, Deleted, None, ts));
        ExtendsTrans(db, Update(db, s, row), db2);
      case None =>
        var row := FileSession(u, f, ts, ts, if standaloneClosed then Some(ts) else None, None, None, false, 0);
        AppendExtends(db, row);
        EventExtends(WithSession(db, row), FileEvent(|db.sessions|, Deleted, None, ts));
        ExtendsTrans(db, WithSession(db, row), db2);
    }
  }

  lemma ClosedStep(db: Db, u: nat, f: nat, e: Event, now: int)
    ensures var (db2, r) := FileClosed(db, e, now); StepOk(db, db2, r, Some(Closed), u, f)
  {
  }

  lemma {:induction false} DispatchStep(db: Db, u: nat, f: nat, e: Event, now: int)
    ensures var (db2, r) := Dispatch(db, u, f, e, now); StepOk(db, db2, r, Kind(e.eventType), u, f)
  {
    if e.eventType == "created" {
      CreatedStep(db, u, f, e, now);
    } else if e.eventType == "modified" {
      ModifiedStep(db, u, f, e);
    } else if e.eventType == "deleted" {
      DeletedStep(db, u, f, e, false);
    } else if e.eventType == "closed" {
      ClosedStep(db, u, f, e, now);
    }
  }

  lemma RelocatedStep(db: Db, fileId: nat, s: nat, e: Event)
    requires fileId < |db.files| && s < |db.sessions|
    ensures var (db2, r) := Relocated(db, fileId, s, e); Extends(db, db2) && LoggedOnce(db, db2, r, Some(Moved))
  {
    var taken := FindFile(db.files, e.filePath);
    if !(taken.Some? && taken.value != fileId) && e.timestamp.Some? {
      var db1 := db.(files := db.files[fileId := File(e.filePath, e.fileName)]);
      var ts := e.timestamp.value;
      var prev := db1.sessions[s];
      var row := prev.(lastActivity := ts, hashAfter := if Truthy(e.fileHash) then e.fileHash else prev.hashAfter);
      UpdateExtends(db1, s, row);
      EventExtends(Update(db1, s, row), FileEvent(s, Moved, e.fileHash, ts));
      ExtendsTrans(db1, Update(db1, s, row), WithEvent(Update(db1, s, row), FileEvent(s, Moved, e.fileHash, ts)));
      ExtendsTrans(db, db1, Relocated(db, fileId, s, e).0);
    }
  }

  lemma ReopenedStep(db: Db, u: nat, e: Event)
    ensures var (db1, f) := CreateFileRow(db, e.filePath, e.fileName);
      var (db2, r) := Reopened(db, u, e);
      Extends(db, db1) && StepOk(db1, db2, r, Some(Moved), u, f)
  {
    var (db1, f) := CreateFileRow(db, e.filePath, e.fileName);
    if e.timestamp.Some? {
      var row := Opened(u, f, e.timestamp.value, e.fileHash, 0);
      AppendExtends(db1, row);
      EventExtends(WithSession(db1, row), FileEvent(|db1.sessions|, Moved, e.fileHash, e.timestamp.value));
      ExtendsTrans(db1, WithSession(db1, row), Reopened(db, u, e).0);
    }
  }

  lemma MovedStep(db: Db, e: Event)
    ensures var (db2, r) := FileMoved(db, e); Extends(db, db2) && LoggedOnce(db, db2, r, Some(Moved))
  {
    var (db1, u) := UserRow(db, e.username);
    LookupsExtend(db, e);
    var source := FindFile(db1.files, e.oldFilePath);
    if source.Some? && ActiveSessions(db1, u, source.value) != [] {
      RelocatedStep(db1, source.value, ActiveSessions(db1, u, source.value)[0], e);
    } else {
      ReopenedStep(db1, u, e);
      var db2 := CreateFileRow(db1, e.filePath, e.fileName).0;
      ExtendsTrans(db1, db2, FileMoved(db, e).0);
    }
    ExtendsTrans(db, db1, FileMoved(db, e).0);
  }

  /** The store after the lookups of a non-move event, and the ids found. */
  function Looked(db: Db, e: Event): (r: (Db, nat, nat))
  {
    var (db1, u) := UserRow(db, e.username);
    var (db2, f) := CreateFileRow(db1, e.filePath, e.fileName);
    (db2, u, f)
  }

  lemma LookedExtends(db: Db, e: Event)
    ensures var (db2, u, f) := Looked(db, e);
      Extends(db, db2) && db2.events == db.events && db2.sessions == db.sessions
      && u < |db2.users| && db2.users[u].username == e.username
      && f < |db2.files| && db2.files[f].path == e.filePath
  {
    var db1 := UserRow(db, e.username).0;
    LookupsExtend(db, e);
    ExtendsTrans(db, db1, Looked(db, e).0);
  }

  /** Every event leaves the store extended and logs at most one event row
      of its own type, exactly when the reply names a session. */
  lemma {:induction false} ProcessEventStep(db: Db, e: Event, now: int)
    ensures var (db2, r) := ProcessEvent(db, e, now);
      Extends(db, db2) && LoggedOnce(db, db2, r, Kind(e.eventType))
  {
    if e.eventType == "moved" {
      MovedStep(db, e);
    } else {
      var (db2, u, f) := Looked(db, e);
      LookedExtends(db, e);
      var (db3, r) := Dispatch(db2, u, f, e, now);
      assert ProcessEvent(db, e, now) == (db3, r);
      DispatchStep(db2, u, f, e, now);
      assert Extends(db2, db3) && LoggedOnce(db2, db3, r, Kind(e.eventType));
      ExtendsTrans(db, db2, db3);
    }
  }

  /** No handler writes `is_commented`: every existing session keeps its
      flag and every session a handler adds is uncommented. */
  lemma HandlersNeverComment(db: Db, e: Event, now: int)
    ensures var db2 := ProcessEvent(db, e, now).0;
      |db.sessions| <= |db2.sessions|
      && (forall i | 0 <= i < |db.sessions| :: db2.sessions[i].isCommented == db.sessions[i].isCommented)
      && (forall i | |db.sessions| <= i < |db2.sessions| :: !db2.sessions[i].isCommented)
      && db2.comments == db.comments
  {
    ProcessEventStep(db, e, now);
    var db2 := ProcessEvent(db, e, now).0;
    assert forall i | 0 <= i < |db.sessions| :: Keeps(db.sessions[i], db2.sessions[i]);
  }

  // ---------------------------------------------------------------------
  // One event row per handled event

  /** The event row type an event type name stands for. */
  function Kind(name: string): Option<EventType>
  {
    if name == "created" then Some(Created)
    else if name == "modified" then Some(Modified)
    else if name == "deleted" then Some(Deleted)
    else if name == "closed" then Some(Closed)
    else if name == "moved" then Some(Moved)
    else None
  }

  /** A reply naming a session comes with exactly one new event row of the
      event's type on that session; any other reply comes with none. */
  ghost predicate LoggedOnce(db: Db, db2: Db, r: Reply, kind: Option<EventType>)
  {
    (r.Done? || r.ClosedSession? ==>
       kind.Some? && |db2.events| == |db.events| + 1 && db.events <= db2.events
       && db2.events[|db.events|].sessionId == r.sessionId && db2.events[|db.events|].eventType == kind.value
       && r.sessionId < |db2.sessions|)
    && (r.NoSessionFound? || r.Failed? ==> db2.events == db.events)
  }

  /** Created, modified and deleted events that carry a timestamp always
      succeed and so always leave one event row. */
  lemma TimestampedEventsSucceed(db: Db, e: Event, now: int)
    requires e.eventType == "created" || e.eventType == "modified" || e.eventType == "deleted"
    requires e.timestamp.Some?
    ensures ProcessEvent(db, e, now).1.Done?
  {
  }

  /** A closed event writes iff the session it names exists; otherwise the
      store is unchanged and the reply is `no_session_found`. */
  lemma ClosedWritesIffFound(db: Db, e: Event, now: int)
    ensures var (db2, r) := FileClosed(db, e, now);
      (r.NoSessionFound? <==> GetFileSession(db, e.sessionId).None?)
      && (r.NoSessionFound? ==> db2 == db)
  {
  }

  /** A found session is closed at the event time, or at `now` if the event
      has none, and the reply's duration runs from its start to that time. */
  lemma ClosedStampsEnd(db: Db, e: Event, now: int)
    requires GetFileSession(db, e.sessionId).Some?
    ensures var (db2, r) := FileClosed(db, e, now);
      var s := e.sessionId.id;
      var ended := if e.timestamp.Some? then e.timestamp.value else now;
      r.ClosedSession? && r.sessionId == s && r.endedAt == ended
      && db2.sessions[s].endedAt == Some(ended) && r.duration == ended - db.sessions[s].startedAt
      && db2.events[|db.events|].timestamp == ended
  {
  }

  // ---------------------------------------------------------------------
  // Dispatch

  /** Every type but `moved` is dispatched after the user and the file are
      looked up or created, so both rows exist afterwards, whatever the
      outcome; an unknown type then fails without touching sessions or
      events. */
  lemma DispatchAfterLookup(db: Db, e: Event, now: int)
    requires e.eventType != "moved"
    ensures var (db2, r) := ProcessEvent(db, e, now);
      FindUser(db2.users, e.username).Some? && FindFile(db2.files, e.filePath).Some?
    ensures Kind(e.eventType).None? ==>
      var (db2, r) := ProcessEvent(db, e, now);
      r.Failed? && r.status == 500 && db2.sessions == db.sessions && db2.events == db.events
  {
    var (db2, u, f) := Looked(db, e);
    LookedExtends(db, e);
    DispatchStep(db2, u, f, e, now);
    var db3 := ProcessEvent(db, e, now).0;
    assert FindUser(db3.users, e.username).Some?;
    assert FindFile(db3.files, e.filePath).Some?;
  }

  /** A move is handled before any lookup of the new path: when the old
      path carries no active session of the user, the new path gets a file
      row (an existing one is reused) and a new session. */
  lemma MoveWithoutSessionOpensOne(db: Db, e: Event)
    requires e.eventType == "moved" && e.timestamp.Some?
    requires var (db1, u) := UserRow(db, e.username);
      var source := FindFile(db1.files, e.oldFilePath);
      source.None? || ActiveSessions(db1, u, source.value) == []
    ensures var (db2, r) := FileMoved(db, e);
      r.Done? && r.action == SessionCreated && r.sessionId == |db.sessions|
      && |db2.sessions| == |db.sessions| + 1
      && db2.sessions[r.sessionId].endedAt.None?
      && db2.files[db2.sessions[r.sessionId].fileId].path == e.filePath
  {
  }

  // ---------------------------------------------------------------------
  // Created, modified, deleted

  /** A created event on a (user, file) with an active session opens no new
      session: the most recent one takes the event time, its `hash_before`
      is replaced only by a non-empty hash, and its resume count is
      overwritten. */
  lemma CreatedRefreshesActive(db: Db, u: nat, f: nat, e: Event, now: int)
    requires ActiveSessions(db, u, f) != [] && e.timestamp.Some?
    ensures var (db2, r) := FileCreated(db, u, f, e, now);
      var s := ActiveSessions(db, u, f)[0];
      var prev := db.sessions[s];
      r == Done(SessionUpdated, s, Some(false)) && |db2.sessions| == |db.sessions|
      && db2.sessions[s].lastActivity == e.timestamp.value
      && db2.sessions[s].hashBefore == (if Truthy(e.fileHash) then e.fileHash else prev.hashBefore)
      && db2.sessions[s].resumeCount == e.resumeCount
      && db2.sessions[s].endedAt == prev.endedAt && db2.sessions[s].startedAt == prev.startedAt
      && (forall i | 0 <= i < |db.sessions| && i != s :: db2.sessions[i] == db.sessions[i])
  {
  }

  /** Without an active session, a created event resumes only when the
      agent reports a resume and a session of the pair closed within the
      hour; the resumed session is reopened at the event time. */
  lemma CreatedResumesOnlyWhenCounted(db: Db, u: nat, f: nat, e: Event, now: int)
    requires ActiveSessions(db, u, f) == [] && e.timestamp.Some?
    ensures var (db2, r) := FileCreated(db, u, f, e, now);
      r.Done? && r.action == SessionCreated
      && (r.resumed == Some(true) <==> e.resumeCount > 0 && RecentClosed(db, u, f, now).Some?)
      && (r.resumed == Some(true) ==>
            r.sessionId < |db.sessions| && |db2.sessions| == |db.sessions|
            && ClosedSince(db.sessions[r.sessionId], u, f, now - 3600)
            && db2.sessions[r.sessionId].endedAt.None?
            && db2.sessions[r.sessionId].lastActivity == e.timestamp.value)
      && (r.resumed == Some(false) ==>
            db2.sessions == db.sessions + [Opened(u, f, e.timestamp.value, e.fileHash, e.resumeCount)])
  {
  }

  /** A modified event never changes any `ended_at`, only ever raises a
      resume count, and adds a session only when it found none. */
  lemma ModifiedKeepsEndings(db: Db, u: nat, f: nat, e: Event)
    ensures var (db2, r) := FileModified(db, u, f, e);
      |db.sessions| <= |db2.sessions| <= |db.sessions| + 1
      && (forall i | 0 <= i < |db.sessions| ::
            db2.sessions[i].endedAt == db.sessions[i].endedAt
            && db2.sessions[i].resumeCount >= db.sessions[i].resumeCount)
      && (|db2.sessions| > |db.sessions| ==>
            Target(db, u, f, e.sessionId).None? && db2.sessions[|db.sessions|].endedAt.None?)
  {
  }

  /** A modified event naming a closed session by id updates that session
      and leaves it closed. */
  lemma ModifiedTouchesClosedById(db: Db, u: nat, f: nat, e: Event)
    requires GetFileSession(db, e.sessionId).Some? && e.timestamp.Some?
    requires db.sessions[e.sessionId.id].endedAt.Some?
    ensures var (db2, r) := FileModified(db, u, f, e);
      r == Done(SessionUpdated, e.sessionId.id, None)
      && db2.sessions[e.sessionId.id].endedAt == db.sessions[e.sessionId.id].endedAt
      && db2.sessions[e.sessionId.id].lastActivity == e.timestamp.value
  {
  }

  /** The intended standalone deletion: the new session starts, was last
      active and ends at the event time, and the pair still has no active session. */
  lemma StandaloneDeletionIsClosed(db: Db, u: nat, f: nat, e: Event)
    requires Target(db, u, f, e.sessionId).None? && e.timestamp.Some?
    ensures var (db2, r) := FileDeleted(db, u, f, e);
      var s := |db.sessions|;
      var ts := e.timestamp.value;
      r == Done(DeletedEventCreated, s, None) && |db2.sessions| == s + 1
      && db2.sessions[s].startedAt == ts && db2.sessions[s].lastActivity == ts && db2.sessions[s].endedAt == Some(ts)
      && ActiveSessions(db2, u, f) == []
  {
    var db2 := FileDeleted(db, u, f, e).0;
    NoActiveAfterAppend(db, db2, u, f);
  }

  /** The deletion as written: the standalone session is stored open and
      becomes the pair's only active session. */
  lemma StandaloneDeletionStaysActive(db: Db, u: nat, f: nat, e: Event)
    requires Target(db, u, f, e.sessionId).None? && e.timestamp.Some?
    ensures var (db2, r) := FileDeletedAsWritten(db, u, f, e);
      var s := |db.sessions|;
      r == Done(DeletedEventCreated, s, None) && db2.sessions[s].endedAt.None?
      && ActiveSessions(db2, u, f) == [s]
  {
    var db2 := FileDeletedAsWritten(db, u, f, e).0;
    OnlyActiveAfterAppend(db, db2, u, f);
  }

  /** Appending an active row to a pair with no active session makes that
      row the pair's only active session. */
  lemma OnlyActiveAfterAppend(db: Db, db2: Db, u: nat, f: nat)
    requires ActiveSessions(db, u, f) == []
    requires |db2.sessions| == |db.sessions| + 1 && db.sessions <= db2.sessions
    requires ActiveFor(db2.sessions[|db.sessions|], u, f)
    ensures ActiveSessions(db2, u, f) == [|db.sessions|]
  {
    var s := |db.sessions|;
    var p := (x: FileSession) => ActiveFor(x, u, f);
    var w: seq<nat> := Where(db.sessions, p, s);
    assert multiset(w) == multiset{} by {
      assert multiset(ActiveSessions(db, u, f)) == multiset(w);
    }
    assert w == [] by {
      assert |multiset(w)| == |w|;
    }
    WherePrefix(db.sessions, db2.sessions, p, s);
    assert Where(db2.sessions, p, s + 1) == [s];
  }

  /** `Where` over the first `n` rows looks at nothing beyond them. */
  lemma {:induction false} WherePrefix(a: seq<FileSession>, b: seq<FileSession>, p: FileSession -> bool, n: nat)
    requires n <= |a| && n <= |b| && a[..n] == b[..n]
    ensures Where(a, p, n) == Where(b, p, n)
  {
    if n > 0 {
      assert a[..n - 1] == b[..n - 1] by {
        assert a[..n - 1] == a[..n][..n - 1] && b[..n - 1] == b[..n][..n - 1];
      }
      assert a[n - 1] == a[..n][n - 1] && b[n - 1] == b[..n][n - 1];
      WherePrefix(a, b, p, n - 1);
    }
  }

  /** Appending a closed session keeps a pair without active sessions so. */
  lemma NoActiveAfterAppend(db: Db, db2: Db, u: nat, f: nat)
    requires ActiveSessions(db, u, f) == []
    requires |db2.sessions| == |db.sessions| + 1 && db.sessions <= db2.sessions
    requires db2.sessions[|db.sessions|].endedAt.Some?
    ensures ActiveSessions(db2, u, f) == []
  {
    ActiveSessionsSpec(db, u, f);
    ActiveSessionsSpec(db2, u, f);
    forall i: nat | i < |db.sessions| ensures !ActiveFor(db2.sessions[i], u, f) {
      assert db2.sessions[i] == db.sessions[i];
    }
  }

  // ---------------------------------------------------------------------
  // At most one active session per user and file

  predicate Live(s: FileSession) { s.endedAt.None? }

  /** No two open sessions share a user and a file. */
  ghost predicate OneActive(sessions: seq<FileSession>)
  {
    forall i, j | 0 <= i < j < |sessions| ::
      !(Live(sessions[i]) && ActiveFor(sessions[j], sessions[i].userId, sessions[i].fileId))
  }

  /** Editing a session in place without reopening it keeps the invariant. */
  lemma UpdateKeepsOne(db: Db, s: nat, row: FileSession)
    requires OneActive(db.sessions) && s < |db.sessions|
    requires row.userId == db.sessions[s].userId && row.fileId == db.sessions[s].fileId
    requires Live(row) ==> Live(db.sessions[s])
    ensures OneActive(Update(db, s, row).sessions)
  {
  }

  /** Opening a session on a pair with no active session keeps the
      invariant, whether it reopens a row or adds one. */
  lemma ReopenKeepsOne(db: Db, s: nat, row: FileSession)
    requires OneActive(db.sessions) && s < |db.sessions|
    requires ActiveSessions(db, row.userId, row.fileId) == []
    ensures OneActive(Update(db, s, row).sessions)
  {
    ActiveSessionsSpec(db, row.userId, row.fileId);
    var t := Update(db, s, row).sessions;
    forall i, j | 0 <= i < j < |t| ensures !(Live(t[i]) && ActiveFor(t[j], t[i].userId, t[i].fileId)) {
      if i == s {
        assert !ActiveFor(db.sessions[j], row.userId, row.fileId);
      } else if j == s {
        assert !ActiveFor(db.sessions[i], row.userId, row.fileId);
      }
    }
  }

  lemma AppendKeepsOne(db: Db, row: FileSession)
    requires OneActive(db.sessions)
    requires Live(row) ==> ActiveSessions(db, row.userId, row.fileId) == []
    ensures OneActive(WithSession(db, row).sessions)
  {
    ActiveSessionsSpec(db, row.userId, row.fileId);
    var t := WithSession(db, row).sessions;
    forall i, j | 0 <= i < j < |t| ensures !(Live(t[i]) && ActiveFor(t[j], t[i].userId, t[i].fileId)) {
      if j == |db.sessions| && Live(row) {
        assert !ActiveFor(db.sessions[i], row.userId, row.fileId);
      }
    }
  }

  lemma CreatedKeepsOne(db: Db, u: nat, f: nat, e: Event, now: int)
    requires OneActive(db.sessions)
    ensures OneActive(FileCreated(db, u, f, e, now).0.sessions)
  {
    if e.timestamp.Some? {
      if ActiveSessions(db, u, f) != [] {
        CreatedOnActiveKeepsOne(db, u, f, e, now);
      } else {
        CreatedOnIdleKeepsOne(db, u, f, e, now);
      }
    }
  }

  /** Touching the open session leaves it the only one. */
  lemma CreatedOnActiveKeepsOne(db: Db, u: nat, f: nat, e: Event, now: int)
    requires OneActive(db.sessions) && e.timestamp.Some? && ActiveSessions(db, u, f) != []
    ensures OneActive(FileCreated(db, u, f, e, now).0.sessions)
  {
    var s := ActiveSessions(db, u, f)[0];
    var prev := db.sessions[s];
    var row := prev.(lastActivity := e.timestamp.value,
                     hashBefore := if Truthy(e.fileHash) then e.fileHash else prev.hashBefore,
                     resumeCount := e.resumeCount);
    UpdateKeepsOne(db, s, row);
  }

  /** Reopening a recent session or appending one, when none is open, leaves
      one open session. */
  lemma CreatedOnIdleKeepsOne(db: Db, u: nat, f: nat, e: Event, now: int)
    requires OneActive(db.sessions) && e.timestamp.Some? && ActiveSessions(db, u, f) == []
    ensures OneActive(FileCreated(db, u, f, e, now).0.sessions)
  {
    var ts := e.timestamp.value;
    var recent := if e.resumeCount > 0 then RecentClosed(db, u, f, now) else None;
    if recent.Some? {
      var s := recent.value;
      ReopenKeepsOne(db, s, db.sessions[s].(endedAt := None, lastActivity := ts,
                                            resumeCount := e.resumeCount, hashBefore := e.fileHash));
    } else {
      AppendKeepsOne(db, Opened(u, f, ts, e.fileHash, e.resumeCount));
    }
  }

  lemma ModifiedKeepsOne(db: Db, u: nat, f: nat, e: Event)
    requires OneActive(db.sessions)
    ensures OneActive(FileModified(db, u, f, e).0.sessions)
  {
    if e.timestamp.Some? {
      var ts := e.timestamp.value;
      match Target(db, u, f, e.sessionId)
      case Some(s) =>
        var prev := db.sessions[s];
        UpdateKeepsOne(db, s, prev.(lastActivity := ts,
                                    hashAfter := if Truthy(e.fileHash) then e.fileHash else prev.hashAfter,
                                    resumeCount := if e.resumeCount > prev.resumeCount then e.resumeCount else prev.resumeCount));
      case None =>
        AppendKeepsOne(db, Opened(u, f, ts, e.fileHash, e.resumeCount));
    }
  }

  /** Both the deletion as written and the corrected one keep `OneActive`:
      the standalone row is only added when the pair has no active session. */
  lemma DeletedKeepsOne(db: Db, u: nat, f: nat, e: Event, standaloneClosed: bool)
    requires OneActive(db.sessions)
    ensures OneActive(Deletion(db, u, f, e, standaloneClosed).0.sessions)
  {
    if e.timestamp.Some? {
      var ts := e.timestamp.value;
      match Target(db, u, f, e.sessionId)
      case Some(s) =>
        UpdateKeepsOne(db, s, db.sessions[s].(endedAt := Some(ts)));
      case None =>
        AppendKeepsOne(db, FileSession(u, f, ts, ts, if standaloneClosed then Some(ts) else None, None, None, false, 0));
    }
  }

  lemma ClosedKeepsOne(db: Db, e: Event, now: int)
    requires OneActive(db.sessions)
    ensures OneActive(FileClosed(db, e, now).0.sessions)
  {
    match GetFileSession(db, e.sessionId)
    case None =>
    case Some(s) =>
      var ended := if e.timestamp.Some? then e.timestamp.value else now;
      var prev := db.sessions[s];
      UpdateKeepsOne(db, s, prev.(endedAt := Some(ended),
                                  hashAfter := if Truthy(e.fileHash) then e.fileHash else prev.hashAfter));
  }

  /** Created, modified, deleted and closed events (and unknown types) never
      leave two open sessions on one user and file. */
  lemma {:induction false} ProcessEventKeepsOne(db: Db, e: Event, now: int)
    requires OneActive(db.sessions) && e.eventType != "moved"
    ensures OneActive(ProcessEvent(db, e, now).0.sessions)
  {
    var (db2, u, f) := Looked(db, e);
    LookedExtends(db, e);
    if e.eventType == "created" {
      CreatedKeepsOne(db2, u, f, e, now);
    } else if e.eventType == "modified" {
      ModifiedKeepsOne(db2, u, f, e);
    } else if e.eventType == "deleted" {
      DeletedKeepsOne(db2, u, f, e, false);
    } else if e.eventType == "closed" {
      ClosedKeepsOne(db2, e, now);
    }
  }

  /** A move onto a path whose file already has the user's open session,
      from a path with none, opens a second session on that file. */
  lemma MoveCanOpenSecondSession()
    ensures var db := Db([User("ann", Some("ann@example.com"))], [File("b.docx", "b.docx")],
                         [FileSession(0, 0, 10, 10, None, None, None, false, 0)], [], []);
      var e := Event("moved", "b.docx", "b.docx", "ann", "a.docx", None, NoSessionId, 0, Some(20));
      OneActive(db.sessions) && !OneActive(FileMoved(db, e).0.sessions)
  {
    var db := Db([User("ann", Some("ann@example.com"))], [File("b.docx", "b.docx")],
                 [FileSession(0, 0, 10, 10, None, None, None, false, 0)], [], []);
    var e := Event("moved", "b.docx", "b.docx", "ann", "a.docx", None, NoSessionId, 0, Some(20));
    assert FindUser(db.users, "ann") == Some(0);
    assert FindFile(db.files, "a.docx") == None by {
      assert db.files[0].path != "a.docx" by { assert db.files[0].path[0] != "a.docx"[0]; }
    }
    assert FindFile(db.files, "b.docx") == Some(0);
    var t := FileMoved(db, e).0.sessions;
    assert t == db.sessions + [Opened(0, 0, 20, None, 0)];
    assert Live(t[0]) && ActiveFor(t[1], t[0].userId, t[0].fileId);
  }

  // ---------------------------------------------------------------------
  // Integrity of the store

  /** A handler step that keeps the user and file tables, adds sessions only
      for known rows and logs at most one event keeps the store valid. */
  lemma ValidAfterStep(db: Db, db2: Db, r: Reply, kind: Option<EventType>, u: nat, f: nat)
    requires Valid(db) && u < |db.users| && f < |db.files|
    requires StepOk(db, db2, r, kind, u, f)
    ensures Valid(db2)
  {
    assert forall i | 0 <= i < |db.sessions| :: Keeps(db.sessions[i], db2.sessions[i]);
    forall i | 0 <= i < |db2.events| ensures db2.events[i].sessionId < |db2.sessions| {
      if i < |db.events| {
        assert db2.events[i] == db.events[i];
      }
    }
  }

  lemma UserRowValid(db: Db, username: string)
    requires Valid(db)
    ensures Valid(UserRow(db, username).0)
  {
    var db1 := UserRow(db, username).0;
    if FindUser(db.users, username).None? {
      assert forall i | 0 <= i < |db.users| :: db1.users[i] == db.users[i];
    }
  }

  lemma FileRowValid(db: Db, path: string, name: string)
    requires Valid(db)
    ensures Valid(CreateFileRow(db, path, name).0)
  {
    var db1 := CreateFileRow(db, path, name).0;
    if FindFile(db.files, path).None? {
      assert forall i | 0 <= i < |db.files| :: db1.files[i] == db.files[i];
    }
  }

  /** Every event but a move keeps the store valid. */
  lemma {:induction false} ProcessEventKeepsValid(db: Db, e: Event, now: int)
    requires Valid(db) && e.eventType != "moved"
    ensures Valid(ProcessEvent(db, e, now).0)
  {
    var (db2, u, f) := Looked(db, e);
    LookedExtends(db, e);
    UserRowValid(db, e.username);
    FileRowValid(UserRow(db, e.username).0, e.filePath, e.fileName);
    DispatchStep(db2, u, f, e, now);
    var (db3, r) := Dispatch(db2, u, f, e, now);
    ValidAfterStep(db2, db3, r, Kind(e.eventType), u, f);
  }

  /** A move keeps the store valid too: the rename is refused when another
      file holds the new path. */
  lemma {:induction false} MovedKeepsValid(db: Db, e: Event)
    requires Valid(db)
    ensures Valid(FileMoved(db, e).0)
  {
    var (db1, u) := UserRow(db, e.username);
    UserRowValid(db, e.username);
    var source := FindFile(db1.files, e.oldFilePath);
    if source.Some? && ActiveSessions(db1, u, source.value) != [] {
      RelocatedKeepsValid(db1, source.value, ActiveSessions(db1, u, source.value)[0], e);
    } else {
      ReopenedStep(db1, u, e);
      FileRowValid(db1, e.filePath, e.fileName);
      var (db2, f) := CreateFileRow(db1, e.filePath, e.fileName);
      var (db3, r) := Reopened(db1, u, e);
      ValidAfterStep(db2, db3, r, Some(Moved), u, f);
    }
  }

  lemma RelocatedKeepsValid(db: Db, fileId: nat, s: nat, e: Event)
    requires Valid(db) && fileId < |db.files| && s < |db.sessions|
    ensures Valid(Relocated(db, fileId, s, e).0)
  {
    var taken := FindFile(db.files, e.filePath);
    if !(taken.Some? && taken.value != fileId) {
      var db1 := db.(files := db.files[fileId := File(e.filePath, e.fileName)]);
      assert UniquePaths(db1.files) by {
        forall i, j | 0 <= i < j < |db1.files| ensures db1.files[i].path != db1.files[j].path {
          if i != fileId && j != fileId {
            assert db1.files[i] == db.files[i] && db1.files[j] == db.files[j];
          }
        }
      }
      assert Valid(db1);
      RelocatedStep(db, fileId, s, e);
      var (db2, r) := Relocated(db, fileId, s, e);
      if e.timestamp.Some? {
        ValidAfterStep(db1, db2, r, Some(Moved), db.sessions[s].userId, db.sessions[s].fileId);
      }
    }
  }
}
