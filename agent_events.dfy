/** The agent's event handler: it turns raw file-system events into updates
    of the local session table and into messages for the central service.
    Everything the handler asks the operating system — whether a path
    exists, its owner, the processes holding it, its hash — and whether the
    service accepted a message is read from a `World` snapshot passed in with
    each call, together with the current time `now` in whole seconds. */
module AgentEvents {
  import opened Base
  import opened SessionTable
  import opened FileClassifier

  datatype EventKind = Created | Modified | Deleted | Moved | Closed | Unknown

  /** A process as the process table lists it, with the files it holds open. */
  datatype Proc = Proc(pid: int, name: string, username: string, openFiles: seq<string>)

  /** A process recorded as holding a tracked file (user name normalised). */
  datatype Holder = Holder(pid: int, name: string, username: string)

  /** An `open_files` entry. */
  datatype OpenFile = OpenFile(
    username: string, processes: seq<Holder>, lastActivity: int, lastChecked: int, eventType: EventKind)

  /** What the operating system and the service answer during one call. */
  datatype World = World(
    existing: set<string>,          // os.path.exists
    regularFiles: set<string>,      // os.path.isfile
    sizes: map<string, int>,        // os.path.getsize, where it succeeds
    procs: seq<Proc>,               // the process table
    owners: map<string, string>,    // "DOMAIN\\name" owner, where the lookup succeeds
    hashes: map<string, string>,    // the hash calculator's answer, where it gives one
    currentUser: string,            // getpass.getuser()
    sendOk: bool)                   // the API client's answer

  function HashOf(w: World, path: string): Option<string>
  {
    if path in w.hashes then Some(w.hashes[path]) else None
  }

  function SizeOf(w: World, path: string): Option<int>
  {
    if path in w.sizes then Some(w.sizes[path]) else None
  }

  /** Messages sent to the central service. */
  datatype OutEvent =
    | CreatedOut(path: string, name: string, hash: Option<string>, user: string,
                 sessionId: nat, resumeCount: int, timestamp: int)
    | ModifiedOut(path: string, name: string, hash: Option<string>, user: string,
                  sessionId: nat, resumeCount: int, timestamp: int)
    | DeletedOut(path: string, name: string, user: string, sessionId: nat, resumeCount: int, timestamp: int)
    | MovedOut(path: string, name: string, oldPath: string, oldName: string, hash: Option<string>,
               user: string, timestamp: int)
    | ClosedOut(path: string, name: string, hash: Option<string>, user: string,
                sessionId: nat, resumeCount: int, duration: int, timestamp: int)

  datatype Stats = Stats(
    eventsProcessed: nat, eventsFailed: nat, sessionsCreated: nat, sessionsResumed: nat,
    filesClosed: nat, filesDeleted: nat, expiredSessions: nat)

  /** How a handler ended: with a result, or by raising an exception. */
  datatype Outcome = Done(ok: bool) | Raised

  const GraceSeconds: int := 5
  const OpenCheckIntervalSeconds: int := 30
  const TempMarkers: seq<string> := ["~wr", "~$", ".tmp", ".temp"]

  // ---------------------------------------------------------------------
  // Pure rules

  /** `_normalize_username`: the current user for an empty name, the part
      after the last backslash of a `DOMAIN\name`, any other name as is. */
  function NormalizeUsername(u: string, current: string): (r: string)
    ensures u == [] ==> r == current
    ensures u != [] && '\\' !in u ==> r == u
    ensures '\\' in u ==> r == AfterLast(u, '\\')
  {
    if u == [] then current
    else if '\\' in u then
      var parts := Split(u, '\\');
      SplitLast(u, '\\');
      parts[|parts| - 1]
    else u
  }

  /** A normalised name holds no backslash, so, if not empty, it normalises
      to itself. */
  lemma NormalizeUsernameIdempotent(u: string, current: string)
    requires '\\' !in current
    requires NormalizeUsername(u, current) != []
    ensures '\\' !in NormalizeUsername(u, current)
    ensures NormalizeUsername(NormalizeUsername(u, current), current) == NormalizeUsername(u, current)
  {
  }

  /** `_is_temporary_file`: the lower-cased base name holds one of the
      temporary markers. */
  predicate IsTemporaryFile(path: string)
  {
    exists i | 0 <= i < |TempMarkers| :: Contains(Lower(BaseName(path)), TempMarkers[i])
  }

  /** `_is_temporary_operation`. */
  predicate IsTemporaryOperation(src: string, dest: string)
  {
    IsTemporaryFile(src) || IsTemporaryFile(dest)
  }

  /** An Office lock file is a temporary operation whichever end it is on. */
  lemma OwnerFileMoveIsTemporary(src: string, dest: string)
    requires |BaseName(dest)| >= 2 && BaseName(dest)[..2] == "~$"
    ensures IsTemporaryOperation(src, dest)
  {
    var n := Lower(BaseName(dest));
    assert n[0..2] == "~$";
    assert OccursAt(n, TempMarkers[1], 0);
  }

  /** `_get_file_modifier_safe` with `_get_file_modifier`: the current user
      for a missing or temporary file or a failed owner lookup, else the
      owner as `DOMAIN\name`. */
  function FileModifier(w: World, path: string): (r: string)
    ensures path !in w.existing || IsTemporaryFile(path) || path !in w.owners ==> r == w.currentUser
  {
    if path !in w.existing || IsTemporaryFile(path) then w.currentUser
    else if path in w.owners then w.owners[path]
    else w.currentUser
  }

  /** The processes of `procs` that hold `path` open, compared without case,
      as `_get_processes_using_file` lists them. */
  function Holding(procs: seq<Proc>, path: string, current: string): seq<Holder>
  {
    if procs == [] then []
    else
      var front := Holding(procs[..|procs| - 1], path, current);
      var p := procs[|procs| - 1];
      if HoldsPath(p, path)
      then front + [Holder(p.pid, p.name, NormalizeUsername(p.username, current))]
      else front
  }

  predicate HoldsPath(p: Proc, path: string)
  {
    exists j | 0 <= j < |p.openFiles| :: Lower(p.openFiles[j]) == Lower(path)
  }

  /** Nobody holds the file exactly when no process lists it. */
  lemma {:induction false} HoldingEmpty(procs: seq<Proc>, path: string, current: string)
    ensures Holding(procs, path, current) == [] <==> forall i | 0 <= i < |procs| :: !HoldsPath(procs[i], path)
  {
    if procs != [] {
      HoldingEmpty(procs[..|procs| - 1], path, current);
      assert forall i | 0 <= i < |procs| - 1 :: procs[..|procs| - 1][i] == procs[i];
    }
  }

  /** `_get_processes_using_file`. */
  method ProcessesUsingFile(w: World, path: string) returns (r: seq<Holder>)
    ensures r == Holding(w.procs, path, w.currentUser)
  {
    r := [];
    var i := 0;
    while i < |w.procs|
      invariant 0 <= i <= |w.procs|
      invariant r == Holding(w.procs[..i], path, w.currentUser)
    {
      var p := w.procs[i];
      var j := 0;
      var found := false;
      while j < |p.openFiles| && !found
        invariant 0 <= j <= |p.openFiles|
        invariant found ==> HoldsPath(p, path)
        invariant !found ==> forall m | 0 <= m < j :: Lower(p.openFiles[m]) != Lower(path)
      {
        if Lower(p.openFiles[j]) == Lower(path) {
          found := true;
        }
        j := j + 1;
      }
      assert w.procs[..i + 1][..i] == w.procs[..i];
      if found {
        r := r + [Holder(p.pid, p.name, NormalizeUsername(p.username, w.currentUser))];
      }
      i := i + 1;
    }
    assert w.procs[..i] == w.procs;
  }

  /** The message `_handle_file_closed` sends for a closed record: stamped
      with the record's end time, its duration measured from its start. */
  function ClosedMessage(path: string, user: string, hash: Option<string>, s: LocalSession, now: int)
    : (e: OutEvent)
    ensures e.ClosedOut? && e.path == path && e.user == user && e.hash == hash
    ensures s.endedAt.Some? ==> e.timestamp == s.endedAt.value
    ensures e.duration == e.timestamp - s.startedAt
    ensures e.sessionId == s.sessionId && e.resumeCount == s.resumeCount
  {
    var ended := match s.endedAt case Some(t) => t case None => now;
    ClosedOut(path, BaseName(path), hash, user, s.sessionId, s.resumeCount, ended - s.startedAt, ended)
  }

  /** The hash `handle_file_event` computes: none for deletions, when hashing
      is off, for temporary names and for missing files. */
  function EventHash(kind: EventKind, path: string, w: World, hashingEnabled: bool): Option<string>
  {
    if kind != Deleted && hashingEnabled && !IsTemporaryFile(path) && path in w.existing
    then HashOf(w, path) else None
  }

  /** The final hash taken before a session is closed for a file that is no
      longer open. */
  function ClosingHash(path: string, w: World, hashingEnabled: bool): Option<string>
  {
    if path in w.existing && hashingEnabled then HashOf(w, path) else None
  }

  /** The user an event is attributed to: the file's modifier, normalised. */
  function EventUser(w: World, path: string): string
  {
    NormalizeUsername(FileModifier(w, path), w.currentUser)
  }

  /** The messages `_handle_file_closed` sends for the pair: one closed
      message when it had an active session, none otherwise. */
  function ClosedReport(t: TableState, path: string, user: string, hash: Option<string>, now: int)
    : (r: seq<OutEvent>)
    ensures |r| == (if Key(path, user) in t.active then 1 else 0)
    ensures forall e | e in r :: e.ClosedOut? && e.path == path && e.user == user && e.hash == hash
  {
    var k := Key(path, user);
    if k in t.active then [ClosedMessage(path, user, hash, CloseRecord(t.active[k], hash, now), now)] else []
  }

  /** The message `_handle_file_created` or `_handle_file_modified` sends
      for the session `s`. */
  function ChangeMessage(kind: EventKind, path: string, hash: Option<string>, user: string, s: LocalSession,
                         now: int): (e: OutEvent)
    requires kind == Created || kind == Modified
    ensures kind == Created <==> e.CreatedOut?
    ensures e.CreatedOut? || e.ModifiedOut?
    ensures e.path == path && e.hash == hash && e.user == user && e.timestamp == now
    ensures e.sessionId == s.sessionId && e.resumeCount == s.resumeCount
  {
    if kind == Created then CreatedOut(path, BaseName(path), hash, user, s.sessionId, s.resumeCount, now)
    else ModifiedOut(path, BaseName(path), hash, user, s.sessionId, s.resumeCount, now)
  }

  /** What a creation or modification that passed the filter leaves behind,
      given the tracked files `files0`, the renames `renames0` and the
      outbox length `sent0` before it: a file some process holds is tracked
      as opened now by the event's user; a creation on a rename target is
      accepted silently; otherwise the pair has an active session and the
      last message sent reports the event with that session's identifier. */
  ghost predicate ChangeReported(kind: EventKind, path: string, w: World, hashingEnabled: bool,
                                 hasProcessTable: bool, now: int, files0: map<string, OpenFile>,
                                 renames0: map<string, string>, sent0: nat, ok: bool,
                                 files: map<string, OpenFile>, active: map<Key, LocalSession>,
                                 sent: seq<OutEvent>)
    requires kind == Created || kind == Modified
  {
    var user := EventUser(w, path);
    var k := Key(path, user);
    var holders := Holding(w.procs, path, w.currentUser);
    && (hasProcessTable && holders != [] ==> files == files0[path := OpenFile(user, holders, now, now, kind)])
    && (kind == Created && path in renames0.Values ==> ok)
    && (kind == Modified || path !in renames0.Values ==>
          && ok == w.sendOk && k in active
          && |sent| > sent0
          && sent[|sent| - 1] == ChangeMessage(kind, path, EventHash(kind, path, w, hashingEnabled), user, active[k], now))
  }

  /** What `_handle_file_created` leaves behind, from the renames `renames`,
      the tables `t0`, the counters `stats0` and the outbox `sent0`; `live`
      says whether the pair had a live session.  A path that was ever the
      target of a rename is ignored; otherwise the pair gets its session,
      the creation is counted as a resumption or a new session, and a
      created message carrying the session's identifier is sent. */
  ghost predicate Creation(path: string, user: string, hash: Option<string>, w: World, now: int, live: bool,
                           renames: map<string, string>, t0: TableState, stats0: Stats, sent0: seq<OutEvent>,
                           ok: bool, t: TableState, stats: Stats, sent: seq<OutEvent>)
    requires live ==> Key(path, user) in t0.active
  {
    if path in renames.Values then ok && t == t0 && stats == stats0 && sent == sent0
    else
      var r := SmartCreateResult(t0, path, user, hash, now, live);
      && t == r.1
      && sent == sent0 + [CreatedOut(path, BaseName(path), hash, user, r.0.sessionId, r.0.resumeCount, now)]
      && ok == w.sendOk
      && stats == if r.0.resumeCount > 0
                  then stats0.(sessionsResumed := stats0.sessionsResumed + 1)
                  else stats0.(sessionsCreated := stats0.sessionsCreated + 1)
  }

  /** What the dispatcher relies on after a creation. */
  lemma CreationFacts(path: string, user: string, hash: Option<string>, w: World, now: int, live: bool,
                      renames: map<string, string>, t0: TableState, stats0: Stats, sent0: seq<OutEvent>,
                      ok: bool, t: TableState, stats: Stats, sent: seq<OutEvent>)
    requires live ==> Key(path, user) in t0.active
    requires Creation(path, user, hash, w, now, live, renames, t0, stats0, sent0, ok, t, stats, sent)
    ensures stats.eventsProcessed == stats0.eventsProcessed && stats.eventsFailed == stats0.eventsFailed
    ensures path in renames.Values ==> ok && sent == sent0
    ensures path !in renames.Values ==>
      && ok == w.sendOk && Key(path, user) in t.active
      && |sent| == |sent0| + 1
      && sent[|sent| - 1] == ChangeMessage(Created, path, hash, user, t.active[Key(path, user)], now)
  {
  }

  /** What `_update_open_file_tracking` leaves behind, as (tracked files,
      counters, tables, outbox), from the tracked files `files0`, the
      counters `stats0`, the tables `t0` and the outbox `sent0`.  A file some
      process holds is (re)recorded as opened now.  A recorded file nobody
      holds any more is closed, reported, dropped and counted once more than
      the grace period has passed since its last activity, and otherwise
      only marked as checked.  Without a process table, or for an unrecorded
      file nobody holds, nothing changes. */
  function TrackedState(path: string, user: string, kind: EventKind, w: World, hashingEnabled: bool,
                        hasProcessTable: bool, now: int, files0: map<string, OpenFile>, stats0: Stats,
                        t0: TableState, sent0: seq<OutEvent>)
    : (map<string, OpenFile>, Stats, TableState, seq<OutEvent>)
  {
    var holders := Holding(w.procs, path, w.currentUser);
    if !hasProcessTable || (holders == [] && path !in files0) then
      (files0, stats0, t0, sent0)
    else if holders != [] then
      (files0[path := OpenFile(user, holders, now, now, kind)], stats0, t0, sent0)
    else
      var info := files0[path];
      if now - info.lastActivity > GraceSeconds then
        var hash := ClosingHash(path, w, hashingEnabled);
        (files0 - {path}, stats0.(filesClosed := stats0.filesClosed + 1),
         AfterClose(t0, Key(path, info.username), hash, now),
         sent0 + ClosedReport(t0, path, info.username, hash, now))
      else
        (files0[path := info.(lastChecked := now)], stats0, t0, sent0)
  }

  ghost predicate Tracked(path: string, user: string, kind: EventKind, w: World, hashingEnabled: bool,
                          hasProcessTable: bool, now: int, files0: map<string, OpenFile>, stats0: Stats,
                          t0: TableState, sent0: seq<OutEvent>, files: map<string, OpenFile>, stats: Stats,
                          t: TableState, sent: seq<OutEvent>)
  {
    (files, stats, t, sent)
      == TrackedState(path, user, kind, w, hashingEnabled, hasProcessTable, now, files0, stats0, t0, sent0)
  }

  /** What the handlers that run after tracking rely on. */
  lemma TrackedFacts(path: string, user: string, kind: EventKind, w: World, hashingEnabled: bool,
                     hasProcessTable: bool, now: int, files0: map<string, OpenFile>, stats0: Stats,
                     t0: TableState, sent0: seq<OutEvent>, files: map<string, OpenFile>, stats: Stats,
                     t: TableState, sent: seq<OutEvent>)
    requires Tracked(path, user, kind, w, hashingEnabled, hasProcessTable, now, files0, stats0, t0, sent0,
                     files, stats, t, sent)
    ensures stats.eventsProcessed == stats0.eventsProcessed && stats.eventsFailed == stats0.eventsFailed
    ensures |sent| >= |sent0|
    ensures hasProcessTable && Holding(w.procs, path, w.currentUser) != [] ==>
      files == files0[path := OpenFile(user, Holding(w.procs, path, w.currentUser), now, now, kind)]
  {
  }

  /** What `_handle_file_modified` leaves behind, from the tables `t0` and
      the outbox `sent0`; `live` says whether the pair had a live session:
      the pair gets its session and a modified message carrying the
      session's identifier is sent. */
  ghost predicate Modification(path: string, user: string, hash: Option<string>, w: World, now: int, live: bool,
                               t0: TableState, sent0: seq<OutEvent>, ok: bool, t: TableState, sent: seq<OutEvent>)
    requires live ==> Key(path, user) in t0.active
  {
    var r := SmartCreateResult(t0, path, user, hash, now, live);
    && t == r.1
    && sent == sent0 + [ModifiedOut(path, BaseName(path), hash, user, r.0.sessionId, r.0.resumeCount, now)]
    && ok == w.sendOk
  }

  /** The counters after `handle_file_event` counted one more event. */
  function CountEvent(stats: Stats): (r: Stats)
    ensures r.eventsProcessed == stats.eventsProcessed + 1
  {
    stats.(eventsProcessed := stats.eventsProcessed + 1)
  }

  /** The whole effect of a creation or modification that passed the filter,
      from the renames `renames`, the tracked files `files0`, the counters
      `stats0`, the tables `t0` and the outbox `sent0`: open-file tracking
      for the event's user, then the creation or modification handler with
      the event's hash, on the state tracking left.  The session timeouts
      decide whether the pair's session is still live at that point. */
  ghost predicate ChangeDone(kind: EventKind, path: string, w: World, hashingEnabled: bool, hasProcessTable: bool,
                             timeoutMinutes: int, maxSessionHours: int, now: int, renames: map<string, string>,
                             files0: map<string, OpenFile>, stats0: Stats, t0: TableState, sent0: seq<OutEvent>,
                             ok: bool, files: map<string, OpenFile>, stats: Stats, t: TableState,
                             sent: seq<OutEvent>)
    requires kind == Created || kind == Modified
  {
    var user := EventUser(w, path);
    var k := Key(path, user);
    var hash := EventHash(kind, path, w, hashingEnabled);
    var m := TrackedState(path, user, kind, w, hashingEnabled, hasProcessTable, now, files0, stats0, t0, sent0);
    var live := k in m.2.active && !Expired(m.2.active[k], now, timeoutMinutes, maxSessionHours);
    && files == m.0
    && (kind == Created ==> Creation(path, user, hash, w, now, live, renames, m.2, m.1, m.3, ok, t, stats, sent))
    && (kind == Modified ==> stats == m.1 && Modification(path, user, hash, w, now, live, m.2, m.3, ok, t, sent))
  }

  /** Tracking followed by the creation or modification handler, each as
      its own method states it, composes to `ChangeDone`. */
  lemma ChangeComposed(kind: EventKind, path: string, w: World, hashingEnabled: bool, hasProcessTable: bool,
                       timeoutMinutes: int, maxSessionHours: int, now: int, renames: map<string, string>,
                       files0: map<string, OpenFile>, stats0: Stats, t0: TableState, sent0: seq<OutEvent>,
                       mid: (map<string, OpenFile>, Stats, TableState, seq<OutEvent>), live: bool,
                       ok: bool, files: map<string, OpenFile>, stats: Stats, t: TableState,
                       sent: seq<OutEvent>)
    requires kind == Created || kind == Modified
    requires Tracked(path, EventUser(w, path), kind, w, hashingEnabled, hasProcessTable, now, files0, stats0,
                     t0, sent0, mid.0, mid.1, mid.2, mid.3)
    requires var k := Key(path, EventUser(w, path));
      live == (k in mid.2.active && !Expired(mid.2.active[k], now, timeoutMinutes, maxSessionHours))
    requires files == mid.0
    requires kind == Created ==>
      Creation(path, EventUser(w, path), EventHash(kind, path, w, hashingEnabled), w, now, live, renames,
               mid.2, mid.1, mid.3, ok, t, stats, sent)
    requires kind == Modified ==>
      stats == mid.1
      && Modification(path, EventUser(w, path), EventHash(kind, path, w, hashingEnabled), w, now, live,
                      mid.2, mid.3, ok, t, sent)
    ensures ChangeDone(kind, path, w, hashingEnabled, hasProcessTable, timeoutMinutes, maxSessionHours, now,
                       renames, files0, stats0, t0, sent0, ok, files, stats, t, sent)
  {
  }

  /** What a caller can read off a creation or modification: the event
      counters are untouched, a held file is tracked as opened now, and
      unless a creation hit a rename target the pair has an active session
      and the last message reports the event with that session. */
  lemma ChangeDoneReports(kind: EventKind, path: string, w: World, hashingEnabled: bool, hasProcessTable: bool,
                          timeoutMinutes: int, maxSessionHours: int, now: int, renames: map<string, string>,
                          files0: map<string, OpenFile>, stats0: Stats, t0: TableState, sent0: seq<OutEvent>,
                          ok: bool, files: map<string, OpenFile>, stats: Stats, t: TableState,
                          sent: seq<OutEvent>)
    requires kind == Created || kind == Modified
    requires ChangeDone(kind, path, w, hashingEnabled, hasProcessTable, timeoutMinutes, maxSessionHours, now,
                        renames, files0, stats0, t0, sent0, ok, files, stats, t, sent)
    ensures stats.eventsProcessed == stats0.eventsProcessed && stats.eventsFailed == stats0.eventsFailed
    ensures ChangeReported(kind, path, w, hashingEnabled, hasProcessTable, now, files0, renames, |sent0|,
                           ok, files, t.active, sent)
  {
    var user := EventUser(w, path);
    var k := Key(path, user);
    var hash := EventHash(kind, path, w, hashingEnabled);
    var m := TrackedState(path, user, kind, w, hashingEnabled, hasProcessTable, now, files0, stats0, t0, sent0);
    var live := k in m.2.active && !Expired(m.2.active[k], now, timeoutMinutes, maxSessionHours);
    TrackedFacts(path, user, kind, w, hashingEnabled, hasProcessTable, now, files0, stats0, t0, sent0,
                 m.0, m.1, m.2, m.3);
    if kind == Created {
      CreationFacts(path, user, hash, w, now, live, renames, m.2, m.1, m.3, ok, t, stats, sent);
    }
  }

  /** What `_handle_file_deleted` leaves behind for `user`'s file, with
      outcome `o`: the pair's session is always closed.  The source of a
      rename changes nothing else.  Otherwise the deletion is counted and
      the file no longer tracked as open; an active session is reported in
      a deleted message, and without one the handler raises. */
  ghost predicate DeleteHandled(path: string, user: string, w: World, now: int, renames: map<string, string>,
                                files0: map<string, OpenFile>, stats0: Stats, t0: TableState,
                                sent0: seq<OutEvent>, o: Outcome, files: map<string, OpenFile>, stats: Stats,
                                t: TableState, sent: seq<OutEvent>)
  {
    var k := Key(path, user);
    && t == AfterClose(t0, k, None, now)
    && (path in renames ==> o == Done(true) && files == files0 && stats == stats0 && sent == sent0)
    && (path !in renames ==>
          && files == files0 - {path}
          && stats == stats0.(filesDeleted := stats0.filesDeleted + 1)
          && (k !in t0.active ==> o == Raised && sent == sent0)
          && (k in t0.active ==>
                var rec := t0.active[k];
                && o == Done(w.sendOk)
                && sent == sent0 + [DeletedOut(path, BaseName(path), user, rec.sessionId, rec.resumeCount, now)]))
  }

  /** Dropping the file from tracking, then the deletion handler, with a
      raised handler counted as a failure, composes to `DeletionDone`. */
  lemma DeletionComposed(path: string, user: string, w: World, now: int, renames: map<string, string>,
                         files0: map<string, OpenFile>, stats0: Stats, t0: TableState, sent0: seq<OutEvent>,
                         o: Outcome, handled: Stats, ok: bool, files: map<string, OpenFile>, stats: Stats,
                         t: TableState, sent: seq<OutEvent>)
    requires DeleteHandled(path, user, w, now, renames, files0 - {path}, stats0, t0, sent0, o, files, handled,
                           t, sent)
    requires o.Done? ==> ok == o.ok && stats == handled
    requires o.Raised? ==> !ok && stats == handled.(eventsFailed := handled.eventsFailed + 1)
    ensures DeletionDone(path, user, w, now, renames, files0, stats0, t0, sent0, ok, files, stats, t, sent)
  {
    assert files0 - {path} - {path} == files0 - {path};
  }

  /** The whole effect of a deletion that passed the filter, for the event's
      user `user`: the file stops being tracked as open and the pair's
      session is closed.  The source of a rename is closed silently.
      Otherwise the deletion is counted; with an active session a deleted
      message reports it, and without one the handler raises, which counts
      as a failure. */
  ghost predicate DeletionDone(path: string, user: string, w: World, now: int, renames: map<string, string>,
                               files0: map<string, OpenFile>, stats0: Stats, t0: TableState, sent0: seq<OutEvent>,
                               ok: bool, files: map<string, OpenFile>, stats: Stats, t: TableState,
                               sent: seq<OutEvent>)
  {
    var k := Key(path, user);
    var counted := stats0.(filesDeleted := stats0.filesDeleted + 1);
    && files == files0 - {path}
    && t == AfterClose(t0, k, None, now)
    && (path in renames ==> ok && stats == stats0 && sent == sent0)
    && (path !in renames && k !in t0.active ==>
          !ok && sent == sent0 && stats == counted.(eventsFailed := counted.eventsFailed + 1))
    && (path !in renames && k in t0.active ==>
          var rec := t0.active[k];
          && ok == w.sendOk && stats == counted
          && sent == sent0 + [DeletedOut(path, BaseName(path), user, rec.sessionId, rec.resumeCount, now)])
  }

  /** The tables after a move of `user`'s file from `src` to `dest`: an
      active session on the old path is closed and a session is opened on
      the new path (a new session, not a transfer); with no session on the
      old path nothing changes. */
  function MovedTables(t0: TableState, src: string, dest: string, user: string, hash: Option<string>,
                       timeoutMinutes: int, maxSessionHours: int, now: int): (t: TableState)
    ensures Key(src, user) !in t0.active ==> t == t0
    ensures Key(src, user) in t0.active ==> Key(dest, user) in t.active
    ensures Key(src, user) in t0.active && src != dest ==> Key(src, user) !in t.active
  {
    var ks := Key(src, user);
    var kd := Key(dest, user);
    if ks !in t0.active then t0
    else
      var t' := AfterClose(t0, ks, None, now);
      var live := kd in t'.active && !Expired(t'.active[kd], now, timeoutMinutes, maxSessionHours);
      SmartCreateResult(t', dest, user, hash, now, live).1
  }

  /** The whole effect of `_handle_file_moved` for a move between two
      non-temporary names: the rename is remembered, an active session on
      the old path is closed and a session opened on the new path, and a
      moved message is sent. */
  ghost predicate MoveDone(src: string, dest: string, w: World, hashingEnabled: bool, timeoutMinutes: int,
                           maxSessionHours: int, now: int, renames0: map<string, string>, t0: TableState,
                           sent0: seq<OutEvent>, ok: bool, renames: map<string, string>, t: TableState,
                           sent: seq<OutEvent>)
  {
    var user := EventUser(w, dest);
    var hash := if hashingEnabled then HashOf(w, dest) else None;
    && renames == renames0[src := dest]
    && t == MovedTables(t0, src, dest, user, hash, timeoutMinutes, maxSessionHours, now)
    && sent == sent0 + [MovedOut(dest, BaseName(dest), src, BaseName(src), hash, user, now)]
    && ok == w.sendOk
  }

  // ---------------------------------------------------------------------
  // The periodic open-file check

  /** A tracked file the check closes: no process holds it and more than the
      grace period has passed since its last activity. */
  predicate Idle(files: map<string, OpenFile>, p: string, w: World, now: int)
    requires p in files
  {
    Holding(w.procs, p, w.currentUser) == [] && now - files[p].lastActivity > GraceSeconds
  }

  function IdleFiles(files: map<string, OpenFile>, w: World, now: int): (r: set<string>)
    ensures r <= files.Keys
  {
    set p | p in files && Idle(files, p, w, now)
  }

  /** The first pass of the check over one entry that stays tracked: the
      holder list is refreshed when someone holds the file, and the entry is
      marked as checked now. */
  function Recheck(info: OpenFile, holders: seq<Holder>, now: int): (r: OpenFile)
    ensures r.username == info.username && r.lastActivity == info.lastActivity
    ensures r.eventType == info.eventType && r.lastChecked == now
    ensures r.processes == if holders == [] then info.processes else holders
  {
    if holders == [] then info.(lastChecked := now)
    else info.(processes := holders, lastChecked := now)
  }

  /** The tracked files after the first pass: idle entries are left for the
      second pass, every other entry is rechecked. */
  function Rechecked(files: map<string, OpenFile>, w: World, now: int): (r: map<string, OpenFile>)
    ensures r.Keys == files.Keys
  {
    map p | p in files :: if Idle(files, p, w, now) then files[p] else Recheck(files[p], Holding(w.procs, p, w.currentUser), now)
  }

  /** The session keys the second pass closes, one per listed path. */
  function ClosedKeys(files: map<string, OpenFile>, order: seq<string>): set<Key>
    requires forall i | 0 <= i < |order| :: order[i] in files
  {
    set i | 0 <= i < |order| :: Key(order[i], files[order[i]].username)
  }

  /** The tables and the outbox after `_handle_file_closed` has run for
      each path of `order` in turn, with the user recorded for it in `files`,
      starting from the tables `t` and the outbox `sent`. */
  function CloseFold(t: TableState, sent: seq<OutEvent>, files: map<string, OpenFile>, order: seq<string>,
                     w: World, hashingEnabled: bool, now: int): (r: (TableState, seq<OutEvent>))
    requires forall i | 0 <= i < |order| :: order[i] in files
    ensures r.0.nextId == t.nextId
    ensures |sent| <= |r.1| <= |sent| + |order| && r.1[..|sent|] == sent
    ensures forall i | |sent| <= i < |r.1| :: r.1[i].ClosedOut?
  {
    if order == [] then (t, sent)
    else
      var front := order[..|order| - 1];
      var p := order[|order| - 1];
      var prev := CloseFold(t, sent, files, front, w, hashingEnabled, now);
      var user := files[p].username;
      var hash := ClosingHash(p, w, hashingEnabled);
      var report := ClosedReport(prev.0, p, user, hash, now);
      assert (prev.1 + report)[..|sent|] == prev.1[..|sent|];
      (AfterClose(prev.0, Key(p, user), hash, now), prev.1 + report)
  }

  /** The second pass leaves exactly the sessions of the closed paths out of
      the active table. */
  lemma {:induction false} CloseFoldActive(t: TableState, sent: seq<OutEvent>, files: map<string, OpenFile>, order: seq<string>,
                                           w: World, hashingEnabled: bool, now: int)
    requires forall i | 0 <= i < |order| :: order[i] in files
    ensures var r := CloseFold(t, sent, files, order, w, hashingEnabled, now);
      && r.0.active.Keys == t.active.Keys - ClosedKeys(files, order)
      && forall k | k in r.0.active :: r.0.active[k] == t.active[k]
  {
    if order != [] {
      var front := order[..|order| - 1];
      var p := order[|order| - 1];
      CloseFoldActive(t, sent, files, front, w, hashingEnabled, now);
      assert ClosedKeys(files, order) == ClosedKeys(files, front) + {Key(p, files[p].username)} by {
        assert forall i | 0 <= i < |front| :: order[i] == front[i];
      }
    }
  }

  /** `m` without the keys listed in `order`, removed one at a time. */
  ghost function Drop<K, V>(m: map<K, V>, order: seq<K>): map<K, V>
  {
    if order == [] then m else Drop(m, order[..|order| - 1]) - {order[|order| - 1]}
  }

  lemma {:induction false} DropListed<K, V>(m: map<K, V>, order: seq<K>, s: set<K>)
    requires Listed(order, s)
    ensures Drop(m, order) == m - s
  {
    if order != [] {
      var last := order[|order| - 1];
      DropListed(m, order[..|order| - 1], s - {last});
    }
  }

  // ---------------------------------------------------------------------
  // The API client's log

  /** The outbound side of the API client: every message handed to it, in
      order, and whether the service took it. */
  class ApiClient {
    var sent: seq<OutEvent>

    constructor()
      ensures sent == []
    {
      sent := [];
    }

    /** `send_event`. */
    method SendEvent(e: OutEvent, accepted: bool) returns (ok: bool)
      modifies this
      ensures sent == old(sent) + [e] && ok == accepted
    {
      sent := sent + [e];
      ok := accepted;
    }
  }

  // ---------------------------------------------------------------------
  // The handler

  class EventHandler {
    var openFiles: map<string, OpenFile>
    var fileRenames: map<string, string>
    var stats: Stats
    var lastOpenFilesCheck: int
    const sessions: SessionManager
    const validator: FileValidator
    const client: ApiClient
    const hashingEnabled: bool
    const hasProcessTable: bool   // psutil could be imported

    ghost predicate Valid()
      reads sessions, validator
    {
      sessions.Valid() && validator.Valid()
    }

    constructor(timeoutMinutes: int, maxSessionHours: int, ignorePatterns: seq<string>,
                ignoreExtensions: seq<string>, ignoreDirs: seq<string>,
                hashingEnabled: bool, hasProcessTable: bool, now: int)
      ensures Valid()
      ensures fresh(sessions) && fresh(validator) && fresh(client)
      ensures sessions.active == map[] && sessions.closed == map[] && client.sent == []
      ensures validator.ignorePatterns == ignorePatterns && validator.cache == map[]
      ensures openFiles == map[] && fileRenames == map[] && lastOpenFilesCheck == now
      ensures stats == Stats(0, 0, 0, 0, 0, 0, 0)
      ensures this.hashingEnabled == hashingEnabled && this.hasProcessTable == hasProcessTable
    {
      sessions := new SessionManager(timeoutMinutes, maxSessionHours);
      validator := new FileValidator(ignorePatterns, ignoreExtensions, ignoreDirs);
      client := new ApiClient();
      this.hashingEnabled := hashingEnabled;
      this.hasProcessTable := hasProcessTable;
      openFiles := map[];
      fileRenames := map[];
      stats := Stats(0, 0, 0, 0, 0, 0, 0);
      lastOpenFilesCheck := now;
    }

    /** `_should_process_file`: a vanished file on deletion or closure is
        judged by its name alone, anything else by `should_monitor_file`. */
    predicate ShouldProcess(path: string, kind: EventKind, w: World)
    {
      if (kind == Deleted || kind == Closed) && path !in w.existing then
        MonitoredByName(path, validator.ignorePatterns)
      else
        var c := Classify(BaseName(path), validator.ignorePatterns);
        path in w.regularFiles
        && (c == Temporary
            || (c == Main && PassesAdditionalChecks(path, SizeOf(w, path), validator.ignoreExtensions, validator.ignoreDirs)))
    }

    method ShouldProcessFile(path: string, kind: EventKind, w: World) returns (b: bool)
      requires Valid()
      modifies validator
      ensures Valid()
      ensures b == ShouldProcess(path, kind, w)
    {
      if (kind == Deleted || kind == Closed) && path !in w.existing {
        b := validator.ShouldMonitorFileByName(path);
        assert b == MonitoredByName(path, validator.ignorePatterns);
      } else {
        b := validator.ShouldMonitorFile(path, path in w.regularFiles, SizeOf(w, path));
      }
    }

    predicate IsMove(kind: EventKind, dest: string)
    {
      kind == Moved && dest != []
    }

    /** `handle_file_event`.  Every event is counted.  A move with a
        destination goes straight to the move handler; any other event on a
        file that is not monitored is accepted and ignored.  Otherwise the
        event is attributed to the file's modifier, open-file tracking is
        updated, and the event is dispatched by kind; closures and unknown
        kinds are refused.  A handler that raises counts as a failure. */
    method HandleFileEvent(kind: EventKind, path: string, dest: string, w: World, now: int) returns (ok: bool)
      requires Valid()
      modifies this, sessions, validator, client
      ensures Valid()
      ensures unchanged(this`lastOpenFilesCheck)
      ensures IsMove(kind, dest) ==>
        && stats == CountEvent(old(stats))
        && unchanged(this`openFiles)
        && (IsTemporaryOperation(path, dest) ==> ok && unchanged(this`fileRenames, sessions, client))
        && (!IsTemporaryOperation(path, dest) ==>
              MoveDone(path, dest, w, hashingEnabled, sessions.timeoutMinutes, sessions.maxSessionHours, now,
                       old(fileRenames), old(sessions.Tables()), old(client.sent), ok, fileRenames,
                       sessions.Tables(), client.sent))
      ensures !IsMove(kind, dest) && (!ShouldProcess(path, kind, w) || kind == Moved || kind == Closed || kind == Unknown) ==>
        && ok == !ShouldProcess(path, kind, w)
        && stats == CountEvent(old(stats))
        && unchanged(this`openFiles, this`fileRenames, sessions, client)
      ensures !IsMove(kind, dest) && ShouldProcess(path, kind, w) && kind == Deleted ==>
        && unchanged(this`fileRenames)
        && DeletionDone(path, EventUser(w, path), w, now, old(fileRenames), old(openFiles), CountEvent(old(stats)),
                        old(sessions.Tables()), old(client.sent), ok, openFiles, stats, sessions.Tables(),
                        client.sent)
      ensures ShouldProcess(path, kind, w) && (kind == Created || kind == Modified) ==>
        && unchanged(this`fileRenames)
        && ChangeDone(kind, path, w, hashingEnabled, hasProcessTable, sessions.timeoutMinutes,
                      sessions.maxSessionHours, now, old(fileRenames), old(openFiles), CountEvent(old(stats)),
                      old(sessions.Tables()), old(client.sent), ok, openFiles, stats, sessions.Tables(),
                      client.sent)
    {
      stats := CountEvent(stats);
      if kind == Moved && dest != [] {
        ok := HandleFileMoved(path, dest, w, now);
      } else {
        var process := ShouldProcessFile(path, kind, w);
        if !process {
          ok := true;
        } else if kind == Created {
          ok := ProcessCreation(path, w, now);
        } else if kind == Modified {
          ok := ProcessModification(path, w, now);
        } else if kind == Deleted {
          ok := ProcessDeletion(path, w, now);
        } else {
          ok := false;
        }
      }
    }

    /** A creation that passed the filter: open-file tracking, then the
        creation handler with the event's hash. */
    method ProcessCreation(path: string, w: World, now: int) returns (ok: bool)
      requires Valid()
      modifies this, sessions, client
      ensures Valid()
      ensures unchanged(this`fileRenames, this`lastOpenFilesCheck)
      ensures stats.eventsProcessed == old(stats).eventsProcessed && stats.eventsFailed == old(stats).eventsFailed
      ensures ChangeDone(Created, path, w, hashingEnabled, hasProcessTable, sessions.timeoutMinutes,
                         sessions.maxSessionHours, now, old(fileRenames), old(openFiles), old(stats),
                         old(sessions.Tables()), old(client.sent), ok, openFiles, stats, sessions.Tables(), client.sent)
    {
      ghost var before := (openFiles, stats, sessions.Tables(), client.sent);
      var user := NormalizeUsername(FileModifier(w, path), w.currentUser);
      UpdateOpenFileTracking(path, user, Created, w, now);
      ghost var mid := (openFiles, stats, sessions.Tables(), client.sent);
      ghost var live := sessions.Live(sessions.active, Key(path, user), now);
      var hash := EventHash(Created, path, w, hashingEnabled);
      ok := HandleFileCreated(path, user, hash, w, now);
      ChangeComposed(Created, path, w, hashingEnabled, hasProcessTable, sessions.timeoutMinutes,
                     sessions.maxSessionHours, now, fileRenames, before.0, before.1, before.2, before.3, mid, live,
                     ok, openFiles, stats, sessions.Tables(), client.sent);
      ChangeDoneReports(Created, path, w, hashingEnabled, hasProcessTable, sessions.timeoutMinutes,
                        sessions.maxSessionHours, now, fileRenames, before.0, before.1, before.2, before.3,
                        ok, openFiles, stats, sessions.Tables(), client.sent);
    }

    /** A modification that passed the filter: open-file tracking, then the
        modification handler with the event's hash. */
    method ProcessModification(path: string, w: World, now: int) returns (ok: bool)
      requires Valid()
      modifies this, sessions, client
      ensures Valid()
      ensures unchanged(this`fileRenames, this`lastOpenFilesCheck)
      ensures stats.eventsProcessed == old(stats).eventsProcessed && stats.eventsFailed == old(stats).eventsFailed
      ensures ChangeDone(Modified, path, w, hashingEnabled, hasProcessTable, sessions.timeoutMinutes,
                         sessions.maxSessionHours, now, old(fileRenames), old(openFiles), old(stats),
                         old(sessions.Tables()), old(client.sent), ok, openFiles, stats, sessions.Tables(), client.sent)
    {
      ghost var before := (openFiles, stats, sessions.Tables(), client.sent);
      var user := NormalizeUsername(FileModifier(w, path), w.currentUser);
      UpdateOpenFileTracking(path, user, Modified, w, now);
      ghost var mid := (openFiles, stats, sessions.Tables(), client.sent);
      ghost var live := sessions.Live(sessions.active, Key(path, user), now);
      ok := HandleFileModified(path, user, EventHash(Modified, path, w, hashingEnabled), w, now);
      ChangeComposed(Modified, path, w, hashingEnabled, hasProcessTable, sessions.timeoutMinutes,
                     sessions.maxSessionHours, now, fileRenames, before.0, before.1, before.2, before.3, mid, live,
                     ok, openFiles, stats, sessions.Tables(), client.sent);
      ChangeDoneReports(Modified, path, w, hashingEnabled, hasProcessTable, sessions.timeoutMinutes,
                        sessions.maxSessionHours, now, fileRenames, before.0, before.1, before.2, before.3,
                        ok, openFiles, stats, sessions.Tables(), client.sent);
    }

    /** A deletion that passed the filter: the file stops being tracked as
        open, then the deletion handler runs; if it raises, the failure is
        counted and the result is false. */
    method ProcessDeletion(path: string, w: World, now: int) returns (ok: bool)
      requires Valid()
      modifies this, sessions, client
      ensures Valid()
      ensures unchanged(this`fileRenames, this`lastOpenFilesCheck)
      ensures DeletionDone(path, EventUser(w, path), w, now, old(fileRenames), old(openFiles), old(stats),
                           old(sessions.Tables()), old(client.sent), ok, openFiles, stats, sessions.Tables(),
                           client.sent)
    {
      ghost var before := (openFiles, stats, sessions.Tables(), client.sent);
      var user := NormalizeUsername(FileModifier(w, path), w.currentUser);
      openFiles := openFiles - {path};
      var o := HandleFileDeleted(path, user, w, now);
      ghost var handled := stats;
      match o {
        case Done(b) =>
          ok := b;
        case Raised =>
          stats := stats.(eventsFailed := stats.eventsFailed + 1);
          ok := false;
      }
      DeletionComposed(path, user, w, now, fileRenames, before.0, before.1, before.2, before.3, o, handled,
                       ok, openFiles, stats, sessions.Tables(), client.sent);
    }

    /** `_handle_file_closed`: close the pair's session and report it with
        its end time and duration; without a session there is nothing to
        report and the result is true. */
    method HandleFileClosed(path: string, user: string, hash: Option<string>, w: World, now: int)
      returns (ok: bool)
      requires Valid()
      modifies sessions, client
      ensures Valid()
      ensures var t := old(sessions.Tables());
        && sessions.Tables() == AfterClose(t, Key(path, user), hash, now)
        && client.sent == old(client.sent) + ClosedReport(t, path, user, hash, now)
        && ok == (Key(path, user) !in t.active || w.sendOk)
    {
      var r := sessions.CloseSession(path, user, hash, now);
      match r {
        case None =>
          ok := true;
        case Some(rec) =>
          ok := client.SendEvent(ClosedMessage(path, user, hash, rec, now), w.sendOk);
      }
    }

    /** `_handle_file_created`: a path that was ever the target of a rename
        is ignored; otherwise the pair gets its session and a created
        message carrying the session's identifier is sent. */
    method HandleFileCreated(path: string, user: string, hash: Option<string>, w: World, now: int)
      returns (ok: bool)
      requires Valid()
      modifies this, sessions, client
      ensures Valid()
      ensures unchanged(this`openFiles, this`fileRenames, this`lastOpenFilesCheck)
      ensures Creation(path, user, hash, w, now, sessions.Live(old(sessions.active), Key(path, user), now),
                       old(fileRenames), old(sessions.Tables()), old(stats), old(client.sent),
                       ok, sessions.Tables(), stats, client.sent)
    {
      if path in fileRenames.Values {
        return true;
      }
      var s := sessions.SmartCreateSession(path, user, hash, DefaultResumeWindowHours, now);
      if s.resumeCount > 0 {
        stats := stats.(sessionsResumed := stats.sessionsResumed + 1);
      } else {
        stats := stats.(sessionsCreated := stats.sessionsCreated + 1);
      }
      ok := client.SendEvent(CreatedOut(path, BaseName(path), hash, user, s.sessionId, s.resumeCount, now), w.sendOk);
    }

    /** `_handle_file_modified`: the pair gets its session and a modified
        message carrying the session's identifier is sent. */
    method HandleFileModified(path: string, user: string, hash: Option<string>, w: World, now: int)
      returns (ok: bool)
      requires Valid()
      modifies sessions, client
      ensures Valid()
      ensures Modification(path, user, hash, w, now, sessions.Live(old(sessions.active), Key(path, user), now),
                           old(sessions.Tables()), old(client.sent), ok, sessions.Tables(), client.sent)
    {
      var s := sessions.SmartCreateSession(path, user, hash, DefaultResumeWindowHours, now);
      ok := client.SendEvent(ModifiedOut(path, BaseName(path), hash, user, s.sessionId, s.resumeCount, now), w.sendOk);
    }

    /** `_handle_file_deleted`.  A path that was the source of a rename only
        has its session closed, silently.  Otherwise the deletion is counted,
        the file is no longer tracked as open, and the session is closed and
        reported; with no session to close the handler calls
        `close_all_sessions_for_file`, which the session table does not
        define, so it raises. */
    method HandleFileDeleted(path: string, user: string, w: World, now: int) returns (o: Outcome)
      requires Valid()
      modifies this, sessions, client
      ensures Valid()
      ensures unchanged(this`fileRenames, this`lastOpenFilesCheck)
      ensures DeleteHandled(path, user, w, now, old(fileRenames), old(openFiles), old(stats), old(sessions.Tables()),
                            old(client.sent), o, openFiles, stats, sessions.Tables(), client.sent)
    {
      if path in fileRenames {
        var _ := sessions.CloseSession(path, user, None, now);
        return Done(true);
      }
      stats := stats.(filesDeleted := stats.filesDeleted + 1);
      openFiles := openFiles - {path};
      var r := sessions.CloseSession(path, user, None, now);
      match r {
        case None =>
          o := Raised;
        case Some(rec) =>
          var ok := client.SendEvent(DeletedOut(path, BaseName(path), user, rec.sessionId, rec.resumeCount, now), w.sendOk);
          o := Done(ok);
      }
    }

    /** `_handle_file_moved`.  A move touching a temporary name is accepted
        and ignored.  Otherwise the rename is remembered, an active session
        on the old path is closed and a session is opened on the new path
        (a new session, not a transfer), and a moved message is sent. */
    method HandleFileMoved(src: string, dest: string, w: World, now: int) returns (ok: bool)
      requires Valid()
      modifies this, sessions, client
      ensures Valid()
      ensures unchanged(this`openFiles, this`stats, this`lastOpenFilesCheck)
      ensures IsTemporaryOperation(src, dest) ==> ok && unchanged(this`fileRenames, sessions, client)
      ensures !IsTemporaryOperation(src, dest) ==>
        MoveDone(src, dest, w, hashingEnabled, sessions.timeoutMinutes, sessions.maxSessionHours, now,
                 old(fileRenames), old(sessions.Tables()), old(client.sent), ok, fileRenames, sessions.Tables(),
                 client.sent)
    {
      if IsTemporaryOperation(src, dest) {
        return true;
      }
      var user := NormalizeUsername(FileModifier(w, dest), w.currentUser);
      fileRenames := fileRenames[src := dest];
      var hash := if hashingEnabled then HashOf(w, dest) else None;
      MoveSessions(src, dest, user, hash, now);
      ok := client.SendEvent(MovedOut(dest, BaseName(dest), src, BaseName(src), hash, user, now), w.sendOk);
    }

    /** The session part of a move: close the session on the old path, if
        any, and open one on the new path. */
    method MoveSessions(src: string, dest: string, user: string, hash: Option<string>, now: int)
      requires Valid()
      modifies sessions
      ensures Valid()
      ensures sessions.Tables()
        == MovedTables(old(sessions.Tables()), src, dest, user, hash, sessions.timeoutMinutes,
                       sessions.maxSessionHours, now)
    {
      if Key(src, user) in sessions.active {
        var previous := sessions.CloseSession(src, user, None, now);
        if previous.Some? {
          var _ := sessions.SmartCreateSession(dest, user, hash, DefaultResumeWindowHours, now);
        }
      }
    }

    /** `_update_open_file_tracking`.  A file some process holds is (re)
        recorded as open now.  A recorded file nobody holds any more is
        closed once more than the grace period has passed since its last
        activity, and otherwise only marked as checked. */
    method UpdateOpenFileTracking(path: string, user: string, kind: EventKind, w: World, now: int)
      requires Valid()
      modifies this, sessions, client
      ensures Valid()
      ensures unchanged(this`fileRenames, this`lastOpenFilesCheck)
      ensures Tracked(path, user, kind, w, hashingEnabled, hasProcessTable, now,
                      old(openFiles), old(stats), old(sessions.Tables()), old(client.sent),
                      openFiles, stats, sessions.Tables(), client.sent)
    {
      ghost var want := TrackedState(path, user, kind, w, hashingEnabled, hasProcessTable, now,
                                     openFiles, stats, sessions.Tables(), client.sent);
      if !hasProcessTable {
        return;
      }
      var holders := ProcessesUsingFile(w, path);
      if holders != [] {
        openFiles := openFiles[path := OpenFile(user, holders, now, now, kind)];
        assert (openFiles, stats, sessions.Tables(), client.sent) == want;
      } else if path in openFiles {
        var info := openFiles[path];
        if now - info.lastActivity > GraceSeconds {
          ghost var hash := ClosingHash(path, w, hashingEnabled);
          ghost var t0 := sessions.Tables();
          ghost var sent0 := client.sent;
          assert want.2 == AfterClose(t0, Key(path, info.username), hash, now);
          assert want.3 == sent0 + ClosedReport(t0, path, info.username, hash, now);
          CloseTracked(path, info.username, w, now);
          assert sessions.Tables() == want.2 && client.sent == want.3;
          assert openFiles == want.0;
          assert stats == want.1;
        } else {
          openFiles := openFiles[path := info.(lastChecked := now)];
          assert (openFiles, stats, sessions.Tables(), client.sent) == want;
        }
      } else {
        assert (openFiles, stats, sessions.Tables(), client.sent) == want;
      }
    }

    /** Closing a tracked file that is no longer open: take its final hash,
        close and report its session, stop tracking it and count it. */
    method CloseTracked(path: string, user: string, w: World, now: int)
      requires Valid()
      modifies this, sessions, client
      ensures Valid()
      ensures unchanged(this`fileRenames, this`lastOpenFilesCheck)
      ensures openFiles == old(openFiles) - {path}
      ensures stats == old(stats).(filesClosed := old(stats).filesClosed + 1)
      ensures var hash := ClosingHash(path, w, hashingEnabled);
        && sessions.Tables() == AfterClose(old(sessions.Tables()), Key(path, user), hash, now)
        && client.sent == old(client.sent) + ClosedReport(old(sessions.Tables()), path, user, hash, now)
    {
      var hash := ClosingHash(path, w, hashingEnabled);
      var _ := HandleFileClosed(path, user, hash, w, now);
      openFiles := openFiles - {path};
      stats := stats.(filesClosed := stats.filesClosed + 1);
    }

    /** `check_open_files`: at most once per check interval, recheck every
        tracked file against the process table, then close the idle ones. */
    method CheckOpenFiles(w: World, now: int) returns (ghost order: seq<string>)
      requires Valid()
      modifies this, sessions, client
      ensures Valid()
      ensures unchanged(this`fileRenames)
      ensures !hasProcessTable || now - old(lastOpenFilesCheck) < OpenCheckIntervalSeconds ==>
        unchanged(this, sessions, client)
      ensures hasProcessTable && now - old(lastOpenFilesCheck) >= OpenCheckIntervalSeconds ==>
        && lastOpenFilesCheck == now
        && OpenFilesSwept(old(openFiles), old(stats), old(sessions.Tables()), old(client.sent), order, w, now)
    {
      order := [];
      if !hasProcessTable || now - lastOpenFilesCheck < OpenCheckIntervalSeconds {
        return;
      }
      lastOpenFilesCheck := now;
      order := SweepOpenFiles(w, now);
    }

    /** What the two passes of the check leave behind, from the tracked files
        `files0`, the counters `stats0`, the tables `t0` and the outbox
        `sent0`: the idle files, listed once each in `order`, are closed in
        that order and no longer tracked, the others are rechecked. */
    ghost predicate OpenFilesSwept(files0: map<string, OpenFile>, stats0: Stats, t0: TableState,
                                   sent0: seq<OutEvent>, order: seq<string>, w: World, now: int)
      reads this, sessions, client
    {
      var idle := IdleFiles(files0, w, now);
      && Listed(order, idle)
      && openFiles == Rechecked(files0, w, now) - idle
      && stats == stats0.(filesClosed := stats0.filesClosed + |idle|)
      && (forall i | 0 <= i < |order| :: order[i] in files0)
      && CloseFold(t0, sent0, files0, order, w, hashingEnabled, now) == (sessions.Tables(), client.sent)
    }

    /** The two passes of `check_open_files`. */
    method SweepOpenFiles(w: World, now: int) returns (ghost order: seq<string>)
      requires Valid()
      modifies this, sessions, client
      ensures Valid()
      ensures unchanged(this`fileRenames, this`lastOpenFilesCheck)
      ensures OpenFilesSwept(old(openFiles), old(stats), old(sessions.Tables()), old(client.sent), order, w, now)
    {
      var snapshot := openFiles;
      var toClose := RecheckOpenFiles(w, now);
      ghost var rechecked := openFiles;
      ListedFacts(toClose, IdleFiles(snapshot, w, now));
      CloseIdleFiles(toClose, snapshot, w, now);
      DropListed(rechecked, toClose, IdleFiles(snapshot, w, now));
      order := toClose;
    }

    /** The first pass of `check_open_files`: every tracked file is looked
        up in the process table; held and recently active files are marked
        as checked, and the idle ones are returned, each once. */
    method RecheckOpenFiles(w: World, now: int) returns (toClose: seq<string>)
      modifies this`openFiles
      ensures openFiles == Rechecked(old(openFiles), w, now)
      ensures Listed(toClose, IdleFiles(old(openFiles), w, now))
    {
      var snapshot := openFiles;
      var todo := snapshot.Keys;
      ghost var done: set<string> := {};
      toClose := [];
      while todo != {}
        invariant RecheckInv(snapshot, todo, done, toClose, openFiles, w, now)
        decreases todo
      {
        var p :| p in todo;
        var info := snapshot[p];
        var holders := ProcessesUsingFile(w, p);
        ghost var idleBefore := IdleIn(snapshot, done, w, now);
        if holders == [] && now - info.lastActivity > GraceSeconds {
          ListedStep(toClose, idleBefore, p);
          toClose := toClose + [p];
        } else {
          openFiles := openFiles[p := Recheck(info, holders, now)];
        }
        assert IdleIn(snapshot, done + {p}, w, now) ==
          if Idle(snapshot, p, w, now) then idleBefore + {p} else idleBefore;
        todo := todo - {p};
        done := done + {p};
      }
      assert IdleIn(snapshot, done, w, now) == IdleFiles(snapshot, w, now);
    }

    /** The second pass of `check_open_files`: close each idle file in turn. */
    method CloseIdleFiles(toClose: seq<string>, files: map<string, OpenFile>, w: World, now: int)
      requires Valid()
      requires forall i | 0 <= i < |toClose| :: toClose[i] in files
      modifies this, sessions, client
      ensures Valid()
      ensures unchanged(this`fileRenames, this`lastOpenFilesCheck)
      ensures openFiles == Drop(old(openFiles), toClose)
      ensures stats == old(stats).(filesClosed := old(stats).filesClosed + |toClose|)
      ensures var r := CloseFold(old(sessions.Tables()), old(client.sent), files, toClose, w, hashingEnabled, now);
        sessions.Tables() == r.0 && client.sent == r.1
    {
      ghost var t0 := sessions.Tables();
      ghost var sent0 := client.sent;
      ghost var files0 := openFiles;
      ghost var stats0 := stats;
      var i := 0;
      while i < |toClose|
        invariant 0 <= i <= |toClose|
        invariant Valid() && unchanged(this`fileRenames, this`lastOpenFilesCheck)
        invariant Closing(t0, sent0, files0, stats0, files, toClose[..i], w, now)
      {
        CloseNext(toClose, i, t0, sent0, files0, stats0, files, w, now);
        i := i + 1;
      }
      assert toClose[..i] == toClose;
    }

    /** Where the second pass stands once it has closed the files in `done`. */
    ghost predicate Closing(t0: TableState, sent0: seq<OutEvent>, files0: map<string, OpenFile>, stats0: Stats,
                            files: map<string, OpenFile>, done: seq<string>, w: World, now: int)
      reads this, sessions, client
    {
      ClosingAt(t0, sent0, files0, stats0, files, done, w, hashingEnabled, now,
                openFiles, stats, sessions.Tables(), client.sent)
    }

    /** One step of the second pass. */
    method CloseNext(toClose: seq<string>, i: nat, ghost t0: TableState, ghost sent0: seq<OutEvent>,
                     ghost files0: map<string, OpenFile>, ghost stats0: Stats, files: map<string, OpenFile>,
                     w: World, now: int)
      requires Valid() && i < |toClose| && forall j | 0 <= j < |toClose| :: toClose[j] in files
      requires Closing(t0, sent0, files0, stats0, files, toClose[..i], w, now)
      modifies this, sessions, client
      ensures Valid() && unchanged(this`fileRenames, this`lastOpenFilesCheck)
      ensures Closing(t0, sent0, files0, stats0, files, toClose[..i + 1], w, now)
    {
      var p := toClose[i];
      ghost var before := (openFiles, stats, sessions.Tables(), client.sent);
      CloseTracked(p, files[p].username, w, now);
      ClosingStep(t0, sent0, files0, stats0, files, toClose, i, w, hashingEnabled, now,
                  before.0, before.1, before.2, before.3, openFiles, stats, sessions.Tables(), client.sent);
    }
  }

  /** The second pass's state after closing the files in `done`, on values. */
  ghost predicate ClosingAt(t0: TableState, sent0: seq<OutEvent>, files0: map<string, OpenFile>, stats0: Stats,
                            files: map<string, OpenFile>, done: seq<string>, w: World, hashingEnabled: bool,
                            now: int, openFiles: map<string, OpenFile>, stats: Stats, tables: TableState,
                            sent: seq<OutEvent>)
  {
    && (forall j | 0 <= j < |done| :: done[j] in files)
    && openFiles == Drop(files0, done)
    && stats == stats0.(filesClosed := stats0.filesClosed + |done|)
    && CloseFold(t0, sent0, files, done, w, hashingEnabled, now) == (tables, sent)
  }

  /** Closing one more file moves the second pass from `order[..i]` to `order[..i + 1]`. */
  lemma ClosingStep(t0: TableState, sent0: seq<OutEvent>, files0: map<string, OpenFile>, stats0: Stats,
                    files: map<string, OpenFile>, order: seq<string>, i: nat, w: World, hashingEnabled: bool,
                    now: int, openFiles: map<string, OpenFile>, stats: Stats, tables: TableState,
                    sent: seq<OutEvent>, openFiles': map<string, OpenFile>, stats': Stats, tables': TableState,
                    sent': seq<OutEvent>)
    requires i < |order| && forall j | 0 <= j < |order| :: order[j] in files
    requires ClosingAt(t0, sent0, files0, stats0, files, order[..i], w, hashingEnabled, now,
                       openFiles, stats, tables, sent)
    requires var p := order[i];
      var user := files[p].username;
      var hash := ClosingHash(p, w, hashingEnabled);
      && openFiles' == openFiles - {p}
      && stats' == stats.(filesClosed := stats.filesClosed + 1)
      && tables' == AfterClose(tables, Key(p, user), hash, now)
      && sent' == sent + ClosedReport(tables, p, user, hash, now)
    ensures openFiles' == Drop(files0, order[..i + 1])
    ensures stats' == stats0.(filesClosed := stats0.filesClosed + i + 1)
    ensures CloseFold(t0, sent0, files, order[..i + 1], w, hashingEnabled, now) == (tables', sent')
  {
    CloseStep(t0, sent0, files, order, i, w, hashingEnabled, now, tables, sent);
    DropStep(files0, order, i);
  }

  /** Closing the next file extends the fold over the files closed so far. */
  lemma CloseStep(t: TableState, sent: seq<OutEvent>, files: map<string, OpenFile>, order: seq<string>, i: nat,
                  w: World, hashingEnabled: bool, now: int, tables: TableState, out: seq<OutEvent>)
    requires i < |order| && forall j | 0 <= j < |order| :: order[j] in files
    requires CloseFold(t, sent, files, order[..i], w, hashingEnabled, now) == (tables, out)
    ensures var p := order[i];
      var user := files[p].username;
      var hash := ClosingHash(p, w, hashingEnabled);
      CloseFold(t, sent, files, order[..i + 1], w, hashingEnabled, now)
        == (AfterClose(tables, Key(p, user), hash, now), out + ClosedReport(tables, p, user, hash, now))
  {
    assert order[..i + 1][..i] == order[..i];
  }

  lemma DropStep<K, V>(m: map<K, V>, order: seq<K>, i: nat)
    requires i < |order|
    ensures Drop(m, order[..i + 1]) == Drop(m, order[..i]) - {order[i]}
  {
    assert order[..i + 1][..i] == order[..i];
  }

  /** The idle files among those the first pass has visited. */
  ghost function IdleIn(snapshot: map<string, OpenFile>, done: set<string>, w: World, now: int): set<string>
  {
    set p | p in done && p in snapshot && Idle(snapshot, p, w, now)
  }

  /** The first pass's loop invariant: visited entries are rechecked (idle
      ones untouched and listed), unvisited ones are as they were. */
  ghost predicate RecheckInv(snapshot: map<string, OpenFile>, todo: set<string>, done: set<string>,
                             toClose: seq<string>, files: map<string, OpenFile>, w: World, now: int)
  {
    && todo !! done && todo + done == snapshot.Keys
    && files.Keys == snapshot.Keys
    && (forall p | p in snapshot ::
          files[p] == if p in done then Rechecked(snapshot, w, now)[p] else snapshot[p])
    && Listed(toClose, IdleIn(snapshot, done, w, now))
  }
}
