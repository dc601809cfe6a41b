/** The central service's store: users, files, file sessions, file events
    and comments, with the queries and row operations the request handlers
    are built from.  A row's id is its position in its table; timestamps are
    integer seconds. */
module ServiceStore {
  import opened Base

  datatype User = User(username: string, email: Option<string>)
  datatype File = File(path: string, name: string)
  datatype FileSession = FileSession(
    userId: nat, fileId: nat,
    startedAt: int, lastActivity: int, endedAt: Option<int>,
    hashBefore: Option<string>, hashAfter: Option<string>,
    isCommented: bool, resumeCount: int)
  datatype EventType = Created | Modified | Deleted | Closed | Moved
  datatype FileEvent = FileEvent(sessionId: nat, eventType: EventType, fileHash: Option<string>, timestamp: int)
  datatype Comment = Comment(sessionId: nat, userId: nat, content: string, changeType: string)

  /** The five tables. */
  datatype Db = Db(users: seq<User>, files: seq<File>, sessions: seq<FileSession>,
                   events: seq<FileEvent>, comments: seq<Comment>)

  // ---------------------------------------------------------------------
  // Integrity of the store

  /** `users.username` is unique. */
  ghost predicate UniqueUsernames(users: seq<User>)
  {
    forall i, j | 0 <= i < j < |users| :: users[i].username != users[j].username
  }

  /** `files.file_path` is unique. */
  ghost predicate UniquePaths(files: seq<File>)
  {
    forall i, j | 0 <= i < j < |files| :: files[i].path != files[j].path
  }

  /** Every foreign key names an existing row, and a session has at most
      one comment (`comments.session_id` is unique). */
  ghost predicate References(db: Db)
  {
    (forall i | 0 <= i < |db.sessions| :: db.sessions[i].userId < |db.users| && db.sessions[i].fileId < |db.files|)
    && (forall i | 0 <= i < |db.events| :: db.events[i].sessionId < |db.sessions|)
    && (forall i | 0 <= i < |db.comments| ::
          db.comments[i].sessionId < |db.sessions| && db.comments[i].userId < |db.users|)
    && (forall i, j | 0 <= i < j < |db.comments| :: db.comments[i].sessionId != db.comments[j].sessionId)
  }

  ghost predicate Valid(db: Db)
  {
    UniqueUsernames(db.users) && UniquePaths(db.files) && References(db)
  }

  // ---------------------------------------------------------------------
  // Lookups

  /** `get_user_by_username`: the first user with that name. */
  function FindUser(users: seq<User>, username: string, from: nat := 0): (r: Option<nat>)
    requires from <= |users|
    ensures r.Some? ==> from <= r.value < |users| && users[r.value].username == username
    ensures r.Some? ==> forall i | from <= i < r.value :: users[i].username != username
    ensures r.None? <==> forall i | from <= i < |users| :: users[i].username != username
    decreases |users| - from
  {
    if from == |users| then None
    else if users[from].username == username then Some(from)
    else FindUser(users, username, from + 1)
  }

  /** `get_file_by_path`: the first file with that path. */
  function FindFile(files: seq<File>, path: string, from: nat := 0): (r: Option<nat>)
    requires from <= |files|
    ensures r.Some? ==> from <= r.value < |files| && files[r.value].path == path
    ensures r.Some? ==> forall i | from <= i < r.value :: files[i].path != path
    ensures r.None? <==> forall i | from <= i < |files| :: files[i].path != path
    decreases |files| - from
  {
    if from == |files| then None
    else if files[from].path == path then Some(from)
    else FindFile(files, path, from + 1)
  }

  /** With unique names, the user found is the only one with that name. */
  lemma FindUserUnique(users: seq<User>, username: string, i: nat)
    requires UniqueUsernames(users) && i < |users| && users[i].username == username
    ensures FindUser(users, username) == Some(i)
  {
  }

  // ---------------------------------------------------------------------
  // Filters and ordering

  /** Positions below `n` of the sessions satisfying `p`, in table order. */
  function Where(sessions: seq<FileSession>, p: FileSession -> bool, n: nat): (r: seq<nat>)
    requires n <= |sessions|
    ensures forall k | 0 <= k < |r| :: r[k] < n && p(sessions[r[k]])
    ensures forall k, l | 0 <= k < l < |r| :: r[k] < r[l]
    ensures forall i | 0 <= i < n && p(sessions[i]) :: i in r
  {
    if n == 0 then []
    else Where(sessions, p, n - 1) + (if p(sessions[n - 1]) then [n - 1] else [])
  }

  predicate SortedDesc<T>(s: seq<T>, key: T -> int)
  {
    forall i, j | 0 <= i < j < |s| :: key(s[i]) >= key(s[j])
  }

  /** Insert `x` after every element whose key is at least its own. */
  function InsertDesc<T>(x: T, t: seq<T>, key: T -> int): (r: seq<T>)
    ensures multiset(r) == multiset(t) + multiset{x}
    ensures |r| == |t| + 1
  {
    if t == [] then [x]
    else if key(t[0]) < key(x) then [x] + t
    else
      assert t == [t[0]] + t[1..];
      [t[0]] + InsertDesc(x, t[1..], key)
  }

  /** A stable sort by descending key: insertion of each element in turn. */
  function SortDesc<T>(s: seq<T>, key: T -> int): (r: seq<T>)
    ensures multiset(r) == multiset(s)
  {
    if s == [] then []
    else
      assert s == s[..|s| - 1] + [s[|s| - 1]];
      InsertDesc(s[|s| - 1], SortDesc(s[..|s| - 1], key), key)
  }

  lemma {:induction false} InsertDescSorted<T>(x: T, t: seq<T>, key: T -> int)
    requires SortedDesc(t, key)
    ensures SortedDesc(InsertDesc(x, t, key), key)
  {
    if t != [] && key(t[0]) >= key(x) {
      var rest := InsertDesc(x, t[1..], key);
      InsertDescSorted(x, t[1..], key);
      forall j | 0 <= j < |rest| ensures key(rest[j]) <= key(t[0]) {
        InsertDescElement(x, t[1..], key, j);
      }
      assert InsertDesc(x, t, key) == [t[0]] + rest;
    }
  }

  /** Each element of an insertion is the inserted one or an old one. */
  lemma InsertDescElement<T>(x: T, t: seq<T>, key: T -> int, j: nat)
    requires j < |InsertDesc(x, t, key)|
    ensures var y := InsertDesc(x, t, key)[j]; y == x || exists k | 0 <= k < |t| :: t[k] == y
  {
    var r := InsertDesc(x, t, key);
    assert r[j] in multiset(r);
  }

  lemma {:induction false} SortDescSorted<T>(s: seq<T>, key: T -> int)
    ensures SortedDesc(SortDesc(s, key), key)
  {
    if s != [] {
      SortDescSorted(s[..|s| - 1], key);
      InsertDescSorted(s[|s| - 1], SortDesc(s[..|s| - 1], key), key);
    }
  }

  // ---------------------------------------------------------------------
  // The session queries of crud.py

  predicate ActiveFor(s: FileSession, userId: nat, fileId: nat)
  {
    s.userId == userId && s.fileId == fileId && s.endedAt.None?
  }

  /** A session's `last_activity`, by id. */
  function Activity(sessions: seq<FileSession>): nat -> int
  {
    (i: nat) => if i < |sessions| then sessions[i].lastActivity else 0
  }

  /** `get_active_sessions_by_user_and_file`: the (user, file) sessions with
      no `ended_at`, most recent activity first. */
  function ActiveSessions(db: Db, userId: nat, fileId: nat): (r: seq<nat>)
    ensures forall k | 0 <= k < |r| :: r[k] < |db.sessions| && ActiveFor(db.sessions[r[k]], userId, fileId)
  {
    var w := Where(db.sessions, (s: FileSession) => ActiveFor(s, userId, fileId), |db.sessions|);
    SortedFrom(w, Activity(db.sessions));
    SortDesc(w, Activity(db.sessions))
  }

  /** Every element of a sorted sequence comes from the input. */
  lemma SortedFrom<T>(s: seq<T>, key: T -> int)
    ensures forall k | 0 <= k < |SortDesc(s, key)| :: SortDesc(s, key)[k] in s
  {
    var r := SortDesc(s, key);
    forall k | 0 <= k < |r| ensures r[k] in s {
      assert r[k] in multiset(r);
    }
  }

  /** Every element of the input is in the sorted sequence. */
  lemma SortedKeeps<T>(s: seq<T>, key: T -> int)
    ensures forall x | x in s :: x in SortDesc(s, key)
  {
    var r := SortDesc(s, key);
    forall x | x in s ensures x in r {
      assert x in multiset(s);
    }
  }

  /** The list holds exactly the active (user, file) sessions, each once,
      ordered by `last_activity` descending. */
  lemma ActiveSessionsSpec(db: Db, userId: nat, fileId: nat)
    ensures var r := ActiveSessions(db, userId, fileId);
      (forall i: nat :: i in r <==> i < |db.sessions| && ActiveFor(db.sessions[i], userId, fileId))
      && SortedDesc(r, Activity(db.sessions))
      && (forall k, l | 0 <= k < l < |r| :: r[k] != r[l])
  {
    var p := (s: FileSession) => ActiveFor(s, userId, fileId);
    var w: seq<nat> := Where(db.sessions, p, |db.sessions|);
    var r: seq<nat> := ActiveSessions(db, userId, fileId);
    SortDescSorted(w, Activity(db.sessions));
    assert multiset(r) == multiset(w);
    forall i: nat ensures i in r <==> i < |db.sessions| && ActiveFor(db.sessions[i], userId, fileId) {
      assert i in r <==> i in multiset(r);
      assert i in w <==> i in multiset(w);
    }
    forall x: nat ensures multiset(r)[x] <= 1 {
      IncreasingOnce(w, x);
    }
    AtMostOnce(r);
  }

  /** A sequence in which no value occurs twice has distinct positions. */
  lemma AtMostOnce<T>(r: seq<T>)
    requires forall x :: multiset(r)[x] <= 1
    ensures forall k, l | 0 <= k < l < |r| :: r[k] != r[l]
  {
    forall k, l | 0 <= k < l < |r| ensures r[k] != r[l] {
      RepeatCounts(r, k, l);
    }
  }

  lemma RepeatCounts<T>(r: seq<T>, k: nat, l: nat)
    requires k < l < |r|
    ensures r[k] == r[l] ==> multiset(r)[r[l]] >= 2
  {
    assert r == r[..l] + r[l..];
    assert r[k] in multiset(r[..l]) by { assert r[..l][k] == r[k]; }
    assert r[l] in multiset(r[l..]) by { assert r[l..][0] == r[l]; }
  }

  /** In a strictly increasing sequence a value occurs at most once. */
  lemma {:induction false} IncreasingOnce(w: seq<nat>, x: nat)
    requires forall k, l | 0 <= k < l < |w| :: w[k] < w[l]
    ensures multiset(w)[x] <= 1
  {
    if w != [] {
      var front := w[..|w| - 1];
      IncreasingOnce(front, x);
      assert w == front + [w[|w| - 1]];
      if x == w[|w| - 1] {
        assert x !in front;
      }
    }
  }

  /** A closed (user, file) session that ended at or after `cutoff`. */
  predicate ClosedSince(s: FileSession, userId: nat, fileId: nat, cutoff: int)
  {
    s.userId == userId && s.fileId == fileId && s.endedAt.Some? && s.endedAt.value >= cutoff
  }

  /** `get_recent_closed_session` over the first `n` sessions: the candidate
      with the latest `ended_at` (the first such on a tie). */
  function RecentClosedIn(sessions: seq<FileSession>, userId: nat, fileId: nat, cutoff: int, n: nat)
    : (r: Option<nat>)
    requires n <= |sessions|
    ensures r.Some? ==> r.value < n && ClosedSince(sessions[r.value], userId, fileId, cutoff)
    ensures r.Some? ==> forall i | 0 <= i < n && ClosedSince(sessions[i], userId, fileId, cutoff) ::
      sessions[i].endedAt.value <= sessions[r.value].endedAt.value
    ensures r.None? <==> forall i | 0 <= i < n :: !ClosedSince(sessions[i], userId, fileId, cutoff)
  {
    if n == 0 then None
    else
      var best := RecentClosedIn(sessions, userId, fileId, cutoff, n - 1);
      var s := sessions[n - 1];
      if ClosedSince(s, userId, fileId, cutoff)
         && (best.None? || s.endedAt.value > sessions[best.value].endedAt.value)
      then Some(n - 1)
      else best
  }

  /** `get_recent_closed_session(user, file, hours)` at server time `now`. */
  function RecentClosed(db: Db, userId: nat, fileId: nat, now: int, hours: int := 1): Option<nat>
  {
    RecentClosedIn(db.sessions, userId, fileId, now - hours * 3600, |db.sessions|)
  }

  /** The query does not look at `is_commented`: marking or unmarking any
      session leaves its answer unchanged. */
  lemma {:induction false} RecentClosedIgnoresComments(sessions: seq<FileSession>, userId: nat, fileId: nat,
                                                      cutoff: int, n: nat, j: nat, b: bool)
    requires n <= |sessions| && j < |sessions|
    ensures RecentClosedIn(sessions[j := sessions[j].(isCommented := b)], userId, fileId, cutoff, n)
         == RecentClosedIn(sessions, userId, fileId, cutoff, n)
  {
    if n > 0 {
      RecentClosedIgnoresComments(sessions, userId, fileId, cutoff, n - 1, j, b);
    }
  }

  /** `get_sessions_with_comments(skip, limit)`: the commented sessions in
      table order, from position `skip`, at most `limit` of them. */
  function SessionsWithComments(db: Db, skip: nat, limit: nat): (r: seq<nat>)
    ensures var all := Where(db.sessions, (s: FileSession) => s.isCommented, |db.sessions|);
      |r| == Min(limit, if skip <= |all| then |all| - skip else 0)
      && forall k | 0 <= k < |r| :: r[k] == all[skip + k]
    ensures forall k | 0 <= k < |r| :: r[k] < |db.sessions| && db.sessions[r[k]].isCommented
  {
    var all := Where(db.sessions, (s: FileSession) => s.isCommented, |db.sessions|);
    var rest := if skip <= |all| then all[skip..] else [];
    if limit <= |rest| then rest[..limit] else rest
  }

  function Min(a: int, b: int): int { if a <= b then a else b }

  // ---------------------------------------------------------------------
  // Row operations of crud.py, on values

  /** `create_file`: a known path returns its row; otherwise a row is added. */
  function CreateFileRow(db: Db, path: string, name: string): (r: (Db, nat))
    ensures FindFile(db.files, path).Some? ==> r == (db, FindFile(db.files, path).value)
    ensures FindFile(db.files, path).None? ==>
      r == (db.(files := db.files + [File(path, name)]), |db.files|)
    ensures r.1 < |r.0.files| && r.0.files[r.1].path == path
  {
    match FindFile(db.files, path)
    case Some(i) => (db, i)
    case None => (db.(files := db.files + [File(path, name)]), |db.files|)
  }

  /** Creating the same file twice changes nothing the second time. */
  lemma CreateFileIdempotent(db: Db, path: string, name: string, name': string)
    ensures var (db1, id1) := CreateFileRow(db, path, name);
      CreateFileRow(db1, path, name') == (db1, id1)
  {
    var (db1, id1) := CreateFileRow(db, path, name);
    if FindFile(db.files, path).None? {
      assert db1.files[..|db.files|] == db.files;
      assert FindFile(db1.files, path) == Some(|db.files|) by {
        forall i | 0 <= i < |db.files| ensures db1.files[i].path != path {
          assert db1.files[i] == db.files[i];
        }
      }
    }
  }

  /** The get-or-create of a user done inline by the handlers: an unknown
      name gets a row with the e-mail `<name>@example.com`. */
  function UserRow(db: Db, username: string): (r: (Db, nat))
    ensures r.1 < |r.0.users| && r.0.users[r.1].username == username
    ensures FindUser(db.users, username).Some? ==> r == (db, FindUser(db.users, username).value)
    ensures FindUser(db.users, username).None? ==>
      r == (db.(users := db.users + [User(username, Some(username + "@example.com"))]), |db.users|)
  {
    match FindUser(db.users, username)
    case Some(i) => (db, i)
    case None => (db.(users := db.users + [User(username, Some(username + "@example.com"))]), |db.users|)
  }

  /** `update_file_session_activity` and `close_session`: set one field of
      an existing session; a missing id changes nothing. */
  function TouchSession(db: Db, id: nat, now: int): (r: (Db, bool))
    ensures r.1 == (id < |db.sessions|)
    ensures r.1 ==> r.0 == db.(sessions := db.sessions[id := db.sessions[id].(lastActivity := now)])
    ensures !r.1 ==> r.0 == db
  {
    if id < |db.sessions| then (db.(sessions := db.sessions[id := db.sessions[id].(lastActivity := now)]), true)
    else (db, false)
  }

  function CloseSessionRow(db: Db, id: nat, now: int): (r: (Db, bool))
    ensures r.1 == (id < |db.sessions|)
    ensures r.1 ==> r.0 == db.(sessions := db.sessions[id := db.sessions[id].(endedAt := Some(now))])
    ensures !r.1 ==> r.0 == db
  {
    if id < |db.sessions| then (db.(sessions := db.sessions[id := db.sessions[id].(endedAt := Some(now))]), true)
    else (db, false)
  }

  /** crud `create_comment`: the comment is stored, and its session, if it
      exists, is marked as commented. */
  function CommentRow(db: Db, c: Comment): (r: Db)
    ensures r.comments == db.comments + [c]
    ensures r.users == db.users && r.files == db.files && r.events == db.events
    ensures |r.sessions| == |db.sessions|
    ensures c.sessionId < |db.sessions| ==> r.sessions == db.sessions[c.sessionId := db.sessions[c.sessionId].(isCommented := true)]
    ensures c.sessionId >= |db.sessions| ==> r.sessions == db.sessions
  {
    var db1 := db.(comments := db.comments + [c]);
    if c.sessionId < |db.sessions|
    then db1.(sessions := db.sessions[c.sessionId := db.sessions[c.sessionId].(isCommented := true)])
    else db1
  }

  // ---------------------------------------------------------------------
  // The store object

  /** The database session the handlers work through: five tables that
      the row operations extend or update in place. */
  class Store {
    var users: seq<User>
    var files: seq<File>
    var sessions: seq<FileSession>
    var events: seq<FileEvent>
    var comments: seq<Comment>

    function State(): Db
      reads this
    {
      Db(users, files, sessions, events, comments)
    }

    constructor(db: Db)
      ensures State() == db
    {
      users := db.users;
      files := db.files;
      sessions := db.sessions;
      events := db.events;
      comments := db.comments;
    }

    /** The inline get-or-create of a user. */
    method GetOrCreateUser(username: string) returns (id: nat)
      modifies this`users
      ensures (State(), id) == UserRow(old(State()), username)
    {
      var found := FindUser(users, username);
      if found.Some? {
        return found.value;
      }
      id := |users|;
      users := users + [User(username, Some(username + "@example.com"))];
    }

    /** `create_file`. */
    method CreateFile(path: string, name: string) returns (id: nat)
      modifies this`files
      ensures (State(), id) == CreateFileRow(old(State()), path, name)
    {
      var found := FindFile(files, path);
      if found.Some? {
        return found.value;
      }
      id := |files|;
      files := files + [File(path, name)];
    }

    /** `create_file_session`: the row is added as given. */
    method CreateFileSession(s: FileSession) returns (id: nat)
      modifies this`sessions
      ensures sessions == old(sessions) + [s] && id == |old(sessions)|
    {
      id := |sessions|;
      sessions := sessions + [s];
    }

    /** `create_file_event`. */
    method CreateFileEvent(e: FileEvent)
      modifies this`events
      ensures events == old(events) + [e]
    {
      events := events + [e];
    }

    /** `update_file_session_activity`. */
    method UpdateFileSessionActivity(id: nat, now: int) returns (found: bool)
      modifies this`sessions
      ensures (State(), found) == TouchSession(old(State()), id, now)
    {
      found := id < |sessions|;
      if found {
        sessions := sessions[id := sessions[id].(lastActivity := now)];
      }
    }

    /** crud `close_session`. */
    method CloseSession(id: nat, now: int) returns (found: bool)
      modifies this`sessions
      ensures (State(), found) == CloseSessionRow(old(State()), id, now)
    {
      found := id < |sessions|;
      if found {
        sessions := sessions[id := sessions[id].(endedAt := Some(now))];
      }
    }

    /** crud `create_comment`. */
    method CreateComment(c: Comment)
      modifies this`comments, this`sessions
      ensures State() == CommentRow(old(State()), c)
    {
      comments := comments + [c];
      if c.sessionId < |sessions| {
        sessions := sessions[c.sessionId := sessions[c.sessionId].(isCommented := true)];
      }
    }
  }
}
