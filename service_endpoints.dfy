/** The central service's request endpoints other than event ingestion:
    `create_session`, `create_comment` and `update_username`, which change
    the store, and the two views `get_current_editors` and
    `get_user_activity`, which build their lists in a loop.  Each endpoint
    is a function on store values and a method on the `Store`. */
module ServiceEndpoints {
  import opened Base
  import opened ServiceStore
  import opened ServiceHandlers
  import opened ServiceLaws

  // ---------------------------------------------------------------------
  // create_session

  /** The body of a `create_session` request; `file_name` may be absent. */
  datatype SessionRequest = SessionRequest(username: string, filePath: string, fileName: Option<string>,
                                           fileHash: Option<string>, resumeCount: int)

  /** The reply: the id of the session already open, or of a new one. */
  datatype Opening = Existing(id: nat) | Fresh(id: nat)

  /** The file name used for a new file row: the one given, else the last
      `/`-separated component of the path. */
  function NameOf(q: SessionRequest): string
  {
    if q.fileName.Some? then q.fileName.value else AfterLast(q.filePath, '/')
  }

  /** The store after the user and file lookups of a request, and the ids. */
  function Located(db: Db, q: SessionRequest): (Db, nat, nat)
  {
    var (db1, u) := UserRow(db, q.username);
    var (db2, f) := CreateFileRow(db1, q.filePath, NameOf(q));
    (db2, u, f)
  }

  function OpenSession(db: Db, q: SessionRequest, now: int): (Db, Opening)
  {
    var (db2, u, f) := Located(db, q);
    var active := ActiveSessions(db2, u, f);
    if active != [] then (db2, Existing(active[0]))
    else (WithSession(db2, FileSession(u, f, now, now, None, q.fileHash, None, false, q.resumeCount)),
          Fresh(|db2.sessions|))
  }

  /** The reply names an active session of the user on the file; an open
      session is returned as is, and a new one is opened only when there is
      none, and is then the pair's only active session. */
  lemma OpenSessionSpec(db: Db, q: SessionRequest, now: int)
    ensures var (db2, u, f) := Located(db, q);
      var (db3, r) := OpenSession(db, q, now);
      r.id < |db3.sessions| && ActiveFor(db3.sessions[r.id], u, f)
      && db2.users[u].username == q.username && db2.files[f].path == q.filePath
      && (r.Existing? <==> ActiveSessions(db2, u, f) != [])
      && (r.Existing? ==> db3 == db2 && r.id == ActiveSessions(db2, u, f)[0])
      && (r.Fresh? ==>
            db3.sessions == db2.sessions + [db3.sessions[r.id]] && ActiveSessions(db3, u, f) == [r.id]
            && db3.sessions[r.id].startedAt == now && db3.sessions[r.id].lastActivity == now
            && db3.sessions[r.id].hashBefore == q.fileHash && db3.sessions[r.id].resumeCount == q.resumeCount
            && !db3.sessions[r.id].isCommented)
  {
    var (db2, u, f) := Located(db, q);
    var (db3, r) := OpenSession(db, q, now);
    if r.Fresh? {
      OnlyActiveAfterAppend(db2, db3, u, f);
    }
  }

  /** Asking again for the same user and file returns the same session and
      changes nothing. */
  lemma OpenSessionIdempotent(db: Db, q: SessionRequest, now: int, later: int)
    ensures var (db3, r) := OpenSession(db, q, now);
      OpenSession(db3, q, later) == (db3, Existing(r.id))
  {
    var (db2, u, f) := Located(db, q);
    var (db3, r) := OpenSession(db, q, now);
    OpenSessionSpec(db, q, now);
    LocatedAgain(db, q, db3);
  }

  /** The lookups of a request find the rows they found before, in any
      store with the same user and file tables. */
  lemma LocatedAgain(db: Db, q: SessionRequest, db3: Db)
    requires db3.users == Located(db, q).0.users && db3.files == Located(db, q).0.files
    ensures Located(db3, q) == (db3, Located(db, q).1, Located(db, q).2)
  {
    var (db1, u) := UserRow(db, q.username);
    UserRowIdempotent(db, q.username);
    CreateFileIdempotent(db1, q.filePath, NameOf(q), NameOf(q));
    assert FindUser(db3.users, q.username) == FindUser(db1.users, q.username);
  }

  /** Looking a name up again after `UserRow` finds the row it returned. */
  lemma UserRowIdempotent(db: Db, username: string)
    ensures var (db1, u) := UserRow(db, username); UserRow(db1, username) == (db1, u)
  {
    var (db1, u) := UserRow(db, username);
    if FindUser(db.users, username).None? {
      assert FindUser(db1.users, username) == Some(|db.users|) by {
        forall i | 0 <= i < |db.users| ensures db1.users[i].username != username {
          assert db1.users[i] == db.users[i];
        }
      }
    }
  }

  /** `create_session` never opens a second session on a user and file. */
  lemma OpenSessionKeepsOne(db: Db, q: SessionRequest, now: int)
    requires OneActive(db.sessions)
    ensures OneActive(OpenSession(db, q, now).0.sessions)
  {
    var (db2, u, f) := Located(db, q);
    if ActiveSessions(db2, u, f) == [] {
      AppendKeepsOne(db2, FileSession(u, f, now, now, None, q.fileHash, None, false, q.resumeCount));
    }
  }

  lemma OpenSessionKeepsValid(db: Db, q: SessionRequest, now: int)
    requires Valid(db)
    ensures Valid(OpenSession(db, q, now).0)
  {
    var (db1, u) := UserRow(db, q.username);
    UserRowValid(db, q.username);
    FileRowValid(db1, q.filePath, NameOf(q));
    var (db2, _, f) := Located(db, q);
    var db3 := OpenSession(db, q, now).0;
    assert forall i | 0 <= i < |db2.sessions| :: db3.sessions[i] == db2.sessions[i];
  }

  method CreateSession(db: Store, q: SessionRequest, now: int) returns (r: Opening)
    modifies db
    ensures (db.State(), r) == OpenSession(old(db.State()), q, now)
  {
    var u := db.GetOrCreateUser(q.username);
    var name := if q.fileName.Some? then q.fileName.value else AfterLast(q.filePath, '/');
    var f := db.CreateFile(q.filePath, name);
    var active := ActiveSessions(db.State(), u, f);
    if active != [] {
      return Existing(active[0]);
    }
    var s := db.CreateFileSession(FileSession(u, f, now, now, None, q.fileHash, None, false, q.resumeCount));
    return Fresh(s);
  }

  // ---------------------------------------------------------------------
  // create_comment

  datatype CommentReply = Stored(comment: Comment) | Refused(status: nat, detail: string)

  /** `get_comment_by_session`: the first comment on a session. */
  function CommentOn(comments: seq<Comment>, sessionId: nat, from: nat := 0): (r: Option<nat>)
    requires from <= |comments|
    ensures r.Some? ==> from <= r.value < |comments| && comments[r.value].sessionId == sessionId
    ensures r.None? <==> forall i | from <= i < |comments| :: comments[i].sessionId != sessionId
    decreases |comments| - from
  {
    if from == |comments| then None
    else if comments[from].sessionId == sessionId then Some(from)
    else CommentOn(comments, sessionId, from + 1)
  }

  function AddComment(db: Db, c: Comment, now: int): (Db, CommentReply)
  {
    if c.sessionId >= |db.sessions| then (db, Refused(404, "Session not found"))
    else if c.userId >= |db.users| then (db, Refused(404, "User not found"))
    else if CommentOn(db.comments, c.sessionId).Some? then (db, Refused(400, "Comment already exists for this session"))
    else
      var s := c.sessionId;
      (CommentRow(Update(db, s, db.sessions[s].(endedAt := Some(now), isCommented := true)), c), Stored(c))
  }

  /** A comment is stored exactly when its session and user exist and the
      session has no comment yet; then the session is marked commented and
      ended now, whatever its `ended_at` was, and nothing else changes.  A
      refused comment changes nothing. */
  lemma AddCommentSpec(db: Db, c: Comment, now: int)
    ensures var (db2, r) := AddComment(db, c, now);
      (r.Stored? <==> c.sessionId < |db.sessions| && c.userId < |db.users|
                      && forall i | 0 <= i < |db.comments| :: db.comments[i].sessionId != c.sessionId)
      && (r.Refused? ==> db2 == db && (r.status == 404 || r.status == 400))
      && (r.Refused? ==> (r.status == 404 <==> c.sessionId >= |db.sessions| || c.userId >= |db.users|))
      && (r.Stored? ==>
            r.comment == c && db2.comments == db.comments + [c]
            && db2.users == db.users && db2.files == db.files && db2.events == db.events
            && |db2.sessions| == |db.sessions|
            && db2.sessions[c.sessionId].endedAt == Some(now) && db2.sessions[c.sessionId].isCommented
            && Keeps(db.sessions[c.sessionId].(isCommented := true), db2.sessions[c.sessionId])
            && db2.sessions[c.sessionId].lastActivity == db.sessions[c.sessionId].lastActivity
            && forall i | 0 <= i < |db.sessions| && i != c.sessionId :: db2.sessions[i] == db.sessions[i])
  {
  }

  /** Commenting twice on one session: the second comment is refused with
      400 and changes nothing. */
  lemma SecondCommentRefused(db: Db, c: Comment, c': Comment, now: int, later: int)
    requires c'.sessionId == c.sessionId && c'.userId < |db.users|
    ensures var (db2, r) := AddComment(db, c, now);
      r.Stored? ==> AddComment(db2, c', later) == (db2, Refused(400, "Comment already exists for this session"))
  {
    var (db2, r) := AddComment(db, c, now);
    if r.Stored? {
      assert db2.comments[|db.comments|].sessionId == c'.sessionId;
    }
  }

  /** The refusal of a second comment keeps `comments.session_id` unique, so
      `create_comment` keeps the store valid. */
  lemma AddCommentKeepsValid(db: Db, c: Comment, now: int)
    requires Valid(db)
    ensures Valid(AddComment(db, c, now).0)
  {
    var (db2, r) := AddComment(db, c, now);
    if r.Stored? {
      AddCommentSpec(db, c, now);
      assert forall i | 0 <= i < |db.sessions| :: Keeps(db.sessions[i], db2.sessions[i].(isCommented := db.sessions[i].isCommented));
      forall i | 0 <= i < |db2.comments|
        ensures db2.comments[i].sessionId < |db2.sessions| && db2.comments[i].userId < |db2.users|
      {
        if i < |db.comments| {
          assert db2.comments[i] == db.comments[i];
        }
      }
      forall i, j | 0 <= i < j < |db2.comments| ensures db2.comments[i].sessionId != db2.comments[j].sessionId {
        assert db2.comments[i] == db.comments[i];
        if j < |db.comments| {
          assert db2.comments[j] == db.comments[j];
        }
      }
    }
  }

  method PostComment(db: Store, c: Comment, now: int) returns (r: CommentReply)
    modifies db
    ensures (db.State(), r) == AddComment(old(db.State()), c, now)
  {
    if c.sessionId >= |db.sessions| {
      return Refused(404, "Session not found");
    }
    if c.userId >= |db.users| {
      return Refused(404, "User not found");
    }
    if CommentOn(db.comments, c.sessionId).Some? {
      return Refused(400, "Comment already exists for this session");
    }
    var s := c.sessionId;
    db.sessions := db.sessions[s := db.sessions[s].(endedAt := Some(now), isCommented := true)];
    db.CreateComment(c);
    return Stored(c);
  }

  // ---------------------------------------------------------------------
  // update_username

  /** The `user_id` path parameter: a well-formed id or not. */
  datatype UserArg = BadUserId | UserUuid(id: nat)

  datatype RenameReply =
    | Renamed(id: nat, oldName: string, newName: string, email: Option<string>)
    | RenameRefused(status: nat, detail: string)

  function Rename(db: Db, arg: UserArg, name: string): (Db, RenameReply)
  {
    if arg.BadUserId? then (db, RenameRefused(400, "Invalid user ID format"))
    else if arg.id >= |db.users| then (db, RenameRefused(404, "User not found"))
    else if IsBlank(name) then (db, RenameRefused(400, "Username cannot be empty"))
    else
      var holder := FindUser(db.users, name);
      if holder.Some? && holder.value != arg.id then (db, RenameRefused(400, "Username already taken"))
      else
        var user := db.users[arg.id];
        (db.(users := db.users[arg.id := user.(username := name)]),
         Renamed(arg.id, user.username, name, user.email))
  }

  /** On a valid store, a rename succeeds exactly when the id is well formed
      and known, the name is not blank and no other user holds it; it then
      changes that user's name only.  A refused rename changes nothing. */
  lemma RenameSpec(db: Db, arg: UserArg, name: string)
    requires Valid(db)
    ensures var (db2, r) := Rename(db, arg, name);
      (r.Renamed? <==> arg.UserUuid? && arg.id < |db.users| && !IsBlank(name)
                       && forall j | 0 <= j < |db.users| && j != arg.id :: db.users[j].username != name)
      && (r.RenameRefused? ==> db2 == db)
      && (r.Renamed? ==>
            r.id == arg.id && r.oldName == db.users[arg.id].username && r.newName == name
            && db2 == db.(users := db.users[arg.id := db.users[arg.id].(username := name)])
            && FindUser(db2.users, name) == Some(arg.id))
  {
    var (db2, r) := Rename(db, arg, name);
    if arg.UserUuid? && arg.id < |db.users| && !IsBlank(name) {
      var holder := FindUser(db.users, name);
      if holder.Some? && holder.value != arg.id {
        assert db.users[holder.value].username == name;
      }
    }
    if r.Renamed? {
      RenameKeepsValid(db, arg, name);
      FindUserUnique(db2.users, name, arg.id);
    }
  }

  /** Usernames stay unique across a rename. */
  lemma RenameKeepsValid(db: Db, arg: UserArg, name: string)
    requires Valid(db)
    ensures Valid(Rename(db, arg, name).0)
  {
    var (db2, r) := Rename(db, arg, name);
    if r.Renamed? {
      forall i, j | 0 <= i < j < |db2.users| ensures db2.users[i].username != db2.users[j].username {
        if i == arg.id || j == arg.id {
          var other := if i == arg.id then j else i;
          if db.users[other].username == name {
            FindUserUnique(db.users, name, other);
          }
        }
      }
    }
  }

  method UpdateUsername(db: Store, arg: UserArg, name: string) returns (r: RenameReply)
    modifies db`users
    ensures (db.State(), r) == Rename(old(db.State()), arg, name)
  {
    if arg.BadUserId? {
      return RenameRefused(400, "Invalid user ID format");
    }
    if arg.id >= |db.users| {
      return RenameRefused(404, "User not found");
    }
    if IsBlank(name) {
      return RenameRefused(400, "Username cannot be empty");
    }
    var holder := FindUser(db.users, name);
    if holder.Some? && holder.value != arg.id {
      return RenameRefused(400, "Username already taken");
    }
    var user := db.users[arg.id];
    db.users := db.users[arg.id := user.(username := name)];
    return Renamed(arg.id, user.username, name, user.email);
  }

  // ---------------------------------------------------------------------
  // get_current_editors

  datatype Editor = Editor(username: string, lastActivity: int, sessionId: nat)

  datatype EditorsReply = NoFile | Editors(filePath: string, fileName: string, editors: seq<Editor>)

  /** Session `i` is open on file `f` and its user row exists. */
  predicate Editing(db: Db, f: nat, i: nat)
  {
    i < |db.sessions| && db.sessions[i].fileId == f && db.sessions[i].endedAt.None?
    && db.sessions[i].userId < |db.users|
  }

  function EditorRow(db: Db, i: nat): Editor
    requires i < |db.sessions| && db.sessions[i].userId < |db.users|
  {
    Editor(db.users[db.sessions[i].userId].username, db.sessions[i].lastActivity, i)
  }

  /** The editors found among the first `n` sessions, in table order. */
  function EditorsIn(db: Db, f: nat, n: nat): seq<Editor>
    requires n <= |db.sessions|
  {
    if n == 0 then []
    else EditorsIn(db, f, n - 1) + (if Editing(db, f, n - 1) then [EditorRow(db, n - 1)] else [])
  }

  /** The editors among the first `n` sessions are exactly the open sessions
      on the file whose user exists, each once, in table order. */
  lemma {:induction false} EditorsInSpec(db: Db, f: nat, n: nat)
    requires n <= |db.sessions|
    ensures var r := EditorsIn(db, f, n);
      && (forall e | e in r :: e.sessionId < n && Editing(db, f, e.sessionId) && e == EditorRow(db, e.sessionId))
      && (forall i | 0 <= i < n && Editing(db, f, i) :: EditorRow(db, i) in r)
      && (forall k, l | 0 <= k < l < |r| :: r[k].sessionId < r[l].sessionId)
  {
    if n > 0 {
      EditorsInSpec(db, f, n - 1);
      var front := EditorsIn(db, f, n - 1);
      var r := EditorsIn(db, f, n);
      forall k, l | 0 <= k < l < |r|
        ensures r[k].sessionId < r[l].sessionId
      {
        assert r[k] in r[..|front|] by { assert r[k] == front[k]; }
        if l < |front| {
          assert r[k] == front[k] && r[l] == front[l];
        } else {
          assert front[k] in front;
        }
      }
    }
  }

  function LastActive(e: Editor): int { e.lastActivity }

  function CurrentEditors(db: Db, path: string): EditorsReply
  {
    match FindFile(db.files, path)
    case None => NoFile
    case Some(f) => Editors(path, db.files[f].name, SortDesc(EditorsIn(db, f, |db.sessions|), LastActive))
  }

  /** An unknown path has no editors; otherwise the list holds one entry per
      open session on the file whose user exists, and nothing else, most
      recently active first. */
  lemma CurrentEditorsSpec(db: Db, path: string)
    ensures var r := CurrentEditors(db, path);
      (r.NoFile? <==> FindFile(db.files, path).None?)
      && (r.Editors? ==>
            var f := FindFile(db.files, path).value;
            r.fileName == db.files[f].name
            && SortedDesc(r.editors, LastActive)
            && multiset(r.editors) == multiset(EditorsIn(db, f, |db.sessions|))
            && (forall k | 0 <= k < |r.editors| ::
                  Editing(db, f, r.editors[k].sessionId) && r.editors[k] == EditorRow(db, r.editors[k].sessionId))
            && (forall i | 0 <= i < |db.sessions| && Editing(db, f, i) :: EditorRow(db, i) in r.editors))
  {
    var r := CurrentEditors(db, path);
    if r.Editors? {
      var f := FindFile(db.files, path).value;
      var w := EditorsIn(db, f, |db.sessions|);
      assert r.editors == SortDesc(w, LastActive);
      SortDescSorted(w, LastActive);
      SortedEditorsSound(db, f);
      SortedEditorsComplete(db, f);
      forall k | 0 <= k < |r.editors|
        ensures Editing(db, f, r.editors[k].sessionId) && r.editors[k] == EditorRow(db, r.editors[k].sessionId)
      {
        assert r.editors[k] in SortDesc(w, LastActive);
      }
    }
  }

  /** Sorting the editors of file `f` brings in no other row. */
  lemma SortedEditorsSound(db: Db, f: nat)
    ensures forall x | x in SortDesc(EditorsIn(db, f, |db.sessions|), LastActive) ::
      Editing(db, f, x.sessionId) && x == EditorRow(db, x.sessionId)
  {
    var w := EditorsIn(db, f, |db.sessions|);
    var e := SortDesc(w, LastActive);
    EditorsInSpec(db, f, |db.sessions|);
    forall x | x in e
      ensures Editing(db, f, x.sessionId) && x == EditorRow(db, x.sessionId)
    {
      assert x in multiset(e);
    }
  }

  /** Sorting the editors of file `f` drops none of them. */
  lemma SortedEditorsComplete(db: Db, f: nat)
    ensures var e := SortDesc(EditorsIn(db, f, |db.sessions|), LastActive);
      forall i | 0 <= i < |db.sessions| && Editing(db, f, i) :: EditorRow(db, i) in e
  {
    var w := EditorsIn(db, f, |db.sessions|);
    EditorsInSpec(db, f, |db.sessions|);
    SortedKeeps(w, LastActive);
  }

  method GetCurrentEditors(db: Store, path: string) returns (r: EditorsReply)
    ensures r == CurrentEditors(db.State(), path)
  {
    var found := FindFile(db.files, path);
    if found.None? {
      return NoFile;
    }
    var f := found.value;
    var editors := CollectEditors(db, f);
    return Editors(path, db.files[f].name, SortDesc(editors, LastActive));
  }

  /** The loop over the open sessions of file `f`, keeping those whose user
      exists. */
  method CollectEditors(db: Store, f: nat) returns (editors: seq<Editor>)
    ensures editors == EditorsIn(db.State(), f, |db.sessions|)
  {
    ghost var st := db.State();
    var sessions, users := db.sessions, db.users;
    editors := [];
    var i := 0;
    while i < |sessions|
      invariant 0 <= i <= |sessions|
      invariant editors == EditorsIn(st, f, i)
    {
      var s := sessions[i];
      if s.fileId == f && s.endedAt.None? && s.userId < |users| {
        editors := editors + [Editor(users[s.userId].username, s.lastActivity, i)];
      }
      i := i + 1;
    }
  }

  // ---------------------------------------------------------------------
  // get_user_activity

  /** One session of the user, with its file; `ended` and `duration` are
      given for closed sessions only. */
  datatype FileActivity = FileActivity(
    filePath: string, fileName: string, started: int, lastActivity: int, sessionId: nat,
    resumeCount: int, isCommented: bool, ended: Option<int>, duration: Option<int>)

  datatype ActivityReply =
    | ActivityReport(userId: nat, active: seq<FileActivity>, recent: seq<FileActivity>)
    | ActivityFailed(status: nat, detail: string)

  /** Closed sessions are listed for 24 hours after they end. */
  const RecentWindow: int := 24 * 3600

  /** Session `i` belongs to user `u` and its file row exists. */
  predicate Shown(db: Db, u: nat, i: nat)
  {
    i < |db.sessions| && db.sessions[i].userId == u && db.sessions[i].fileId < |db.files|
  }

  predicate OpenOf(db: Db, u: nat, i: nat)
  {
    Shown(db, u, i) && db.sessions[i].endedAt.None?
  }

  predicate RecentOf(db: Db, u: nat, i: nat, now: int)
  {
    Shown(db, u, i) && db.sessions[i].endedAt.Some? && now - db.sessions[i].endedAt.value <= RecentWindow
  }

  function Entry(db: Db, i: nat): FileActivity
    requires i < |db.sessions| && db.sessions[i].fileId < |db.files|
  {
    var s := db.sessions[i];
    var file := db.files[s.fileId];
    FileActivity(file.path, file.name, s.startedAt, s.lastActivity, i, s.resumeCount, s.isCommented,
                 s.endedAt, if s.endedAt.Some? then Some(s.endedAt.value - s.startedAt) else None)
  }

  /** The open and the recently closed sessions of user `u` among the first
      `n` sessions, in table order. */
  function ActivityIn(db: Db, u: nat, now: int, n: nat): (r: (seq<FileActivity>, seq<FileActivity>))
    requires n <= |db.sessions|
    ensures forall k | 0 <= k < |r.0| ::
      r.0[k].sessionId < n && OpenOf(db, u, r.0[k].sessionId) && r.0[k] == Entry(db, r.0[k].sessionId)
    ensures forall k | 0 <= k < |r.1| ::
      r.1[k].sessionId < n && RecentOf(db, u, r.1[k].sessionId, now) && r.1[k] == Entry(db, r.1[k].sessionId)
    ensures forall i | 0 <= i < n && OpenOf(db, u, i) :: Entry(db, i) in r.0
    ensures forall i | 0 <= i < n && RecentOf(db, u, i, now) :: Entry(db, i) in r.1
  {
    if n == 0 then ([], [])
    else
      var (a, c) := ActivityIn(db, u, now, n - 1);
      if OpenOf(db, u, n - 1) then (a + [Entry(db, n - 1)], c)
      else if RecentOf(db, u, n - 1, now) then (a, c + [Entry(db, n - 1)])
      else (a, c)
  }

  function Report(db: Db, u: nat, now: int): ActivityReply
  {
    var (a, c) := ActivityIn(db, u, now, |db.sessions|);
    ActivityReport(u, a, c)
  }

  /** `get_user_activity` as written: the 404 raised for an unknown user is
      caught by the endpoint's own catch-all handler and re-raised as 500. */
  function UserActivityAsWritten(db: Db, username: string, now: int): ActivityReply
  {
    match FindUser(db.users, username)
    case None => ActivityFailed(500, "Error getting user activity: 404: User not found")
    case Some(u) => Report(db, u, now)
  }

  /** `get_user_activity` with the 404 reaching the caller. */
  function UserActivity(db: Db, username: string, now: int): ActivityReply
  {
    match FindUser(db.users, username)
    case None => ActivityFailed(404, "User not found")
    case Some(u) => Report(db, u, now)
  }

  /** As written, an unknown user is reported as a server error. */
  lemma UnknownUserIsServerError(db: Db, username: string, now: int)
    requires forall i | 0 <= i < |db.users| :: db.users[i].username != username
    ensures UserActivityAsWritten(db, username, now).ActivityFailed?
    ensures UserActivityAsWritten(db, username, now).status == 500
  {
  }

  /** The intended endpoint: it fails, with 404, exactly for an unknown
      user; otherwise it lists every open session of the user and every
      session that closed within the last 24 hours, with its duration, and
      no other session, and agrees with the code as written. */
  lemma UserActivitySpec(db: Db, username: string, now: int)
    ensures var r := UserActivity(db, username, now);
      (r.ActivityFailed? <==> forall i | 0 <= i < |db.users| :: db.users[i].username != username)
      && (r.ActivityFailed? ==> r.status == 404)
      && (r.ActivityReport? ==>
            r.userId < |db.users| && db.users[r.userId].username == username
            && r == UserActivityAsWritten(db, username, now)
            && (forall k | 0 <= k < |r.active| ::
                  OpenOf(db, r.userId, r.active[k].sessionId) && r.active[k].ended.None?
                  && r.active[k] == Entry(db, r.active[k].sessionId))
            && (forall k | 0 <= k < |r.recent| ::
                  RecentOf(db, r.userId, r.recent[k].sessionId, now)
                  && r.recent[k].ended.Some? && r.recent[k].duration.Some?
                  && now - r.recent[k].ended.value <= RecentWindow
                  && r.recent[k].duration.value == r.recent[k].ended.value - r.recent[k].started)
            && (forall i | 0 <= i < |db.sessions| && OpenOf(db, r.userId, i) :: Entry(db, i) in r.active)
            && (forall i | 0 <= i < |db.sessions| && RecentOf(db, r.userId, i, now) :: Entry(db, i) in r.recent))
  {
  }

  /** The endpoint as written: the 404 for an unknown user is caught by the
      catch-all handler around the body and replied as 500. */
  method GetUserActivity(db: Store, username: string, now: int) returns (r: ActivityReply)
    ensures r == UserActivityAsWritten(db.State(), username, now)
  {
    var user := FindUser(db.users, username);
    if user.None? {
      return ActivityFailed(500, "Error getting user activity: 404: User not found");
    }
    var u := user.value;
    var active: seq<FileActivity> := [];
    var recent: seq<FileActivity> := [];
    var i := 0;
    while i < |db.sessions|
      invariant 0 <= i <= |db.sessions|
      invariant (active, recent) == ActivityIn(db.State(), u, now, i)
    {
      var s := db.sessions[i];
      if s.userId == u && s.fileId < |db.files| {
        var file := db.files[s.fileId];
        if s.endedAt.None? {
          active := active + [FileActivity(file.path, file.name, s.startedAt, s.lastActivity, i,
                                           s.resumeCount, s.isCommented, None, None)];
        } else if now - s.endedAt.value <= RecentWindow {
          recent := recent + [FileActivity(file.path, file.name, s.startedAt, s.lastActivity, i,
                                           s.resumeCount, s.isCommented, s.endedAt,
                                           Some(s.endedAt.value - s.startedAt))];
        }
      }
      i := i + 1;
    }
    return ActivityReport(u, active, recent);
  }
}
