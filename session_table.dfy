/** The agent's local session table: at most one active editing session per
    (file, user) pair, plus a short history of closed sessions per pair.
    Time is passed in explicitly as whole seconds; session identifiers come
    from a counter, so a new identifier is never one already issued. */
module SessionTable {
  import opened Base

  /** A (file path, user) pair.  The agent writes this as `path + ":" + user`;
      see SourceKeyInjective for when the two agree. */
  datatype Key = Key(path: string, user: string)

  /** One session record.  `coEditors` and `isMultiUser` are carried so the
      statistics can count them; no operation of the table sets them. */
  datatype LocalSession = LocalSession(
    sessionId: nat,
    filePath: string,
    username: string,
    startedAt: int,
    lastActivity: int,
    resumeCount: int,
    hashBefore: Option<string>,
    hashAfter: Option<string>,
    endedAt: Option<int>,
    resumedAt: Option<int>,
    isCommented: bool,
    coEditors: seq<string>,
    isMultiUser: bool)

  datatype SessionStats = SessionStats(
    activeSessions: nat, closedSessions: nat, multiUserSessions: nat, historySize: nat)

  const HistoryCap: nat := 5
  const DefaultTimeoutMinutes: int := 30
  const DefaultMaxSessionHours: int := 3
  const DefaultResumeWindowHours: int := 1

  function KeyOf(s: LocalSession): Key { Key(s.filePath, s.username) }

  /** The record's `file_name`, which the agent always sets to the base name
      of its path. */
  function FileName(s: LocalSession): string { BaseName(s.filePath) }

  // ---------------------------------------------------------------------
  // The textual key

  /** The key as the agent spells it. */
  function SourceKey(path: string, user: string): string { path + ":" + user }

  /** The textual key identifies the pair whenever user names hold no ':'
      (Windows account names cannot). */
  lemma SourceKeyInjective(p1: string, u1: string, p2: string, u2: string)
    requires ':' !in u1 && ':' !in u2
    requires SourceKey(p1, u1) == SourceKey(p2, u2)
    ensures p1 == p2 && u1 == u2
  {
    var s := SourceKey(p1, u1);
    assert |s| == |p1| + 1 + |u1| == |p2| + 1 + |u2|;
    assert s[|p1|] == ':' && s[|p2|] == ':';
    assert |p1| == |p2|;
    assert p1 == s[..|p1|] == p2;
    assert u1 == s[|p1| + 1..] == u2;
  }

  /** Without that restriction two different pairs share one textual key. */
  lemma SourceKeyCollides()
    ensures SourceKey("C:\\a", "b:c") == SourceKey("C:\\a:b", "c")
  {
  }

  // ---------------------------------------------------------------------
  // Pure rules

  /** `_is_session_expired`: idle for longer than the timeout, or older than
      the maximum session age. */
  predicate Expired(s: LocalSession, now: int, timeoutMinutes: int, maxSessionHours: int)
  {
    now - s.lastActivity > timeoutMinutes * 60 || now - s.startedAt > maxSessionHours * 3600
  }

  /** `_can_resume_session`. */
  predicate CanResume(s: LocalSession)
  {
    !s.isCommented && s.endedAt.None?
  }

  /** The record `close_session` stamps before archiving it. */
  function CloseRecord(s: LocalSession, hash: Option<string>, now: int): (r: LocalSession)
    ensures r.endedAt == Some(now) && r.hashAfter == hash
    ensures r.sessionId == s.sessionId && KeyOf(r) == KeyOf(s)
    ensures r.startedAt == s.startedAt && r.lastActivity == s.lastActivity
    ensures r.resumeCount == s.resumeCount && r.isCommented == s.isCommented
  {
    s.(endedAt := Some(now), hashAfter := hash)
  }

  /** The record `_resume_session` puts back into the active table. */
  function ResumedRecord(s: LocalSession, hash: Option<string>, now: int): (r: LocalSession)
    ensures r.endedAt.None? && r.hashAfter.None? && r.hashBefore == hash
    ensures r.lastActivity == now && r.resumedAt == Some(now)
    ensures r.resumeCount == s.resumeCount + 1
    ensures r.sessionId == s.sessionId && KeyOf(r) == KeyOf(s) && r.startedAt == s.startedAt
    ensures r.coEditors == s.coEditors && r.isMultiUser == s.isMultiUser
  {
    s.(lastActivity := now, resumedAt := Some(now), resumeCount := s.resumeCount + 1,
       hashBefore := hash, endedAt := None, hashAfter := None)
  }

  /** The record `_create_new_session` builds. */
  function NewRecord(id: nat, path: string, user: string, hash: Option<string>, now: int): (r: LocalSession)
    ensures r.sessionId == id && KeyOf(r) == Key(path, user)
    ensures r.startedAt == now && r.lastActivity == now && r.resumeCount == 0
    ensures r.hashBefore == hash && r.hashAfter.None? && r.endedAt.None? && !r.isCommented
  {
    LocalSession(id, path, user, now, now, 0, hash, None, None, None, false, [], false)
  }

  /** `_find_recently_closed`: the newest archived record of the key, if it
      can be resumed and was closed within the window.  A resumable record
      has no end time, so the window test never passes. */
  function FindRecentlyClosed(closed: map<Key, seq<LocalSession>>, k: Key, hours: int, now: int)
    : (r: Option<LocalSession>)
    ensures r.None?
  {
    if k !in closed || |closed[k]| == 0 then None
    else
      var last := closed[k][|closed[k]| - 1];
      if !CanResume(last) then None
      else match last.endedAt
        case Some(t) => if now - t <= hours * 3600 then Some(last) else None
        case None => None
  }

  predicate HasId(h: seq<LocalSession>, id: nat)
  {
    exists i | 0 <= i < |h| :: h[i].sessionId == id
  }

  predicate DistinctIds(h: seq<LocalSession>)
  {
    forall i, j | 0 <= i < j < |h| :: h[i].sessionId != h[j].sessionId
  }

  function HistoryOf(closed: map<Key, seq<LocalSession>>, k: Key): seq<LocalSession>
  {
    if k in closed then closed[k] else []
  }

  /** The history after archiving `s`: appended unless its identifier is
      already there, then cut down to the five most recent entries. */
  function Archive(h: seq<LocalSession>, s: LocalSession): (r: seq<LocalSession>)
    ensures |r| <= HistoryCap
  {
    var full := if HasId(h, s.sessionId) then h else h + [s];
    if |full| > HistoryCap then full[|full| - HistoryCap..] else full
  }

  /** Archiving keeps the most recent entries, puts a record with a new
      identifier last, never adds an identifier already present, and keeps
      identifiers distinct. */
  lemma ArchiveKeepsNewest(h: seq<LocalSession>, s: LocalSession)
    ensures var full := if HasId(h, s.sessionId) then h else h + [s];
      var r := Archive(h, s);
      |r| == (if |full| > HistoryCap then HistoryCap else |full|) && r == full[|full| - |r|..]
    ensures !HasId(h, s.sessionId) ==> Archive(h, s)[|Archive(h, s)| - 1] == s
    ensures HasId(h, s.sessionId) ==> forall x | x in Archive(h, s) :: x in h
    ensures forall x | x in Archive(h, s) :: x in h || x == s
    ensures DistinctIds(h) ==> DistinctIds(Archive(h, s))
  {
    var full := if HasId(h, s.sessionId) then h else h + [s];
    var r := Archive(h, s);
    var d := |full| - |r|;
    assert r == full[d..];
    forall x | x in r
      ensures x in full
    {
      var i :| 0 <= i < |r| && r[i] == x;
      assert full[d + i] == x;
    }
    if DistinctIds(h) {
      if !HasId(h, s.sessionId) {
        forall i, j | 0 <= i < j < |full|
          ensures full[i].sessionId != full[j].sessionId
        {
          if j == |h| {
            assert full[j] == s && full[i] == h[i];
          } else {
            assert full[i] == h[i] && full[j] == h[j];
          }
        }
      }
      SuffixKeepsDistinct(full, d);
    }
  }

  lemma SuffixKeepsDistinct(h: seq<LocalSession>, d: nat)
    requires DistinctIds(h) && d <= |h|
    ensures DistinctIds(h[d..])
  {
    forall i, j | 0 <= i < j < |h| - d
      ensures h[d..][i].sessionId != h[d..][j].sessionId
    {
      assert h[d..][i] == h[d + i] && h[d..][j] == h[d + j];
    }
  }

  /** The two tables and the identifier counter as one value. */
  datatype TableState = TableState(
    active: map<Key, LocalSession>, closed: map<Key, seq<LocalSession>>, nextId: nat)

  /** The tables after `close_session` on `k` with final hash `hash`: the key
      leaves the active table and its stamped record is archived; without an
      active session nothing changes. */
  function AfterClose(t: TableState, k: Key, hash: Option<string>, now: int): (r: TableState)
    ensures k !in t.active ==> r == t
    ensures r.active == t.active - {k} && r.nextId == t.nextId
    ensures forall j | j != k :: HistoryOf(r.closed, j) == HistoryOf(t.closed, j)
    ensures k in t.active ==> k in r.closed && |r.closed[k]| <= HistoryCap
  {
    if k !in t.active then t
    else
      var s := CloseRecord(t.active[k], hash, now);
      TableState(t.active - {k}, t.closed[k := Archive(HistoryOf(t.closed, k), s)], t.nextId)
  }

  /** What `smart_create_session` returns and leaves behind.  `live` says
      whether the key has an active session that has not expired. */
  function SmartCreateResult(t: TableState, path: string, user: string, hash: Option<string>,
                             now: int, live: bool): (r: (LocalSession, TableState))
    requires live ==> Key(path, user) in t.active
    ensures Key(path, user) in r.1.active && r.1.active[Key(path, user)] == r.0
    ensures forall j | j != Key(path, user) && j in t.active :: j in r.1.active && r.1.active[j] == t.active[j]
    ensures live ==> var old_ := t.active[Key(path, user)];
      && r.0.sessionId == old_.sessionId && r.0.startedAt == old_.startedAt
      && r.0.resumeCount == old_.resumeCount && r.0.lastActivity == now
      && r.0 == old_.(lastActivity := now)
      && r.1.closed == t.closed && r.1.nextId == t.nextId
    ensures !live ==>
      && r.0.sessionId == t.nextId && r.0.resumeCount == 0 && r.0.hashAfter.None?
      && r.0.startedAt == now && r.0.lastActivity == now && r.0.hashBefore == hash
      && r.1.nextId == t.nextId + 1
      && r.1.closed == AfterClose(t, Key(path, user), None, now).closed
  {
    var k := Key(path, user);
    if live then
      var s := t.active[k].(lastActivity := now);
      (s, t.(active := t.active[k := s]))
    else
      var closed := AfterClose(t, k, None, now);
      var s := NewRecord(t.nextId, path, user, hash, now);
      (s, TableState(closed.active[k := s], closed.closed, t.nextId + 1))
  }

  /** Position of the first entry equal to `s`. */
  function IndexOf(h: seq<LocalSession>, s: LocalSession): (i: nat)
    requires s in h
    ensures i < |h| && h[i] == s
    ensures forall j | 0 <= j < i :: h[j] != s
  {
    if h[0] == s then 0 else 1 + IndexOf(h[1..], s)
  }

  /** `list.remove` when the entry is present: drop its first occurrence. */
  function RemoveFirst(h: seq<LocalSession>, s: LocalSession): (r: seq<LocalSession>)
    ensures s !in h ==> r == h
    ensures s in h ==> |r| == |h| - 1
    ensures s in h ==> forall i | 0 <= i < |r| ::
      r[i] == (if i < IndexOf(h, s) then h[i] else h[i + 1])
  {
    if s in h then h[..IndexOf(h, s)] + h[IndexOf(h, s) + 1..] else h
  }

  /** Removing an entry keeps a history well formed. */
  lemma RemoveFirstKeepsHistoryOk(k: Key, h: seq<LocalSession>, s: LocalSession, nextId: nat)
    requires HistoryOk(k, h, nextId)
    ensures HistoryOk(k, RemoveFirst(h, s), nextId)
  {
    if s in h {
      var r := RemoveFirst(h, s);
      var x := IndexOf(h, s);
      forall i, j | 0 <= i < j < |r|
        ensures r[i].sessionId != r[j].sessionId
      {
        var a := if i < x then i else i + 1;
        var b := if j < x then j else j + 1;
        assert r[i] == h[a] && r[j] == h[b] && a < b;
      }
      forall i | 0 <= i < |r|
        ensures KeyOf(r[i]) == k && r[i].endedAt.Some? && r[i].sessionId < nextId
      {
        assert r[i] == h[if i < x then i else i + 1];
      }
    }
  }

  /** A well-formed active entry: stored under its own key, still open, with
      an identifier already issued. */
  predicate ActiveOk(k: Key, s: LocalSession, nextId: nat)
  {
    KeyOf(s) == k && s.endedAt.None? && s.sessionId < nextId
  }

  /** A well-formed history: at most five closed records of that key, with
      distinct identifiers. */
  predicate HistoryOk(k: Key, h: seq<LocalSession>, nextId: nat)
  {
    |h| <= HistoryCap && DistinctIds(h)
    && forall i | 0 <= i < |h| :: KeyOf(h[i]) == k && h[i].endedAt.Some? && h[i].sessionId < nextId
  }

  lemma ArchiveKeepsHistoryOk(k: Key, h: seq<LocalSession>, s: LocalSession, nextId: nat)
    requires HistoryOk(k, h, nextId)
    requires KeyOf(s) == k && s.endedAt.Some? && s.sessionId < nextId
    ensures HistoryOk(k, Archive(h, s), nextId)
  {
    var r := Archive(h, s);
    ArchiveKeepsNewest(h, s);
    forall i | 0 <= i < |r|
      ensures KeyOf(r[i]) == k && r[i].endedAt.Some? && r[i].sessionId < nextId
    {
      assert r[i] in r;
    }
  }

  /** Nothing in a well-formed history can be resumed. */
  lemma HistoryNeverResumable(k: Key, h: seq<LocalSession>, nextId: nat)
    requires HistoryOk(k, h, nextId)
    ensures forall i | 0 <= i < |h| :: !CanResume(h[i])
  {
  }

  // ---------------------------------------------------------------------
  // Counting for the statistics

  /** Number of archived records over all keys. */
  ghost function TotalHistory(closed: map<Key, seq<LocalSession>>): nat
    decreases closed.Keys
  {
    if closed == map[] then 0
    else var k :| k in closed; |closed[k]| + TotalHistory(closed - {k})
  }

  lemma {:induction false} TotalHistoryRemove(closed: map<Key, seq<LocalSession>>, k: Key)
    requires k in closed
    ensures TotalHistory(closed) == |closed[k]| + TotalHistory(closed - {k})
    decreases closed.Keys
  {
    var j :| j in closed && TotalHistory(closed) == |closed[j]| + TotalHistory(closed - {j});
    if j != k {
      TotalHistoryRemove(closed - {j}, k);
      TotalHistoryRemove(closed - {k}, j);
      assert (closed - {j}) - {k} == (closed - {k}) - {j};
    }
  }

  predicate IsMultiUser(s: LocalSession) { s.isMultiUser || |s.coEditors| > 0 }

  /** Number of active sessions flagged as shared by several users. */
  ghost function MultiUserCount(active: map<Key, LocalSession>): nat
    decreases active.Keys
  {
    if active == map[] then 0
    else var k :| k in active; (if IsMultiUser(active[k]) then 1 else 0) + MultiUserCount(active - {k})
  }

  lemma {:induction false} MultiUserCountRemove(active: map<Key, LocalSession>, k: Key)
    requires k in active
    ensures MultiUserCount(active) == (if IsMultiUser(active[k]) then 1 else 0) + MultiUserCount(active - {k})
    decreases active.Keys
  {
    var j :| j in active
      && MultiUserCount(active) == (if IsMultiUser(active[j]) then 1 else 0) + MultiUserCount(active - {j});
    if j != k {
      MultiUserCountRemove(active - {j}, k);
      MultiUserCountRemove(active - {k}, j);
      assert (active - {j}) - {k} == (active - {k}) - {j};
    }
  }

  /** The archive after the sweep has closed the sessions of `gone`: each of
      them archived with its end time, every other history untouched. */
  ghost function Swept(closed: map<Key, seq<LocalSession>>, active: map<Key, LocalSession>,
                       gone: set<Key>, now: int): map<Key, seq<LocalSession>>
    requires gone <= active.Keys
  {
    map k | k in closed.Keys + gone ::
      if k in gone then Archive(HistoryOf(closed, k), CloseRecord(active[k], None, now)) else closed[k]
  }

  /** Closing one more session moves the sweep state from `gone` to `gone + {k}`. */
  lemma SweptStep(closed: map<Key, seq<LocalSession>>, active: map<Key, LocalSession>,
                  gone: set<Key>, k: Key, now: int)
    requires gone <= active.Keys && k in active && k !in gone
    ensures HistoryOf(Swept(closed, active, gone, now), k) == HistoryOf(closed, k)
    ensures Swept(closed, active, gone, now)[k := Archive(HistoryOf(closed, k), CloseRecord(active[k], None, now))]
            == Swept(closed, active, gone + {k}, now)
    ensures (active - gone) - {k} == active - (gone + {k})
  {
  }

  /** The records the sweep reports for the keys it closed, in closing order. */
  ghost function SweptRecords(active: map<Key, LocalSession>, keys: seq<Key>, now: int): seq<LocalSession>
  {
    if keys == [] then []
    else
      var front := SweptRecords(active, keys[..|keys| - 1], now);
      var last := keys[|keys| - 1];
      if last in active then front + [CloseRecord(active[last], None, now)] else front
  }

  lemma {:induction false} SweptRecordsAt(active: map<Key, LocalSession>, keys: seq<Key>, now: int)
    requires forall i | 0 <= i < |keys| :: keys[i] in active
    ensures |SweptRecords(active, keys, now)| == |keys|
    ensures forall i | 0 <= i < |keys| ::
      SweptRecords(active, keys, now)[i] == CloseRecord(active[keys[i]], None, now)
  {
    if keys != [] {
      SweptRecordsAt(active, keys[..|keys| - 1], now);
    }
  }

  /** What the sweep returns once its loop is done: one closed record per
      closed key, no key twice, every closed key present. */
  lemma SweptReport(active: map<Key, LocalSession>, keys: seq<Key>, gone: set<Key>, now: int)
    requires gone <= active.Keys && (forall k | k in active :: KeyOf(active[k]) == k)
    requires Listed(keys, gone)
    ensures var r := SweptRecords(active, keys, now);
      && |r| == |gone|
      && (forall i | 0 <= i < |r| :: KeyOf(r[i]) in gone && r[i] == CloseRecord(active[KeyOf(r[i])], None, now))
      && (forall i, j | 0 <= i < j < |r| :: KeyOf(r[i]) != KeyOf(r[j]))
      && (forall k | k in gone :: exists i | 0 <= i < |r| :: KeyOf(r[i]) == k)
  {
    var r := SweptRecords(active, keys, now);
    ListedFacts(keys, gone);
    SweptRecordsAt(active, keys, now);
    assert forall i | 0 <= i < |r| :: KeyOf(r[i]) == keys[i];
    forall k | k in gone
      ensures exists i | 0 <= i < |r| :: KeyOf(r[i]) == k
    {
      var i :| 0 <= i < |keys| && keys[i] == k;
      assert KeyOf(r[i]) == k;
    }
  }

  /** A history well formed for one counter value stays so as the counter
      grows, and never holds the identifier the counter issues next. */
  lemma HistoryOkMonotone(k: Key, h: seq<LocalSession>, nextId: nat, later: nat)
    requires HistoryOk(k, h, nextId) && nextId <= later
    ensures HistoryOk(k, h, later)
    ensures !HasId(h, nextId)
  {
  }

  /** Well-formed tables: every active entry and every history is well formed
      for the identifier counter. */
  ghost predicate TablesOk(active: map<Key, LocalSession>, closed: map<Key, seq<LocalSession>>, nextId: nat)
  {
    (forall k | k in active :: ActiveOk(k, active[k], nextId))
    && (forall k | k in closed :: HistoryOk(k, closed[k], nextId))
  }

  /** Issuing the next identifier to a new active record keeps the tables
      well formed, and that identifier is nowhere in them yet. */
  lemma TablesGrow(active: map<Key, LocalSession>, closed: map<Key, seq<LocalSession>>, nextId: nat,
                   s: LocalSession)
    requires TablesOk(active, closed, nextId)
    requires s.sessionId == nextId && s.endedAt.None?
    ensures TablesOk(active[KeyOf(s) := s], closed, nextId + 1)
    ensures forall k | k in active :: active[k].sessionId != nextId
    ensures forall k | k in closed :: !HasId(closed[k], nextId)
  {
    forall k | k in closed
      ensures HistoryOk(k, closed[k], nextId + 1) && !HasId(closed[k], nextId)
    {
      HistoryOkMonotone(k, closed[k], nextId, nextId + 1);
    }
  }

  // ---------------------------------------------------------------------
  // The table

  class SessionManager {
    var active: map<Key, LocalSession>
    var closed: map<Key, seq<LocalSession>>
    var nextId: nat
    const timeoutMinutes: int
    const maxSessionHours: int

    ghost predicate Valid()
      reads this
    {
      TablesOk(active, closed, nextId)
    }

    constructor(timeoutMinutes: int, maxSessionHours: int)
      ensures Valid()
      ensures active == map[] && closed == map[] && nextId == 0
      ensures this.timeoutMinutes == timeoutMinutes && this.maxSessionHours == maxSessionHours
    {
      active := map[];
      closed := map[];
      nextId := 0;
      this.timeoutMinutes := timeoutMinutes;
      this.maxSessionHours := maxSessionHours;
    }

    predicate IsExpired(s: LocalSession, now: int)
    {
      Expired(s, now, timeoutMinutes, maxSessionHours)
    }

    /** `k` has an active session in `m` that has not expired at `now`. */
    predicate Live(m: map<Key, LocalSession>, k: Key, now: int)
    {
      k in m && !IsExpired(m[k], now)
    }

    function Tables(): TableState
      reads this
    {
      TableState(active, closed, nextId)
    }

    /** The keys of `sessions` whose session has expired at `now`. */
    function ExpiredKeys(sessions: map<Key, LocalSession>, now: int): set<Key>
    {
      set k | k in sessions && IsExpired(sessions[k], now)
    }

    /** `close_session`: stamp the end time and final hash, archive a copy,
        drop the key from the active table; nothing happens without an
        active session for the key. */
    method CloseSession(path: string, user: string, hash: Option<string>, now: int)
      returns (r: Option<LocalSession>)
      requires Valid()
      modifies this
      ensures Valid()
      ensures var k := Key(path, user);
        && r == (if k in old(active) then Some(CloseRecord(old(active)[k], hash, now)) else None)
        && Tables() == AfterClose(old(Tables()), k, hash, now)
    {
      var k := Key(path, user);
      if k !in active {
        return None;
      }
      var s := CloseRecord(active[k], hash, now);
      var history := HistoryOf(closed, k);
      assert HistoryOk(k, history, nextId);
      ArchiveKeepsHistoryOk(k, history, s, nextId);
      closed := closed[k := Archive(history, s)];
      active := active - {k};
      r := Some(s);
    }

    /** `get_active_session`: an expired session is closed and reported
        absent; a live one has its activity time refreshed. */
    method GetActiveSession(path: string, user: string, now: int) returns (r: Option<LocalSession>)
      requires Valid()
      modifies this
      ensures Valid()
      ensures var k := Key(path, user);
        if Live(old(active), k, now) then
          && r == Some(old(active)[k].(lastActivity := now))
          && Tables() == old(Tables()).(active := old(active)[k := r.value])
        else
          && r.None?
          && Tables() == AfterClose(old(Tables()), k, None, now)
    {
      var k := Key(path, user);
      if k !in active {
        return None;
      }
      if IsExpired(active[k], now) {
        var _ := CloseSession(path, user, None, now);
        return None;
      }
      var s := active[k].(lastActivity := now);
      active := active[k := s];
      r := Some(s);
    }

    /** `_create_new_session`: a fresh record becomes the key's active entry. */
    method CreateNewSession(path: string, user: string, hash: Option<string>, now: int)
      returns (s: LocalSession)
      requires Valid()
      modifies this
      ensures Valid()
      ensures s == NewRecord(old(nextId), path, user, hash, now)
      ensures forall k | k in old(active) :: old(active)[k].sessionId != s.sessionId
      ensures forall k | k in old(closed) :: !HasId(old(closed)[k], s.sessionId)
      ensures active == old(active)[Key(path, user) := s] && closed == old(closed)
      ensures nextId == old(nextId) + 1
    {
      s := NewRecord(nextId, path, user, hash, now);
      assert KeyOf(s) == Key(path, user);
      TablesGrow(active, closed, nextId, s);
      active := active[Key(path, user) := s];
      nextId := nextId + 1;
    }

    /** `_resume_session`: put a record back into the active table as a
        resumed session, and remove it from the key's history when it is
        there.  Callers pass a record that was issued by this table. */
    method ResumeSession(s: LocalSession, hash: Option<string>, now: int) returns (r: LocalSession)
      requires Valid() && s.sessionId < nextId
      modifies this
      ensures Valid()
      ensures r == ResumedRecord(s, hash, now)
      ensures active == old(active)[KeyOf(s) := r]
      ensures var k := KeyOf(s);
        closed == if k in old(closed) && s in old(closed)[k]
                  then old(closed)[k := RemoveFirst(old(closed)[k], s)]
                  else old(closed)
      ensures nextId == old(nextId)
    {
      var k := KeyOf(s);
      r := ResumedRecord(s, hash, now);
      if k in closed && s in closed[k] {
        RemoveFirstKeepsHistoryOk(k, closed[k], s, nextId);
        closed := closed[k := RemoveFirst(closed[k], s)];
      }
      active := active[k := r];
    }

    /** `can_resume_session`: true exactly when the pair has an active
        session, since no archived record is ever resumable. */
    method CanResumeSession(path: string, user: string, now: int) returns (b: bool)
      requires Valid()
      ensures b <==> Key(path, user) in active
    {
      var k := Key(path, user);
      if k in active {
        return true;
      }
      var recent := FindRecentlyClosed(closed, k, DefaultResumeWindowHours, now);
      match recent {
        case Some(found) => b := CanResume(found);
        case None => b := false;
      }
    }

    /** `smart_create_session`: the live active session with its activity
        refreshed, or else (after closing an expired one) a new session.
        The resume branch is never taken. */
    method SmartCreateSession(path: string, user: string, hash: Option<string>, resumeWindowHours: int, now: int)
      returns (s: LocalSession)
      requires Valid()
      modifies this
      ensures Valid()
      ensures var live := Live(old(active), Key(path, user), now);
        (s, Tables()) == SmartCreateResult(old(Tables()), path, user, hash, now, live)
    {
      ghost var t0 := Tables();
      ghost var live := Live(active, Key(path, user), now);
      var current := GetActiveSession(path, user, now);
      if current.Some? {
        return current.value;
      }
      ghost var t1 := Tables();
      assert t1 == AfterClose(t0, Key(path, user), None, now);
      var recent := FindRecentlyClosed(closed, Key(path, user), resumeWindowHours, now);
      match recent {
        case Some(found) =>
          if found.isCommented {
            recent := None;
          }
        case None =>
      }
      if recent.Some? {
        // _resume_session would run here; FindRecentlyClosed never finds a record.
        assert false;
      }
      s := CreateNewSession(path, user, hash, now);
      assert Tables() == TableState(t1.active[Key(path, user) := s], t1.closed, t0.nextId + 1);
      assert (s, Tables()) == SmartCreateResult(t0, path, user, hash, now, live);
    }

    /** `check_and_close_expired_sessions`: every active session that is
        expired at `now` is closed, and exactly those closed records are
        returned. */
    method CheckAndCloseExpiredSessions(now: int) returns (expired: seq<LocalSession>)
      requires Valid()
      modifies this
      ensures Valid()
      ensures nextId == old(nextId)
      ensures var gone := ExpiredKeys(old(active), now);
        && active == old(active) - gone
        && closed == Swept(old(closed), old(active), gone, now)
        && |expired| == |gone|
        && (forall i | 0 <= i < |expired| ::
              KeyOf(expired[i]) in gone && expired[i] == CloseRecord(old(active)[KeyOf(expired[i])], None, now))
        && (forall i, j | 0 <= i < j < |expired| :: KeyOf(expired[i]) != KeyOf(expired[j]))
        && (forall k | k in gone :: exists i | 0 <= i < |expired| :: KeyOf(expired[i]) == k)
    {
      expired := [];
      var snapshot := active;
      var todo := snapshot.Keys;
      ghost var gone: set<Key> := {};
      ghost var keys: seq<Key> := [];
      assert closed == Swept(old(closed), snapshot, gone, now);
      while todo != {}
        invariant Valid() && nextId == old(nextId)
        invariant SweepInv(old(closed), snapshot, todo, gone, keys, expired, active, closed, now)
        decreases |todo|
      {
        var k :| k in todo;
        expired, gone, keys := CloseIfExpired(k, now, old(closed), snapshot, todo, gone, keys, expired);
        todo := todo - {k};
      }
      SweepDone(old(closed), snapshot, gone, keys, expired, active, closed, now);
      SweptReport(snapshot, keys, gone, now);
    }

    /** What holds between two turns of the sweep's loop: the keys still to
        visit, the keys already closed (`gone`, listed in closing order by
        `keys`), the tables and the records reported so far. */
    ghost predicate SweepInv(base: map<Key, seq<LocalSession>>, snapshot: map<Key, LocalSession>,
                             todo: set<Key>, gone: set<Key>, keys: seq<Key>, expired: seq<LocalSession>,
                             act: map<Key, LocalSession>, clo: map<Key, seq<LocalSession>>, now: int)
    {
      && todo <= snapshot.Keys && gone <= snapshot.Keys && gone !! todo
      && (forall k | k in snapshot && k !in todo :: (k in gone <==> IsExpired(snapshot[k], now)))
      && act == snapshot - gone
      && clo == Swept(base, snapshot, gone, now)
      && Listed(keys, gone)
      && expired == SweptRecords(snapshot, keys, now)
    }

    /** Once nothing is left to visit, the sweep has closed exactly the
        expired sessions. */
    lemma SweepDone(base: map<Key, seq<LocalSession>>, snapshot: map<Key, LocalSession>,
                    gone: set<Key>, keys: seq<Key>, expired: seq<LocalSession>,
                    act: map<Key, LocalSession>, clo: map<Key, seq<LocalSession>>, now: int)
      requires SweepInv(base, snapshot, {}, gone, keys, expired, act, clo, now)
      ensures gone == ExpiredKeys(snapshot, now)
    {
    }

    /** One turn of the sweep's loop: close the session of `k` if it has
        expired and report its record. */
    method CloseIfExpired(k: Key, now: int, ghost base: map<Key, seq<LocalSession>>,
                          snapshot: map<Key, LocalSession>, ghost todo: set<Key>,
                          ghost gone: set<Key>, ghost keys: seq<Key>, expired: seq<LocalSession>)
      returns (expired': seq<LocalSession>, ghost gone': set<Key>, ghost keys': seq<Key>)
      requires Valid() && k in todo
      requires SweepInv(base, snapshot, todo, gone, keys, expired, active, closed, now)
      modifies this
      ensures Valid() && nextId == old(nextId)
      ensures SweepInv(base, snapshot, todo - {k}, gone', keys', expired', active, closed, now)
    {
      expired', gone', keys' := expired, gone, keys;
      if IsExpired(snapshot[k], now) {
        SweepClose(base, snapshot, todo, gone, keys, expired, active, closed, k, now);
        var r := CloseSession(k.path, k.user, None, now);
        expired' := expired + [r.value];
        keys' := keys + [k];
        gone' := gone + {k};
      } else {
        SweepSkip(base, snapshot, todo, gone, keys, expired, active, closed, k, now);
      }
    }

    /** Visiting a key whose session has not expired changes nothing but the
        set of keys left to visit. */
    lemma SweepSkip(base: map<Key, seq<LocalSession>>, snapshot: map<Key, LocalSession>,
                    todo: set<Key>, gone: set<Key>, keys: seq<Key>, expired: seq<LocalSession>,
                    act: map<Key, LocalSession>, clo: map<Key, seq<LocalSession>>, k: Key, now: int)
      requires SweepInv(base, snapshot, todo, gone, keys, expired, act, clo, now)
      requires k in todo && !IsExpired(snapshot[k], now)
      ensures SweepInv(base, snapshot, todo - {k}, gone, keys, expired, act, clo, now)
    {
    }

    /** Closing the session of an expired key moves it from the keys to visit
        to the closed ones, and appends its record to the report. */
    lemma SweepClose(base: map<Key, seq<LocalSession>>, snapshot: map<Key, LocalSession>,
                     todo: set<Key>, gone: set<Key>, keys: seq<Key>, expired: seq<LocalSession>,
                     act: map<Key, LocalSession>, clo: map<Key, seq<LocalSession>>, k: Key, now: int)
      requires SweepInv(base, snapshot, todo, gone, keys, expired, act, clo, now)
      requires k in todo && IsExpired(snapshot[k], now)
      ensures k in act && act[k] == snapshot[k]
      ensures SweepInv(base, snapshot, todo - {k}, gone + {k}, keys + [k],
                       expired + [CloseRecord(act[k], None, now)], act - {k},
                       clo[k := Archive(HistoryOf(clo, k), CloseRecord(act[k], None, now))], now)
    {
      SweptStep(base, snapshot, gone, k, now);
      ListedStep(keys, gone, k);
      assert (keys + [k])[..|keys|] == keys;
    }

    /** `mark_session_as_commented`: flag the active session, or else the
        newest archived one; false when the key has neither. */
    method MarkSessionAsCommented(path: string, user: string) returns (b: bool)
      requires Valid()
      modifies this
      ensures Valid()
      ensures nextId == old(nextId)
      ensures var k := Key(path, user);
        && b == (k in old(active) || (k in old(closed) && |old(closed)[k]| > 0))
        && (k in old(active) ==>
              active == old(active)[k := old(active)[k].(isCommented := true)] && closed == old(closed))
        && (k !in old(active) && b ==>
              var h := old(closed)[k];
              active == old(active) && closed == old(closed)[k := h[|h| - 1 := h[|h| - 1].(isCommented := true)]])
        && (!b ==> active == old(active) && closed == old(closed))
      ensures b ==> IsSessionCommented(path, user)
    {
      var k := Key(path, user);
      if k in active {
        active := active[k := active[k].(isCommented := true)];
        return true;
      }
      if k in closed && |closed[k]| > 0 {
        var h := closed[k];
        assert HistoryOk(k, h, nextId);
        var h' := h[|h| - 1 := h[|h| - 1].(isCommented := true)];
        assert forall i | 0 <= i < |h'| :: h'[i].sessionId == h[i].sessionId && KeyOf(h'[i]) == KeyOf(h[i]) && h'[i].endedAt == h[i].endedAt;
        closed := closed[k := h'];
        return true;
      }
      return false;
    }

    /** `is_session_commented`: the flag of the active session, else of the
        newest archived one, else false. */
    predicate IsSessionCommented(path: string, user: string)
      reads this
    {
      var k := Key(path, user);
      if k in active then active[k].isCommented
      else if k in closed && |closed[k]| > 0 then closed[k][|closed[k]| - 1].isCommented
      else false
    }

    /** `get_session_stats`. */
    method GetSessionStats() returns (st: SessionStats)
      ensures st.activeSessions == |active|
      ensures st.closedSessions == TotalHistory(closed)
      ensures st.multiUserSessions == MultiUserCount(active)
      ensures st.historySize == |closed|
    {
      var total := 0;
      var rest := closed;
      while rest != map[]
        invariant total + TotalHistory(rest) == TotalHistory(closed)
        decreases rest.Keys
      {
        var k :| k in rest;
        TotalHistoryRemove(rest, k);
        total := total + |rest[k]|;
        rest := rest - {k};
      }
      var multi := 0;
      var pending := active;
      while pending != map[]
        invariant multi + MultiUserCount(pending) == MultiUserCount(active)
        decreases pending.Keys
      {
        var k :| k in pending;
        MultiUserCountRemove(pending, k);
        if IsMultiUser(pending[k]) {
          multi := multi + 1;
        }
        pending := pending - {k};
      }
      st := SessionStats(|active|, total, multi, |closed|);
    }
  }
}
