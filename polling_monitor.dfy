/** The agent's fallback polling monitor: it walks the watched folders, keeps
    a snapshot `fileStates` of (mtime, size) per monitored path, and turns the
    difference between the snapshot and the disk into created, modified and
    deleted events for the event handler.

    The directory walk, `os.stat` and the event handler are oracles: the walk
    is a sequence of `Walked` entries, the disk a map from existing regular
    files to their `Stat`, and the handler's answer a function `verdict` of
    the event kind and path.  Every event handed to the handler is recorded,
    in order, in `calls`. */
module PollingMonitor {
  import opened Base
  import opened FileClassifier
  import opened AgentEvents

  /** `(st_mtime, st_size)`; mtimes are only ever compared for equality. */
  datatype Stat = Stat(mtime: int, size: int)

  /** One `handle_file_event(kind, path)` call. */
  datatype Call = Call(kind: EventKind, path: string)

  /** A file produced by `os.walk` under a watched folder: its joined path and
      the joined paths of the directories the walk descended through to reach
      it, each of which `_should_ignore_dir` is asked about. */
  datatype Walked = Walked(path: string, dirs: seq<string>)

  // ---------------------------------------------------------------------
  // Directory filter

  /** `_should_ignore_dir`, as a condition on one pattern: a `*x` pattern
      whose `x` ends the name, an `x*` pattern whose `x` starts it, or a
      pattern that occurs in the name as it stands. */
  predicate PatternHitsDir(name: string, pattern: string)
  {
    (StartsWith(pattern, "*") && EndsWith(name, pattern[1..]))
    || (EndsWith(pattern, "*") && StartsWith(name, pattern[..|pattern| - 1]))
    || Contains(name, pattern)
  }

  /** One of the first `n` patterns hits the name. */
  predicate HitBefore(name: string, patterns: seq<string>, n: nat)
    requires n <= |patterns|
  {
    exists i | 0 <= i < n :: PatternHitsDir(name, patterns[i])
  }

  /** The directory's base name is configured, or some pattern hits it. */
  predicate IgnoredDir(dirPath: string, ignoreDirs: seq<string>, ignorePatterns: seq<string>)
  {
    var name := BaseName(dirPath);
    name in ignoreDirs || HitBefore(name, ignorePatterns, |ignorePatterns|)
  }

  /** `_should_ignore_dir`: the membership test, then the patterns in order
      with an early return on the first hit. */
  method ShouldIgnoreDir(dirPath: string, ignoreDirs: seq<string>, ignorePatterns: seq<string>)
    returns (b: bool)
    ensures b <==> IgnoredDir(dirPath, ignoreDirs, ignorePatterns)
  {
    var name := BaseName(dirPath);
    if name in ignoreDirs {
      return true;
    }
    var i := 0;
    while i < |ignorePatterns|
      invariant 0 <= i <= |ignorePatterns|
      invariant !HitBefore(name, ignorePatterns, i)
    {
      var hit := HitsDir(name, ignorePatterns[i]);
      if hit {
        return true;
      }
      i := i + 1;
    }
    return false;
  }

  /** The three tests of one pattern against a directory name. */
  method HitsDir(name: string, pattern: string) returns (b: bool)
    ensures b == PatternHitsDir(name, pattern)
  {
    if |pattern| > 0 && pattern[0] == '*' && EndsWith(name, pattern[1..]) {
      return true;
    } else if |pattern| > 0 && pattern[|pattern| - 1] == '*' && StartsWith(name, pattern[..|pattern| - 1]) {
      return true;
    }
    return Contains(name, pattern);
  }

  /** A pattern of a lone `*` ignores every directory: its suffix is empty. */
  lemma StarIgnoresEveryDir(dirPath: string, ignoreDirs: seq<string>)
    ensures IgnoredDir(dirPath, ignoreDirs, ["*"])
  {
    var name := BaseName(dirPath);
    assert ["*"][0] == "*" && PatternHitsDir(name, "*");
  }

  /** The empty pattern occurs in every name, so it ignores every directory. */
  lemma EmptyPatternIgnoresEveryDir(dirPath: string, ignoreDirs: seq<string>)
    ensures IgnoredDir(dirPath, ignoreDirs, [""])
  {
    var name := BaseName(dirPath);
    assert OccursAt(name, "", 0);
    assert [""][0] == "" && PatternHitsDir(name, "");
  }

  /** With no configured names and no patterns, nothing is pruned. */
  lemma NothingConfiguredIgnoresNothing(dirPath: string)
    ensures !IgnoredDir(dirPath, [], [])
  {
  }

  /** The walk reaches a file only if no directory on its way was pruned. */
  predicate Reached(e: Walked, ignoreDirs: seq<string>, ignorePatterns: seq<string>)
  {
    NonePrunedBefore(e.dirs, |e.dirs|, ignoreDirs, ignorePatterns)
  }

  /** None of the first `n` directories is ignored. */
  predicate NonePrunedBefore(dirs: seq<string>, n: nat, ignoreDirs: seq<string>, ignorePatterns: seq<string>)
    requires n <= |dirs|
  {
    forall i | 0 <= i < n :: !IgnoredDir(dirs[i], ignoreDirs, ignorePatterns)
  }

  // ---------------------------------------------------------------------
  // Specification of one scan, on values

  /** `should_monitor_file` as the validator decides it for a path on `disk`:
      an existing regular file of category TEMPORARY, or of category MAIN
      passing the extension, directory and size checks. */
  predicate Monitored(path: string, disk: map<string, Stat>, v: FileValidator)
  {
    var c := Classify(BaseName(path), v.ignorePatterns);
    path in disk
    && (c == Temporary
        || (c == Main && PassesAdditionalChecks(path, Some(disk[path].size), v.ignoreExtensions, v.ignoreDirs)))
  }

  /** `calls` grew by exactly the call `c`. */
  predicate Emits(calls: seq<Call>, after: seq<Call>, c: Call)
  {
    |after| == |calls| + 1 && after[..|calls|] == calls && after[|calls|] == c
  }

  /** `_process_file_event` for a non-deleted event with a known stat: the
      call is recorded and the stat stored only if the handler succeeded. */
  function Reported(states: map<string, Stat>, calls: seq<Call>, kind: EventKind, path: string,
                    st: Stat, verdict: (EventKind, string) -> bool): (r: (map<string, Stat>, seq<Call>))
    ensures Emits(calls, r.1, Call(kind, path))
    ensures verdict(kind, path) ==> r.0 == states[path := st]
    ensures !verdict(kind, path) ==> r.0 == states
  {
    (if verdict(kind, path) then states[path := st] else states, calls + [Call(kind, path)])
  }

  /** `_check_file_changes`: the new snapshot and the calls made for one path. */
  function CheckChange(states: map<string, Stat>, calls: seq<Call>, path: string,
                       disk: map<string, Stat>, verdict: (EventKind, string) -> bool)
    : (r: (map<string, Stat>, seq<Call>))
    // a path that vanished changes nothing
    ensures path !in disk ==> r == (states, calls)
    // at most one call, and only a creation or a modification
    ensures r.1 == calls || Emits(calls, r.1, Call(Created, path)) || Emits(calls, r.1, Call(Modified, path))
    // created exactly for an existing path missing from the snapshot
    ensures Emits(calls, r.1, Call(Created, path)) <==> path in disk && path !in states
    // modified exactly when both the mtime and the size differ
    ensures Emits(calls, r.1, Call(Modified, path))
        <==> path in disk && path in states
             && disk[path].mtime != states[path].mtime && disk[path].size != states[path].size
    // other paths keep their entries
    ensures forall q | q != path :: (q in r.0 <==> q in states) && (q in states ==> r.0[q] == states[q])
    // the path's entry is the disk stat or what it was before
    ensures path in r.0 ==> (path in disk && r.0[path] == disk[path]) || (path in states && r.0[path] == states[path])
    // an mtime-only change is absorbed silently
    ensures path in disk && path in states && disk[path].mtime != states[path].mtime
            && disk[path].size == states[path].size
        ==> r == (states[path := disk[path]], calls)
    // an unchanged mtime does nothing
    ensures path in disk && path in states && disk[path].mtime == states[path].mtime ==> r == (states, calls)
    // a rejected creation leaves the path untracked, so the next scan reports it again
    ensures path in disk && path !in states && !verdict(Created, path) ==> path !in r.0
  {
    if path !in disk then (states, calls)
    else if path !in states then Reported(states, calls, Created, path, disk[path], verdict)
    else if disk[path].mtime != states[path].mtime then
      if disk[path].size != states[path].size then Reported(states, calls, Modified, path, disk[path], verdict)
      else (states[path := disk[path]], calls)
    else (states, calls)
  }

  /** Whether `_scan_files` checks a walked file: it was reached and the
      validator monitors it. */
  function Keep(disk: map<string, Stat>, v: FileValidator, ignoreDirs: seq<string>, ignorePatterns: seq<string>)
    : Walked -> bool
  {
    e => Reached(e, ignoreDirs, ignorePatterns) && Monitored(e.path, disk, v)
  }

  /** One walked file: checked and remembered if `keep` accepts it. */
  function ScanStep(r: (map<string, Stat>, seq<Call>, set<string>), e: Walked,
                    disk: map<string, Stat>, verdict: (EventKind, string) -> bool, keep: Walked -> bool)
    : (r': (map<string, Stat>, seq<Call>, set<string>))
  {
    if keep(e) then
      var (s', c') := CheckChange(r.0, r.1, e.path, disk, verdict);
      (s', c', r.2 + {e.path})
    else r
  }

  /** The walk up to entry `n`: snapshot, calls, and the set `current_files`
      of the paths `keep` accepts. */
  function ScanFold(states: map<string, Stat>, calls: seq<Call>, walk: seq<Walked>, n: nat,
                    disk: map<string, Stat>, verdict: (EventKind, string) -> bool,
                    keep: Walked -> bool)
    : (r: (map<string, Stat>, seq<Call>, set<string>))
    requires n <= |walk|
    decreases n
  {
    if n == 0 then (states, calls, {})
    else ScanStep(ScanFold(states, calls, walk, n - 1, disk, verdict, keep), walk[n - 1], disk, verdict, keep)
  }

  /** Part way through the walk of `_scan_files`. */
  ghost predicate Walking(states0: map<string, Stat>, calls0: seq<Call>, walk: seq<Walked>, n: nat,
                          disk: map<string, Stat>, verdict: (EventKind, string) -> bool, keep: Walked -> bool,
                          states: map<string, Stat>, calls: seq<Call>, seen: set<string>)
  {
    n <= |walk| && (states, calls, seen) == ScanFold(states0, calls0, walk, n, disk, verdict, keep)
  }

  lemma WalkingStep(states0: map<string, Stat>, calls0: seq<Call>, walk: seq<Walked>, n: nat,
                    disk: map<string, Stat>, verdict: (EventKind, string) -> bool, keep: Walked -> bool,
                    before: (map<string, Stat>, seq<Call>, set<string>),
                    states: map<string, Stat>, calls: seq<Call>, seen: set<string>)
    requires n < |walk| && Walking(states0, calls0, walk, n, disk, verdict, keep, before.0, before.1, before.2)
    requires (states, calls, seen) == ScanStep(before, walk[n], disk, verdict, keep)
    ensures Walking(states0, calls0, walk, n + 1, disk, verdict, keep, states, calls, seen)
  {
  }

  /** Every path in the snapshot after the walk was tracked before or was
      seen during it. */
  lemma {:induction false} ScanFoldKeys(states: map<string, Stat>, calls: seq<Call>, walk: seq<Walked>, n: nat,
                                        disk: map<string, Stat>, verdict: (EventKind, string) -> bool,
                                        keep: Walked -> bool)
    requires n <= |walk|
    ensures var r := ScanFold(states, calls, walk, n, disk, verdict, keep);
      forall p | p in r.0 :: p in states || p in r.2
  {
    if n > 0 {
      ScanFoldKeys(states, calls, walk, n - 1, disk, verdict, keep);
    }
  }

  /** The seen set is exactly the reached, monitored paths of the walk. */
  lemma {:induction false} ScanFoldSeen(states: map<string, Stat>, calls: seq<Call>, walk: seq<Walked>, n: nat,
                                        disk: map<string, Stat>, verdict: (EventKind, string) -> bool,
                                        keep: Walked -> bool)
    requires n <= |walk|
    ensures forall p ::
      (p in ScanFold(states, calls, walk, n, disk, verdict, keep).2
       <==> exists i | 0 <= i < n :: walk[i].path == p && keep(walk[i]))
  {
    if n > 0 {
      ScanFoldSeen(states, calls, walk, n - 1, disk, verdict, keep);
      var prev := ScanFold(states, calls, walk, n - 1, disk, verdict, keep);
      var r := ScanFold(states, calls, walk, n, disk, verdict, keep);
      var e := walk[n - 1];
      var kept := keep(e);
      assert r.2 == if kept then prev.2 + {e.path} else prev.2;
      forall p
        ensures p in r.2 <==> exists i | 0 <= i < n ::
          walk[i].path == p && keep(walk[i])
      {
        if p in r.2 {
          if p in prev.2 {
            var i :| 0 <= i < n - 1 && walk[i].path == p && keep(walk[i]);
            assert 0 <= i < n;
          } else {
            assert walk[n - 1].path == p && keep(walk[n - 1]);
          }
        }
        if exists i | 0 <= i < n :: walk[i].path == p && keep(walk[i]) {
          var i :| 0 <= i < n && walk[i].path == p && keep(walk[i]);
          if i < n - 1 {
            assert p in prev.2;
          }
        }
      }
    }
  }

  /** The walk only appends to the calls, and only creations and
      modifications of seen paths. */
  lemma {:induction false} ScanFoldCalls(states: map<string, Stat>, calls: seq<Call>, walk: seq<Walked>, n: nat,
                                         disk: map<string, Stat>, verdict: (EventKind, string) -> bool,
                                         keep: Walked -> bool)
    requires n <= |walk|
    ensures var r := ScanFold(states, calls, walk, n, disk, verdict, keep);
      |calls| <= |r.1| && r.1[..|calls|] == calls
      && forall j | |calls| <= j < |r.1| :: r.1[j].path in r.2 && (r.1[j].kind == Created || r.1[j].kind == Modified)
  {
    if n > 0 {
      ScanFoldCalls(states, calls, walk, n - 1, disk, verdict, keep);
      var prev := ScanFold(states, calls, walk, n - 1, disk, verdict, keep);
      var e := walk[n - 1];
      if keep(e) {
        var next := CheckChange(prev.0, prev.1, e.path, disk, verdict);
        assert next.1[..|calls|] == calls by {
          assert next.1[..|calls|] == next.1[..|prev.1|][..|calls|];
        }
      }
    }
  }

  /** `should_monitor_file_by_name` as the validator decides it. */
  function ByName(userPatterns: seq<string>): string -> bool
  {
    p => MonitoredByName(p, userPatterns)
  }

  /** Deleted-path calls for the paths in `order`, in that order: a deletion
      is reported only for names the validator would monitor. */
  function DeletedCalls(order: seq<string>, byName: string -> bool): (r: seq<Call>)
    ensures |r| <= |order|
    ensures forall j | 0 <= j < |r| ::
      r[j].kind == Deleted && r[j].path in order && byName(r[j].path)
    decreases |order|
  {
    if order == [] then []
    else
      var p := order[|order| - 1];
      DeletedCalls(order[..|order| - 1], byName)
        + (if byName(p) then [Call(Deleted, p)] else [])
  }

  /** Every monitored-by-name path in `order` has its deletion reported. */
  lemma {:induction false} DeletedCallsComplete(order: seq<string>, byName: string -> bool, p: string)
    requires p in order && byName(p)
    ensures Call(Deleted, p) in DeletedCalls(order, byName)
    decreases |order|
  {
    var last := order[|order| - 1];
    if p != last {
      var front := order[..|order| - 1];
      assert p in front by {
        var i :| 0 <= i < |order| && order[i] == p;
        assert i < |order| - 1;
        assert front[i] == p;
      }
      DeletedCallsComplete(front, byName, p);
    }
  }

  /** `_check_deleted_files` on values: the tracked paths not seen this scan
      are dropped from the snapshot, whatever their category. */
  ghost predicate DeletionsDone(states0: map<string, Stat>, calls0: seq<Call>, seen: set<string>,
                                byName: string -> bool, order: seq<string>,
                                states: map<string, Stat>, calls: seq<Call>)
  {
    Listed(order, states0.Keys - seen)
    && states == states0 - (states0.Keys - seen)
    && calls == calls0 + DeletedCalls(order, byName)
  }

  /** Part way through `_check_deleted_files`: the paths in `done` were
      visited in the order `order`. */
  ghost predicate Deleting(states0: map<string, Stat>, calls0: seq<Call>, byName: string -> bool,
                           order: seq<string>, done: set<string>,
                           states: map<string, Stat>, calls: seq<Call>)
  {
    Listed(order, done) && states == states0 - done && calls == calls0 + DeletedCalls(order, byName)
  }

  /** The deletion pass's loop invariant: the paths of `deleted` are split
      into those still to visit and those visited. */
  ghost predicate DeletePass(states0: map<string, Stat>, calls0: seq<Call>, byName: string -> bool,
                             deleted: set<string>, rest: set<string>, order: seq<string>, done: set<string>,
                             states: map<string, Stat>, calls: seq<Call>)
  {
    rest !! done && rest + done == deleted && Deleting(states0, calls0, byName, order, done, states, calls)
  }

  lemma DeletePassStart(states0: map<string, Stat>, calls0: seq<Call>, byName: string -> bool,
                        deleted: set<string>)
    ensures DeletePass(states0, calls0, byName, deleted, deleted, [], {}, states0, calls0)
  {
    assert states0 - {} == states0;
  }

  /** Once nothing is left to visit, the pass has dealt with exactly the
      paths that were not seen. */
  lemma DeletePassDone(states0: map<string, Stat>, calls0: seq<Call>, seen: set<string>, byName: string -> bool,
                       order: seq<string>, done: set<string>, states: map<string, Stat>, calls: seq<Call>)
    requires DeletePass(states0, calls0, byName, states0.Keys - seen, {}, order, done, states, calls)
    ensures DeletionsDone(states0, calls0, seen, byName, order, states, calls)
  {
    assert done == states0.Keys - seen;
  }

  lemma DeletingStep(states0: map<string, Stat>, calls0: seq<Call>, byName: string -> bool,
                     deleted: set<string>, rest: set<string>, order: seq<string>, done: set<string>,
                     states: map<string, Stat>, calls: seq<Call>,
                     p: string, states': map<string, Stat>, calls': seq<Call>)
    requires DeletePass(states0, calls0, byName, deleted, rest, order, done, states, calls)
    requires p in rest
    requires p in states ==> states' == states - {p}
    requires p !in states ==> states' == states
    requires byName(p) ==> calls' == calls + [Call(Deleted, p)]
    requires !byName(p) ==> calls' == calls
    ensures DeletePass(states0, calls0, byName, deleted, rest - {p}, order + [p], done + {p}, states', calls')
  {
    ListedStep(order, done, p);
    assert (order + [p])[..|order|] == order;
  }

  /** After the deletion pass the snapshot only holds seen paths, and every
      tracked path that was not seen lost its entry. */
  lemma DeletionsFacts(states0: map<string, Stat>, calls0: seq<Call>, seen: set<string>,
                       byName: string -> bool, order: seq<string>,
                       states: map<string, Stat>, calls: seq<Call>)
    requires DeletionsDone(states0, calls0, seen, byName, order, states, calls)
    ensures states.Keys <= seen
    ensures forall p | p in states0 && p !in seen :: p !in states
    ensures forall p | p in states :: states[p] == states0[p]
    ensures forall p | p in states0 && p !in seen && byName(p)
        :: Call(Deleted, p) in calls[|calls0|..]
  {
    ListedFacts(order, states0.Keys - seen);
    assert calls[|calls0|..] == DeletedCalls(order, byName);
    forall p | p in states0 && p !in seen && byName(p)
      ensures Call(Deleted, p) in calls[|calls0|..]
    {
      DeletedCallsComplete(order, byName, p);
    }
  }

  // ---------------------------------------------------------------------
  // The monitor object

  class FileMonitor {
    var fileStates: map<string, Stat>
    var calls: seq<Call>
    const validator: FileValidator
    /** `ignore_dirs` and `ignore_patterns` of the monitoring configuration. */
    const ignoreDirs: seq<string>
    const ignorePatterns: seq<string>

    ghost predicate Valid()
      reads validator
    {
      validator.Valid()
    }

    constructor(validator: FileValidator, ignoreDirs: seq<string>, ignorePatterns: seq<string>)
      requires validator.Valid()
      ensures Valid()
      ensures fileStates == map[] && calls == []
      ensures this.validator == validator && this.ignoreDirs == ignoreDirs && this.ignorePatterns == ignorePatterns
    {
      fileStates := map[];
      calls := [];
      this.validator := validator;
      this.ignoreDirs := ignoreDirs;
      this.ignorePatterns := ignorePatterns;
    }

    /** `_process_file_event`: hand the event over; store the stat only when
        the handler succeeded and the event is not a deletion.  Without a
        stat from the caller the path is stat'ed again, and a path that is
        gone by then leaves the snapshot alone. */
    method ProcessFileEvent(kind: EventKind, path: string, st: Option<Stat>,
                            disk: map<string, Stat>, verdict: (EventKind, string) -> bool)
      returns (ok: bool)
      modifies this`fileStates, this`calls
      ensures ok == verdict(kind, path)
      ensures calls == old(calls) + [Call(kind, path)]
      ensures ok && kind != Deleted && st.Some? ==> fileStates == old(fileStates)[path := st.value]
      ensures ok && kind != Deleted && st.None? && path in disk ==> fileStates == old(fileStates)[path := disk[path]]
      ensures !ok || kind == Deleted || (st.None? && path !in disk) ==> fileStates == old(fileStates)
    {
      calls := calls + [Call(kind, path)];
      ok := verdict(kind, path);
      if ok && kind != Deleted {
        if st.Some? {
          fileStates := fileStates[path := st.value];
        } else if path in disk {
          fileStates := fileStates[path := disk[path]];
        }
      }
    }

    /** `_check_file_changes` for one path. */
    method CheckFileChanges(path: string, disk: map<string, Stat>, verdict: (EventKind, string) -> bool)
      modifies this`fileStates, this`calls
      ensures (fileStates, calls) == CheckChange(old(fileStates), old(calls), path, disk, verdict)
    {
      if path !in disk {
        return;
      }
      var current := disk[path];
      if path !in fileStates {
        var _ := ProcessFileEvent(Created, path, Some(current), disk, verdict);
      } else {
        var previous := fileStates[path];
        if current.mtime != previous.mtime {
          if current.size != previous.size {
            var _ := ProcessFileEvent(Modified, path, Some(current), disk, verdict);
          } else {
            fileStates := fileStates[path := current];
          }
        }
      }
    }

    /** `_check_deleted_files`: every tracked path not seen in this scan is
        reported if its name is monitored and is removed in any case; the
        set is visited in an unspecified order, returned as `order`. */
    method CheckDeletedFiles(seen: set<string>, disk: map<string, Stat>, verdict: (EventKind, string) -> bool)
      returns (ghost order: seq<string>)
      requires Valid()
      modifies this`fileStates, this`calls, validator
      ensures Valid()
      ensures DeletionsDone(old(fileStates), old(calls), seen, ByName(validator.ignorePatterns), order, fileStates, calls)
    {
      var deleted := fileStates.Keys - seen;
      ghost var states0 := fileStates;
      ghost var calls0 := calls;
      ghost var done: set<string> := {};
      order := [];
      var rest := deleted;
      DeletePassStart(states0, calls0, ByName(validator.ignorePatterns), deleted);
      while rest != {}
        invariant Valid()
        invariant DeletePass(states0, calls0, ByName(validator.ignorePatterns), deleted, rest, order, done,
                             fileStates, calls)
        decreases rest
      {
        var p :| p in rest;
        ForgetDeleted(p, disk, verdict, states0, calls0, deleted, rest, order, done);
        order := order + [p];
        done := done + {p};
        rest := rest - {p};
      }
      DeletePassDone(states0, calls0, seen, ByName(validator.ignorePatterns), order, done, fileStates, calls);
    }

    /** One step of `_check_deleted_files`: report `p` if its name is
        monitored, then drop it from the snapshot. */
    method ForgetDeleted(p: string, disk: map<string, Stat>, verdict: (EventKind, string) -> bool,
                         ghost states0: map<string, Stat>, ghost calls0: seq<Call>, ghost deleted: set<string>,
                         rest: set<string>, ghost order: seq<string>, ghost done: set<string>)
      requires Valid() && p in rest
      requires DeletePass(states0, calls0, ByName(validator.ignorePatterns), deleted, rest, order, done,
                          fileStates, calls)
      modifies this`fileStates, this`calls, validator
      ensures Valid()
      ensures DeletePass(states0, calls0, ByName(validator.ignorePatterns), deleted, rest - {p}, order + [p],
                         done + {p}, fileStates, calls)
    {
      ghost var before := (fileStates, calls);
      var named := validator.ShouldMonitorFileByName(p);
      if named {
        var _ := ProcessFileEvent(Deleted, p, None, disk, verdict);
      }
      if p in fileStates {
        fileStates := fileStates - {p};
      }
      DeletingStep(states0, calls0, ByName(validator.ignorePatterns), deleted, rest, order, done,
                   before.0, before.1, p, fileStates, calls);
    }

    /** `_scan_files`: walk, check each reached monitored file, then report
        and forget the tracked paths that were not seen.  Afterwards every
        tracked path was seen in this scan. */
    method ScanFiles(walk: seq<Walked>, disk: map<string, Stat>, verdict: (EventKind, string) -> bool)
      returns (ghost order: seq<string>)
      requires Valid()
      modifies this`fileStates, this`calls, validator
      ensures Valid()
      ensures var (s, c, seen) := ScanFold(old(fileStates), old(calls), walk, |walk|, disk, verdict,
                                           Keep(disk, validator, ignoreDirs, ignorePatterns));
        DeletionsDone(s, c, seen, ByName(validator.ignorePatterns), order, fileStates, calls)
      ensures forall p | p in fileStates :: exists i | 0 <= i < |walk| ::
        walk[i].path == p && Reached(walk[i], ignoreDirs, ignorePatterns) && Monitored(p, disk, validator)
    {
      var currentFiles := WalkFiles(walk, disk, verdict);
      ScanFoldKeys(old(fileStates), old(calls), walk, |walk|, disk, verdict, Keep(disk, validator, ignoreDirs, ignorePatterns));
      ScanFoldSeen(old(fileStates), old(calls), walk, |walk|, disk, verdict, Keep(disk, validator, ignoreDirs, ignorePatterns));
      order := CheckDeletedFiles(currentFiles, disk, verdict);
      DeletionsFacts(ScanFold(old(fileStates), old(calls), walk, |walk|, disk, verdict, Keep(disk, validator, ignoreDirs, ignorePatterns)).0,
                     ScanFold(old(fileStates), old(calls), walk, |walk|, disk, verdict, Keep(disk, validator, ignoreDirs, ignorePatterns)).1,
                     currentFiles, ByName(validator.ignorePatterns), order, fileStates, calls);
    }

    /** The walking part of `_scan_files`. */
    method WalkFiles(walk: seq<Walked>, disk: map<string, Stat>, verdict: (EventKind, string) -> bool)
      returns (currentFiles: set<string>)
      requires Valid()
      modifies this`fileStates, this`calls, validator
      ensures Valid()
      ensures (fileStates, calls, currentFiles)
        == ScanFold(old(fileStates), old(calls), walk, |walk|, disk, verdict, Keep(disk, validator, ignoreDirs, ignorePatterns))
    {
      currentFiles := {};
      ghost var keep := Keep(disk, validator, ignoreDirs, ignorePatterns);
      var i := 0;
      while i < |walk|
        invariant 0 <= i <= |walk| && Valid()
        invariant Walking(old(fileStates), old(calls), walk, i, disk, verdict, keep, fileStates, calls, currentFiles)
      {
        ghost var before := (fileStates, calls, currentFiles);
        currentFiles := CheckWalked(walk[i], disk, verdict, currentFiles);
        WalkingStep(old(fileStates), old(calls), walk, i, disk, verdict, keep, before, fileStates, calls, currentFiles);
        i := i + 1;
      }
    }

    /** One file of the walk: skipped when a directory on its way was pruned
        or the validator does not monitor it, else remembered and checked. */
    method CheckWalked(e: Walked, disk: map<string, Stat>, verdict: (EventKind, string) -> bool,
                       currentFiles: set<string>)
      returns (seen: set<string>)
      requires Valid()
      modifies this`fileStates, this`calls, validator
      ensures Valid()
      ensures (fileStates, calls, seen)
        == ScanStep((old(fileStates), old(calls), currentFiles), e, disk, verdict,
                    Keep(disk, validator, ignoreDirs, ignorePatterns))
    {
      seen := currentFiles;
      var reached := ReachedByWalk(e);
      if reached {
        var monitored := validator.ShouldMonitorFile(e.path, e.path in disk,
                                                     if e.path in disk then Some(disk[e.path].size) else None);
        if monitored {
          seen := seen + {e.path};
          CheckFileChanges(e.path, disk, verdict);
        }
      }
    }

    /** The pruning `os.walk` does with `_should_ignore_dir`, for one file:
        every directory on its way is asked about, and one hit prunes it. */
    method ReachedByWalk(e: Walked) returns (b: bool)
      ensures b == Reached(e, ignoreDirs, ignorePatterns)
    {
      var i := 0;
      while i < |e.dirs|
        invariant 0 <= i <= |e.dirs|
        invariant NonePrunedBefore(e.dirs, i, ignoreDirs, ignorePatterns)
      {
        var ignored := ShouldIgnoreDir(e.dirs[i], ignoreDirs, ignorePatterns);
        if ignored {
          return false;
        }
        i := i + 1;
      }
      return true;
    }
  }
}
