/** The output sync as a protocol over an output directory: any step may be the last before a crash.

  A disk holds files and directories by path, the manifest and the lock file. A
  run goes through preflight, writes, removals and the commit of the manifest;
  other programs may change what is not bookkeeping. A path cannot be a file
  and a directory, so a write fails where a directory stands or where a parent
  is a plain file, and the run ends there.
 */
module Sync {
  import opened Symbols
  import opened Manifest

  datatype File = File(path: string, text: string)

  datatype Disk = Disk(files: map<string, string>, dirs: set<string>, manifest: Option<string>, lock: bool)

  /** Where a run stands: `next` counts the files written, or the owned paths looked at. */
  datatype Phase = Preflight | Writing(next: nat) | Removing(next: nat) | Committed

  datatype Run = Run(files: seq<File>, owned: seq<string>, phase: Phase)

  /** What has happened so far, for the ownership argument. */
  datatype Event = Wrote(path: string) | Recorded(path: string) | Removed(path: string)

  /** What the last call returned; nothing while it runs or if it crashed. */
  datatype Outcome = Pending | Done | Refused

  datatype State = State(disk: Disk, run: Option<Run>, outcome: Outcome, log: seq<Event>)

  datatype Action =
    | Begin(files: seq<File>)
    | Advance
    | Fail
    | Crash
    | ClearLock
    | Foreign(change: Change)

  /** What another program does. */
  datatype Change =
    | Write(path: string, text: string)
    | Remove(path: string)
    | MakeDir(path: string)
    | RemoveDir(path: string)

  function PathsOf(files: seq<File>): (r: seq<string>)
    ensures |r| == |files| && forall i :: 0 <= i < |r| ==> r[i] == files[i].path
  {
    seq(|files|, i requires 0 <= i < |files| => files[i].path)
  }

  function Owned(disk: Disk): Option<seq<string>> {
    if disk.manifest.None? then Some([]) else ReadManifest(disk.manifest.value)
  }

  // ---- files and directories ----------------------------------------------------------

  /** The directories above a path. */
  function Parents(p: string): (r: set<string>) {
    set i | 0 < i < |p| && p[i] == '/' :: p[..i]
  }

  predicate UnderFile(disk: Disk, p: string) {
    exists a :: a in Parents(p) && a in disk.files
  }

  /** A file can be put at `p`; its missing parents are created. */
  predicate CanHold(disk: Disk, p: string) {
    p !in disk.dirs && !UnderFile(disk, p)
  }

  function Put(disk: Disk, p: string, text: string): (r: Disk) {
    disk.(files := disk.files[p := text], dirs := disk.dirs + Parents(p))
  }

  /** Nothing is a file and a directory, and everything stands in directories. */
  ghost predicate Sane(disk: Disk) {
    && (forall p :: p in disk.files ==> p !in disk.dirs && Parents(p) <= disk.dirs)
    && (forall d :: d in disk.dirs ==> Parents(d) <= disk.dirs)
  }

  predicate IsEmptyDir(disk: Disk, p: string) {
    && (forall f :: f in disk.files ==> p !in Parents(f))
    && (forall d :: d in disk.dirs ==> p !in Parents(d))
  }

  /** A change that the file system does not allow has no effect. */
  function Changed(disk: Disk, c: Change): (r: Disk) {
    match c
    case Write(p, text) => if CanHold(disk, p) then Put(disk, p, text) else disk
    case Remove(p) => disk.(files := disk.files - {p})
    case MakeDir(p) =>
      if p in disk.files || UnderFile(disk, p) then disk else disk.(dirs := disk.dirs + Parents(p) + {p})
    case RemoveDir(p) => if IsEmptyDir(disk, p) then disk.(dirs := disk.dirs - {p}) else disk
  }

  // ---- one step of a run -----------------------------------------------------------

  /** Every input path and the whole manifest are checked before the first write. */
  function StepPreflight(s: State, run: Run): State {
    var owned := Owned(s.disk);
    if (forall f :: f in run.files ==> ValidImportPath(f.path)) && owned.Some?
    then s.(run := Some(run.(owned := owned.value, phase := Writing(0))))
    else Released(s, Refused)
  }

  function StepWriting(s: State, run: Run, k: nat): State {
    if k < |run.files| then
      if !CanHold(s.disk, run.files[k].path) then Released(s, Refused)
      else
        s.(disk := Put(s.disk, run.files[k].path, run.files[k].text),
           run := Some(run.(phase := Writing(k + 1))),
           log := s.log + [Wrote(run.files[k].path)])
    else s.(run := Some(run.(phase := Removing(0))))
  }

  /** Owned paths that this run did not write are removed if they are there; then the manifest is replaced. A directory
    at the path, or a plain file above it, is an error. */
  function StepRemoving(s: State, run: Run, k: nat): State {
    if k < |run.owned| then
      var p := run.owned[k];
      var next := Some(run.(phase := Removing(k + 1)));
      if p in PathsOf(run.files) then s.(run := next)
      else if !CanHold(s.disk, p) then Released(s, Refused)
      else if p !in s.disk.files then s.(run := next)
      else s.(disk := s.disk.(files := s.disk.files - {p}), run := next, log := s.log + [Removed(p)])
    else
      var paths := SortPaths(PathsOf(run.files));
      s.(disk := s.disk.(manifest := Some(Render(paths))),
         run := Some(run.(phase := Committed)),
         log := s.log + RecordAll(paths))
  }

  function RecordAll(paths: seq<string>): seq<Event> {
    seq(|paths|, i requires 0 <= i < |paths| => Recorded(paths[i]))
  }

  /** The run is over and its lock guard is dropped. */
  function Released(s: State, outcome: Outcome): State {
    s.(disk := s.disk.(lock := false), run := None, outcome := outcome)
  }

  function Apply(s: State, a: Action): State {
    match a
    case Begin(files) =>
      if s.run.Some? || s.disk.lock then s
      else s.(disk := s.disk.(lock := true), run := Some(Run(files, [], Preflight)), outcome := Pending)
    case Advance =>
      if s.run.None? then s
      else (match s.run.value.phase
            case Preflight => StepPreflight(s, s.run.value)
            case Writing(k) => StepWriting(s, s.run.value, k)
            case Removing(k) => StepRemoving(s, s.run.value, k)
            case Committed => Released(s, Done))
    case Fail => if s.run.None? then s else Released(s, Refused)
    case Crash => s.(run := None)
    case ClearLock => if s.run.None? then s.(disk := s.disk.(lock := false)) else s
    case Foreign(c) => s.(disk := Changed(s.disk, c))
  }

  function Trace(s: State, actions: seq<Action>): State {
    if actions == [] then s else Apply(Trace(s, actions[..|actions| - 1]), actions[|actions| - 1])
  }

  /** An output directory without bookkeeping; whatever it holds is foreign. */
  function Fresh(files: map<string, string>, dirs: set<string>): State {
    State(Disk(files, dirs, None, false), None, Pending, [])
  }

  // ---- the directory tree stays a tree ----------------------------------------------------

  lemma NotOwnParent(p: string)
    ensures p !in Parents(p)
  {
  }

  lemma ParentsClimb(a: string, b: string, p: string)
    requires a in Parents(b) && b in Parents(p)
    ensures a in Parents(p)
  {
    var j :| 0 < j < |p| && p[j] == '/' && p[..j] == b;
    var i :| 0 < i < |b| && b[i] == '/' && b[..i] == a;
    assert p[i] == '/' && p[..i] == a;
  }

  lemma PutIsSane(disk: Disk, p: string, text: string)
    requires Sane(disk) && CanHold(disk, p)
    ensures Sane(Put(disk, p, text))
  {
    NotOwnParent(p);
    forall d | d in Parents(p) ensures Parents(d) <= Parents(p) {
      forall a | a in Parents(d) ensures a in Parents(p) {
        ParentsClimb(a, d, p);
      }
    }
  }

  lemma MakeDirIsSane(disk: Disk, p: string)
    requires Sane(disk) && p !in disk.files && !UnderFile(disk, p)
    ensures Sane(disk.(dirs := disk.dirs + Parents(p) + {p}))
  {
    forall d | d in Parents(p) ensures Parents(d) <= Parents(p) {
      forall a | a in Parents(d) ensures a in Parents(p) {
        ParentsClimb(a, d, p);
      }
    }
  }

  lemma ChangeIsSane(disk: Disk, c: Change)
    requires Sane(disk)
    ensures Sane(Changed(disk, c))
  {
    match c
    case Write(p, text) =>
      if CanHold(disk, p) {
        PutIsSane(disk, p, text);
      }
    case MakeDir(p) =>
      if p !in disk.files && !UnderFile(disk, p) {
        MakeDirIsSane(disk, p);
      }
    case Remove(p) =>
    case RemoveDir(p) =>
  }

  /** Whatever anybody does, no path becomes a file and a directory at once. */
  lemma StepIsSane(s: State, a: Action)
    requires Sane(s.disk)
    ensures Sane(Apply(s, a).disk)
  {
    match a
    case Foreign(c) => ChangeIsSane(s.disk, c);
    case Advance =>
      if s.run.Some? && s.run.value.phase.Writing? {
        var run, k := s.run.value, s.run.value.phase.next;
        if k < |run.files| && CanHold(s.disk, run.files[k].path) {
          PutIsSane(s.disk, run.files[k].path, run.files[k].text);
        }
      }
    case _ =>
  }

  // ---- safety -----------------------------------------------------------------------------

  /** `p` was written and then recorded in the log before position `n`. */
  ghost predicate WasOwned(log: seq<Event>, p: string, n: nat) {
    exists i: nat, j: nat :: i < j < n && j < |log| && log[i] == Wrote(p) && log[j] == Recorded(p)
  }

  /** Every removal is of a path that an earlier commit recorded after it was written. */
  ghost predicate RemovesOnlyOwned(log: seq<Event>) {
    forall k: nat, p :: k < |log| && log[k] == Removed(p) ==> WasOwned(log, p, k)
  }

  ghost predicate AllOwned(log: seq<Event>, paths: seq<string>) {
    forall p :: p in paths ==> WasOwned(log, p, |log|)
  }

  ghost predicate Written(log: seq<Event>, files: seq<File>, n: nat) {
    n <= |files| && forall k :: 0 <= k < n ==> Wrote(files[k].path) in log
  }

  ghost predicate Safe(s: State) {
    && RemovesOnlyOwned(s.log)
    && (Owned(s.disk).Some? && AllOwned(s.log, Owned(s.disk).value))
    && (s.run.Some? ==>
          var run := s.run.value;
          && (!run.phase.Preflight? ==>
                (forall f :: f in run.files ==> ValidImportPath(f.path)) && AllOwned(s.log, run.owned))
          && (run.phase.Writing? ==> Written(s.log, run.files, run.phase.next))
          && (run.phase.Removing? ==> Written(s.log, run.files, |run.files|) && run.phase.next <= |run.owned|))
  }

  lemma OwnedStays(log: seq<Event>, more: seq<Event>, p: string, n: nat)
    requires WasOwned(log, p, n)
    ensures WasOwned(log + more, p, n) && WasOwned(log + more, p, |log + more|)
  {
    var i: nat, j: nat :| i < j < n && j < |log| && log[i] == Wrote(p) && log[j] == Recorded(p);
    assert (log + more)[i] == Wrote(p) && (log + more)[j] == Recorded(p);
  }

  lemma OwnedAllStay(log: seq<Event>, more: seq<Event>, paths: seq<string>)
    requires AllOwned(log, paths)
    ensures AllOwned(log + more, paths)
  {
    forall p | p in paths ensures WasOwned(log + more, p, |log + more|) {
      OwnedStays(log, more, p, |log|);
    }
  }

  /** Appending events keeps the log safe if each new removal is of an owned path. */
  lemma SafeAppend(log: seq<Event>, more: seq<Event>)
    requires RemovesOnlyOwned(log)
    requires forall e :: e in more && e.Removed? ==> WasOwned(log, e.path, |log|)
    ensures RemovesOnlyOwned(log + more)
  {
    var all := log + more;
    forall k: nat, p | k < |all| && all[k] == Removed(p)
      ensures WasOwned(all, p, k)
    {
      if k < |log| {
        assert log[k] == Removed(p);
        OwnedStays(log, more, p, k);
      } else {
        assert more[k - |log|] in more;
        var i: nat, j: nat :| i < j < |log| && log[i] == Wrote(p) && log[j] == Recorded(p);
        assert all[i] == Wrote(p) && all[j] == Recorded(p);
      }
    }
  }

  lemma WritingIsSafe(s: State, run: Run, k: nat)
    requires Safe(s) && s.run == Some(run) && run.phase == Writing(k)
    ensures Safe(StepWriting(s, run, k))
  {
    var x := StepWriting(s, run, k);
    if k < |run.files| && CanHold(s.disk, run.files[k].path) {
      var more := [Wrote(run.files[k].path)];
      SafeAppend(s.log, more);
      OwnedAllStay(s.log, more, Owned(s.disk).value);
      OwnedAllStay(s.log, more, run.owned);
      assert forall e :: e in s.log ==> e in x.log;
      assert Wrote(run.files[k].path) == x.log[|s.log|];
    }
  }

  lemma RemovingIsSafe(s: State, run: Run, k: nat)
    requires Safe(s) && s.run == Some(run) && run.phase == Removing(k)
    ensures Safe(StepRemoving(s, run, k))
  {
    var x := StepRemoving(s, run, k);
    if k < |run.owned| {
      var more := [Removed(run.owned[k])];
      assert run.owned[k] in run.owned;
      SafeAppend(s.log, more);
      OwnedAllStay(s.log, more, Owned(s.disk).value);
      OwnedAllStay(s.log, more, run.owned);
      assert forall e :: e in s.log ==> e in s.log + more;
    } else {
      CommitIsSafe(s, run);
    }
  }

  /** The commit records exactly the paths that this run wrote. */
  lemma CommitIsSafe(s: State, run: Run)
    requires Safe(s) && s.run == Some(run) && run.phase.Removing?
    ensures Safe(StepRemoving(s, run, |run.owned|))
    ensures Owned(StepRemoving(s, run, |run.owned|).disk) == Some(SortPaths(PathsOf(run.files)))
  {
    var paths := SortPaths(PathsOf(run.files));
    var more := RecordAll(paths);
    var x := StepRemoving(s, run, |run.owned|);
    SortKeepsPaths(PathsOf(run.files));
    forall p | p in paths ensures ValidImportPath(p) {
      var i :| 0 <= i < |run.files| && PathsOf(run.files)[i] == p;
      assert run.files[i] in run.files;
    }
    ManifestRoundTrip(paths);
    SafeAppend(s.log, more);
    OwnedAllStay(s.log, more, run.owned);
    forall p | p in paths ensures WasOwned(x.log, p, |x.log|) {
      var i :| 0 <= i < |run.files| && PathsOf(run.files)[i] == p;
      assert Wrote(run.files[i].path) in s.log;
      var w :| 0 <= w < |s.log| && s.log[w] == Wrote(p);
      var k :| 0 <= k < |paths| && paths[k] == p;
      assert x.log[w] == Wrote(p) && x.log[|s.log| + k] == Recorded(p);
    }
  }

  /** No action of a run, of a crash, of a human clearing the lock or of another program breaks safety. */
  lemma StepIsSafe(s: State, a: Action)
    requires Safe(s)
    ensures Safe(Apply(s, a))
  {
    if a.Advance? && s.run.Some? {
      var run := s.run.value;
      match run.phase
      case Writing(k) => WritingIsSafe(s, run, k);
      case Removing(k) => RemovingIsSafe(s, run, k);
      case _ =>
    }
  }

  /** Over all runs: no step removes a path that no earlier sync wrote and recorded. */
  lemma {:induction false} SyncIsSafe(files: map<string, string>, dirs: set<string>, actions: seq<Action>)
    ensures Safe(Trace(Fresh(files, dirs), actions))
    ensures RemovesOnlyOwned(Trace(Fresh(files, dirs), actions).log)
  {
    if actions != [] {
      SyncIsSafe(files, dirs, actions[..|actions| - 1]);
      StepIsSafe(Trace(Fresh(files, dirs), actions[..|actions| - 1]), actions[|actions| - 1]);
    }
  }
}
