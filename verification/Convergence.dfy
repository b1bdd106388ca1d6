/** When an output sync gets through, and what it leaves behind.

  A run gets through exactly when no path it has to write or to remove clashes
  with the directory tree; then it leaves the target disk. Runs that crash or
  fail at any step, and other programs working elsewhere in the directory, do
  not change where the next run ends.
 */
module Convergence {
  import opened Symbols
  import opened Manifest
  import opened Sync

  // ---- the target --------------------------------------------------------------------------

  function WriteAll(disk: map<string, string>, files: seq<File>): map<string, string> {
    if files == [] then disk else WriteAll(disk, files[..|files| - 1])[files[|files| - 1].path := files[|files| - 1].text]
  }

  function Members(paths: seq<string>): set<string> {
    set p | p in paths
  }

  /** The directories that the files need. */
  function Needed(files: seq<File>): (r: set<string>) {
    if files == [] then {} else Needed(files[..|files| - 1]) + Parents(files[|files| - 1].path)
  }

  lemma {:induction false} NeededByOne(files: seq<File>, d: string)
    ensures d in Needed(files) <==> exists i :: 0 <= i < |files| && d in Parents(files[i].path)
  {
    if files != [] {
      var front := files[..|files| - 1];
      NeededByOne(front, d);
      if i :| 0 <= i < |files| && d in Parents(files[i].path) {
        assert i < |front| ==> front[i] == files[i];
      }
      if i :| 0 <= i < |front| && d in Parents(front[i].path) {
        assert front[i] == files[i];
      }
    }
  }

  /** The disk a run leaves that gets through: this generation's files, without the stale owned ones. */
  function Target(disk: Disk, owned: seq<string>, files: seq<File>): Disk {
    Disk(WriteAll(disk.files, files) - (Members(owned) - Members(PathsOf(files))),
         disk.dirs + Needed(files),
         Some(Render(SortPaths(PathsOf(files)))),
         false)
  }

  lemma {:induction false} WriteAllValue(disk: map<string, string>, files: seq<File>, p: string)
    ensures p in WriteAll(disk, files) <==> p in disk || p in PathsOf(files)
    ensures p !in PathsOf(files) && p in disk ==> WriteAll(disk, files)[p] == disk[p]
  {
    if files != [] {
      var front := files[..|files| - 1];
      WriteAllValue(disk, front, p);
      assert PathsOf(files) == PathsOf(front) + [files[|files| - 1].path];
    }
  }

  /** What later writes put there does not depend on what was there before. */
  lemma {:induction false} WriteAllForgets(d: map<string, string>, e: map<string, string>, files: seq<File>, p: string)
    requires p in PathsOf(files)
    ensures p in WriteAll(d, files) && p in WriteAll(e, files) && WriteAll(d, files)[p] == WriteAll(e, files)[p]
  {
    var front := files[..|files| - 1];
    assert PathsOf(files) == PathsOf(front) + [files[|files| - 1].path];
    if p != files[|files| - 1].path {
      WriteAllForgets(d, e, front, p);
    }
  }

  /** What the target of a disk depends on: foreign files, and directories that are not needed anyway. */
  ghost predicate Alike(d: Disk, mine: seq<string>, e: Disk, yours: seq<string>, files: seq<File>) {
    && d.dirs + Needed(files) == e.dirs + Needed(files)
    && forall p :: p !in PathsOf(files) ==>
         && (p in d.files && p !in mine <==> p in e.files && p !in yours)
         && (p in d.files && p !in mine && p in e.files ==> d.files[p] == e.files[p])
  }

  lemma SameTarget(d: Disk, mine: seq<string>, e: Disk, yours: seq<string>, files: seq<File>)
    requires Alike(d, mine, e, yours, files)
    ensures Target(d, mine, files) == Target(e, yours, files)
  {
    var x, y := Target(d, mine, files).files, Target(e, yours, files).files;
    forall p
      ensures p in x <==> p in y
      ensures p in x ==> x[p] == y[p]
    {
      WriteAllValue(d.files, files, p);
      WriteAllValue(e.files, files, p);
      if p in PathsOf(files) {
        WriteAllForgets(d.files, e.files, files, p);
      }
    }
    assert x == y;
  }

  /** The target mirrors the files: each is there with its text, stale owned paths are gone, foreign paths are untouched. */
  lemma TargetMirrors(disk: Disk, owned: seq<string>, files: seq<File>, p: string)
    ensures var x := Target(disk, owned, files).files;
      && (p in PathsOf(files) ==> p in x)
      && (p in owned && p !in PathsOf(files) ==> p !in x)
      && (p !in owned && p !in PathsOf(files) ==> (p in x <==> p in disk.files) && (p in x ==> x[p] == disk.files[p]))
    ensures forall k :: 0 <= k < |files| && files[k].path == p && p !in PathsOf(files[k + 1..]) ==>
      p in Target(disk, owned, files).files && Target(disk, owned, files).files[p] == files[k].text
  {
    WriteAllValue(disk.files, files, p);
    forall k | 0 <= k < |files| && files[k].path == p && p !in PathsOf(files[k + 1..])
      ensures p in Target(disk, owned, files).files && Target(disk, owned, files).files[p] == files[k].text
    {
      assert PathsOf(files)[k] == p;
      LastWriteWins(disk.files, files, k);
    }
  }

  lemma {:induction false} LastWriteWins(disk: map<string, string>, files: seq<File>, k: nat)
    requires k < |files| && files[k].path !in PathsOf(files[k + 1..])
    ensures files[k].path in WriteAll(disk, files) && WriteAll(disk, files)[files[k].path] == files[k].text
  {
    if k < |files| - 1 {
      var front := files[..|files| - 1];
      assert files[k + 1..] == front[k + 1..] + [files[|files| - 1]];
      assert PathsOf(files[k + 1..]) == PathsOf(front[k + 1..]) + [files[|files| - 1].path];
      LastWriteWins(disk, front, k);
    }
  }

  // ---- when a run gets through ------------------------------------------------------------------

  /** File `k` does not stand where a directory is or has to be, nor below or above another file. */
  ghost predicate FreeToWrite(disk: Disk, files: seq<File>, k: nat)
    requires k < |files|
  {
    && CanHold(disk, files[k].path)
    && (forall i :: 0 <= i < k ==> files[i].path !in Parents(files[k].path) && files[k].path !in Parents(files[i].path))
  }

  /** Stale path `k` is no directory, will not be one, and is not below a file that is there when its turn comes. */
  ghost predicate FreeToRemove(disk: Disk, owned: seq<string>, files: seq<File>, k: nat)
    requires k < |owned|
  {
    && owned[k] !in disk.dirs && owned[k] !in Needed(files)
    && (forall a :: a in Parents(owned[k]) ==> a !in PathsOf(files) && (a in disk.files ==> a in owned[..k]))
  }

  /** No path of the run clashes with the directory tree. */
  ghost predicate NoClash(disk: Disk, owned: seq<string>, files: seq<File>) {
    && (forall k: nat :: k < |files| ==> FreeToWrite(disk, files, k))
    && (forall k: nat :: k < |owned| && owned[k] !in PathsOf(files) ==> FreeToRemove(disk, owned, files, k))
  }

  function Repeat(n: nat): seq<Action> {
    seq(n, _ => Advance)
  }

  lemma {:induction false} TraceConcat(s: State, xs: seq<Action>, ys: seq<Action>)
    ensures Trace(s, xs + ys) == Trace(Trace(s, xs), ys)
  {
    if ys == [] {
      assert xs + ys == xs;
    } else {
      assert (xs + ys)[..|xs + ys| - 1] == xs + ys[..|ys| - 1];
      TraceConcat(s, xs, ys[..|ys| - 1]);
    }
  }

  lemma OneStep(s: State, n: nat)
    ensures Trace(s, Repeat(n + 1)) == Trace(Apply(s, Advance), Repeat(n))
  {
    assert Repeat(n + 1) == Repeat(1) + Repeat(n);
    TraceConcat(s, Repeat(1), Repeat(n));
    assert Repeat(1)[..0] == [] && Trace(s, []) == s;
  }

  /** The disk after the first `k` writes of a run that started on `disk`. */
  function Halfway(disk: Disk, files: seq<File>, k: nat): (r: Disk)
    requires k <= |files|
  {
    disk.(files := WriteAll(disk.files, files[..k]), dirs := disk.dirs + Needed(files[..k]), lock := true)
  }

  lemma HalfwayStep(disk: Disk, files: seq<File>, k: nat)
    requires k < |files|
    ensures Halfway(disk, files, k + 1) == Put(Halfway(disk, files, k), files[k].path, files[k].text)
  {
    assert files[..k + 1][..k] == files[..k];
  }

  /** The write succeeds exactly if the file is free, given that the ones before it are written. */
  lemma WriteSucceeds(disk: Disk, files: seq<File>, k: nat)
    requires k < |files|
    ensures CanHold(Halfway(disk, files, k), files[k].path) <==> FreeToWrite(disk, files, k)
  {
    var half, p := Halfway(disk, files, k), files[k].path;
    NeededByOne(files[..k], p);
    forall a ensures a in half.files <==> a in disk.files || exists i :: 0 <= i < k && files[i].path == a {
      WriteAllValue(disk.files, files[..k], a);
      if a in PathsOf(files[..k]) {
        var i :| 0 <= i < k && PathsOf(files[..k])[i] == a;
        assert files[i].path == a;
      }
      if i :| 0 <= i < k && files[i].path == a {
        assert PathsOf(files[..k])[i] == a;
      }
    }
    if FreeToWrite(disk, files, k) {
      assert !UnderFile(half, p);
    }
  }

  /** The run is over without a commit. */
  predicate RefusedWith(x: State, disk: Disk) {
    x.run.None? && x.outcome.Refused? && x.disk.manifest == disk.manifest && !x.disk.lock
  }

  /** A run that writes its file `k` next. */
  predicate WritesNext(s: State, disk: Disk, run: Run, k: nat) {
    && k <= |run.files| && s.run == Some(run.(phase := Writing(k)))
    && s.disk == Halfway(disk, run.files, k)
  }

  ghost predicate AllWritable(disk: Disk, files: seq<File>, k: nat) {
    forall i: nat :: k <= i < |files| ==> FreeToWrite(disk, files, i)
  }

  ghost predicate AllRemovable(disk: Disk, owned: seq<string>, files: seq<File>, k: nat) {
    forall i: nat :: k <= i < |owned| && owned[i] !in PathsOf(files) ==> FreeToRemove(disk, owned, files, i)
  }

  lemma WriteStep(s: State, disk: Disk, run: Run, k: nat)
    requires WritesNext(s, disk, run, k)
    ensures
      var x := Apply(s, Advance);
      if k == |run.files| then x == s.(run := Some(run.(phase := Removing(0))))
      else if FreeToWrite(disk, run.files, k) then WritesNext(x, disk, run, k + 1)
      else RefusedWith(x, disk)
  {
    if k < |run.files| {
      WriteSucceeds(disk, run.files, k);
      HalfwayStep(disk, run.files, k);
    }
  }

  /** The write phase: through to the removals if all files are free, and refused otherwise. */
  lemma {:induction false} WritesOn(s: State, disk: Disk, run: Run, k: nat) returns (n: nat)
    requires WritesNext(s, disk, run, k)
    ensures
      var x := Trace(s, Repeat(n));
      if AllWritable(disk, run.files, k)
      then x.run == Some(run.(phase := Removing(0))) && x.disk == Halfway(disk, run.files, |run.files|)
      else RefusedWith(x, disk)
    decreases |run.files| - k
  {
    var next := Apply(s, Advance);
    WriteStep(s, disk, run, k);
    if k < |run.files| && FreeToWrite(disk, run.files, k) {
      var m := WritesOn(next, disk, run, k + 1);
      n := m + 1;
      OneStep(s, m);
    } else {
      n := 1;
      LastStep(s);
    }
  }

  lemma LastStep(s: State)
    ensures Trace(s, Repeat(1)) == Apply(s, Advance)
  {
    OneStep(s, 0);
    assert Trace(Apply(s, Advance), Repeat(0)) == Apply(s, Advance);
  }

  /** The disk after all writes and the first `k` looks at owned paths. */
  function Cleaned(disk: Disk, owned: seq<string>, files: seq<File>, k: nat): (r: Disk)
    requires k <= |owned|
  {
    disk.(files := WriteAll(disk.files, files) - (Members(owned[..k]) - Members(PathsOf(files))),
          dirs := disk.dirs + Needed(files), lock := true)
  }

  lemma CleanedStep(disk: Disk, owned: seq<string>, files: seq<File>, k: nat)
    requires k < |owned|
    ensures
      var now, then', p := Cleaned(disk, owned, files, k), Cleaned(disk, owned, files, k + 1), owned[k];
      && (p in PathsOf(files) ==> then' == now)
      && (p !in PathsOf(files) ==> then' == now.(files := now.files - {p}))
      && (p !in now.files ==> then' == now)
  {
    var now, then', p := Cleaned(disk, owned, files, k), Cleaned(disk, owned, files, k + 1), owned[k];
    assert owned[..k + 1] == owned[..k] + [p];
    if p in PathsOf(files) {
      assert then'.files == now.files;
    } else {
      assert then'.files == now.files - {p};
    }
  }

  /** Looking at a stale path is an error exactly if it is not free. */
  lemma RemoveSucceeds(disk: Disk, owned: seq<string>, files: seq<File>, k: nat)
    requires k < |owned| && owned[k] !in PathsOf(files)
    ensures CanHold(Cleaned(disk, owned, files, k), owned[k]) <==> FreeToRemove(disk, owned, files, k)
  {
    var now, p := Cleaned(disk, owned, files, k), owned[k];
    forall a ensures a in now.files <==> a in PathsOf(files) || (a in disk.files && a !in owned[..k]) {
      WriteAllValue(disk.files, files, a);
    }
    if FreeToRemove(disk, owned, files, k) {
      assert !UnderFile(now, p);
    }
  }

  /** A run that looks at its owned path `k` next. */
  predicate RemovesNext(s: State, disk: Disk, run: Run, k: nat) {
    && k <= |run.owned| && s.run == Some(run.(phase := Removing(k)))
    && s.disk == Cleaned(disk, run.owned, run.files, k)
  }

  lemma RemoveStep(s: State, disk: Disk, run: Run, k: nat)
    requires RemovesNext(s, disk, run, k) && k < |run.owned|
    ensures
      var x := Apply(s, Advance);
      if run.owned[k] in PathsOf(run.files) || FreeToRemove(disk, run.owned, run.files, k) then RemovesNext(x, disk, run, k + 1)
      else RefusedWith(x, disk)
  {
    CleanedStep(disk, run.owned, run.files, k);
    if run.owned[k] !in PathsOf(run.files) {
      RemoveSucceeds(disk, run.owned, run.files, k);
    }
  }

  lemma CommitSteps(s: State, disk: Disk, run: Run)
    requires RemovesNext(s, disk, run, |run.owned|)
    ensures
      var x := Trace(s, Repeat(2));
      x.run.None? && x.outcome.Done? && x.disk == Target(disk, run.owned, run.files)
  {
    assert run.owned[..|run.owned|] == run.owned;
    LastStep(Apply(s, Advance));
    OneStep(s, 1);
  }

  /** The removal phase and the commit. */
  lemma {:induction false} RemovesOn(s: State, disk: Disk, run: Run, k: nat) returns (n: nat)
    requires RemovesNext(s, disk, run, k)
    ensures
      var x := Trace(s, Repeat(n));
      if AllRemovable(disk, run.owned, run.files, k)
      then x.run.None? && x.outcome.Done? && x.disk == Target(disk, run.owned, run.files)
      else RefusedWith(x, disk)
    decreases |run.owned| - k
  {
    if k == |run.owned| {
      n := 2;
      CommitSteps(s, disk, run);
    } else {
      RemoveStep(s, disk, run, k);
      if run.owned[k] in PathsOf(run.files) || FreeToRemove(disk, run.owned, run.files, k) {
        var m := RemovesOn(Apply(s, Advance), disk, run, k + 1);
        n := m + 1;
        OneStep(s, m);
      } else {
        n := 1;
        LastStep(s);
      }
    }
  }

  /** The run has checked everything and is about to write. */
  lemma PreflightPasses(s: State, files: seq<File>)
    requires s.run.None? && !s.disk.lock && Owned(s.disk).Some?
    requires forall f :: f in files ==> ValidImportPath(f.path)
    ensures
      var ready := Apply(Apply(s, Begin(files)), Advance);
      WritesNext(ready, s.disk, Run(files, Owned(s.disk).value, Writing(0)), 0)
    ensures forall n: nat ::
      Trace(s, [Begin(files)] + Repeat(n + 1)) == Trace(Apply(Apply(s, Begin(files)), Advance), Repeat(n))
  {
    assert files[..0] == [];
    forall n: nat
      ensures Trace(s, [Begin(files)] + Repeat(n + 1)) == Trace(Apply(Apply(s, Begin(files)), Advance), Repeat(n))
    {
      TraceConcat(s, [Begin(files)], Repeat(n + 1));
      assert [Begin(files)][..0] == [] && Trace(s, []) == s && Trace(s, [Begin(files)]) == Apply(s, Begin(files));
      OneStep(Apply(s, Begin(files)), n);
    }
  }

  lemma AllWritten(s: State, disk: Disk, run: Run)
    requires s.run == Some(run.(phase := Removing(0))) && s.disk == Halfway(disk, run.files, |run.files|)
    ensures RemovesNext(s, disk, run, 0)
  {
    assert run.files[..|run.files|] == run.files && run.owned[..0] == [];
    assert Cleaned(disk, run.owned, run.files, 0).files == s.disk.files;
  }

  /** With an invalid path, or with a manifest that cannot be read, a run ends before it touches anything. */
  lemma {:induction false} RefusedAtOnce(s: State, files: seq<File>)
    requires s.run.None? && !s.disk.lock
    requires Owned(s.disk).None? || exists f :: f in files && !ValidImportPath(f.path)
    ensures
      var x := Trace(s, [Begin(files), Advance]);
      x.run.None? && x.outcome.Refused? && x.disk == s.disk && x.log == s.log
  {
    var actions := [Begin(files), Advance];
    assert actions[..1] == [Begin(files)] && actions[..1][..0] == [];
    assert Trace(s, actions[..1]) == Apply(s, Begin(files));
  }

  /** While the lock is there, no run begins. */
  lemma {:induction false} LockedOut(s: State, files: seq<File>)
    requires s.disk.lock
    ensures Trace(s, [Begin(files)]) == s
  {
    assert [Begin(files)][..0] == [];
  }

  /** A run from rest that is left alone gets through exactly if no path clashes; then it leaves the target disk. */
  lemma SyncReachesTarget(s: State, files: seq<File>) returns (n: nat)
    requires s.run.None? && !s.disk.lock && Owned(s.disk).Some?
    requires forall f :: f in files ==> ValidImportPath(f.path)
    ensures
      var x := Trace(s, [Begin(files)] + Repeat(n));
      if NoClash(s.disk, Owned(s.disk).value, files)
      then x.run.None? && x.outcome.Done? && x.disk == Target(s.disk, Owned(s.disk).value, files)
      else RefusedWith(x, s.disk)
  {
    var run := Run(files, Owned(s.disk).value, Writing(0));
    var ready := Apply(Apply(s, Begin(files)), Advance);
    PreflightPasses(s, files);
    var w := WritesOn(ready, s.disk, run, 0);
    n := w + 1;
    if AllWritable(s.disk, files, 0) {
      var written := Trace(ready, Repeat(w));
      AllWritten(written, s.disk, run);
      var r := RemovesOn(written, s.disk, run, 0);
      n := w + r + 1;
      assert Repeat(w + r) == Repeat(w) + Repeat(r);
      TraceConcat(ready, Repeat(w), Repeat(r));
    }
  }

  // ---- clashes ------------------------------------------------------------------------------------

  /** A new file below a path of the last generation: its parent is still a file when it is written. */
  lemma NewBelowOld(text: string)
    ensures !NoClash(Disk(map["x" := text], {}, Some(Render(["x"])), false), ["x"], [File("x/y", text)])
  {
    var disk, files := Disk(map["x" := text], {}, Some(Render(["x"])), false), [File("x/y", text)];
    assert "x/y"[1] == '/' && "x/y"[..1] == "x";
    assert "x" in Parents("x/y");
    assert !CanHold(disk, files[0].path);
    assert !FreeToWrite(disk, files, 0);
  }

  /** If somebody has removed that path, the write makes it a directory, and the removal phase meets the directory. */
  lemma StaleBecomesDirectory(text: string)
    ensures
      var disk, files := Disk(map[], {}, Some(Render(["x"])), false), [File("x/y", text)];
      !NoClash(disk, ["x"], files) && AllWritable(disk, files, 0)
  {
    var disk, files := Disk(map[], {}, Some(Render(["x"])), false), [File("x/y", text)];
    assert "x/y"[1] == '/' && "x/y"[..1] == "x";
    assert "x" in Parents("x/y");
    NeededByOne(files, "x");
    assert PathsOf(files) == ["x/y"] && |"x/y"| != |"x"|;
    assert !FreeToRemove(disk, ["x"], files, 0);
  }

  // ---- crash convergence ------------------------------------------------------------------

  /** The path is neither one of these nor above or below one. */
  ghost predicate Elsewhere(path: string, paths: set<string>) {
    forall p :: p in paths ==> path != p && path !in Parents(p) && p !in Parents(path)
  }

  /** Runs with the same files, their crashes, and other programs at work on other paths. */
  ghost predicate SameRun(files: seq<File>, owned: seq<string>, a: Action) {
    match a
    case Begin(fs) => fs == files
    case Foreign(c) => Elsewhere(c.path, Members(PathsOf(files)) + Members(owned))
    case _ => true
  }

  /** The disk that only the other programs have worked on. */
  function Undisturbed(disk: Disk, actions: seq<Action>): (r: Disk) {
    if actions == [] then disk
    else
      var before, a := Undisturbed(disk, actions[..|actions| - 1]), actions[|actions| - 1];
      if a.Foreign? then Changed(before, a.change) else before
  }

  /** The first `n` owned paths are gone unless this run wrote them. */
  ghost predicate Cleared(disk: map<string, string>, owned: seq<string>, files: seq<File>, n: nat)
    requires n <= |owned|
  {
    forall k :: 0 <= k < n && owned[k] !in PathsOf(files) ==> owned[k] !in disk
  }

  lemma ClearedOne(disk: map<string, string>, owned: seq<string>, files: seq<File>, k: nat)
    requires k < |owned| && Cleared(disk, owned, files, k)
    ensures owned[k] !in PathsOf(files) ==> Cleared(disk - {owned[k]}, owned, files, k + 1)
    ensures owned[k] in PathsOf(files) || owned[k] !in disk ==> Cleared(disk, owned, files, k + 1)
  {
  }

  /** Where the run stands, on a disk that it may share with others. */
  ghost predicate OnTrack(s: State, run: Run, files: seq<File>) {
    && run.files == files && s.disk.lock
    && (run.phase.Writing? || run.phase.Removing? ==> Some(run.owned) == Owned(s.disk))
    && (run.phase.Writing? ==> run.phase.next <= |files|)
    && (run.phase.Removing? ==> run.phase.next <= |run.owned| && Cleared(s.disk.files, run.owned, files, run.phase.next))
  }

  /** Every state of these runs is on its way to the target of the undisturbed disk. */
  ghost predicate Heading(s: State, files: seq<File>, owned: seq<string>, quiet: Disk) {
    && (forall f :: f in files ==> ValidImportPath(f.path))
    && Owned(s.disk).Some? && (Owned(s.disk).value == owned || Owned(s.disk).value == SortPaths(PathsOf(files)))
    && Alike(s.disk, Owned(s.disk).value, quiet, owned, files)
    && NoClash(s.disk, Owned(s.disk).value, files)
    && (s.run.Some? ==> OnTrack(s, s.run.value, files))
  }

  lemma PathIn(files: seq<File>, i: nat)
    requires i < |files|
    ensures files[i].path in PathsOf(files) && Parents(files[i].path) <= Needed(files)
  {
    assert PathsOf(files)[i] == files[i].path;
    forall d | d in Parents(files[i].path) ensures d in Needed(files) {
      NeededByOne(files, d);
    }
  }

  /** No file of the run is above another one. */
  lemma FilesApart(disk: Disk, owned: seq<string>, files: seq<File>, k: nat)
    requires NoClash(disk, owned, files) && k < |files|
    ensures files[k].path !in Needed(files)
    ensures forall a :: a in Parents(files[k].path) ==> a !in PathsOf(files)
  {
    NotOwnParent(files[k].path);
    NeededByOne(files, files[k].path);
    forall i: nat | i < |files| ensures files[k].path !in Parents(files[i].path) && files[i].path !in Parents(files[k].path) {
      assert FreeToWrite(disk, files, k) && FreeToWrite(disk, files, i);
    }
    forall a | a in PathsOf(files) ensures a !in Parents(files[k].path) {
      var i :| 0 <= i < |files| && PathsOf(files)[i] == a;
      assert a == files[i].path;
    }
  }

  /** What the run itself adds does not make it clash. */
  lemma ClashKept(d: Disk, e: Disk, owned: seq<string>, files: seq<File>)
    requires NoClash(d, owned, files) && e.dirs <= d.dirs + Needed(files)
    requires forall p :: p in e.files ==> p in d.files || p in PathsOf(files)
    ensures NoClash(e, owned, files)
  {
    forall k: nat | k < |files| ensures FreeToWrite(e, files, k) {
      FilesApart(d, owned, files, k);
      assert FreeToWrite(d, files, k);
    }
    forall k: nat | k < |owned| && owned[k] !in PathsOf(files) ensures FreeToRemove(e, owned, files, k) {
      assert FreeToRemove(d, owned, files, k);
    }
  }

  lemma WritingHeads(s: State, files: seq<File>, owned: seq<string>, quiet: Disk, run: Run, k: nat)
    requires Heading(s, files, owned, quiet) && s.run == Some(run) && run.phase == Writing(k)
    ensures Heading(StepWriting(s, run, k), files, owned, quiet)
  {
    if k < |files| {
      assert FreeToWrite(s.disk, files, k);
      PathIn(files, k);
      ClashKept(s.disk, Put(s.disk, files[k].path, files[k].text), Owned(s.disk).value, files);
    }
  }

  /** A stale path that is free is no directory and not below a file when its turn comes. */
  lemma TurnIsFree(disk: Disk, owned: seq<string>, files: seq<File>, k: nat)
    requires k < |owned| && FreeToRemove(disk, owned, files, k) && Cleared(disk.files, owned, files, k)
    ensures CanHold(disk, owned[k])
  {
    forall a | a in owned[..k] && a !in PathsOf(files) ensures a !in disk.files {
      var i :| 0 <= i < k && owned[i] == a;
    }
  }

  lemma RemovingHeads(s: State, files: seq<File>, owned: seq<string>, quiet: Disk, run: Run, k: nat)
    requires Heading(s, files, owned, quiet) && s.run == Some(run) && run.phase == Removing(k) && k < |run.owned|
    ensures Heading(StepRemoving(s, run, k), files, owned, quiet)
  {
    var p := run.owned[k];
    assert p in run.owned;
    ClearedOne(s.disk.files, run.owned, files, k);
    if p !in PathsOf(files) {
      TurnIsFree(s.disk, run.owned, files, k);
      ClashKept(s.disk, s.disk.(files := s.disk.files - {p}), run.owned, files);
    }
  }

  lemma CommitHeads(s: State, files: seq<File>, owned: seq<string>, quiet: Disk, run: Run)
    requires Heading(s, files, owned, quiet) && s.run == Some(run) && run.phase == Removing(|run.owned|)
    ensures Heading(StepRemoving(s, run, |run.owned|), files, owned, quiet)
  {
    var paths := SortPaths(PathsOf(files));
    var x := StepRemoving(s, run, |run.owned|);
    SortKeepsPaths(PathsOf(files));
    forall p | p in paths ensures ValidImportPath(p) {
      var i :| 0 <= i < |files| && PathsOf(files)[i] == p;
      assert files[i] in files;
    }
    ManifestRoundTrip(paths);
    forall p | p !in PathsOf(files) && p in run.owned ensures p !in s.disk.files {
      var k :| 0 <= k < |run.owned| && run.owned[k] == p;
    }
    assert NoClash(x.disk, paths, files) by {
      forall k: nat | k < |files| ensures FreeToWrite(x.disk, files, k) {
        assert FreeToWrite(s.disk, files, k);
      }
      assert forall k: nat :: k < |paths| ==> paths[k] in paths;
    }
  }

  // ---- other programs elsewhere ------------------------------------------------------------------------

  /** A change elsewhere does not make a run clash. */
  lemma ChangeKeepsClash(d: Disk, c: Change, owned: seq<string>, files: seq<File>)
    requires NoClash(d, owned, files) && Elsewhere(c.path, Members(PathsOf(files)) + Members(owned))
    ensures NoClash(Changed(d, c), owned, files)
  {
    var e, paths := Changed(d, c), Members(PathsOf(files)) + Members(owned);
    forall k: nat | k < |files| ensures FreeToWrite(e, files, k) {
      PathIn(files, k);
      assert files[k].path in paths;
      assert FreeToWrite(d, files, k);
    }
    forall k: nat | k < |owned| && owned[k] !in PathsOf(files) ensures FreeToRemove(e, owned, files, k) {
      assert owned[k] in owned;
      assert owned[k] in paths;
      assert FreeToRemove(d, owned, files, k);
    }
  }

  /** Where the run neither writes nor removes, and nothing is needed, the two disks hold the same. */
  lemma SameElsewhere(d: Disk, mine: seq<string>, e: Disk, yours: seq<string>, files: seq<File>, q: string)
    requires Alike(d, mine, e, yours, files)
    requires mine == yours || forall p :: p in mine ==> p in PathsOf(files)
    requires Elsewhere(q, Members(PathsOf(files)) + Members(yours))
    ensures q !in PathsOf(files) && q !in mine && q !in yours && q !in Needed(files)
    ensures CanHold(d, q) <==> CanHold(e, q)
    ensures q in d.files <==> q in e.files
    ensures UnderFile(d, q) <==> UnderFile(e, q)
  {
    var paths := Members(PathsOf(files)) + Members(yours);
    NeededByOne(files, q);
    forall i | 0 <= i < |files| ensures q !in Parents(files[i].path) {
      PathIn(files, i);
      assert files[i].path in paths;
    }
    assert forall p :: p in PathsOf(files) || p in yours ==> p in paths;
    assert q in d.dirs + Needed(files) <==> q in e.dirs + Needed(files);
    forall a | a in Parents(q) ensures a in d.files <==> a in e.files {
      assert a !in paths;
    }
  }

  /** Files and directories of the run do not fill a directory elsewhere. */
  lemma SameEmptiness(d: Disk, e: Disk, files: seq<File>, paths: set<string>, q: string)
    requires Elsewhere(q, paths) && Members(PathsOf(files)) <= paths
    requires e.dirs <= d.dirs + Needed(files) && forall f :: f in e.files ==> f in d.files || f in paths
    requires IsEmptyDir(d, q)
    ensures IsEmptyDir(e, q)
  {
    forall x | x in e.dirs && x in Needed(files) ensures q !in Parents(x) {
      NeededByOne(files, x);
      var i :| 0 <= i < |files| && x in Parents(files[i].path);
      PathIn(files, i);
      assert files[i].path in paths;
      if q in Parents(x) {
        ParentsClimb(q, x, files[i].path);
        assert false;
      }
    }
  }

  /** The same change elsewhere leaves the two disks alike. */
  lemma ChangeKeepsAlike(d: Disk, mine: seq<string>, e: Disk, yours: seq<string>, files: seq<File>, c: Change)
    requires Alike(d, mine, e, yours, files)
    requires mine == yours || forall p :: p in mine ==> p in PathsOf(files)
    requires Elsewhere(c.path, Members(PathsOf(files)) + Members(yours))
    ensures Alike(Changed(d, c), mine, Changed(e, c), yours, files)
  {
    var paths := Members(PathsOf(files)) + Members(yours);
    SameElsewhere(d, mine, e, yours, files, c.path);
    if c.RemoveDir? {
      assert d.dirs <= d.dirs + Needed(files) && e.dirs <= e.dirs + Needed(files);
      assert IsEmptyDir(d, c.path) ==> IsEmptyDir(e, c.path) by {
        if IsEmptyDir(d, c.path) {
          SameEmptiness(d, e, files, paths, c.path);
        }
      }
      assert IsEmptyDir(e, c.path) ==> IsEmptyDir(d, c.path) by {
        if IsEmptyDir(e, c.path) {
          SameEmptiness(e, d, files, paths, c.path);
        }
      }
    }
  }

  lemma ChangeHeads(s: State, files: seq<File>, owned: seq<string>, quiet: Disk, c: Change)
    requires Heading(s, files, owned, quiet) && SameRun(files, owned, Foreign(c))
    ensures Heading(Apply(s, Foreign(c)), files, owned, Changed(quiet, c))
  {
    var mine := Owned(s.disk).value;
    SortKeepsPaths(PathsOf(files));
    assert forall p :: p in mine ==> p in owned || p in PathsOf(files);
    ChangeKeepsAlike(s.disk, mine, quiet, owned, files, c);
    ChangeKeepsClash(s.disk, c, mine, files);
    if s.run.Some? && s.run.value.phase.Removing? {
      var run := s.run.value;
      forall k | 0 <= k < run.phase.next && run.owned[k] !in PathsOf(files)
        ensures run.owned[k] !in Changed(s.disk, c).files
      {
        assert run.owned[k] in run.owned;
        assert run.owned[k] in Members(PathsOf(files)) + Members(owned);
      }
    }
  }

  lemma StepHeads(s: State, files: seq<File>, owned: seq<string>, quiet: Disk, a: Action)
    requires Heading(s, files, owned, quiet) && SameRun(files, owned, a)
    ensures Heading(Apply(s, a), files, owned, if a.Foreign? then Changed(quiet, a.change) else quiet)
  {
    match a
    case Foreign(c) => ChangeHeads(s, files, owned, quiet, c);
    case Advance =>
      if s.run.Some? {
        AdvanceHeads(s, files, owned, quiet, s.run.value);
      }
    case _ => LockHeads(s, files, owned, quiet, Apply(s, a));
  }

  /** Nothing changes but the lock and whether there is a run, which has done nothing yet. */
  lemma LockHeads(s: State, files: seq<File>, owned: seq<string>, quiet: Disk, x: State)
    requires Heading(s, files, owned, quiet) && x.disk.(lock := s.disk.lock) == s.disk
    requires x.run.Some? ==> OnTrack(x, x.run.value, files)
    ensures Heading(x, files, owned, quiet)
  {
    ClashKept(s.disk, x.disk, Owned(s.disk).value, files);
  }

  lemma AdvanceHeads(s: State, files: seq<File>, owned: seq<string>, quiet: Disk, run: Run)
    requires Heading(s, files, owned, quiet) && s.run == Some(run)
    ensures Heading(Apply(s, Advance), files, owned, quiet)
  {
    match run.phase
    case Writing(k) => WritingHeads(s, files, owned, quiet, run, k);
    case Removing(k) =>
      if k < |run.owned| {
        RemovingHeads(s, files, owned, quiet, run, k);
      } else {
        CommitHeads(s, files, owned, quiet, run);
      }
    case _ => LockHeads(s, files, owned, quiet, Apply(s, Advance));
  }

  lemma {:induction false} TraceHeads(s: State, files: seq<File>, owned: seq<string>, quiet: Disk, actions: seq<Action>)
    requires Heading(s, files, owned, quiet) && forall a :: a in actions ==> SameRun(files, owned, a)
    ensures Heading(Trace(s, actions), files, owned, Undisturbed(quiet, actions))
  {
    if actions != [] {
      var front, last := actions[..|actions| - 1], actions[|actions| - 1];
      TraceHeads(s, files, owned, quiet, front);
      StepHeads(Trace(s, front), files, owned, Undisturbed(quiet, front), last);
    }
  }

  /** However often runs with these files crash or fail, at whatever step, and whatever other programs do elsewhere
    meanwhile: once the stale lock is cleared, one more run leaves the disk that a run without any crash would have
    left after the same changes. */
  lemma CrashConvergence(s: State, files: seq<File>, actions: seq<Action>) returns (n: nat)
    requires s.run.None? && !s.disk.lock && Owned(s.disk).Some?
    requires forall f :: f in files ==> ValidImportPath(f.path)
    requires NoClash(s.disk, Owned(s.disk).value, files)
    requires forall a :: a in actions ==> SameRun(files, Owned(s.disk).value, a)
    requires Trace(s, actions).run.None? && !Trace(s, actions).disk.lock
    ensures
      var x := Trace(Trace(s, actions), [Begin(files)] + Repeat(n));
      && x.run.None? && x.outcome.Done?
      && x.disk == Target(Undisturbed(s.disk, actions), Owned(s.disk).value, files)
  {
    var owned := Owned(s.disk).value;
    var x := Trace(s, actions);
    TraceHeads(s, files, owned, s.disk, actions);
    n := SyncReachesTarget(x, files);
    SameTarget(x.disk, Owned(x.disk).value, Undisturbed(s.disk, actions), owned, files);
  }
}
