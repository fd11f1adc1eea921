/** What the polling monitor's scan, change plan, mount check and file
    handling guarantee. */
module PollingMonitorProps {
  import opened Text
  import opened Wrappers
  import opened FileTree
  import opened State
  import opened Config
  import opened ProcessFileImpl
  import opened Reconciler
  import opened Orchestrator
  import opened PollingMonitor

  // ---------------------------------------------------------------------
  // The scan.

  /** The key of a scanned file is its own path when the root is not empty
      and the path has no doubled slash after the root. */
  lemma ScanKeyIsPath(root: Path, p: Path)
    requires root != "" && StartsWith(p, Below(root)) && !StartsWith(RelPath(root, p), "/")
    ensures ScanKey(root, p) == p
  {
    var rel := RelPath(root, p);
    if root[|root| - 1] != '/' {
      assert root + "/" + rel == Below(root) + rel;
    }
  }

  /** `p` is a file the walk of `root` yields before its first unreadable one. */
  ghost predicate Yields(t: Tree, root: Path, p: Path) {
    p in Statted(t, t.WalkFiles(root))
  }

  /** Every stored entry comes from an existing root of the scan, names a
      file its walk yields before the first unreadable one, and is keyed by
      joining the two. */
  ghost predicate Sound(t: Tree, roots: seq<Path>, m: Listing) {
    forall k :: k in m ==>
      && m[k].parentDir in roots && t.Exists(m[k].parentDir)
      && Yields(t, m[k].parentDir, Below(m[k].parentDir) + m[k].relPath)
      && k == JoinPath(m[k].parentDir, m[k].relPath)
  }

  /** Storing one file the walk of an existing root yields keeps the
      listing sound. */
  lemma SoundStore(t: Tree, roots: seq<Path>, m: Listing, root: Path, p: Path)
    requires Sound(t, roots, m) && root in roots && t.Exists(root)
    requires Yields(t, root, p) && StartsWith(p, Below(root))
    ensures Sound(t, roots, m[ScanKey(root, p) := FileMeta(root, RelPath(root, p))])
  {
    var key := ScanKey(root, p);
    var m1 := m[key := FileMeta(root, RelPath(root, p))];
    forall k | k in m1
      ensures && m1[k].parentDir in roots && t.Exists(m1[k].parentDir)
              && Yields(t, m1[k].parentDir, Below(m1[k].parentDir) + m1[k].relPath)
              && k == JoinPath(m1[k].parentDir, m1[k].relPath)
    {
      if k == key {
        assert Below(root) + RelPath(root, p) == p;
      } else {
        assert m1[k] == m[k];
      }
    }
  }

  lemma {:induction false} AddFilesSound(t: Tree, roots: seq<Path>, m: Listing, root: Path, files: seq<Path>)
    requires Sound(t, roots, m) && root in roots && t.Exists(root)
    requires forall p :: p in files ==> Yields(t, root, p) && StartsWith(p, Below(root))
    ensures Sound(t, roots, AddFiles(m, root, files))
    decreases |files|
  {
    if files != [] {
      var p := files[0];
      var m1 := m[ScanKey(root, p) := FileMeta(root, RelPath(root, p))];
      SoundStore(t, roots, m, root, p);
      assert AddFiles(m, root, files) == AddFiles(m1, root, files[1..]);
      AddFilesSound(t, roots, m1, root, files[1..]);
    }
  }

  /** Storing files keeps the earlier keys and adds one key per file. */
  lemma {:induction false} AddFilesKeys(m: Listing, root: Path, files: seq<Path>)
    requires forall p :: p in files ==> StartsWith(p, Below(root))
    ensures m.Keys <= AddFiles(m, root, files).Keys
    ensures forall p :: p in files ==> ScanKey(root, p) in AddFiles(m, root, files)
    decreases |files|
  {
    if files != [] {
      var p := files[0];
      var m1 := m[ScanKey(root, p) := FileMeta(root, RelPath(root, p))];
      assert AddFiles(m, root, files) == AddFiles(m1, root, files[1..]);
      AddFilesKeys(m1, root, files[1..]);
      forall q | q in files ensures ScanKey(root, q) in AddFiles(m, root, files) {
        if q != p {
          assert q in files[1..];
        }
      }
    }
  }

  lemma {:induction false} ScanFromSound(t: Tree, all: seq<Path>, m: Listing, roots: seq<Path>)
    requires Sound(t, all, m) && forall r :: r in roots ==> r in all
    ensures Sound(t, all, ScanFrom(t, m, roots))
    ensures m.Keys <= ScanFrom(t, m, roots).Keys
    ensures forall r, p :: r in roots && t.Exists(r) && p in Statted(t, t.WalkFiles(r)) ==> ScanKey(r, p) in ScanFrom(t, m, roots)
    decreases |roots|
  {
    if roots != [] {
      var r0 := roots[0];
      var m1 := AddRoot(t, m, r0);
      if t.Exists(r0) {
        AddFilesSound(t, all, m, r0, Statted(t, t.WalkFiles(r0)));
        AddFilesKeys(m, r0, Statted(t, t.WalkFiles(r0)));
      }
      ScanFromSound(t, all, m1, roots[1..]);
      forall r, p | r in roots && t.Exists(r) && p in Statted(t, t.WalkFiles(r))
        ensures ScanKey(r, p) in ScanFrom(t, m, roots)
      {
        if r != r0 {
          assert r in roots[1..];
        }
      }
    }
  }

  /** `scan_directories`: its keys are exactly the joined paths of the files
      the walks of the existing roots yield before their first unreadable
      file, and each stores the root it was found under and its path
      relative to that root. */
  lemma ScanListing(t: Tree, roots: seq<Path>)
    ensures forall k :: k in Scan(t, roots) ==>
              && Scan(t, roots)[k].parentDir in roots && t.Exists(Scan(t, roots)[k].parentDir)
              && Below(Scan(t, roots)[k].parentDir) + Scan(t, roots)[k].relPath in Statted(t, t.WalkFiles(Scan(t, roots)[k].parentDir))
              && k == JoinPath(Scan(t, roots)[k].parentDir, Scan(t, roots)[k].relPath)
    ensures forall r, p :: r in roots && t.Exists(r) && p in Statted(t, t.WalkFiles(r)) ==> ScanKey(r, p) in Scan(t, roots)
  {
    ScanFromSound(t, roots, map[], roots);
  }

  /** A file the scan stores comes before every broken link of its root's
      walk: `getmtime` raises at the first one and the rest of the walk is
      lost, so neither that link nor anything after it is stored. */
  lemma ScanStopsAtBroken(t: Tree, roots: seq<Path>, k: Path, j: nat)
    requires k in Scan(t, roots)
    requires var files := t.WalkFiles(Scan(t, roots)[k].parentDir); j < |files| && !t.Exists(files[j])
    ensures var e := Scan(t, roots)[k];
            Below(e.parentDir) + e.relPath in t.WalkFiles(e.parentDir)[..j] && t.Exists(Below(e.parentDir) + e.relPath)
  {
    ScanListing(t, roots);
    var e := Scan(t, roots)[k];
    StattedBefore(t, t.WalkFiles(e.parentDir), Below(e.parentDir) + e.relPath, j);
  }

  /** What `Statted` keeps lies before any unreadable file. */
  lemma StattedBefore(t: Tree, files: seq<Path>, p: Path, j: nat)
    requires p in Statted(t, files) && j < |files| && !t.Exists(files[j])
    ensures p in files[..j] && t.Exists(p)
  {
    var r := Statted(t, files);
    assert r == files[..|r|];
    var i :| 0 <= i < |r| && r[i] == p;
    assert files[..j][i] == p;
  }

  /** A missing root contributes nothing. */
  lemma {:induction false} ScanSkipsMissing(t: Tree, roots: seq<Path>, r: Path)
    requires !t.Exists(r)
    ensures Scan(t, [r] + roots) == Scan(t, roots)
  {
    assert ([r] + roots)[1..] == roots;
  }

  // ---------------------------------------------------------------------
  // The change plan.

  lemma {:induction false} FlattenIgnores(dirs: seq<Path>, byDir: map<Path, seq<Path>>, d: Path, v: seq<Path>)
    requires d !in dirs && forall x :: x in dirs ==> x in byDir
    ensures Flatten(dirs, byDir[d := v]) == Flatten(dirs, byDir)
    decreases |dirs|
  {
    if dirs != [] {
      FlattenIgnores(dirs[..|dirs| - 1], byDir, d, v);
    }
  }

  lemma {:induction false} FlattenAppendAt(dirs: seq<Path>, byDir: map<Path, seq<Path>>, d: Path, p: Path)
    requires d in dirs && forall x :: x in dirs ==> x in byDir
    requires forall i, j :: 0 <= i < j < |dirs| ==> dirs[i] != dirs[j]
    ensures multiset(Flatten(dirs, byDir[d := byDir[d] + [p]])) == multiset(Flatten(dirs, byDir)) + multiset{p}
    decreases |dirs|
  {
    var init := dirs[..|dirs| - 1];
    var last := dirs[|dirs| - 1];
    var byDir' := byDir[d := byDir[d] + [p]];
    if last == d {
      assert d !in init;
      FlattenIgnores(init, byDir, d, byDir[d] + [p]);
      assert Flatten(dirs, byDir') == Flatten(init, byDir) + byDir[d] + [p];
    } else {
      assert d in init;
      FlattenAppendAt(init, byDir, d, p);
    }
  }

  /** Adding a file to the groups adds it once to the handling order. */
  lemma PushAdds(g: Groups, d: Path, p: Path)
    requires WellGrouped(g)
    ensures multiset(Flatten(Push(g, d, p).dirs, Push(g, d, p).byDir)) == multiset(Flatten(g.dirs, g.byDir)) + multiset{p}
  {
    if d in g.byDir {
      FlattenAppendAt(g.dirs, g.byDir, d, p);
    } else {
      FlattenIgnores(g.dirs, g.byDir, d, [p]);
      var dirs' := g.dirs + [d];
      assert dirs'[..|dirs'| - 1] == g.dirs;
    }
  }

  /** One more file adds itself to the handling order when it is kept. */
  lemma HandledStep(files: seq<Path>, listing: Listing, skipVersion: bool)
    requires files != [] && forall p :: p in files ==> p in listing
    ensures var last := files[|files| - 1];
      multiset(Handled(files, listing, skipVersion)) ==
      multiset(Handled(files[..|files| - 1], listing, skipVersion)) +
      (if skipVersion && IsVersionFile(last) then multiset{} else multiset{last})
  {
    var last := files[|files| - 1];
    if !(skipVersion && IsVersionFile(last)) {
      PushAdds(GroupBy(files[..|files| - 1], listing, skipVersion), listing[last].parentDir, last);
    }
  }

  /** With distinct `files`, each kept file is handled exactly once and
      nothing else is handled. */
  lemma {:induction false} HandledOnce(files: seq<Path>, listing: Listing, skipVersion: bool)
    requires forall p :: p in files ==> p in listing
    requires forall p :: multiset(files)[p] <= 1
    ensures forall p :: multiset(Handled(files, listing, skipVersion))[p] ==
              if p in files && !(skipVersion && IsVersionFile(p)) then 1 else 0
    decreases |files|
  {
    if files != [] {
      var init := files[..|files| - 1];
      var last := files[|files| - 1];
      assert files == init + [last];
      assert multiset(files) == multiset(init) + multiset{last};
      assert forall p :: multiset(init)[p] <= multiset(files)[p];
      assert last !in init by {
        assert multiset(files)[last] == multiset(init)[last] + 1;
      }
      HandledOnce(init, listing, skipVersion);
      HandledStep(files, listing, skipVersion);
      forall p ensures multiset(Handled(files, listing, skipVersion))[p] ==
                       if p in files && !(skipVersion && IsVersionFile(p)) then 1 else 0 {
        if p != last {
          assert p in files <==> p in init;
        }
      }
    }
  }

  lemma EnumeratesEmpty(s: seq<Path>)
    requires Enumerates(s, {})
    ensures s == []
  {
    assert multiset(s) == multiset{};
  }

  /** `process_changes`' plan: every new file of the scan that is not a
      `version.txt` file is handed to `process_file` exactly once, every
      vanished file to `delete_broken_symlinks` exactly once, and nothing
      else. */
  lemma PlanExactlyOnce(current: Listing, scanned: Listing, addedOrder: seq<Path>, removedOrder: seq<Path>)
    requires Enumerates(addedOrder, scanned.Keys - current.Keys)
    requires Enumerates(removedOrder, current.Keys - scanned.Keys)
    ensures forall p :: multiset(Handled(addedOrder, scanned, true))[p] ==
              if p in scanned && p !in current && !IsVersionFile(p) then 1 else 0
    ensures forall p :: multiset(Handled(removedOrder, current, false))[p] ==
              if p in current && p !in scanned then 1 else 0
  {
    HandledOnce(addedOrder, scanned, true);
    HandledOnce(removedOrder, current, false);
  }

  /** A scan equal to the previous one leads to no work at all. */
  lemma NoChangeNoWork(s: Snapshot, l: Listing, destDir: Path, env: Env, facts: Path -> Facts,
                       valid: Path -> bool, dbOk: bool, addedOrder: seq<Path>, removedOrder: seq<Path>)
    requires Enumerates(addedOrder, l.Keys - l.Keys) && Enumerates(removedOrder, l.Keys - l.Keys)
    ensures ChangesSpec(s, l, l, destDir, env, facts, valid, dbOk, addedOrder, removedOrder) == (s, Done)
  {
    assert l.Keys - l.Keys == {};
    EnumeratesEmpty(addedOrder);
    EnumeratesEmpty(removedOrder);
  }

  /** The pass after a missing previous scan compares the scan with itself:
      files present at start-up are never handed to `create_symlinks`. */
  lemma FirstPassQuiet(s: Snapshot, t: Tree, srcDirs: seq<Path>, destDir: Path, env: Env, facts: Path -> Facts,
                       valid: Path -> bool, dbOk: bool, addedOrder: seq<Path>, removedOrder: seq<Path>)
    requires Enumerates(addedOrder, Scan(t, srcDirs).Keys - Baseline(map[], t, srcDirs).Keys)
    requires Enumerates(removedOrder, Baseline(map[], t, srcDirs).Keys - Scan(t, srcDirs).Keys)
    ensures ChangesSpec(s, Baseline(map[], t, srcDirs), Scan(t, srcDirs), destDir, env, facts, valid, dbOk,
                        addedOrder, removedOrder) == (s, Done)
  {
    NoChangeNoWork(s, Scan(t, srcDirs), destDir, env, facts, valid, dbOk, addedOrder, removedOrder);
  }

  // ---------------------------------------------------------------------
  // Handling new files.

  /** The arguments `create_symlinks` gets for a new file: auto-select, the
      file alone, no force, monitor mode, no forced kind or id. */
  lemma MonitorCall(s: Snapshot, env: Env, facts: Path -> Facts, p: Path)
    requires p !in s.ledger && p != ""
    ensures var (step, s2) := ProcessNewSpec(s, env, facts, p);
      match GetDirectories(env)
        case Err(_) => step == DirsMissing && s2 == s
        case Ok((srcDirs, destDir)) =>
          var o := MonitorOptions(srcDirs, destDir, p, env);
          && step.Ran? && s2 == step.r.s
          && SourceDirs(o) == [p] && o.tmdbId == "" && o.imdbId == ""
          && !o.forceShow && !o.forceMovie && !o.forceExtra
          && o.skipExtras == IsSkipExtrasFolderEnabled(env)
  {
  }

  /** With the flag set, a submission batch changes nothing. */
  lemma {:induction false} DispatchDirsFlagged(b: Batch, o: Options, facts: Path -> Facts, log: set<Path>, dirs: seq<Path>)
    requires b.s.errorSet
    ensures DispatchDirs(b, o, facts, log, dirs).s == b.s
    decreases |dirs|
  {
    if dirs != [] && !b.stopped {
      DispatchDirsFlagged(
        if b.s.tree.IsFile(dirs[0]) then
          var (out, s2) := ProcessFileSpec(b.s, MakeRequest(o, dirs[0], DestIndex(b.s, o)), facts(dirs[0]));
          b.(s := s2, outs := b.outs + [out])
        else DispatchFiles(b, o, facts, log, b.s.tree.WalkFiles(dirs[0]), DestIndex(b.s, o)),
        o, facts, log, dirs[1..]);
    }
  }

  /** A handled new file with the process-wide stop flag already set: the
      tables stay as they are and the flag stays set. */
  lemma ProcessNewFlagged(s: Snapshot, env: Env, facts: Path -> Facts, p: Path)
    requires s.errorSet
    ensures var s2 := ProcessNewSpec(s, env, facts, p).1;
      s2.ledger == s.ledger && s2.index == s.index && s2.errorSet
  {
    if p !in s.ledger && GetDirectories(env).Ok? {
      var (srcDirs, destDir) := GetDirectories(env).value;
      var o := MonitorOptions(srcDirs, destDir, p, env);
      match s.tree.MakeDirs(o.destDir)
      case None =>
      case Some(t) =>
        DispatchDirsFlagged(Batch(s.(tree := t), [], [], false), o, facts, log := {}, dirs := SourceDirs(o));
    }
  }

  /** The flag is never cleared: once one `create_symlinks` call has let an
      exception escape, every later new file the monitor sees is left
      unlinked and unrecorded. */
  lemma {:induction false} MonitorStuckAfterRaise(s: Snapshot, env: Env, facts: Path -> Facts, ps: seq<Path>)
    requires s.errorSet
    ensures var s2 := RunNew(s, env, facts, ps).0;
      s2.ledger == s.ledger && s2.index == s.index && s2.errorSet
    decreases |ps|
  {
    if ps != [] {
      ProcessNewFlagged(s, env, facts, ps[0]);
      MonitorStuckAfterRaise(ProcessNewSpec(s, env, facts, ps[0]).1, env, facts, ps[1..]);
    }
  }

  // ---------------------------------------------------------------------
  // The mount check.

  /** `n` steps up the directory chain. */
  function Up(p: Path, n: nat): Path
    decreases n
  {
    if n == 0 then p else Up(Dirname(p), n - 1)
  }

  /** `get_mount_point`'s loop: the answer is the first mount on the chain
      of parents, and none when the chain ends at the root or at a fixed
      point without a mount (or meets `/` as its first mount). */
  lemma {:induction false} MountPointChain(path: Path, mounts: set<Path>) returns (n: nat)
    ensures forall k :: 0 <= k < n ==> Up(path, k) !in mounts
    ensures MountPoint(path, mounts).Some? ==> Up(path, n) == MountPoint(path, mounts).value
    ensures MountPoint(path, mounts).None? ==>
              (Up(path, n) in mounts && Up(path, n) == "/") || (Up(path, n) !in mounts && Dirname(Up(path, n)) == Up(path, n))
    decreases |path|
  {
    if path in mounts {
      n := 0;
    } else {
      var parent := Dirname(path);
      if parent == path {
        n := 0;
      } else {
        var m := MountPointChain(parent, mounts);
        n := m + 1;
        forall k | 0 < k <= n ensures Up(path, k) == Up(parent, k - 1) {
        }
      }
    }
  }

  /** A mount state left by a check is stable: the same check again logs
      nothing and gives the same answer. */
  lemma CheckStable(state: Option<bool>, enabled: bool, t: Tree, srcDirs: seq<Path>, mounts: set<Path>, healthy: bool)
    ensures var (st, _, ok) := CheckSpec(state, enabled, t, srcDirs, mounts, healthy);
      CheckSpec(st, enabled, t, srcDirs, mounts, healthy) == (st, [], ok)
  {
  }

  /** With the check enabled, it passes exactly when the first source
      directory exists, has a mount (other than `/`) on its parent chain and
      the mount is healthy. */
  lemma CheckPasses(state: Option<bool>, t: Tree, srcDirs: seq<Path>, mounts: set<Path>, healthy: bool)
    ensures CheckSpec(state, true, t, srcDirs, mounts, healthy).2 <==>
              srcDirs != [] && t.Exists(srcDirs[0]) && MountPoint(srcDirs[0], mounts).Some? && healthy
  {
  }
}
