/** MediaHub/monitor/polling_monitor.py: the polling monitor. Each pass
    checks the mount, scans the source directories, compares the scan with
    the previous one, hands every new file to `create_symlinks` and every
    vanished one to `delete_broken_symlinks`, and keeps the new scan. The
    process-wide `mount_state` and the previous scan are the fields of
    `Monitor`; the filesystem and the databases are the hub. */
module PollingMonitor {
  import opened Text
  import opened Wrappers
  import opened FileTree
  import opened State
  import opened Config
  import opened Reconciler
  import opened Orchestrator
  import opened SymlinkUtils
  import opened CreateSymlinksImpl

  // ---------------------------------------------------------------------
  // `scan_directories`.

  /** What the scan stores for a file; the modification time is left out. */
  datatype FileMeta = FileMeta(parentDir: Path, relPath: string)

  /** A scan: full path to what is stored for it. */
  type Listing = map<Path, FileMeta>

  /** `os.path.relpath(p, root)` for a path below `root`. */
  function RelPath(root: Path, p: Path): (r: string)
    requires StartsWith(p, Below(root))
    ensures Below(root) + r == p
  {
    p[|Below(root)|..]
  }

  /** The key of a scanned file: `os.path.join(root, relpath)`. */
  function ScanKey(root: Path, p: Path): Path
    requires StartsWith(p, Below(root))
  {
    JoinPath(root, RelPath(root, p))
  }

  /** The files of one root stored in turn; a later store of the same key
      replaces the earlier one. */
  function AddFiles(m: Listing, root: Path, files: seq<Path>): (r: Listing)
    requires forall p :: p in files ==> StartsWith(p, Below(root))
    ensures m.Keys <= r.Keys
    ensures forall k :: k in r ==> (k in m && r[k] == m[k]) || r[k].parentDir == root
    decreases |files|
  {
    if files == [] then m
    else AddFiles(m[ScanKey(root, files[0]) := FileMeta(root, RelPath(root, files[0]))], root, files[1..])
  }

  /** The walked files whose modification time `os.path.getmtime` reads:
      those before the first one it raises on (a broken link), where the
      rest of the root's walk is abandoned. */
  function Statted(t: Tree, files: seq<Path>): (r: seq<Path>)
    ensures r <= files
    ensures forall p :: p in r ==> t.Exists(p)
    ensures |r| < |files| ==> !t.Exists(files[|r|])
    decreases |files|
  {
    if files == [] || !t.Exists(files[0]) then [] else [files[0]] + Statted(t, files[1..])
  }

  /** One root: skipped when missing, else the files its walk yields up to
      the first one whose modification time cannot be read. */
  function AddRoot(t: Tree, m: Listing, root: Path): (r: Listing)
    ensures m.Keys <= r.Keys
    ensures forall k :: k in r ==> (k in m && r[k] == m[k]) || (r[k].parentDir == root && t.Exists(root))
  {
    if !t.Exists(root) then m else AddFiles(m, root, Statted(t, t.WalkFiles(root)))
  }

  /** The roots in turn, from the listing `m`. */
  function ScanFrom(t: Tree, m: Listing, roots: seq<Path>): (r: Listing)
    ensures m.Keys <= r.Keys
    ensures forall k :: k in r ==> (k in m && r[k] == m[k]) || (r[k].parentDir in roots && t.Exists(r[k].parentDir))
    decreases |roots|
  {
    if roots == [] then m else ScanFrom(t, AddRoot(t, m, roots[0]), roots[1..])
  }

  /** What `scan_directories(roots)` returns. */
  function Scan(t: Tree, roots: seq<Path>): (r: Listing)
    ensures forall k :: k in r ==> r[k].parentDir in roots && t.Exists(r[k].parentDir)
  {
    ScanFrom(t, map[], roots)
  }

  /** `scan_directories`, with its loops over the roots and their files;
      the `break` is the exception `getmtime` raises on a broken link,
      which the `except` turns into a `continue` with the next root. */
  method ScanDirectories(t: Tree, roots: seq<Path>) returns (m: Listing)
    ensures m == Scan(t, roots)
  {
    m := map[];
    var i := 0;
    while i < |roots|
      invariant 0 <= i <= |roots|
      invariant ScanFrom(t, m, roots[i..]) == Scan(t, roots)
    {
      assert roots[i..][1..] == roots[i + 1..];
      var root := roots[i];
      if t.Exists(root) {
        var files := t.WalkFiles(root);
        var j := 0;
        while j < |files|
          invariant 0 <= j <= |files|
          invariant forall p :: p in files[j..] ==> StartsWith(p, Below(root))
          invariant ScanFrom(t, AddFiles(m, root, Statted(t, files[j..])), roots[i + 1..]) == Scan(t, roots)
        {
          assert files[j..][1..] == files[j + 1..];
          var p := files[j];
          if !t.Exists(p) {
            break;
          }
          m := m[ScanKey(root, p) := FileMeta(root, RelPath(root, p))];
          j := j + 1;
        }
      }
      i := i + 1;
    }
  }

  // ---------------------------------------------------------------------
  // `process_changes`: grouping.

  /** `s` lists the elements of `x`, each once (a set in iteration order). */
  ghost predicate Enumerates(s: seq<Path>, x: set<Path>) {
    (forall p :: p in s <==> p in x) && multiset(s) == multiset(x)
  }

  /** Files grouped by their parent directory: the directories in order of
      first appearance (a dict keeps insertion order) and each one's files
      in order. */
  datatype Groups = Groups(dirs: seq<Path>, byDir: map<Path, seq<Path>>)

  ghost predicate WellGrouped(g: Groups) {
    (forall d :: d in g.dirs <==> d in g.byDir) &&
    forall i, j :: 0 <= i < j < |g.dirs| ==> g.dirs[i] != g.dirs[j]
  }

  /** `by_dir.setdefault(d, []).append(p)`. */
  function Push(g: Groups, d: Path, p: Path): (r: Groups)
    requires WellGrouped(g)
    ensures WellGrouped(r)
  {
    if d in g.byDir then Groups(g.dirs, g.byDir[d := g.byDir[d] + [p]])
    else Groups(g.dirs + [d], g.byDir[d := [p]])
  }

  /** A skipped `version.txt` file. */
  predicate IsVersionFile(p: Path) { EndsWith(p, "version.txt") }

  /** The grouping loop over `files`; `skipVersion` drops `version.txt` files. */
  function GroupBy(files: seq<Path>, listing: Listing, skipVersion: bool): (g: Groups)
    requires forall p :: p in files ==> p in listing
    ensures WellGrouped(g)
  {
    if files == [] then Groups([], map[])
    else
      var g := GroupBy(files[..|files| - 1], listing, skipVersion);
      var p := files[|files| - 1];
      if skipVersion && IsVersionFile(p) then g else Push(g, listing[p].parentDir, p)
  }

  /** The files of the groups of `dirs`, group after group. */
  function Flatten(dirs: seq<Path>, byDir: map<Path, seq<Path>>): seq<Path>
    requires forall d :: d in dirs ==> d in byDir
  {
    if dirs == [] then []
    else Flatten(dirs[..|dirs| - 1], byDir) + byDir[dirs[|dirs| - 1]]
  }

  /** The order in which the files of `files` are handled. */
  function Handled(files: seq<Path>, listing: Listing, skipVersion: bool): seq<Path>
    requires forall p :: p in files ==> p in listing
  {
    var g := GroupBy(files, listing, skipVersion);
    Flatten(g.dirs, g.byDir)
  }

  /** The grouping loop. */
  method GroupFiles(files: seq<Path>, listing: Listing, skipVersion: bool) returns (g: Groups)
    requires forall p :: p in files ==> p in listing
    ensures g == GroupBy(files, listing, skipVersion)
  {
    g := Groups([], map[]);
    var i := 0;
    while i < |files|
      invariant 0 <= i <= |files|
      invariant g == GroupBy(files[..i], listing, skipVersion)
    {
      assert files[..i + 1][..i] == files[..i];
      var p := files[i];
      if !(skipVersion && IsVersionFile(p)) {
        var d := listing[p].parentDir;
        if d in g.byDir {
          g := Groups(g.dirs, g.byDir[d := g.byDir[d] + [p]]);
        } else {
          g := Groups(g.dirs + [d], g.byDir[d := [p]]);
        }
      }
      i := i + 1;
    }
    assert files[..i] == files;
  }

  // ---------------------------------------------------------------------
  // `process_file` of the monitor.

  /** What the monitor's `process_file` did with a new file. */
  datatype Step =
    | InDatabase                    // already recorded: nothing to do
    | DirsMissing                   // `get_directories` called `sys.exit`
    | Ran(r: Orchestrator.Result)   // `create_symlinks` was called

  /** How `process_changes` ended: normally, with the process exiting, or
      with an exception out of `delete_broken_symlinks`. */
  datatype Ending = Done | Exit | Raise

  /** The arguments the monitor passes to `create_symlinks`. */
  function MonitorOptions(srcDirs: seq<Path>, destDir: Path, p: Path, env: Env): (o: Options)
    ensures o.mode == MonitorMode && o.autoSelect && !o.force && o.singlePath == p
    ensures o.srcDirs == srcDirs && o.destDir == destDir
  {
    Options(srcDirs, destDir, true, p, false, MonitorMode, "", "", false, false, false, IsSkipExtrasFolderEnabled(env))
  }

  /** `process_file(p)`: `create_symlinks` for `p` alone, only when the
      processed-files table does not hold it. */
  function ProcessNewSpec(s: Snapshot, env: Env, facts: Path -> Facts, p: Path): (r: (Step, Snapshot))
  {
    if p in s.ledger then (InDatabase, s)
    else match GetDirectories(env)
      case Err(_) => (DirsMissing, s)
      case Ok((srcDirs, destDir)) =>
        var res := CreateSymlinksSpec(s, MonitorOptions(srcDirs, destDir, p, env), facts, {}, []);
        (Ran(res), res.s)
  }

  method ProcessNew(h: Hub, env: Env, facts: Path -> Facts, p: Path) returns (step: Step)
    modifies h
    ensures (step, h.Snap()) == ProcessNewSpec(old(h.Snap()), env, facts, p)
  {
    if p in h.ledger {
      return InDatabase;
    }
    var dirs := GetDirectories(env);
    if dirs.Err? {
      return DirsMissing;
    }
    var (srcDirs, destDir) := dirs.value;
    var res := CreateSymlinks(h, MonitorOptions(srcDirs, destDir, p, env), facts, {}, []);
    return Ran(res);
  }

  /** The new files handled in turn; an exit ends the process. */
  function RunNew(s: Snapshot, env: Env, facts: Path -> Facts, ps: seq<Path>): (r: (Snapshot, bool))
    decreases |ps|
  {
    if ps == [] then (s, false)
    else
      var (step, s1) := ProcessNewSpec(s, env, facts, ps[0]);
      if step == DirsMissing then (s1, true) else RunNew(s1, env, facts, ps[1..])
  }

  /** The vanished files handed to `delete_broken_symlinks` in turn; an
      exception ends the loop. */
  function RunRemoved(s: Snapshot, destDir: Path, valid: Path -> bool, dbOk: bool, ps: seq<Path>): (r: (Snapshot, bool))
    decreases |ps|
  {
    if ps == [] then (s, false)
    else
      var (c, s1) := DeleteBrokenSpec(s, destDir, ps[0], valid, dbOk);
      if c == Escaped then (s1, true) else RunRemoved(s1, destDir, valid, dbOk, ps[1..])
  }

  /** What `process_changes` does to the hub, and whether the process exited. */
  function ChangesSpec(s: Snapshot, current: Listing, scanned: Listing, destDir: Path, env: Env,
                       facts: Path -> Facts, valid: Path -> bool, dbOk: bool,
                       addedOrder: seq<Path>, removedOrder: seq<Path>): (r: (Snapshot, Ending))
    requires Enumerates(addedOrder, scanned.Keys - current.Keys)
    requires Enumerates(removedOrder, current.Keys - scanned.Keys)
  {
    var (s1, exited) := RunNew(s, env, facts, Handled(addedOrder, scanned, true));
    if exited then (s1, Exit)
    else
      var (s2, raised) := RunRemoved(s1, destDir, valid, dbOk, Handled(removedOrder, current, false));
      (s2, if raised then Raise else Done)
  }

  /** The new files of one directory handled in turn. */
  method HandleFiles(h: Hub, env: Env, facts: Path -> Facts, files: seq<Path>) returns (exited: bool)
    modifies h
    ensures (h.Snap(), exited) == RunNew(old(h.Snap()), env, facts, files)
  {
    var j := 0;
    while j < |files|
      invariant 0 <= j <= |files|
      invariant RunNew(h.Snap(), env, facts, files[j..]) == RunNew(old(h.Snap()), env, facts, files)
    {
      assert files[j..][1..] == files[j + 1..];
      var step := ProcessNew(h, env, facts, files[j]);
      if step == DirsMissing {
        return true;
      }
      j := j + 1;
    }
    return false;
  }

  /** Handling `a + b` is handling `a`, then `b` unless the process exited. */
  lemma {:induction false} RunNewAppend(s: Snapshot, env: Env, facts: Path -> Facts, a: seq<Path>, b: seq<Path>)
    ensures RunNew(s, env, facts, a + b) ==
            (var (s1, e) := RunNew(s, env, facts, a); if e then (s1, true) else RunNew(s1, env, facts, b))
    decreases |a|
  {
    if a != [] {
      assert (a + b)[1..] == a[1..] + b;
      var (_, s1) := ProcessNewSpec(s, env, facts, a[0]);
      RunNewAppend(s1, env, facts, a[1..], b);
    } else {
      assert a + b == b;
    }
  }

  /** Handling the files of the first directory, then the rest. */
  lemma NewDirStep(s0: Snapshot, s1: Snapshot, e: bool, env: Env, facts: Path -> Facts,
                   dirs: seq<Path>, byDir: map<Path, seq<Path>>)
    requires dirs != [] && forall d :: d in dirs ==> d in byDir
    requires (s1, e) == RunNew(s0, env, facts, byDir[dirs[0]])
    ensures RunNew(s0, env, facts, Flatten(dirs, byDir)) ==
            if e then (s1, true) else RunNew(s1, env, facts, Flatten(dirs[1..], byDir))
  {
    FlattenFront(dirs, byDir);
    RunNewAppend(s0, env, facts, byDir[dirs[0]], Flatten(dirs[1..], byDir));
  }

  /** The loop over the grouped new files. */
  method HandleNew(h: Hub, env: Env, facts: Path -> Facts, g: Groups) returns (exited: bool)
    requires WellGrouped(g)
    modifies h
    ensures (h.Snap(), exited) == RunNew(old(h.Snap()), env, facts, Flatten(g.dirs, g.byDir))
  {
    var i := 0;
    while i < |g.dirs|
      invariant 0 <= i <= |g.dirs|
      invariant RunNew(h.Snap(), env, facts, Flatten(g.dirs[i..], g.byDir)) ==
                RunNew(old(h.Snap()), env, facts, Flatten(g.dirs, g.byDir))
    {
      assert g.dirs[i..][1..] == g.dirs[i + 1..];
      ghost var s0 := h.Snap();
      exited := HandleFiles(h, env, facts, g.byDir[g.dirs[i]]);
      NewDirStep(s0, h.Snap(), exited, env, facts, g.dirs[i..], g.byDir);
      if exited {
        return;
      }
      i := i + 1;
    }
    return false;
  }

  /** The vanished files of one directory handed over in turn. */
  method RemoveFiles(h: Hub, destDir: Path, valid: Path -> bool, dbOk: bool, files: seq<Path>) returns (raised: bool)
    modifies h
    ensures (h.Snap(), raised) == RunRemoved(old(h.Snap()), destDir, valid, dbOk, files)
  {
    ghost var goal := RunRemoved(h.Snap(), destDir, valid, dbOk, files);
    var j := 0;
    while j < |files|
      invariant 0 <= j <= |files|
      invariant RunRemoved(h.Snap(), destDir, valid, dbOk, files[j..]) == goal
    {
      ghost var s0 := h.Snap();
      var c := DeleteBrokenSymlinks(h, destDir, files[j], valid, dbOk);
      RemovedStep(s0, h.Snap(), c, destDir, valid, dbOk, files, j);
      if c == Escaped {
        return true;
      }
      j := j + 1;
    }
    assert files[j..] == [];
    return false;
  }

  /** Handing over the files from the `j`-th on: the `j`-th, then the rest
      unless it raised. */
  lemma RemovedStep(s0: Snapshot, s1: Snapshot, c: Cleanup, destDir: Path, valid: Path -> bool, dbOk: bool,
                    files: seq<Path>, j: nat)
    requires j < |files| && (c, s1) == DeleteBrokenSpec(s0, destDir, files[j], valid, dbOk)
    ensures c == Escaped ==> RunRemoved(s0, destDir, valid, dbOk, files[j..]) == (s1, true)
    ensures c != Escaped ==> RunRemoved(s0, destDir, valid, dbOk, files[j..]) == RunRemoved(s1, destDir, valid, dbOk, files[j + 1..])
  {
    assert files[j..][1..] == files[j + 1..];
  }

  /** Handing over `a + b` is handing over `a`, then `b` unless it raised. */
  lemma {:induction false} RunRemovedAppend(s: Snapshot, destDir: Path, valid: Path -> bool, dbOk: bool, a: seq<Path>, b: seq<Path>)
    ensures RunRemoved(s, destDir, valid, dbOk, a + b) ==
            (var (s1, e) := RunRemoved(s, destDir, valid, dbOk, a); if e then (s1, true) else RunRemoved(s1, destDir, valid, dbOk, b))
    decreases |a|
  {
    if a != [] {
      assert (a + b)[1..] == a[1..] + b;
      var (_, s1) := DeleteBrokenSpec(s, destDir, a[0], valid, dbOk);
      RunRemovedAppend(s1, destDir, valid, dbOk, a[1..], b);
    } else {
      assert a + b == b;
    }
  }

  /** Handing over the files of the first directory, then the rest. */
  lemma RemovedDirStep(s0: Snapshot, s1: Snapshot, e: bool, destDir: Path, valid: Path -> bool, dbOk: bool,
                       dirs: seq<Path>, byDir: map<Path, seq<Path>>)
    requires dirs != [] && forall d :: d in dirs ==> d in byDir
    requires (s1, e) == RunRemoved(s0, destDir, valid, dbOk, byDir[dirs[0]])
    ensures RunRemoved(s0, destDir, valid, dbOk, Flatten(dirs, byDir)) ==
            if e then (s1, true) else RunRemoved(s1, destDir, valid, dbOk, Flatten(dirs[1..], byDir))
  {
    FlattenFront(dirs, byDir);
    RunRemovedAppend(s0, destDir, valid, dbOk, byDir[dirs[0]], Flatten(dirs[1..], byDir));
  }

  /** The loop over the grouped vanished files. */
  method HandleRemoved(h: Hub, destDir: Path, valid: Path -> bool, dbOk: bool, g: Groups) returns (raised: bool)
    requires WellGrouped(g)
    modifies h
    ensures (h.Snap(), raised) == RunRemoved(old(h.Snap()), destDir, valid, dbOk, Flatten(g.dirs, g.byDir))
  {
    var i := 0;
    while i < |g.dirs|
      invariant 0 <= i <= |g.dirs|
      invariant RunRemoved(h.Snap(), destDir, valid, dbOk, Flatten(g.dirs[i..], g.byDir)) ==
                RunRemoved(old(h.Snap()), destDir, valid, dbOk, Flatten(g.dirs, g.byDir))
    {
      assert g.dirs[i..][1..] == g.dirs[i + 1..];
      ghost var s0 := h.Snap();
      raised := RemoveFiles(h, destDir, valid, dbOk, g.byDir[g.dirs[i]]);
      RemovedDirStep(s0, h.Snap(), raised, destDir, valid, dbOk, g.dirs[i..], g.byDir);
      if raised {
        return;
      }
      i := i + 1;
    }
    return false;
  }

  /** `Flatten` taken from the front. */
  lemma {:induction false} FlattenFront(dirs: seq<Path>, byDir: map<Path, seq<Path>>)
    requires dirs != [] && forall d :: d in dirs ==> d in byDir
    ensures Flatten(dirs, byDir) == byDir[dirs[0]] + Flatten(dirs[1..], byDir)
    decreases |dirs|
  {
    if |dirs| > 1 {
      var init := dirs[..|dirs| - 1];
      var last := dirs[|dirs| - 1];
      var rest := dirs[1..];
      assert init[1..] == rest[..|rest| - 1] && rest[|rest| - 1] == last;
      assert forall d :: d in init ==> d in dirs;
      assert forall d :: d in rest ==> d in dirs;
      calc {
        Flatten(dirs, byDir);
        Flatten(init, byDir) + byDir[last];
      == { FlattenFront(init, byDir); }
        byDir[dirs[0]] + Flatten(init[1..], byDir) + byDir[last];
        byDir[dirs[0]] + (Flatten(rest[..|rest| - 1], byDir) + byDir[rest[|rest| - 1]]);
        byDir[dirs[0]] + Flatten(rest, byDir);
      }
    } else {
      assert dirs[1..] == [];
    }
  }

  /** `process_changes`: the set differences, the grouping by parent
      directory, then the new files and the vanished ones in turn. */
  method ProcessChanges(h: Hub, current: Listing, scanned: Listing, destDir: Path, env: Env,
                        facts: Path -> Facts, valid: Path -> bool, dbOk: bool,
                        addedOrder: seq<Path>, removedOrder: seq<Path>) returns (ending: Ending)
    requires Enumerates(addedOrder, scanned.Keys - current.Keys)
    requires Enumerates(removedOrder, current.Keys - scanned.Keys)
    modifies h
    ensures (h.Snap(), ending) == ChangesSpec(old(h.Snap()), current, scanned, destDir, env, facts, valid, dbOk,
                                              addedOrder, removedOrder)
  {
    var addedByDir := GroupFiles(addedOrder, scanned, true);
    var removedByDir := GroupFiles(removedOrder, current, false);
    var exited := HandleNew(h, env, facts, addedByDir);
    if exited {
      return Exit;
    }
    var raised := HandleRemoved(h, destDir, valid, dbOk, removedByDir);
    return if raised then Raise else Done;
  }

  // ---------------------------------------------------------------------
  // `get_mount_point`.

  /** The loop of `get_mount_point` from `path`: up through the parents to
      the first mount; the root and a path whose parent is itself give none. */
  function MountPoint(path: Path, mounts: set<Path>): (r: Option<Path>)
    ensures r.Some? ==> r.value in mounts && r.value != "/"
    decreases |path|
  {
    if path in mounts then (if path == "/" then None else Some(path))
    else
      var parent := Dirname(path);
      if parent == path then None
      else MountPoint(parent, mounts)
  }

  /** `get_mount_point`: none for a missing path. `mounts` are the paths
      `os.path.ismount` holds for. */
  function GetMountPointSpec(t: Tree, path: Path, mounts: set<Path>): Option<Path> {
    if !t.Exists(path) then None else MountPoint(path, mounts)
  }

  method GetMountPoint(t: Tree, path: Path, mounts: set<Path>) returns (r: Option<Path>)
    ensures r == GetMountPointSpec(t, path, mounts)
  {
    if !t.Exists(path) {
      return None;
    }
    var p := path;
    while p !in mounts
      invariant MountPoint(p, mounts) == MountPoint(path, mounts)
      decreases |p|
    {
      var parent := Dirname(p);
      if parent == p {
        return None;
      }
      p := parent;
    }
    if p == "/" {
      return None;
    }
    return Some(p);
  }

  // ---------------------------------------------------------------------
  // The mount state and one pass of `main`.

  /** The messages logged when `mount_state` changes. */
  datatype Notice =
    | Available(mountPoint: Path)
    | Unresponsive(mountPoint: Path)
    | NotAvailable(dir: Path)
    | CheckDisabled
    | Waiting

  /** One `mount_state` update: the new state and the message logged, none
      when the state does not change. */
  function SetState(state: Option<bool>, v: bool, n: Notice): (r: (Option<bool>, seq<Notice>))
    ensures r.0 == Some(v)
    ensures r.1 == [] <==> state == Some(v)
  {
    if state == Some(v) then (state, []) else (Some(v), [n])
  }

  /** `verify_rclone_mount(dir)` on a state: the new state, the messages and
      whether the mount is there and healthy. `healthy` stands for
      `verify_mount_health`, which lists and stats the directory. */
  function VerifySpec(state: Option<bool>, t: Tree, dir: Path, mounts: set<Path>, healthy: bool)
    : (r: (Option<bool>, seq<Notice>, bool))
    ensures r.2 ==> r.0 == Some(true)
    ensures !r.2 && t.Exists(dir) ==> r.0 == Some(false)
    ensures !t.Exists(dir) ==> r == (state, [], false)
    ensures r.1 == [] <==> r.0 == state
  {
    if !t.Exists(dir) then (state, [], false)
    else match GetMountPointSpec(t, dir, mounts)
      case Some(mp) =>
        if healthy then var (st, ns) := SetState(state, true, Available(mp)); (st, ns, true)
        else var (st, ns) := SetState(state, false, Unresponsive(mp)); (st, ns, false)
      case None =>
        var (st, ns) := SetState(state, false, NotAvailable(dir)); (st, ns, false)
  }

  /** `check_rclone_mount`: a disabled check passes; otherwise the first
      source directory is verified. */
  function CheckSpec(state: Option<bool>, enabled: bool, t: Tree, srcDirs: seq<Path>, mounts: set<Path>, healthy: bool)
    : (r: (Option<bool>, seq<Notice>, bool))
    ensures !enabled ==> r.2 && r.0 == Some(false)
    ensures r.1 == [] <==> r.0 == state
  {
    if !enabled then var (st, ns) := SetState(state, false, CheckDisabled); (st, ns, true)
    else if srcDirs == [] then (state, [], false)
    else VerifySpec(state, t, srcDirs[0], mounts, healthy)
  }

  /** The previous scan to compare with: a fresh scan when there is none. */
  function Baseline(current: Listing, t: Tree, srcDirs: seq<Path>): Listing {
    if current == map[] then Scan(t, srcDirs) else current
  }

  /** The state the monitor keeps between passes. */
  class Monitor {
    var current: Listing
    var mountState: Option<bool>
    var notices: seq<Notice>

    constructor()
      ensures current == map[] && mountState == None && notices == []
    {
      current := map[];
      mountState := None;
      notices := [];
    }

    /** `verify_rclone_mount`. */
    method VerifyRcloneMount(t: Tree, dir: Path, mounts: set<Path>, healthy: bool) returns (ok: bool)
      modifies this
      ensures var (st, ns, b) := VerifySpec(old(mountState), t, dir, mounts, healthy);
              mountState == st && notices == old(notices) + ns && ok == b
      ensures current == old(current)
    {
      if !t.Exists(dir) {
        return false;
      }
      var mp := GetMountPoint(t, dir, mounts);
      if mp.Some? {
        if healthy {
          if mountState != Some(true) {
            notices := notices + [Available(mp.value)];
            mountState := Some(true);
          }
          return true;
        }
        if mountState != Some(false) {
          notices := notices + [Unresponsive(mp.value)];
          mountState := Some(false);
        }
        return false;
      }
      if mountState != Some(false) {
        notices := notices + [NotAvailable(dir)];
        mountState := Some(false);
      }
      return false;
    }

    /** `check_rclone_mount`. */
    method CheckRcloneMount(enabled: bool, t: Tree, srcDirs: seq<Path>, mounts: set<Path>, healthy: bool) returns (ok: bool)
      modifies this
      ensures var (st, ns, b) := CheckSpec(old(mountState), enabled, t, srcDirs, mounts, healthy);
              mountState == st && notices == old(notices) + ns && ok == b
      ensures current == old(current)
    {
      if !enabled {
        if mountState != Some(false) {
          notices := notices + [CheckDisabled];
          mountState := Some(false);
        }
        return true;
      }
      if srcDirs == [] {
        return false;
      }
      ok := VerifyRcloneMount(t, srcDirs[0], mounts, healthy);
    }

    /** One pass of the loop of `main` (the second definition, the one in
        effect): wait while the mount is missing, take an initial scan when
        there is no previous one, scan, process the changes and keep the
        scan. An exception out of `process_changes` is caught by the loop
        and the previous scan is kept. `srcDirs` and `destDir` are what
        `get_directories` gave before the loop, which exits otherwise. The
        orders are the iteration orders of the two sets of changes. */
    method Pass(h: Hub, env: Env, srcDirs: seq<Path>, destDir: Path, enabled: bool, mounts: set<Path>, healthy: bool,
                facts: Path -> Facts, valid: Path -> bool, dbOk: bool,
                addedOrder: seq<Path>, removedOrder: seq<Path>) returns (ending: Ending)
      requires GetDirectories(env) == Ok((srcDirs, destDir))
      requires Enumerates(addedOrder, Scan(h.tree, srcDirs).Keys - Baseline(current, h.tree, srcDirs).Keys)
      requires Enumerates(removedOrder, Baseline(current, h.tree, srcDirs).Keys - Scan(h.tree, srcDirs).Keys)
      modifies this, h
      ensures var (st, ns, ok) := CheckSpec(old(mountState), enabled, old(h.tree), srcDirs, mounts, healthy);
              if !ok then
                && h.Snap() == old(h.Snap()) && current == old(current) && ending == Done
                && mountState == Some(false) && notices == old(notices) + ns + (if st == Some(false) then [] else [Waiting])
              else
                && mountState == st && notices == old(notices) + ns
                && (h.Snap(), ending) == ChangesSpec(old(h.Snap()), Baseline(old(current), old(h.tree), srcDirs),
                                                     Scan(old(h.tree), srcDirs), destDir, env, facts, valid, dbOk,
                                                     addedOrder, removedOrder)
                && current == (if ending == Raise then Baseline(old(current), old(h.tree), srcDirs)
                               else Scan(old(h.tree), srcDirs))
    {
      var ok := CheckRcloneMount(enabled, h.tree, srcDirs, mounts, healthy);
      if !ok {
        if mountState != Some(false) {
          notices := notices + [Waiting];
          mountState := Some(false);
        }
        return Done;
      }
      if current == map[] {
        current := ScanDirectories(h.tree, srcDirs);
      }
      var scanned := ScanDirectories(h.tree, srcDirs);
      ending := ProcessChanges(h, current, scanned, destDir, env, facts, valid, dbOk, addedOrder, removedOrder);
      if ending != Raise {
        current := scanned;
      }
    }
  }
}
