/** `MediaHub/utils/RealTime-Monitor.py`: a polling loop that launches the
    main script for every entry added to a watched directory, and removes
    the broken links of the destination directory together with the
    folders they leave empty.  The script launches and the log files are
    outside the model: a launch is recorded as the path it is given. */
module RealTimeMonitor {
  import opened Wrappers
  import opened FileTree

  // ---------------------------------------------------------------------
  // `find_broken_symlinks`.

  /** `os.path.islink(p) and not os.path.exists(os.readlink(p))`. */
  predicate Broken(t: Tree, p: Path) {
    t.IsLink(p) && !t.Exists(t.ReadLink(p))
  }

  /** The broken links of `s`, in order. */
  function BrokenIn(t: Tree, s: seq<Path>): (r: seq<Path>)
    ensures forall p :: p in r <==> p in s && Broken(t, p)
  {
    if s == [] then []
    else BrokenIn(t, s[..|s| - 1]) + (if Broken(t, s[|s| - 1]) then [s[|s| - 1]] else [])
  }

  /** `find_broken_symlinks(directory)`: every entry the walk reaches, each
      directory's filenames before its dirnames, that is a link whose target
      does not exist; in a normalised tree, every such link below the
      directory. */
  method FindBrokenSymlinks(t: Tree, directory: Path) returns (r: seq<Path>)
    ensures r == BrokenIn(t, t.WalkOf(directory, FilesDirs))
    ensures forall p :: p in r ==> p in t.entries && Under(directory, p) && Broken(t, p)
    ensures t.WellFormed() && t.NormalPaths() && Normal(directory) ==>
              forall p :: p in t.entries && Under(directory, p) && Broken(t, p) ==> p in r
  {
    r := BrokenLinks(t, t.WalkOf(directory, FilesDirs));
    BrokenInWalk(t, directory);
  }

  /** The scan loop of `find_broken_symlinks` over the walked entries `s`. */
  method BrokenLinks(t: Tree, s: seq<Path>) returns (r: seq<Path>)
    ensures r == BrokenIn(t, s)
  {
    r := [];
    var i := 0;
    while i < |s|
      invariant 0 <= i <= |s|
      invariant r == BrokenIn(t, s[..i])
    {
      assert s[..i + 1][..i] == s[..i] && s[..i + 1][i] == s[i];
      if Broken(t, s[i]) {
        r := r + [s[i]];
      }
      i := i + 1;
    }
    assert s[..i] == s;
  }

  /** The broken links the walk reaches lie below the directory, and in a
      normalised tree they are all of them. */
  lemma BrokenInWalk(t: Tree, directory: Path)
    ensures forall p :: p in BrokenIn(t, t.WalkOf(directory, FilesDirs)) ==>
              p in t.entries && Under(directory, p) && Broken(t, p)
    ensures t.WellFormed() && t.NormalPaths() && Normal(directory) ==>
              forall p :: p in t.entries && Under(directory, p) && Broken(t, p) ==>
                p in BrokenIn(t, t.WalkOf(directory, FilesDirs))
  {
    WalkComplete(t, directory, FilesDirs);
  }

  // ---------------------------------------------------------------------
  // `log_broken_symlinks`: the deletions.

  /** One turn of the deletion loop: `os.remove(link)`, then `os.rmdir` of
      its parent when `os.listdir` finds it empty; the flag is set when a
      call raises. */
  function RemoveOne(t: Tree, l: Path): (r: (Tree, bool))
  {
    if l !in t.entries then (t, true)
    else
      var t1 := t.Remove(l);
      var parent := Dirname(l);
      if t1.ListDir(parent) != [] then (t1, false)
      else match t1.RmDir(parent) {
        case None => (t1, true)
        case Some(t2) => (t2, false)
      }
  }

  /** The deletion loop: each link in turn until a call raises. */
  function RemoveLinks(t: Tree, links: seq<Path>): (r: (Tree, bool))
    decreases |links|
  {
    if links == [] then (t, false)
    else
      var (t1, raised) := RemoveOne(t, links[0]);
      if raised then (t1, true) else RemoveLinks(t1, links[1..])
  }

  /** `log_broken_symlinks`: the broken links below the destination are
      found, then removed. */
  function CleanBroken(t: Tree, dest: Path): (r: (Tree, bool))
  {
    RemoveLinks(t, BrokenIn(t, t.WalkOf(dest, FilesDirs)))
  }

  // ---------------------------------------------------------------------
  // The scans of the watched directories.

  /** `os.listdir(d)` as a set of names; None where it raises. */
  function Listing(t: Tree, d: Path): (r: Option<set<string>>)
    ensures r.Some? <==> t.IsDir(d) || (t.IsLink(d) && t.IsDir(t.ReadLink(d)))
  {
    if t.IsDir(d) then Some(set p | p in t.ListDir(d) :: Basename(p))
    else if t.IsLink(d) && t.IsDir(t.ReadLink(d)) then Some(set p | p in t.ListDir(t.ReadLink(d)) :: Basename(p))
    else None
  }

  /** The stored listings, the paths launched so far, and whether the
      script has stopped (a missing directory exits it, a missing listing
      raises). */
  datatype Scan = Scan(current: map<Path, set<string>>, launched: set<Path>, stopped: bool)

  /** The paths launched for the names of `names` not in `before`. */
  function Launches(d: Path, names: set<string>, before: set<string>): (r: set<Path>)
    ensures forall f :: f in names && f !in before ==> JoinPath(d, f) in r
  {
    set f | f in names && f !in before :: JoinPath(d, f)
  }

  /** The loop of one `periodic_scan` round over the watched directories. */
  function ScanDirs(t: Tree, dirs: seq<Path>, cur: map<Path, set<string>>): (r: Scan)
    ensures r.current.Keys == cur.Keys
    ensures !r.stopped ==> forall d :: d in dirs ==> d in cur
    decreases |dirs|
  {
    if dirs == [] then Scan(cur, {}, false)
    else
      var s := ScanDirs(t, dirs[..|dirs| - 1], cur);
      var d := dirs[|dirs| - 1];
      if s.stopped then s
      else match Listing(t, d) {
        case None => s.(stopped := true)
        case Some(names) =>
          if d !in s.current then s.(stopped := true)
          else Scan(s.current[d := names], s.launched + Launches(d, names, s.current[d]), false)
      }
  }

  /** The loop of `initial_scan`: each directory's listing is stored, and
      the destination is cleaned after each one. */
  function InitDirs(t: Tree, dirs: seq<Path>, dest: Path): (r: (Tree, map<Path, set<string>>, bool))
    ensures forall d :: d in r.1 ==> d in dirs
    decreases |dirs|
  {
    if dirs == [] then (t, map[], false)
    else
      var (t1, cur, stopped) := InitDirs(t, dirs[..|dirs| - 1], dest);
      var d := dirs[|dirs| - 1];
      if stopped then (t1, cur, true)
      else match Listing(t1, d) {
        case None => (t1, cur, true)
        case Some(names) =>
          var (t2, raised) := CleanBroken(t1, dest);
          (t2, cur[d := names], raised)
      }
  }

  /** Once a scan has stopped, the directories after it change nothing. */
  lemma {:induction false} ScanStops(t: Tree, dirs: seq<Path>, cur: map<Path, set<string>>, i: nat)
    requires i <= |dirs| && ScanDirs(t, dirs[..i], cur).stopped
    ensures ScanDirs(t, dirs, cur) == ScanDirs(t, dirs[..i], cur)
    decreases |dirs| - i
  {
    if i < |dirs| {
      assert dirs[..|dirs| - 1][..i] == dirs[..i];
      ScanStops(t, dirs[..|dirs| - 1], cur, i);
    } else {
      assert dirs[..i] == dirs;
    }
  }

  /** Once the initial scan has stopped, the directories after it change
      nothing. */
  lemma {:induction false} InitStops(t: Tree, dirs: seq<Path>, dest: Path, i: nat)
    requires i <= |dirs| && InitDirs(t, dirs[..i], dest).2
    ensures InitDirs(t, dirs, dest) == InitDirs(t, dirs[..i], dest)
    decreases |dirs| - i
  {
    if i < |dirs| {
      assert dirs[..|dirs| - 1][..i] == dirs[..i];
      InitStops(t, dirs[..|dirs| - 1], dest, i);
    } else {
      assert dirs[..i] == dirs;
    }
  }

  /** The script's state: the filesystem, its configuration and the global
      `current_files`. */
  class Monitor {
    var tree: Tree
    var current: map<Path, set<string>>
    const watchDirs: seq<Path>
    const dest: Path

    constructor (t: Tree, watch: seq<Path>, destination: Path)
      ensures tree == t && current == map[] && watchDirs == watch && dest == destination
    {
      tree := t;
      current := map[];
      watchDirs := watch;
      dest := destination;
    }

    /** `log_broken_symlinks`; `raised` when a removal raised. */
    method LogBrokenSymlinks() returns (raised: bool)
      modifies this
      ensures (tree, raised) == CleanBroken(old(tree), dest)
      ensures current == old(current)
    {
      var links := FindBrokenSymlinks(tree, dest);
      raised := RemoveBrokenLinks(links);
    }

    /** The deletion loop of `log_broken_symlinks`: each link in turn, until
        a removal raises. */
    method RemoveBrokenLinks(links: seq<Path>) returns (raised: bool)
      modifies this
      ensures (tree, raised) == RemoveLinks(old(tree), links)
      ensures current == old(current)
    {
      var i := 0;
      while i < |links|
        invariant 0 <= i <= |links|
        invariant current == old(current)
        invariant RemoveLinks(tree, links[i..]) == RemoveLinks(old(tree), links)
      {
        assert links[i..][0] == links[i] && links[i..][1..] == links[i + 1..];
        raised := RemoveBrokenLink(links[i]);
        if raised {
          return;
        }
        i := i + 1;
      }
      assert links[i..] == [];
      return false;
    }

    /** One broken link removed, then its parent if that is left empty. */
    method RemoveBrokenLink(l: Path) returns (raised: bool)
      modifies this
      ensures (tree, raised) == RemoveOne(old(tree), l)
      ensures current == old(current)
    {
      if l !in tree.entries {
        return true;
      }
      tree := tree.Remove(l);
      var parent := Dirname(l);
      if tree.ListDir(parent) == [] {
        var removed := tree.RmDir(parent);
        if removed.None? {
          return true;
        }
        tree := removed.value;
      }
      return false;
    }

    /** `initial_scan`; `stopped` when the script exits or raises. */
    method InitialScan() returns (stopped: bool)
      modifies this
      ensures (tree, current, stopped) == InitDirs(old(tree), watchDirs, dest)
    {
      current := map[];
      ghost var t0 := tree;
      var i := 0;
      while i < |watchDirs|
        invariant 0 <= i <= |watchDirs|
        invariant (tree, current, false) == InitDirs(t0, watchDirs[..i], dest)
      {
        assert watchDirs[..i + 1][..i] == watchDirs[..i] && watchDirs[..i + 1][i] == watchDirs[i];
        var d := watchDirs[i];
        var names := Listing(tree, d);
        if names.None? {
          assert InitDirs(t0, watchDirs[..i + 1], dest) == (tree, current, true);
          InitStops(t0, watchDirs, dest, i + 1);
          return true;
        }
        ghost var t1 := tree;
        current := current[d := names.value];
        var raised := LogBrokenSymlinks();
        assert (tree, raised) == CleanBroken(t1, dest);
        assert InitDirs(t0, watchDirs[..i + 1], dest) == (tree, current, raised);
        if raised {
          InitStops(t0, watchDirs, dest, i + 1);
          return true;
        }
        i := i + 1;
      }
      assert watchDirs[..i] == watchDirs;
      return false;
    }

    /** One round of `periodic_scan`: the launches it makes, and whether the
        script stopped. */
    method ScanRound() returns (launched: set<Path>, stopped: bool)
      modifies this
      ensures var s := ScanDirs(old(tree), watchDirs, old(current));
        && current == s.current && launched == s.launched
        && (s.stopped ==> stopped && tree == old(tree))
        && (!s.stopped ==> (tree, stopped) == CleanBroken(old(tree), dest))
    {
      launched := {};
      var i := 0;
      while i < |watchDirs|
        invariant 0 <= i <= |watchDirs|
        invariant tree == old(tree)
        invariant Scan(current, launched, false) == ScanDirs(old(tree), watchDirs[..i], old(current))
      {
        assert watchDirs[..i + 1][..i] == watchDirs[..i] && watchDirs[..i + 1][i] == watchDirs[i];
        var d := watchDirs[i];
        var names := Listing(tree, d);
        if names.None? || d !in current {
          assert ScanDirs(old(tree), watchDirs[..i + 1], old(current)) == Scan(current, launched, true);
          ScanStops(old(tree), watchDirs, old(current), i + 1);
          return launched, true;
        }
        launched := launched + Launches(d, names.value, current[d]);
        current := current[d := names.value];
        i := i + 1;
      }
      assert watchDirs[..i] == watchDirs;
      stopped := LogBrokenSymlinks();
    }
  }
}
