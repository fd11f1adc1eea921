/** Properties of the real-time monitor: the deletions remove every broken
    link found and nothing but those links and the parents they leave
    empty; a scan round launches exactly the added entries and stores the
    new listings. */
module RealTimeProps {
  import opened Wrappers
  import opened FileTree
  import opened RealTimeMonitor

  // ---------------------------------------------------------------------
  // The deletions.

  /** The deletions only remove entries; what stays is unchanged. */
  lemma {:induction false} RemoveLinksShrinks(t: Tree, links: seq<Path>)
    ensures var r := RemoveLinks(t, links).0;
      forall p :: p in r.entries ==> p in t.entries && r.entries[p] == t.entries[p]
    decreases |links|
  {
    if links != [] {
      var (t1, raised) := RemoveOne(t, links[0]);
      if !raised {
        RemoveLinksShrinks(t1, links[1..]);
      }
    }
  }

  /** When no call raised, every link handed over is gone. */
  lemma {:induction false} AllLinksRemoved(t: Tree, links: seq<Path>)
    ensures var r := RemoveLinks(t, links);
      !r.1 ==> forall l :: l in links ==> l !in r.0.entries
    decreases |links|
  {
    if links != [] {
      var (t1, raised) := RemoveOne(t, links[0]);
      if !raised {
        AllLinksRemoved(t1, links[1..]);
        RemoveLinksShrinks(t1, links[1..]);
        assert links[0] !in t1.entries;
        assert forall l :: l in links ==> l == links[0] || l in links[1..];
      }
    }
  }

  /** Only the links themselves and their parent directories, one level
      up, are ever removed. */
  lemma {:induction false} OnlyLinksAndParents(t: Tree, links: seq<Path>)
    ensures var r := RemoveLinks(t, links).0;
      forall p :: p in t.entries && p !in r.entries ==>
        p in links || exists l :: l in links && p == Dirname(l)
    decreases |links|
  {
    if links != [] {
      var (t1, raised) := RemoveOne(t, links[0]);
      assert forall p :: p in t.entries && p !in t1.entries ==> p == links[0] || p == Dirname(links[0]);
      if !raised {
        OnlyLinksAndParents(t1, links[1..]);
        RemoveLinksShrinks(t1, links[1..]);
        assert forall l :: l in links[1..] ==> l in links;
      }
    }
  }

  /** A directory is removed only after everything in it is gone. */
  lemma {:induction false} DirsRemovedOnlyWhenEmpty(t: Tree, links: seq<Path>)
    requires t.Valid()
    ensures var r := RemoveLinks(t, links).0;
      forall d :: d in t.entries && d !in r.entries && d !in links ==>
        t.entries[d] == Dir && forall c :: t.InDir(d, c) ==> c !in r.entries
    decreases |links|
  {
    if links != [] {
      var (t1, raised) := RemoveOne(t, links[0]);
      var r := RemoveLinks(t, links).0;
      RemoveOneOnlyWhenEmpty(t, links[0]);
      if !raised {
        DirsRemovedOnlyWhenEmpty(t1, links[1..]);
        RemoveLinksShrinks(t1, links[1..]);
        forall d | d in t.entries && d !in r.entries && d !in links
          ensures t.entries[d] == Dir && forall c :: t.InDir(d, c) ==> c !in r.entries
        {
          assert d !in links[1..];
          if d in t1.entries {
            assert t1.entries[d] == t.entries[d];
            forall c | t.InDir(d, c) ensures c !in r.entries {
              if c in t1.entries { assert t1.InDir(d, c); }
            }
          }
        }
      }
    }
  }

  /** One removal: the link, and its parent only once the parent is empty. */
  lemma RemoveOneOnlyWhenEmpty(t: Tree, l: Path)
    requires t.Valid()
    ensures var t1 := RemoveOne(t, l).0;
      && t1.Valid()
      && (forall p :: p in t1.entries ==> p in t.entries && t1.entries[p] == t.entries[p])
      && forall d :: d in t.entries && d !in t1.entries && d != l ==>
           t.entries[d] == Dir && forall c :: t.InDir(d, c) ==> c !in t1.entries
  {
    if l in t.entries {
      var t0 := t.Remove(l);
      var parent := Dirname(l);
      if t0.ListDir(parent) == [] && t0.RmDir(parent).Some? {
        OnlyChildRemoved(t, l);
        assert RemoveOne(t, l).0 == t0.Remove(parent);
      } else {
        assert RemoveOne(t, l).0 == t0;
      }
    }
  }

  /** Once the link is gone and its parent lists nothing, the link was the
      parent's only entry. */
  lemma OnlyChildRemoved(t: Tree, l: Path)
    requires t.Valid() && t.Remove(l).ListDir(Dirname(l)) == []
    ensures forall c :: t.InDir(Dirname(l), c) ==> c == l
  {
  }

  /** After `log_broken_symlinks` with no error, no broken link the walk of
      the destination reached is left; in a normalised tree, no broken link
      below the destination. */
  lemma BrokenLinksGone(t: Tree, dest: Path)
    ensures var r := CleanBroken(t, dest);
      !r.1 ==> forall p :: p in t.WalkOf(dest, FilesDirs) && Broken(t, p) ==> p !in r.0.entries
    ensures var r := CleanBroken(t, dest);
      !r.1 && t.WellFormed() && t.NormalPaths() && Normal(dest) ==>
        forall p :: p in t.entries && Under(dest, p) && Broken(t, p) ==> p !in r.0.entries
  {
    AllLinksRemoved(t, BrokenIn(t, t.WalkOf(dest, FilesDirs)));
    WalkComplete(t, dest, FilesDirs);
  }

  /** Entries that are neither broken links below the destination nor the
      parent of one are left exactly as they were. */
  lemma CleanKeepsTheRest(t: Tree, dest: Path, p: Path)
    requires p in t.entries && !(Under(dest, p) && Broken(t, p))
    requires forall l :: l in t.WalkOf(dest, FilesDirs) && Broken(t, l) ==> Dirname(l) != p
    ensures var r := CleanBroken(t, dest).0;
      p in r.entries && r.entries[p] == t.entries[p]
  {
    var links := BrokenIn(t, t.WalkOf(dest, FilesDirs));
    OnlyLinksAndParents(t, links);
    RemoveLinksShrinks(t, links);
  }

  // ---------------------------------------------------------------------
  // The scans.

  /** A round that does not stop stores the new listing of every watched
      directory and keeps every other stored listing. */
  lemma {:induction false} ScanStoresListings(t: Tree, dirs: seq<Path>, cur: map<Path, set<string>>)
    ensures var s := ScanDirs(t, dirs, cur);
      !s.stopped ==>
        && s.current.Keys == cur.Keys
        && (forall d :: d in dirs ==> d in s.current && Listing(t, d).Some? && s.current[d] == Listing(t, d).value)
        && (forall k :: k in cur && k !in dirs ==> s.current[k] == cur[k])
    decreases |dirs|
  {
    if dirs != [] {
      var init := dirs[..|dirs| - 1];
      ScanStoresListings(t, init, cur);
      assert forall d :: d in dirs ==> d in init || d == dirs[|dirs| - 1];
    }
  }

  /** Every launch is for a name in the new listing that the stored one
      lacked: removals and unchanged entries launch nothing. */
  lemma {:induction false} LaunchesAreAdded(t: Tree, dirs: seq<Path>, cur: map<Path, set<string>>)
    ensures var s := ScanDirs(t, dirs, cur);
      forall p :: p in s.launched ==>
        exists d, f :: d in dirs && d in cur && Listing(t, d).Some?
          && f in Listing(t, d).value && f !in cur[d] && p == JoinPath(d, f)
    decreases |dirs|
  {
    if dirs != [] {
      var init := dirs[..|dirs| - 1];
      var d := dirs[|dirs| - 1];
      var s0 := ScanDirs(t, init, cur);
      LaunchesAreAdded(t, init, cur);
      ScanStoresListings(t, init, cur);
      assert forall x :: x in init ==> x in dirs;
      if !s0.stopped && Listing(t, d).Some? && d in s0.current {
        var names := Listing(t, d).value;
        forall p | p in Launches(d, names, s0.current[d])
          ensures exists d', f :: d' in dirs && d' in cur && Listing(t, d').Some?
                    && f in Listing(t, d').value && f !in cur[d'] && p == JoinPath(d', f)
        {
          var f :| f in names && f !in s0.current[d] && p == JoinPath(d, f);
          if d !in init {
            assert s0.current[d] == cur[d];
          }
        }
      }
    }
  }

  /** Every name added since the stored listing is launched. */
  lemma {:induction false} AddedAreLaunched(t: Tree, dirs: seq<Path>, cur: map<Path, set<string>>)
    ensures var s := ScanDirs(t, dirs, cur);
      !s.stopped ==>
        forall d, f :: d in dirs && d in cur && Listing(t, d).Some? && f in Listing(t, d).value && f !in cur[d] ==>
          JoinPath(d, f) in s.launched
    decreases |dirs|
  {
    var s := ScanDirs(t, dirs, cur);
    ScanStoresListings(t, dirs, cur);
    if dirs != [] && !s.stopped {
      var init := dirs[..|dirs| - 1];
      var last := dirs[|dirs| - 1];
      var s0 := ScanDirs(t, init, cur);
      AddedAreLaunched(t, init, cur);
      ScanStoresListings(t, init, cur);
      forall d, f | d in dirs && d in cur && Listing(t, d).Some? && f in Listing(t, d).value && f !in cur[d]
        ensures JoinPath(d, f) in s.launched
      {
        if d in init {
          assert JoinPath(d, f) in s0.launched;
        } else {
          assert d == last && s0.current[d] == cur[d];
        }
      }
    }
  }

  /** After an initial scan that did not stop, every watched directory has
      a stored listing. */
  lemma {:induction false} InitialScanCoversDirs(t: Tree, dirs: seq<Path>, dest: Path)
    ensures var r := InitDirs(t, dirs, dest);
      !r.2 ==> forall d :: d in dirs ==> d in r.1
    decreases |dirs|
  {
    if dirs != [] {
      InitialScanCoversDirs(t, dirs[..|dirs| - 1], dest);
      assert forall d :: d in dirs ==> d in dirs[..|dirs| - 1] || d == dirs[|dirs| - 1];
    }
  }

  /** With every watched directory stored and present, a round does not stop. */
  lemma {:induction false} ScanRunsThrough(t: Tree, dirs: seq<Path>, cur: map<Path, set<string>>)
    requires forall d :: d in dirs ==> d in cur && Listing(t, d).Some?
    ensures !ScanDirs(t, dirs, cur).stopped
    decreases |dirs|
  {
    if dirs != [] {
      var init := dirs[..|dirs| - 1];
      assert forall d :: d in init ==> d in dirs;
      ScanRunsThrough(t, init, cur);
      ScanStoresListings(t, init, cur);
      assert dirs[|dirs| - 1] in dirs;
    }
  }
}
