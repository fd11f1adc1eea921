/** What `delete_broken_symlinks` and `_check_all_symlinks` guarantee. */
module SymlinkUtilsProps {
  import opened Text
  import opened Wrappers
  import opened FileTree
  import opened State
  import opened SymlinkUtils

  lemma {:induction false} LikeAnything(s: string)
    ensures Like(s, "%")
    decreases |s|
  {
    if s != [] {
      LikeAnything(s[1..]);
    }
  }

  /** For a path with no wildcard characters, the prefix query is a
      case-insensitive prefix test. */
  lemma {:induction false} LikeLiteralPrefix(s: string, x: string)
    requires Literal(x)
    ensures Like(s, x + "%") <==> StartsWith(Lower(s), Lower(x))
    decreases |x|
  {
    if x == [] {
      assert x + "%" == "%";
      LikeAnything(s);
    } else {
      assert (x + "%")[1..] == x[1..] + "%";
      assert Literal(x[1..]) by {
        assert forall c :: c in x[1..] ==> c in x;
      }
      if s != [] {
        LikeLiteralPrefix(s[1..], x[1..]);
        assert Lower(s)[1..] == Lower(s[1..]);
        assert Lower(x)[1..] == Lower(x[1..]);
        if StartsWith(Lower(s), Lower(x)) {
          assert Lower(s)[1..][..|Lower(x)| - 1] == Lower(s)[..|Lower(x)|][1..];
        }
        if StartsWith(Lower(s[1..]), Lower(x[1..])) && LowerChar(s[0]) == LowerChar(x[0]) {
          assert Lower(s)[..|Lower(x)|] == [Lower(s)[0]] + Lower(s[1..])[..|Lower(x[1..])|];
          assert Lower(x) == [Lower(x)[0]] + Lower(x[1..]);
        }
      }
    }
  }

  /** Every visited path comes from a row the query returned. */
  lemma {:induction false} KeepersFromRows(rows: seq<IndexRow>, valid: Path -> bool, keepFormatted: bool, p: Path)
    requires p in Keepers(rows, valid, keepFormatted)
    ensures exists row :: row in rows && row.path == p
    decreases |rows|
  {
    if rows[0].path != p {
      assert p in Keepers(rows[1..], valid, keepFormatted);
      KeepersFromRows(rows[1..], valid, keepFormatted, p);
      var row :| row in rows[1..] && row.path == p;
      assert row in rows;
    }
  }

  lemma ShrinksTrans(a: Tree, b: Tree, c: Tree)
    requires Shrinks(a, b) && Shrinks(b, c)
    ensures Shrinks(a, c)
  {
  }

  /** The loop over the collected paths only removes entries, and what it
      removes is a visited link or a directory (one left empty). */
  lemma {:induction false} PurgeAllTree(s: Snapshot, items: seq<Path>, deleted: bool)
    ensures Shrinks(s.tree, PurgeAll(s, items, deleted).0.tree)
    ensures forall q :: q in s.tree.entries && q !in PurgeAll(s, items, deleted).0.tree.entries ==>
              (q in items && s.tree.IsLink(q)) || s.tree.entries[q] == Dir
    ensures forall p :: p in items && p != "" ==> !PurgeAll(s, items, deleted).0.tree.IsLink(p)
    decreases |items|
  {
    if items != [] {
      var (s1, d) := Purge(s, items[0]);
      var r := PurgeAll(s1, items[1..], deleted || d);
      assert PurgeAll(s, items, deleted) == r;
      PurgeAllTree(s1, items[1..], deleted || d);
      ShrinksTrans(s.tree, s1.tree, r.0.tree);
      forall q | q in s.tree.entries && q !in r.0.tree.entries
        ensures (q in items && s.tree.IsLink(q)) || s.tree.entries[q] == Dir
      {
        if q in s1.tree.entries {
          assert (q in items[1..] && s1.tree.IsLink(q)) || s1.tree.entries[q] == Dir;
        }
      }
      forall p | p in items && p != "" ensures !r.0.tree.IsLink(p) {
        if p == items[0] {
          assert !s1.tree.IsLink(p);
        }
      }
    }
  }

  /** The loop deletes the `processed_files` and `file_index` rows of every
      visited path and keeps every other row. */
  lemma PurgeAllRows(s: Snapshot, items: seq<Path>, deleted: bool)
    ensures forall k :: k in PurgeAll(s, items, deleted).0.ledger <==>
              k in s.ledger && (s.ledger[k] == "" || s.ledger[k] !in items)
    ensures forall k :: k in PurgeAll(s, items, deleted).0.ledger ==> PurgeAll(s, items, deleted).0.ledger[k] == s.ledger[k]
    ensures forall row :: row in PurgeAll(s, items, deleted).0.index <==>
              row in s.index && (row.path == "" || row.path !in items)
  {
    PurgeAllLedger(s, items, deleted);
    PurgeAllIndex(s, items, deleted);
  }

  lemma {:induction false} PurgeAllLedger(s: Snapshot, items: seq<Path>, deleted: bool)
    ensures var r := PurgeAll(s, items, deleted).0;
            && (forall k :: k in r.ledger <==> k in s.ledger && (s.ledger[k] == "" || s.ledger[k] !in items))
            && (forall k :: k in r.ledger ==> r.ledger[k] == s.ledger[k])
    decreases |items|
  {
    if items != [] {
      var (s1, d) := Purge(s, items[0]);
      PurgeOneRows(s, items[0]);
      PurgeAllLedger(s1, items[1..], deleted || d);
      var r := PurgeAll(s, items, deleted).0;
      assert r == PurgeAll(s1, items[1..], deleted || d).0;
      forall k ensures k in r.ledger <==> k in s.ledger && (s.ledger[k] == "" || s.ledger[k] !in items) {
        if k in s.ledger && s.ledger[k] != "" && s.ledger[k] !in items[1..] && s.ledger[k] != items[0] {
          assert s.ledger[k] !in items;
        }
      }
    }
  }

  lemma {:induction false} PurgeAllIndex(s: Snapshot, items: seq<Path>, deleted: bool)
    ensures forall row :: row in PurgeAll(s, items, deleted).0.index <==>
              row in s.index && (row.path == "" || row.path !in items)
    decreases |items|
  {
    if items != [] {
      var (s1, d) := Purge(s, items[0]);
      PurgeOneRows(s, items[0]);
      PurgeAllIndex(s1, items[1..], deleted || d);
      var r := PurgeAll(s, items, deleted).0;
      assert r == PurgeAll(s1, items[1..], deleted || d).0;
      forall row ensures row in r.index <==> row in s.index && (row.path == "" || row.path !in items) {
        if row in s.index && row.path != "" && row.path !in items[1..] && row.path != items[0] {
          assert row.path !in items;
        }
      }
    }
  }

  /** One visited path: its ledger and index rows go, the others stay. */
  lemma PurgeOneRows(s: Snapshot, p: Path)
    ensures var s1 := Purge(s, p).0;
            && (forall k :: k in s1.ledger <==> k in s.ledger && (p == "" || s.ledger[k] != p))
            && (forall k :: k in s1.ledger ==> s1.ledger[k] == s.ledger[k])
            && (forall row :: row in s1.index <==> row in s.index && (p == "" || row.path != p))
  {
  }

  /** The result flag: true exactly when some visited path was a link. */
  lemma {:induction false} PurgeAllFlag(s: Snapshot, items: seq<Path>, deleted: bool)
    ensures PurgeAll(s, items, deleted).1 <==> deleted || exists p :: p in items && p != "" && s.tree.IsLink(p)
    decreases |items|
  {
    if items != [] {
      var (s1, d) := Purge(s, items[0]);
      PurgeAllFlag(s1, items[1..], deleted || d);
      if exists p :: p in items[1..] && p != "" && s1.tree.IsLink(p) {
        var p :| p in items[1..] && p != "" && s1.tree.IsLink(p);
        assert p in items && s.tree.IsLink(p);
      }
      if !d && exists p :: p in items && p != "" && s.tree.IsLink(p) {
        var p :| p in items && p != "" && s.tree.IsLink(p);
        assert s1.tree == s.tree;
        assert p != items[0];
        assert p in items[1..];
      }
    }
  }

  /** `delete_broken_symlinks` for a removed path: regular files survive,
      every visited link is gone together with its rows, other rows stay,
      and the result is true exactly when a visited path was a link. */
  lemma RemovedPathCleanup(s: Snapshot, destDir: Path, removed: Path, valid: Path -> bool)
    requires removed != "" && s.tree.Valid()
    ensures var (c, s2) := DeleteBrokenSpec(s, destDir, removed, valid, true);
      var items := Items(s, removed, valid);
      && KeepsFiles(s.tree, s2.tree) && s2.tree.Valid()
      && (forall p :: p in items ==> !s2.tree.IsLink(p))
      && (forall k :: k in s2.ledger <==> k in s.ledger && (s.ledger[k] == "" || s.ledger[k] !in items))
      && (forall row :: row in s2.index <==> row in s.index && (row.path == "" || row.path !in items))
      && (c == Returned(true) <==> exists p :: p in items && s.tree.IsLink(p))
      && c != Escaped
  {
    var items := Items(s, removed, valid);
    PurgeAllTree(s, items, false);
    PurgeAllRows(s, items, false);
    PurgeAllFlag(s, items, false);
  }

  /** `_check_all_symlinks` only removes entries; what it removes is a listed
      link or a directory left empty. */
  lemma {:induction false} CheckEntriesTree(s: Snapshot, files: seq<Path>)
    ensures Shrinks(s.tree, CheckEntries(s, files).tree)
    ensures forall q :: q in s.tree.entries && q !in CheckEntries(s, files).tree.entries ==>
              (q in files && s.tree.IsLink(q)) || s.tree.entries[q] == Dir
    decreases |files|
  {
    if files != [] {
      var p := files[0];
      var s1 :=
        if s.tree.IsLink(p) && !s.tree.Exists(s.tree.ReadLink(p)) then
          ForgetRows(s, p).(tree := CleanupEmptyDirs(s.tree.Remove(p), Dirname(p)))
        else s;
      var r := CheckEntries(s1, files[1..]);
      assert CheckEntries(s, files) == r;
      CheckEntriesTree(s1, files[1..]);
      assert Shrinks(s.tree, s1.tree);
      ShrinksTrans(s.tree, s1.tree, r.tree);
      forall q | q in s.tree.entries && q !in r.tree.entries
        ensures (q in files && s.tree.IsLink(q)) || s.tree.entries[q] == Dir
      {
        if q in s1.tree.entries {
          assert (q in files[1..] && s1.tree.IsLink(q)) || s1.tree.entries[q] == Dir;
        }
      }
    }
  }

  /** A link whose target does not exist stays so while entries are only removed. */
  lemma BrokenStaysBroken(a: Tree, b: Tree, p: Path)
    requires Shrinks(a, b) && a.IsLink(p) && !a.Exists(a.ReadLink(p)) && p in b.entries
    ensures b.IsLink(p) && !b.Exists(b.ReadLink(p))
  {
  }

  /** Every listed link that is broken when the check starts is removed and
      its rows deleted; rows of paths that were not listed stay. */
  lemma {:induction false} CheckEntriesRemovesBroken(s: Snapshot, files: seq<Path>)
    ensures forall p :: p in files && s.tree.IsLink(p) && !s.tree.Exists(s.tree.ReadLink(p)) ==>
              && p !in CheckEntries(s, files).tree.entries
              && (forall k :: k in CheckEntries(s, files).ledger ==> CheckEntries(s, files).ledger[k] != p)
              && (forall row :: row in CheckEntries(s, files).index ==> row.path != p)
    ensures forall row :: row in s.index && row.path !in files ==> row in CheckEntries(s, files).index
    ensures forall k :: k in s.ledger && s.ledger[k] !in files ==> k in CheckEntries(s, files).ledger
    ensures forall row :: row in CheckEntries(s, files).index ==> row in s.index
    ensures forall k :: k in CheckEntries(s, files).ledger ==> k in s.ledger && CheckEntries(s, files).ledger[k] == s.ledger[k]
    decreases |files|
  {
    if files != [] {
      var p0 := files[0];
      var s1 :=
        if s.tree.IsLink(p0) && !s.tree.Exists(s.tree.ReadLink(p0)) then
          ForgetRows(s, p0).(tree := CleanupEmptyDirs(s.tree.Remove(p0), Dirname(p0)))
        else s;
      var r := CheckEntries(s1, files[1..]);
      assert CheckEntries(s, files) == r;
      CheckEntriesRemovesBroken(s1, files[1..]);
      CheckEntriesTree(s1, files[1..]);
      assert Shrinks(s.tree, s1.tree);
      forall p | p in files && s.tree.IsLink(p) && !s.tree.Exists(s.tree.ReadLink(p))
        ensures p !in r.tree.entries
        ensures forall k :: k in r.ledger ==> r.ledger[k] != p
        ensures forall row :: row in r.index ==> row.path != p
      {
        if p == p0 {
          assert p !in s1.tree.entries;
          assert forall k :: k in s1.ledger ==> s1.ledger[k] != p;
          assert forall row :: row in s1.index ==> row.path != p;
        } else {
          assert p in files[1..];
          if p in s1.tree.entries {
            BrokenStaysBroken(s.tree, s1.tree, p);
          } else {
            assert p !in r.tree.entries;
          }
        }
      }
    }
  }

  /** `delete_broken_symlinks` without a removed path: regular files
      survive, every broken link directly inside `destDir` is removed with its
      rows, and the result is false even when links were removed. */
  lemma CheckAllCleanup(s: Snapshot, destDir: Path)
    requires s.tree.Valid() && s.tree.IsDir(destDir)
    ensures var (c, s2) := DeleteBrokenSpec(s, destDir, "", _ => true, true);
      var listed := s.tree.ListDir(destDir);
      && c == Returned(false)
      && KeepsFiles(s.tree, s2.tree) && s2.tree.Valid()
      && (forall p :: p in listed && s.tree.IsLink(p) && !s.tree.Exists(s.tree.ReadLink(p)) ==>
            p !in s2.tree.entries && forall row :: row in s2.index ==> row.path != p)
      && (forall q :: q in s.tree.entries && q !in s2.tree.entries ==> (q in listed && s.tree.IsLink(q)) || s.tree.entries[q] == Dir)
  {
    var listed := s.tree.ListDir(destDir);
    CheckEntriesTree(s, listed);
    CheckEntriesRemovesBroken(s, listed);
  }
}
