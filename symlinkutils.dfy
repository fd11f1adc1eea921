/** Helpers of MediaHub/processors/symlink_utils.py: finding the link
    recorded for a source, removing directories left empty, and deleting the
    links of removed sources together with their database rows. */
module SymlinkUtils {
  import opened Text
  import opened Wrappers
  import opened FileTree
  import opened State

  /** The prefix Windows puts in front of long paths. */
  const LongPathPrefix := "\\\\?\\"

  /** `normalize_path`: on Windows the long-path prefix is dropped; elsewhere
      the path is returned unchanged. */
  function NormalizePath(p: Path, windows: bool): (r: Path)
    ensures !windows ==> r == p
    ensures windows && StartsWith(p, LongPathPrefix) ==> r == p[4..]
    ensures windows && !StartsWith(p, LongPathPrefix) ==> r == p
  {
    if windows && StartsWith(p, LongPathPrefix) then p[4..] else p
  }

  /** What `get_existing_symlink_info` finds: a link, nothing, or a
      directory listing that raised (the recorded parent is not a directory). */
  datatype Lookup = Found(path: Path) | NotFound | ListFailed

  /** `get_existing_symlink_info`: the first link to `src` inside the
      directory of the destination the ledger records for `src`. */
  function ExistingSymlinkInfo(t: Tree, l: Ledger, src: Path): (r: Lookup)
    ensures r.Found? ==> t.LinksTo(r.path, src) && src in l && t.InDir(Dirname(l[src]), r.path)
    ensures r.ListFailed? ==> src in l && t.Exists(Dirname(l[src])) && !t.IsDir(Dirname(l[src]))
    ensures r.NotFound? && src in l && l[src] != "" && t.IsDir(Dirname(l[src])) ==>
              forall p :: t.InDir(Dirname(l[src]), p) && p in t.order ==> !t.LinksTo(p, src)
  {
    if src in l && l[src] != "" && t.Exists(Dirname(l[src])) then
      var dir := Dirname(l[src]);
      if !t.IsDir(dir) then ListFailed
      else match t.FirstLinkTo(t.ListDir(dir), src)
        case Some(p) => Found(p)
        case None => NotFound
    else NotFound
  }

  /** The listing loop of `get_existing_symlink_info`. */
  method GetExistingSymlinkInfo(t: Tree, l: Ledger, src: Path) returns (r: Lookup)
    ensures r == ExistingSymlinkInfo(t, l, src)
  {
    if src in l && l[src] != "" && t.Exists(Dirname(l[src])) {
      var dir := Dirname(l[src]);
      if !t.IsDir(dir) {
        return ListFailed;
      }
      var found := FindLinkTo(t, t.ListDir(dir), NormalizePath(src, false));
      if found.Some? {
        return Found(found.value);
      }
    }
    return NotFound;
  }

  /** `_cleanup_empty_dirs`: removes `d` while it is an empty directory,
      then its parent, and so on; stops at the first directory that is
      missing, not empty, or that `rmdir` refuses. */
  function CleanupEmptyDirs(t: Tree, d: Path): (r: Tree)
    ensures r.order == t.order && r.locked == t.locked
    ensures forall p :: p in r.entries ==> p in t.entries && r.entries[p] == t.entries[p]
    ensures forall p :: p in t.entries && p !in r.entries ==> t.entries[p] == Dir && StartsWith(d, p)
    ensures t.Valid() ==> r.Valid()
    ensures !(d != "" && t.IsDir(d) && t.ListDir(d) == [] && d !in t.locked) ==> r == t
    decreases t.entries.Keys
  {
    if d != "" && t.IsDir(d) && t.ListDir(d) == [] then
      match t.RmDir(d)
      case None => t
      case Some(t2) =>
        var r := CleanupEmptyDirs(t2, Dirname(d));
        PrefixTrans(d);
        r
    else t
  }

  lemma PrefixTrans(d: Path)
    ensures forall p :: StartsWith(Dirname(d), p) ==> StartsWith(d, p)
  {
    forall p | StartsWith(Dirname(d), p) ensures StartsWith(d, p) {
      assert d[..|Dirname(d)|] == Dirname(d);
      assert d[..|p|] == Dirname(d)[..|p|];
    }
  }

  /** The loop of `_cleanup_empty_dirs`. */
  method CleanupEmptyDirsLoop(h: Hub, d: Path)
    modifies h
    ensures h.tree == CleanupEmptyDirs(old(h.tree), d)
    ensures h.ledger == old(h.ledger) && h.index == old(h.index) && h.errorSet == old(h.errorSet)
  {
    var dir := d;
    while dir != "" && h.tree.IsDir(dir) && h.tree.ListDir(dir) == []
      invariant CleanupEmptyDirs(h.tree, dir) == CleanupEmptyDirs(old(h.tree), d)
      invariant h.ledger == old(h.ledger) && h.index == old(h.index) && h.errorSet == old(h.errorSet)
      decreases h.tree.entries.Keys
    {
      var removed := h.tree.RmDir(dir);
      if removed.None? {
        break;
      }
      h.tree := removed.value;
      dir := Dirname(dir);
    }
  }

  // ---------------------------------------------------------------------
  // `delete_broken_symlinks`.

  /** SQLite's `LIKE` without an escape character: `%` matches any run of
      characters, `_` any one character, and ASCII letters match regardless
      of case. */
  predicate Like(s: string, pat: string)
    decreases |s| + |pat|
  {
    if pat == [] then s == []
    else if pat[0] == '%' then Like(s, pat[1..]) || (s != [] && Like(s[1..], pat))
    else s != [] && (pat[0] == '_' || LowerChar(s[0]) == LowerChar(pat[0])) && Like(s[1..], pat[1..])
  }

  /** A `LIKE` pattern with no wildcard of its own. */
  predicate Literal(x: string) { '%' !in x && '_' !in x }

  /** The three `file_index` queries on `target_path`. */
  datatype Query =
    | Exact(path: Path)   // `target_path = ?`
    | Prefix(path: Path)  // `target_path LIKE '<path>%'`
    | Within(path: Path)  // `target_path = ? OR target_path LIKE '<path>/%'`

  predicate Matches(q: Query, target: Path) {
    match q
    case Exact(x) => target == x
    case Prefix(x) => Like(target, x + "%")
    case Within(x) => target == x || Like(target, x + "/%")
  }

  /** The rows a query returns, in table order. */
  function Select(idx: seq<IndexRow>, q: Query): (r: seq<IndexRow>)
    ensures forall row :: row in r <==> row in idx && Matches(q, row.target)
    ensures |r| <= |idx|
  {
    if idx == [] then []
    else (if Matches(q, idx[0].target) then [idx[0]] else []) + Select(idx[1..], q)
  }

  /** Whether a returned row's link path is kept: non-empty, and accepted by
      the database's validity check `valid` or, when `keepFormatted`, named
      like a formatted episode (`" - "` in its base name). */
  predicate Kept(p: Path, valid: Path -> bool, keepFormatted: bool) {
    p != "" && (valid(p) || (keepFormatted && Contains(Basename(p), " - ")))
  }

  /** The link paths the loop over a query's rows collects. */
  function Keepers(rows: seq<IndexRow>, valid: Path -> bool, keepFormatted: bool): (r: seq<Path>)
    ensures forall p :: p in r ==> Kept(p, valid, keepFormatted)
    ensures forall row :: row in rows && Kept(row.path, valid, keepFormatted) ==> row.path in r
  {
    if rows == [] then []
    else (if Kept(rows[0].path, valid, keepFormatted) then [rows[0].path] else [])
         + Keepers(rows[1..], valid, keepFormatted)
  }

  /** The search of a removed directory's files that runs when the
      directory query found nothing: the rows targeting each file. */
  function FallbackKeepers(idx: seq<IndexRow>, files: seq<Path>, valid: Path -> bool): (r: seq<Path>)
    ensures forall p :: p in r ==> Kept(p, valid, false)
  {
    if files == [] then []
    else Keepers(Select(idx, Exact(files[0])), valid, false) + FallbackKeepers(idx, files[1..], valid)
  }

  /** A removed path counts as a directory when it ends in `]` or is one. */
  predicate TreatAsDirectory(t: Tree, removed: Path) {
    EndsWith(removed, "]") || t.IsDir(removed)
  }

  /** The file-removal query: exact target matches, or the prefix matches
      when there is no exact one. */
  function FileRows(idx: seq<IndexRow>, removed: Path): (r: seq<IndexRow>)
    ensures (exists row :: row in idx && row.target == removed) ==>
              forall row :: row in r <==> row in idx && row.target == removed
    ensures (forall row :: row in idx ==> row.target != removed) ==>
              forall row :: row in r <==> row in idx && Like(row.target, removed + "%")
  {
    var exact := Select(idx, Exact(removed));
    if exact != [] then assert exact[0] in exact; exact else Select(idx, Prefix(removed))
  }

  /** The link paths `delete_broken_symlinks` visits for a removed path. */
  function Items(s: Snapshot, removed: Path, valid: Path -> bool): (r: seq<Path>)
    ensures forall p :: p in r ==> p != ""
    ensures TreatAsDirectory(s.tree, removed) ==> forall p :: p in r ==> valid(p)
    ensures !TreatAsDirectory(s.tree, removed) ==>
              forall row :: row in FileRows(s.index, removed) && row.path != "" && Contains(Basename(row.path), " - ") ==> row.path in r
  {
    if TreatAsDirectory(s.tree, removed) then
      var found := Keepers(Select(s.index, Within(removed)), valid, false);
      if found == [] && s.tree.IsDir(removed) then FallbackKeepers(s.index, s.tree.WalkFiles(removed), valid)
      else found
    else Keepers(FileRows(s.index, removed), valid, true)
  }

  /** Both databases forget destination `p`. */
  function ForgetRows(s: Snapshot, p: Path): (r: Snapshot)
    ensures r.tree == s.tree && r.errorSet == s.errorSet
    ensures r.ledger == ForgetDest(s.ledger, p) && r.index == DeleteIndexRow(s.index, p)
  {
    s.(ledger := ForgetDest(s.ledger, p), index := DeleteIndexRow(s.index, p))
  }

  /** `b` is `a` with some entries removed: nothing is added or changed. */
  predicate Shrinks(a: Tree, b: Tree) {
    && b.order == a.order && b.locked == a.locked
    && forall q :: q in b.entries ==> q in a.entries && b.entries[q] == a.entries[q]
  }

  /** One visited link path: a link is removed together with its rows and
      the directories it leaves empty; for a path that is not a link, or
      is missing, only the rows go. The flag reports a removed link. */
  function Purge(s: Snapshot, p: Path): (r: (Snapshot, bool))
    ensures r.1 <==> p != "" && s.tree.IsLink(p)
    ensures Shrinks(s.tree, r.0.tree)
    ensures forall q :: q in s.tree.entries && q !in r.0.tree.entries ==> (q == p && s.tree.IsLink(p)) || s.tree.entries[q] == Dir
  {
    if p == "" then (s, false)
    else if s.tree.IsLink(p) then
      (ForgetRows(s, p).(tree := CleanupEmptyDirs(s.tree.Remove(p), Dirname(p))), true)
    else (ForgetRows(s, p), false)
  }

  /** The loop over the collected link paths. */
  function PurgeAll(s: Snapshot, items: seq<Path>, deleted: bool): (r: (Snapshot, bool))
    ensures deleted ==> r.1
    ensures r.0.errorSet == s.errorSet
    decreases |items|
  {
    if items == [] then (s, deleted)
    else
      var (s1, d) := Purge(s, items[0]);
      PurgeAll(s1, items[1..], deleted || d)
  }

  /** `delete_broken_symlinks` returns a flag or lets an exception out. */
  datatype Cleanup = Returned(deleted: bool) | Escaped

  /** `_check_all_symlinks`' loop: every listed link whose target does not
      exist is removed with its rows and the directories it leaves empty. */
  function CheckEntries(s: Snapshot, files: seq<Path>): (r: Snapshot)
    ensures r.errorSet == s.errorSet
    decreases |files|
  {
    if files == [] then s
    else
      var p := files[0];
      var s1 :=
        if s.tree.IsLink(p) && !s.tree.Exists(s.tree.ReadLink(p)) then
          ForgetRows(s, p).(tree := CleanupEmptyDirs(s.tree.Remove(p), Dirname(p)))
        else s;
      CheckEntries(s1, files[1..])
  }

  /** `_check_all_symlinks`: only the entries directly inside `destDir`; the
      listing raises when `destDir` is not a directory. */
  function CheckAllSymlinks(s: Snapshot, destDir: Path): (r: (Cleanup, Snapshot))
    ensures r.0 != Escaped <==> s.tree.IsDir(destDir)
    ensures r.0 == Escaped ==> r.1 == s
  {
    if !s.tree.IsDir(destDir) then (Escaped, s)
    else (Returned(false), CheckEntries(s, s.tree.ListDir(destDir)))
  }

  /** `delete_broken_symlinks(dest_dir, removed)`; `removed == ""` stands for
      no removed path, `valid` for the database's validity check and `dbOk`
      for whether the databases can be opened. */
  function DeleteBrokenSpec(s: Snapshot, destDir: Path, removed: Path, valid: Path -> bool, dbOk: bool): (r: (Cleanup, Snapshot))
    ensures !dbOk ==> r == (Returned(false), s)
    ensures dbOk && removed == "" ==> r == CheckAllSymlinks(s, destDir)
    ensures r.1.errorSet == s.errorSet
  {
    if !dbOk then (Returned(false), s)
    else if removed == "" then CheckAllSymlinks(s, destDir)
    else
      var (s2, d) := PurgeAll(s, Items(s, removed, valid), false);
      (Returned(d), s2)
  }

  // ---------------------------------------------------------------------
  // The loops of `delete_broken_symlinks`.

  /** The loop that collects the kept link paths of a query's rows. */
  method CollectKeepers(rows: seq<IndexRow>, valid: Path -> bool, keepFormatted: bool) returns (r: seq<Path>)
    ensures r == Keepers(rows, valid, keepFormatted)
  {
    r := [];
    var i := 0;
    while i < |rows|
      invariant 0 <= i <= |rows|
      invariant r + Keepers(rows[i..], valid, keepFormatted) == Keepers(rows, valid, keepFormatted)
    {
      KeepersStep(rows, valid, keepFormatted, r, i);
      if Kept(rows[i].path, valid, keepFormatted) {
        r := r + [rows[i].path];
      }
      i := i + 1;
    }
  }

  /** One row further into the collection of kept paths. */
  lemma KeepersStep(rows: seq<IndexRow>, valid: Path -> bool, keepFormatted: bool, r: seq<Path>, i: nat)
    requires i < |rows|
    requires r + Keepers(rows[i..], valid, keepFormatted) == Keepers(rows, valid, keepFormatted)
    ensures Kept(rows[i].path, valid, keepFormatted) ==>
              r + [rows[i].path] + Keepers(rows[i + 1..], valid, keepFormatted) == Keepers(rows, valid, keepFormatted)
    ensures !Kept(rows[i].path, valid, keepFormatted) ==>
              r + Keepers(rows[i + 1..], valid, keepFormatted) == Keepers(rows, valid, keepFormatted)
  {
    assert rows[i..][1..] == rows[i + 1..];
    var rest := Keepers(rows[i + 1..], valid, keepFormatted);
    if Kept(rows[i].path, valid, keepFormatted) {
      assert Keepers(rows[i..], valid, keepFormatted) == [rows[i].path] + rest;
      assert r + ([rows[i].path] + rest) == (r + [rows[i].path]) + rest;
    } else {
      assert Keepers(rows[i..], valid, keepFormatted) == [] + rest == rest;
    }
  }

  /** The link paths to visit, collected as `delete_broken_symlinks` does. */
  method CollectItems(s: Snapshot, removed: Path, valid: Path -> bool) returns (items: seq<Path>)
    ensures items == Items(s, removed, valid)
  {
    if TreatAsDirectory(s.tree, removed) {
      items := CollectKeepers(Select(s.index, Within(removed)), valid, false);
      if items == [] && s.tree.IsDir(removed) {
        items := CollectFallback(s.index, s.tree.WalkFiles(removed), valid);
      }
    } else {
      items := CollectKeepers(FileRows(s.index, removed), valid, true);
    }
  }

  /** The search of the removed directory's files, one query per file. */
  method CollectFallback(idx: seq<IndexRow>, files: seq<Path>, valid: Path -> bool) returns (r: seq<Path>)
    ensures r == FallbackKeepers(idx, files, valid)
  {
    r := [];
    var i := 0;
    while i < |files|
      invariant 0 <= i <= |files|
      invariant r + FallbackKeepers(idx, files[i..], valid) == FallbackKeepers(idx, files, valid)
    {
      assert files[i..][1..] == files[i + 1..];
      var found := CollectKeepers(Select(idx, Exact(files[i])), valid, false);
      r := r + found;
      i := i + 1;
    }
  }

  /** One visited link path, on the hub. */
  method PurgeOne(h: Hub, p: Path) returns (deleted: bool)
    modifies h
    ensures (h.Snap(), deleted) == Purge(old(h.Snap()), p)
  {
    if p == "" {
      return false;
    }
    deleted := h.tree.IsLink(p);
    if deleted {
      h.tree := h.tree.Remove(p);
    }
    h.ledger := ForgetDest(h.ledger, p);
    h.index := DeleteIndexRow(h.index, p);
    if deleted {
      CleanupEmptyDirsLoop(h, Dirname(p));
    }
  }

  /** `_check_all_symlinks` on the hub. */
  method CheckAllSymlinksLoop(h: Hub, destDir: Path) returns (r: Cleanup)
    modifies h
    ensures (r, h.Snap()) == CheckAllSymlinks(old(h.Snap()), destDir)
  {
    if !h.tree.IsDir(destDir) {
      return Escaped;
    }
    var files := h.tree.ListDir(destDir);
    var i := 0;
    while i < |files|
      invariant 0 <= i <= |files|
      invariant CheckEntries(h.Snap(), files[i..]) == CheckEntries(old(h.Snap()), files)
    {
      assert files[i..][1..] == files[i + 1..];
      var p := files[i];
      if h.tree.IsLink(p) && !h.tree.Exists(h.tree.ReadLink(p)) {
        h.tree := h.tree.Remove(p);
        h.ledger := ForgetDest(h.ledger, p);
        h.index := DeleteIndexRow(h.index, p);
        CleanupEmptyDirsLoop(h, Dirname(p));
      }
      i := i + 1;
    }
    return Returned(false);
  }

  /** `delete_broken_symlinks` on the hub. */
  method DeleteBrokenSymlinks(h: Hub, destDir: Path, removed: Path, valid: Path -> bool, dbOk: bool) returns (r: Cleanup)
    modifies h
    ensures (r, h.Snap()) == DeleteBrokenSpec(old(h.Snap()), destDir, removed, valid, dbOk)
  {
    if !dbOk {
      return Returned(false);
    }
    if removed == "" {
      r := CheckAllSymlinksLoop(h, destDir);
      return;
    }
    var items := CollectItems(h.Snap(), removed, valid);
    var deleted := false;
    var i := 0;
    while i < |items|
      invariant 0 <= i <= |items|
      invariant PurgeAll(h.Snap(), items[i..], deleted) == PurgeAll(old(h.Snap()), items, false)
    {
      assert items[i..][1..] == items[i + 1..];
      var d := PurgeOne(h, items[i]);
      deleted := deleted || d;
      i := i + 1;
    }
    return Returned(deleted);
  }
}
