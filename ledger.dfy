/** The processed-files database of MediaHub/processors/db_utils.py: a
    `processed_files` table in one database file and a
    `processed_files_archive` table in a second file, each with the file
    path as its primary key.  A table is a sequence of paths in rowid order;
    `None` stands for a table that has not been created. */
module Ledger {
  import opened Wrappers
  import opened FileTree

  const MaxRecords: nat := 100000

  predicate Distinct(rows: seq<Path>) {
    forall i, j :: 0 <= i < j < |rows| ==> rows[i] != rows[j]
  }

  /** `INSERT OR IGNORE`: a new path goes after every existing row; a present one is left alone. */
  function InsertOrIgnore(rows: seq<Path>, p: Path): (r: seq<Path>)
    ensures p in r
    ensures forall q :: q in r <==> q in rows || q == p
    ensures |r| <= |rows| + 1
    ensures Distinct(rows) ==> Distinct(r)
    ensures p !in rows ==> |r| == |rows| + 1 && r[..|rows|] == rows && r[|rows|] == p
  {
    if p in rows then rows else rows + [p]
  }

  lemma InsertOrIgnoreIdempotent(rows: seq<Path>, p: Path)
    ensures InsertOrIgnore(InsertOrIgnore(rows, p), p) == InsertOrIgnore(rows, p)
  {
  }

  /** Splits the table into the rows an archiving pass moves (every row but
      the `max` with the highest rowids) and the rows it keeps. */
  function SplitOldest(rows: seq<Path>, max: nat): (r: (seq<Path>, seq<Path>))
    ensures r.0 + r.1 == rows
    ensures |r.1| == if |rows| <= max then |rows| else max
    ensures |rows| <= max ==> r.0 == []
  {
    if |rows| <= max then ([], rows) else (rows[..|rows| - max], rows[|rows| - max..])
  }

  lemma DistinctParts(rows: seq<Path>, max: nat)
    requires Distinct(rows)
    ensures Distinct(SplitOldest(rows, max).0) && Distinct(SplitOldest(rows, max).1)
    ensures forall p :: p in SplitOldest(rows, max).0 ==> p !in SplitOldest(rows, max).1
  {
  }

  /** Appends `moved` to the archive table; a primary-key clash aborts the insert. */
  function AppendRows(archive: seq<Path>, moved: seq<Path>): (r: Option<seq<Path>>)
    ensures r.Some? <==> forall p :: p in moved ==> p !in archive
    ensures r.Some? ==> r.value == archive + moved
  {
    if exists p :: p in moved && p in archive then None else Some(archive + moved)
  }

  class ProcessedFilesDb {
    /** `processed_files` in the main database file. */
    var processed: Option<seq<Path>>
    /** `processed_files_archive` in the main database file: nothing here creates it. */
    var archiveInMain: Option<seq<Path>>
    /** `processed_files_archive` in the archive database file. */
    var archive: Option<seq<Path>>

    ghost predicate Valid()
      reads this
    {
      (processed.Some? ==> Distinct(processed.value)) &&
      (archiveInMain.Some? ==> Distinct(archiveInMain.value)) &&
      (archive.Some? ==> Distinct(archive.value))
    }

    /** Two database files that do not exist yet. */
    constructor ()
      ensures processed.None? && archiveInMain.None? && archive.None?
      ensures Valid()
    {
      processed := None;
      archiveInMain := None;
      archive := None;
    }

    /** `initialize_db`: creates both tables when missing and keeps existing rows. */
    method InitializeDb()
      requires Valid()
      modifies this
      ensures Valid()
      ensures processed == Some(if old(processed).Some? then old(processed).value else [])
      ensures archive == Some(if old(archive).Some? then old(archive).value else [])
      ensures archiveInMain == old(archiveInMain)
    {
      if processed.None? {
        processed := Some([]);
      }
      if archive.None? {
        archive := Some([]);
      }
    }

    /** `save_processed_file`: records `p` once; fails when the table is missing. */
    method SaveProcessedFile(p: Path) returns (ok: bool)
      requires Valid()
      modifies this
      ensures Valid()
      ensures ok <==> old(processed).Some?
      ensures ok ==> processed == Some(InsertOrIgnore(old(processed).value, p))
      ensures !ok ==> processed == old(processed)
      ensures archive == old(archive) && archiveInMain == old(archiveInMain)
    {
      if processed.None? {
        return false;
      }
      processed := Some(InsertOrIgnore(processed.value, p));
      return true;
    }

    /** `load_processed_files`: the set of recorded paths, or None when the table is missing. */
    method LoadProcessedFiles() returns (r: Option<set<Path>>)
      ensures r.Some? <==> processed.Some?
      ensures r.Some? ==> forall p :: p in r.value <==> p in processed.value
    {
      if processed.None? {
        return None;
      }
      var rows := processed.value;
      var acc: set<Path> := {};
      var i := 0;
      while i < |rows|
        invariant 0 <= i <= |rows|
        invariant forall p :: p in acc <==> p in rows[..i]
      {
        acc := acc + {rows[i]};
        i := i + 1;
      }
      assert rows[..|rows|] == rows;
      return Some(acc);
    }

    /** `archive_old_records` as written: it opens only the main database
        file, so the insert into `processed_files_archive` finds the table
        only if that file holds one.  Returns false when it raises. */
    method ArchiveOldRecords() returns (ok: bool)
      requires Valid()
      modifies this
      ensures Valid()
      ensures archive == old(archive)
      ensures ok <==> old(processed).Some? &&
                      (|old(processed).value| > MaxRecords ==>
                         old(archiveInMain).Some? &&
                         AppendRows(old(archiveInMain).value, SplitOldest(old(processed).value, MaxRecords).0).Some?)
      ensures ok && |old(processed).value| > MaxRecords ==>
                processed == Some(SplitOldest(old(processed).value, MaxRecords).1) &&
                archiveInMain == AppendRows(old(archiveInMain).value, SplitOldest(old(processed).value, MaxRecords).0)
      ensures !ok || |old(processed).value| <= MaxRecords ==>
                processed == old(processed) && archiveInMain == old(archiveInMain)
    {
      if processed.None? {
        return false;
      }
      var rows := processed.value;
      if |rows| <= MaxRecords {
        return true;
      }
      if archiveInMain.None? {
        return false;
      }
      var split := SplitOldest(rows, MaxRecords);
      var appended := AppendRows(archiveInMain.value, split.0);
      if appended.None? {
        return false;
      }
      DistinctParts(rows, MaxRecords);
      DistinctAppend(archiveInMain.value, split.0);
      archiveInMain := appended;
      processed := Some(split.1);
      return true;
    }

    /** The archiving pass with the archive table taken from the archive database file. */
    method ArchiveIntoArchiveFile() returns (ok: bool)
      requires Valid()
      modifies this
      ensures Valid()
      ensures archiveInMain == old(archiveInMain)
      ensures ok <==> old(processed).Some? &&
                      (|old(processed).value| > MaxRecords ==>
                         old(archive).Some? &&
                         AppendRows(old(archive).value, SplitOldest(old(processed).value, MaxRecords).0).Some?)
      ensures ok && |old(processed).value| > MaxRecords ==>
                processed == Some(SplitOldest(old(processed).value, MaxRecords).1) &&
                archive == AppendRows(old(archive).value, SplitOldest(old(processed).value, MaxRecords).0)
      ensures !ok || |old(processed).value| <= MaxRecords ==>
                processed == old(processed) && archive == old(archive)
    {
      if processed.None? {
        return false;
      }
      var rows := processed.value;
      if |rows| <= MaxRecords {
        return true;
      }
      if archive.None? {
        return false;
      }
      var split := SplitOldest(rows, MaxRecords);
      var appended := AppendRows(archive.value, split.0);
      if appended.None? {
        return false;
      }
      DistinctParts(rows, MaxRecords);
      DistinctAppend(archive.value, split.0);
      archive := appended;
      processed := Some(split.1);
      return true;
    }
  }

  lemma DistinctAppend(a: seq<Path>, b: seq<Path>)
    requires Distinct(a) && Distinct(b)
    requires forall p :: p in b ==> p !in a
    ensures Distinct(a + b)
  {
    var c := a + b;
    forall i, j | 0 <= i < j < |c| ensures c[i] != c[j] {
      if i < |a| && j >= |a| {
        assert c[j] == b[j - |a|];
        assert c[j] in b;
      }
    }
  }

  /** After the archiving pass the main table holds at most MaxRecords rows,
      the newest ones, and no row is lost: moved rows follow the archive. */
  lemma {:induction false} ArchivePassKeepsNewest(rows: seq<Path>, archive: seq<Path>)
    requires Distinct(rows) && |rows| > MaxRecords
    requires AppendRows(archive, SplitOldest(rows, MaxRecords).0).Some?
    ensures var (moved, kept) := SplitOldest(rows, MaxRecords);
            |kept| == MaxRecords && kept == rows[|rows| - MaxRecords..] &&
            (forall p :: p in rows <==> p in moved || p in kept) &&
            AppendRows(archive, moved).value == archive + moved
  {
    var (moved, kept) := SplitOldest(rows, MaxRecords);
    assert moved + kept == rows;
    forall p | p in rows ensures p in moved || p in kept {
      var i :| 0 <= i < |rows| && rows[i] == p;
      if i < |moved| { assert moved[i] == p; } else { assert kept[i - |moved|] == p; }
    }
  }

  /** Fills freshly initialised database files with `rows`, one
      `save_processed_file` per path, then runs `archive_old_records`: with
      more than MaxRecords rows the pass fails and every row stays in the
      main table, because the main file has no archive table. */
  method ArchiveScenarioAsWritten(rows: seq<Path>) returns (ok: bool, kept: seq<Path>)
    requires Distinct(rows) && |rows| > MaxRecords
    ensures !ok && kept == rows
  {
    var db := FreshDatabase(rows);
    ok := db.ArchiveOldRecords();
    kept := db.processed.value;
  }

  /** The same scenario with the archive table taken from the archive file:
      the newest MaxRecords rows stay and the rest move to the archive. */
  method ArchiveScenarioCorrected(rows: seq<Path>) returns (ok: bool, kept: seq<Path>, archived: seq<Path>)
    requires Distinct(rows) && |rows| > MaxRecords
    ensures ok
    ensures kept == rows[|rows| - MaxRecords..]
    ensures archived + kept == rows
  {
    var db := FreshDatabase(rows);
    ok := db.ArchiveIntoArchiveFile();
    kept := db.processed.value;
    archived := db.archive.value;
  }

  method FreshDatabase(rows: seq<Path>) returns (db: ProcessedFilesDb)
    requires Distinct(rows)
    ensures fresh(db) && db.Valid()
    ensures db.processed == Some(rows) && db.archive == Some([]) && db.archiveInMain.None?
  {
    db := new ProcessedFilesDb();
    db.InitializeDb();
    var i := 0;
    while i < |rows|
      invariant 0 <= i <= |rows|
      invariant db.Valid()
      invariant db.processed == Some(rows[..i]) && db.archive == Some([]) && db.archiveInMain.None?
    {
      assert rows[i] !in rows[..i];
      var saved := db.SaveProcessedFile(rows[i]);
      assert rows[..i + 1] == rows[..i] + [rows[i]];
      i := i + 1;
    }
    assert rows[..|rows|] == rows;
  }
}
