/** What `process_file` promises, stated over its model `ProcessFileSpec`. */
module ReconcilerProps {
  import opened Text
  import opened Wrappers
  import opened FileTree
  import opened State
  import opened SymlinkUtils
  import opened Reconciler

  /** No regular file is ever removed or replaced, and the tree stays well
      ordered. */
  lemma ProcessFileKeepsFiles(s: Snapshot, rq: Request, f: Facts)
    ensures KeepsFiles(s.tree, ProcessFileSpec(s, rq, f).1.tree)
    ensures s.tree.Valid() ==> ProcessFileSpec(s, rq, f).1.tree.Valid()
  {
    if !s.errorSet && f.knownType && ForceRemoval(s, rq).Some? {
      var s1 := s.(tree := ForceRemoval(s, rq).value);
      if LedgerCheck(s1, rq).None? && ConflictCheck(s1, rq).None? && NameCheck(rq, f).Place? {
        assert ProcessFileSpec(s, rq, f) == PlaceLink(s1, rq, f, NameCheck(rq, f).dest);
        KeepsFilesTrans(s.tree, s1.tree, PlaceLink(s1, rq, f, NameCheck(rq, f).dest).1.tree);
      }
    }
  }

  lemma KeepsFilesTrans(a: Tree, b: Tree, c: Tree)
    requires KeepsFiles(a, b) && KeepsFiles(b, c)
    ensures KeepsFiles(a, c)
  {
  }

  /** Only the creation path reports a link, and then the link exists at
      the destination the resolver chose, points at the source, and the
      ledger records it; the call ran with the flag clear on a known type,
      and the name was not a bare hash. */
  lemma CreatedOnlyByCreation(s: Snapshot, rq: Request, f: Facts)
    requires ProcessFileSpec(s, rq, f).0.Created?
    ensures var (o, s2) := ProcessFileSpec(s, rq, f);
            !s.errorSet && f.knownType && o.target == rq.src &&
            s2.tree.LinksTo(o.dest, rq.src) && s2.ledger == s.ledger[rq.src := o.dest] &&
            ResolverFor(rq, f).Resolved? && ResolverFor(rq, f).dest == Some(o.dest) &&
            !(IsHashName(rq.file) && rq.tmdbId == "" && rq.imdbId == "")
  {
    CreatedPath(s, rq, f);
    var s1 := s.(tree := ForceRemoval(s, rq).value);
    PlaceCreated(s1, rq, f, NameCheck(rq, f).dest);
  }

  /** A link is only reported by the placing path. */
  lemma CreatedPath(s: Snapshot, rq: Request, f: Facts)
    requires ProcessFileSpec(s, rq, f).0.Created?
    ensures !s.errorSet && f.knownType && ForceRemoval(s, rq).Some? && NameCheck(rq, f).Place?
    ensures var s1 := s.(tree := ForceRemoval(s, rq).value);
            ProcessFileSpec(s, rq, f) == PlaceLink(s1, rq, f, NameCheck(rq, f).dest)
  {
    assert !s.errorSet && f.knownType && ForceRemoval(s, rq).Some?;
    var s1 := s.(tree := ForceRemoval(s, rq).value);
    assert LedgerCheck(s1, rq).None?;
    assert ConflictCheck(s1, rq).None?;
  }

  /** A link reported by the placing path exists and is recorded. */
  lemma PlaceCreated(s: Snapshot, rq: Request, f: Facts, dest: Path)
    requires PlaceLink(s, rq, f, dest).0.Created?
    ensures var (o, s2) := PlaceLink(s, rq, f, dest);
            o == Created(dest, rq.src) && s2.tree.LinksTo(dest, rq.src) && s2.ledger == s.ledger[rq.src := dest]
  {
  }

  /** With the flag set nothing happens. */
  lemma StoppedChangesNothing(s: Snapshot, rq: Request, f: Facts)
    requires s.errorSet
    ensures ProcessFileSpec(s, rq, f) == (Skipped(Stopped), s)
  {
  }

  /** Outside force mode, a recorded destination that still exists ends the
      call with nothing changed; a missing one whose directory holds a link
      to the source moves the ledger's entries from the old destination to
      that link, and no link is created. */
  lemma RenameDetection(s: Snapshot, rq: Request, f: Facts)
    requires !s.errorSet && f.knownType && !rq.force
    requires rq.src in s.ledger && s.ledger[rq.src] != ""
    ensures s.tree.Exists(s.ledger[rq.src]) ==>
              ProcessFileSpec(s, rq, f) == (Skipped(AlreadyProcessed), s)
    ensures var from := s.ledger[rq.src];
            !s.tree.Exists(from) && s.tree.IsDir(Dirname(from)) &&
            s.tree.FirstLinkTo(s.tree.ListDir(Dirname(from)), rq.src).Some? ==>
              var p := s.tree.FirstLinkTo(s.tree.ListDir(Dirname(from)), rq.src).value;
              s.tree.InDir(Dirname(from), p) && s.tree.LinksTo(p, rq.src) &&
              ProcessFileSpec(s, rq, f) == (Skipped(RenameDetected), s.(ledger := RenameDest(s.ledger, from, p)))
  {
    assert s.(tree := s.tree) == s;
  }

  /** Outside force mode, an indexed link that already points at the source
      is recorded and no link is created. */
  lemma ConflictRecorded(s: Snapshot, rq: Request, f: Facts)
    requires !s.errorSet && f.knownType && !rq.force
    requires LedgerCheck(s, rq).None?
    requires s.tree.FirstLinkTo(rq.destIndex, rq.src).Some?
    ensures var p := s.tree.FirstLinkTo(rq.destIndex, rq.src).value;
            p in rq.destIndex && s.tree.LinksTo(p, rq.src) &&
            ProcessFileSpec(s, rq, f) == (Skipped(LinkExists), s.(ledger := s.ledger[rq.src := p]))
  {
    assert s.(tree := s.tree) == s;
  }

  /** A bare hash name without identifiers is skipped whatever the force
      flags say: the result does not depend on them. */
  lemma HashNameIgnoresForceFlags(s: Snapshot, rq: Request, f: Facts, forceShow: bool, forceMovie: bool)
    requires IsHashName(rq.file) && rq.tmdbId == "" && rq.imdbId == ""
    ensures ProcessFileSpec(s, rq.(forceShow := forceShow, forceMovie := forceMovie), f) == ProcessFileSpec(s, rq, f)
    ensures !ProcessFileSpec(s, rq, f).0.Created?
  {
    var rq2 := rq.(forceShow := forceShow, forceMovie := forceMovie);
    assert ForceRemoval(s, rq2) == ForceRemoval(s, rq);
    if ForceRemoval(s, rq).Some? {
      var s1 := s.(tree := ForceRemoval(s, rq).value);
      assert LedgerCheck(s1, rq2) == LedgerCheck(s1, rq);
      assert ConflictCheck(s1, rq2) == ConflictCheck(s1, rq);
    }
  }

  /** At the destination, once its directory exists: a link to the source
      is only recorded; a link elsewhere is replaced by a link to the source;
      a regular file or directory is left untouched and no link is made. */
  lemma DestinationStates(s: Snapshot, t: Tree, rq: Request, f: Facts, dest: Path)
    ensures t.LinksTo(dest, rq.src) ==>
              InstallLink(s, t, rq, f, dest) == (Skipped(AlreadyCorrect), s.(tree := t, ledger := s.ledger[rq.src := dest]))
    ensures t.IsLink(dest) && !t.LinksTo(dest, rq.src) && !f.linkFails ==>
              var (o, s2) := InstallLink(s, t, rq, f, dest);
              o == Created(dest, rq.src) && s2.tree.entries == t.entries[dest := Link(rq.src)] &&
              (t.Valid() ==> s2.tree.order == t.order) && s2.ledger == s.ledger[rq.src := dest]
    ensures dest in t.entries && !t.IsLink(dest) ==>
              InstallLink(s, t, rq, f, dest) == (Skipped(Occupied), s.(tree := t))
  {
    if t.IsLink(dest) && !t.LinksTo(dest, rq.src) && !f.linkFails {
      var t3 := t.Remove(dest);
      assert t3.Put(dest, Link(rq.src)).entries == t.entries[dest := Link(rq.src)];
    }
  }

  /** The ledger changes only at the source's own entry, except for a
      detected rename. */
  lemma LedgerFrame(s: Snapshot, rq: Request, f: Facts)
    requires ProcessFileSpec(s, rq, f).0 != Skipped(RenameDetected)
    ensures ProcessFileSpec(s, rq, f).1.ledger - {rq.src} == s.ledger - {rq.src}
  {
    var r := ProcessFileSpec(s, rq, f);
    if !s.errorSet && f.knownType && ForceRemoval(s, rq).Some? {
      var s1 := s.(tree := ForceRemoval(s, rq).value);
      if LedgerCheck(s1, rq).Some? {
        assert r == LedgerCheck(s1, rq).value;
      } else if ConflictCheck(s1, rq).Some? {
        assert r == ConflictCheck(s1, rq).value;
        UpdateOwnKey(s.ledger, rq.src, r.1.ledger[rq.src]);
      } else if NameCheck(rq, f).Place? {
        assert r == PlaceLink(s1, rq, f, NameCheck(rq, f).dest);
        PlaceLinkLedger(s1, rq, f, NameCheck(rq, f).dest);
      }
    }
  }

  /** Placing a link touches the ledger at the source's entry only. */
  lemma PlaceLinkLedger(s: Snapshot, rq: Request, f: Facts, dest: Path)
    ensures PlaceLink(s, rq, f, dest).1.ledger - {rq.src} == s.ledger - {rq.src}
  {
    var r := PlaceLink(s, rq, f, dest);
    if r.0 != Raised {
      assert r.1.ledger == s.ledger || r.1.ledger == s.ledger[rq.src := dest];
      UpdateOwnKey(s.ledger, rq.src, dest);
    }
  }

  lemma UpdateOwnKey(m: map<Path, Path>, k: Path, v: Path)
    ensures m[k := v] - {k} == m - {k}
  {
  }

  /** Once the ledger records for the source a destination that links to
      it, a non-forced call only reports the file as processed. */
  lemma SecondRunAlreadyProcessed(s: Snapshot, rq: Request, f: Facts, p: Path)
    requires !rq.force && !s.errorSet && f.knownType
    requires rq.src in s.ledger && s.ledger[rq.src] == p && p != ""
    requires s.tree.LinksTo(p, rq.src) && rq.src in s.tree.entries
    ensures ProcessFileSpec(s, rq, f) == (Skipped(AlreadyProcessed), s)
  {
    assert s.(tree := s.tree) == s;
    assert s.tree.Exists(p);
  }

  /** A destination left occupied, or whose link could not be made, gives
      the same answer again and changes nothing. */
  lemma InstallLinkStable(s: Snapshot, t: Tree, rq: Request, f: Facts, dest: Path)
    requires (dest in t.entries && !t.IsLink(dest)) || (dest !in t.entries && f.linkFails)
    ensures InstallLink(s, t, rq, f, dest).1 == s.(tree := t)
    ensures !InstallLink(s, t, rq, f, dest).0.Created?
  {
  }

  /** Running `process_file` twice without force leaves the state the first
      run produced, and the second run never creates a link. */
  lemma ProcessFileIdempotent(s: Snapshot, rq: Request, f: Facts)
    requires !rq.force && s.tree.WellFormed()
    requires rq.src in s.tree.entries && s.tree.entries[rq.src] == File
    ensures var s2 := ProcessFileSpec(s, rq, f).1;
            ProcessFileSpec(s2, rq, f).1 == s2 && !ProcessFileSpec(s2, rq, f).0.Created?
  {
    if s.errorSet || !f.knownType {
      return;
    }
    assert s.(tree := s.tree) == s;
    var lc := LedgerCheck(s, rq);
    if lc.Some? {
      if lc.value.0 == Skipped(RenameDetected) {
        RenameIdempotent(s, rq, f);
      }
      return;
    }
    if ConflictCheck(s, rq).Some? {
      var p := s.tree.FirstLinkTo(rq.destIndex, rq.src).value;
      SecondRunAlreadyProcessed(ConflictCheck(s, rq).value.1, rq, f, p);
      return;
    }
    var nc := NameCheck(rq, f);
    if nc.Place? {
      assert ProcessFileSpec(s, rq, f) == PlaceLink(s, rq, f, nc.dest);
      PlacedIdempotent(s, rq, f, nc.dest);
    }
  }

  /** After a detected rename the second run finds the recorded link. */
  lemma RenameIdempotent(s: Snapshot, rq: Request, f: Facts)
    requires !rq.force && !s.errorSet && f.knownType
    requires rq.src in s.tree.entries
    requires LedgerCheck(s, rq).Some? && LedgerCheck(s, rq).value.0 == Skipped(RenameDetected)
    ensures var s2 := LedgerCheck(s, rq).value.1;
            ProcessFileSpec(s2, rq, f) == (Skipped(AlreadyProcessed), s2)
  {
    var s2 := LedgerCheck(s, rq).value.1;
    var from := s.ledger[rq.src];
    var p :| s.tree.InDir(Dirname(from), p) && s.tree.LinksTo(p, rq.src) &&
             s2 == s.(ledger := RenameDest(s.ledger, from, p));
    SecondRunAlreadyProcessed(s2, rq, f, p);
  }

  /** After the placing path, the second run gives the same answer and
      changes nothing. */
  lemma PlacedIdempotent(s: Snapshot, rq: Request, f: Facts, dest: Path)
    requires !rq.force && s.tree.WellFormed() && !s.errorSet && f.knownType
    requires rq.src in s.tree.entries && s.tree.entries[rq.src] == File
    requires LedgerCheck(s, rq).None? && ConflictCheck(s, rq).None? && NameCheck(rq, f) == Place(dest)
    ensures var s2 := PlaceLink(s, rq, f, dest).1;
            ProcessFileSpec(s2, rq, f).1 == s2 && !ProcessFileSpec(s2, rq, f).0.Created?
  {
    var (o, s2) := PlaceLink(s, rq, f, dest);
    if o == Raised {
      return;
    }
    assert rq.src in s2.tree.entries;
    assert dest != "";
    if o.Created? || o == Skipped(AlreadyCorrect) {
      SecondRunAlreadyProcessed(s2, rq, f, dest);
      return;
    }
    var t2 := s.tree.MakeDirs(Dirname(dest)).value;
    assert (o, s2) == InstallLink(s, t2, rq, f, dest);
    OccupiedIdempotent(s, t2, rq, f, dest);
  }

  /** After an occupied destination or a failed link, the second run
      stops at the same place with nothing changed. */
  lemma OccupiedIdempotent(s: Snapshot, t2: Tree, rq: Request, f: Facts, dest: Path)
    requires !rq.force && s.tree.WellFormed() && !s.errorSet && f.knownType
    requires rq.src in s.tree.entries && s.tree.entries[rq.src] == File
    requires LedgerCheck(s, rq).None? && ConflictCheck(s, rq).None? && NameCheck(rq, f) == Place(dest)
    requires s.tree.MakeDirs(Dirname(dest)) == Some(t2)
    requires var o := InstallLink(s, t2, rq, f, dest).0; o == Skipped(Occupied) || o == Skipped(LinkFailed)
    ensures var s2 := InstallLink(s, t2, rq, f, dest).1;
            ProcessFileSpec(s2, rq, f).1 == s2 && !ProcessFileSpec(s2, rq, f).0.Created?
  {
    OccupiedState(s, t2, rq, f, dest);
    SecondRunStops(s, InstallLink(s, t2, rq, f, dest).1, rq, f, dest);
  }

  /** The state an occupied destination or a failed link leaves: the
      ledger as it was, the same links to the source, the destination
      directory in place and the destination still blocked. */
  lemma OccupiedState(s: Snapshot, t2: Tree, rq: Request, f: Facts, dest: Path)
    requires s.tree.WellFormed() && rq.src in s.tree.entries && s.tree.entries[rq.src] == File
    requires dest != ""
    requires s.tree.MakeDirs(Dirname(dest)) == Some(t2)
    requires var o := InstallLink(s, t2, rq, f, dest).0; o == Skipped(Occupied) || o == Skipped(LinkFailed)
    ensures var s2 := InstallLink(s, t2, rq, f, dest).1;
            s2.ledger == s.ledger && s2.errorSet == s.errorSet &&
            SameLinksTo(s.tree, s2.tree, rq.src) && Extends(s.tree.order, s2.tree.order) &&
            "" !in s2.tree.entries && rq.src in s2.tree.entries &&
            s2.tree.MakeDirs(Dirname(dest)) == Some(s2.tree) &&
            ((dest in s2.tree.entries && !s2.tree.IsLink(dest)) || (dest !in s2.tree.entries && f.linkFails))
  {
    var t3 := InstallLink(s, t2, rq, f, dest).1.tree;
    assert SameLinksTo(s.tree, t2, rq.src);
    assert SameLinksTo(s.tree, t3, rq.src);
    assert t3.MakeDirs(Dirname(dest)) == Some(t3);
  }

  /** A second run on such a state: the checks before the placing find
      nothing new, and the placing stops at the blocked destination. */
  lemma SecondRunStops(s: Snapshot, s2: Snapshot, rq: Request, f: Facts, dest: Path)
    requires !rq.force && s.tree.WellFormed() && !s.errorSet && f.knownType
    requires LedgerCheck(s, rq).None? && ConflictCheck(s, rq).None? && NameCheck(rq, f) == Place(dest)
    requires s2.ledger == s.ledger && !s2.errorSet
    requires SameLinksTo(s.tree, s2.tree, rq.src) && Extends(s.tree.order, s2.tree.order)
    requires "" !in s2.tree.entries && s2.tree.MakeDirs(Dirname(dest)) == Some(s2.tree)
    requires (dest in s2.tree.entries && !s2.tree.IsLink(dest)) || (dest !in s2.tree.entries && f.linkFails)
    ensures ProcessFileSpec(s2, rq, f).1 == s2 && !ProcessFileSpec(s2, rq, f).0.Created?
  {
    var t3 := s2.tree;
    LedgerCheckStable(s, s2, rq);
    FirstLinkToAgree(s.tree, t3, rq.destIndex, rq.src);
    assert ConflictCheck(s2, rq).None?;
    assert s2.(tree := t3) == s2;
    InstallLinkStable(s2, t3, rq, f, dest);
    assert PlaceLink(s2, rq, f, dest) == InstallLink(s2, t3, rq, f, dest);
  }

  /** When the ledger check goes on past a recorded destination, the
      directory of that destination holds no link to the source. */
  lemma LedgerNoneScan(s: Snapshot, rq: Request)
    requires s.tree.WellFormed() && !rq.force && rq.src in s.ledger && s.ledger[rq.src] != ""
    requires LedgerCheck(s, rq).None? && Dirname(s.ledger[rq.src]) != ""
    ensures !s.tree.Exists(s.ledger[rq.src])
    ensures var dir := Dirname(s.ledger[rq.src]);
            s.tree.FirstLinkTo(s.tree.ListDir(dir), rq.src).None?
  {
    var dir := Dirname(s.ledger[rq.src]);
    if !s.tree.IsDir(dir) {
      ScanMissingDir(s.tree, dir, rq.src);
    }
  }

  /** The ledger check goes on when the recorded destination is gone and its
      directory holds no link to the source. */
  lemma LedgerScanNone(s: Snapshot, rq: Request)
    requires !rq.force && rq.src in s.ledger && s.ledger[rq.src] != ""
    requires !s.tree.Exists(s.ledger[rq.src])
    requires var dir := Dirname(s.ledger[rq.src]);
             s.tree.IsDir(dir) && s.tree.FirstLinkTo(s.tree.ListDir(dir), rq.src).None?
    ensures LedgerCheck(s, rq).None?
  {
  }

  /** The ledger check of the second run, after an occupied destination or
      a failed link: it reports, raises or goes on, and never sees a rename
      the first run did not see. */
  lemma LedgerCheckStable(s: Snapshot, s2: Snapshot, rq: Request)
    requires s.tree.WellFormed() && !rq.force
    requires LedgerCheck(s, rq).None?
    requires s2.ledger == s.ledger && SameLinksTo(s.tree, s2.tree, rq.src)
    requires Extends(s.tree.order, s2.tree.order) && "" !in s2.tree.entries
    ensures LedgerCheck(s2, rq).None? || LedgerCheck(s2, rq).value == (Skipped(AlreadyProcessed), s2) ||
            LedgerCheck(s2, rq).value == (Raised, s2)
  {
    if rq.src in s.ledger && s.ledger[rq.src] != "" {
      var dir := Dirname(s.ledger[rq.src]);
      if !s2.tree.Exists(s.ledger[rq.src]) && s2.tree.IsDir(dir) {
        LedgerNoneScan(s, rq);
        ScanDirStable(s.tree, s2.tree, dir, rq.src);
        LedgerScanNone(s2, rq);
      }
    }
  }
}
