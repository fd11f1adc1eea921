/** `process_file` as the step-by-step procedure it is: each stage reads the
    hub's filesystem and ledger and updates them in place. */
module ProcessFileImpl {
  import opened Wrappers
  import opened FileTree
  import opened State
  import opened SymlinkUtils
  import opened Reconciler

  /** Force mode: removes the link recorded for the source and up to two
      parent directories left empty. */
  method RemoveForReprocessing(h: Hub, rq: Request) returns (ok: bool)
    modifies h
    ensures ok <==> ForceRemoval(old(h.Snap()), rq).Some?
    ensures ok ==> h.Snap() == old(h.Snap()).(tree := ForceRemoval(old(h.Snap()), rq).value)
    ensures !ok ==> h.Snap() == old(h.Snap())
  {
    if !rq.force {
      return true;
    }
    var info := GetExistingSymlinkInfo(h.tree, h.ledger, rq.src);
    if info.ListFailed? {
      return false;
    }
    if info.NotFound? {
      return true;
    }
    var x := info.path;
    h.tree := h.tree.Remove(x);
    PruneEmptyParents(h, Dirname(x));
    return true;
  }

  /** The empty parent directory of the removed link, then its own parent
      if that is left empty, are removed; a failed removal stops quietly. */
  method PruneEmptyParents(h: Hub, parent: Path)
    modifies h
    ensures h.Snap() == old(h.Snap()).(tree := PruneParents(old(h.tree), parent))
  {
    if h.tree.IsDir(parent) && h.tree.ListDir(parent) == [] {
      var removed := h.tree.RmDir(parent);
      if removed.Some? {
        h.tree := removed.value;
        var grand := Dirname(parent);
        if h.tree.IsDir(grand) && h.tree.ListDir(grand) == [] {
          var removed2 := h.tree.RmDir(grand);
          if removed2.Some? {
            h.tree := removed2.value;
          }
        }
      }
    }
  }

  /** `process_file` on the hub: the outcome and the new state are those of
      `ProcessFileSpec` on the state before the call. */
  method ProcessFile(h: Hub, rq: Request, f: Facts) returns (o: Outcome)
    modifies h
    ensures (o, h.Snap()) == ProcessFileSpec(old(h.Snap()), rq, f)
  {
    if h.errorSet {
      return Skipped(Stopped);
    }
    if !f.knownType {
      return Skipped(UnsupportedType);
    }
    var ok := RemoveForReprocessing(h, rq);
    if !ok {
      return Raised;
    }
    ghost var s1 := h.Snap();
    // The ledger check.
    if !rq.force && rq.src in h.ledger && h.ledger[rq.src] != "" {
      var from := h.ledger[rq.src];
      if h.tree.Exists(from) {
        return Skipped(AlreadyProcessed);
      }
      var dir := Dirname(from);
      if h.tree.Exists(dir) {
        if !h.tree.IsDir(dir) {
          return Raised;
        }
        var renamed := FindLinkTo(h.tree, h.tree.ListDir(dir), rq.src);
        if renamed.Some? {
          h.ledger := RenameDest(h.ledger, from, renamed.value);
          return Skipped(RenameDetected);
        }
      }
    }
    assert LedgerCheck(s1, rq).None?;
    // The destination-index check.
    var existing := FindLinkTo(h.tree, rq.destIndex, rq.src);
    if existing.Some? && !rq.force {
      h.ledger := h.ledger[rq.src := existing.value];
      return Skipped(LinkExists);
    }
    assert ConflictCheck(s1, rq).None?;
    var decision := NameCheck(rq, f);
    if decision.Stop? {
      return decision.outcome;
    }
    o := CreateLink(h, rq, f, decision.dest);
  }

  /** The destination stage: parents made, a stale link replaced, an
      occupied path left alone, then the link and its ledger row. */
  method CreateLink(h: Hub, rq: Request, f: Facts, dest: Path) returns (o: Outcome)
    modifies h
    ensures (o, h.Snap()) == PlaceLink(old(h.Snap()), rq, f, dest)
  {
    var made := h.tree.MakeDirs(Dirname(dest));
    if made.None? {
      return Raised;
    }
    h.tree := made.value;
    if h.tree.IsLink(dest) {
      if h.tree.ReadLink(dest) == rq.src {
        h.ledger := h.ledger[rq.src := dest];
        return Skipped(AlreadyCorrect);
      }
      h.tree := h.tree.Remove(dest);
    }
    if h.tree.Exists(dest) && !h.tree.IsLink(dest) {
      return Skipped(Occupied);
    }
    if f.linkFails {
      return Skipped(LinkFailed);
    }
    h.tree := h.tree.Put(dest, Link(rq.src));
    h.ledger := h.ledger[rq.src := dest];
    return Created(dest, rq.src);
  }
}
