/** `create_symlinks` as the loops it is, over the hub: each loop is proved
    to compute the corresponding function of `Orchestrator`. */
module CreateSymlinksImpl {
  import opened Wrappers
  import opened FileTree
  import opened State
  import opened Reconciler
  import opened Orchestrator
  import opened ProcessFileImpl
  import opened FileUtils

  /** The destination index for the next source, read from the table or
      built by walking the destination. */
  method GetDestIndex(h: Hub, o: Options) returns (idx: seq<Path>)
    ensures idx == DestIndex(h.Snap(), o)
  {
    if o.mode == MonitorMode {
      idx := IndexPaths(h.index);
    } else {
      idx := BuildDestIndex(h.tree, o.destDir);
    }
  }

  /** `update_single_file_index` after a created link, in monitor mode. */
  method RecordResult(h: Hub, o: Options, out: Outcome)
    modifies h
    ensures h.Snap() == Record(old(h.Snap()), o, out)
  {
    if o.mode == MonitorMode && out.Created? {
      h.index := UpsertIndexRow(h.index, IndexRow(out.dest, true, out.target));
    }
  }

  /** The progress total of auto-select mode. */
  method CountTotal(t: Tree, facts: Path -> Facts, dirs: seq<Path>) returns (n: nat)
    ensures n == TotalFiles(t, facts, dirs)
  {
    n := 0;
    var i := 0;
    while i < |dirs|
      invariant 0 <= i <= |dirs|
      invariant n + TotalFiles(t, facts, dirs[i..]) == TotalFiles(t, facts, dirs)
    {
      assert dirs[i..][1..] == dirs[i + 1..];
      if t.IsFile(dirs[i]) {
        n := n + 1;
      } else {
        var files := t.WalkFiles(dirs[i]);
        var j := 0;
        while j < |files|
          invariant 0 <= j <= |files|
          invariant n + CountKnown(facts, files[j..]) + TotalFiles(t, facts, dirs[i + 1..]) == TotalFiles(t, facts, dirs)
        {
          assert files[j..][1..] == files[j + 1..];
          if facts(files[j]).knownType {
            n := n + 1;
          }
          j := j + 1;
        }
      }
      i := i + 1;
    }
  }

  /** The sequential loop over one directory's files. */
  method SeqFilesLoop(h: Hub, o: Options, facts: Path -> Facts, log: set<Path>,
                      files: seq<Path>, idx: seq<Path>, walked0: seq<Path>) returns (walked: seq<Path>, raised: bool)
    modifies h
    ensures Run(h.Snap(), walked, raised) == SeqFiles(Run(old(h.Snap()), walked0, false), o, facts, log, files, idx)
  {
    walked := walked0;
    var i := 0;
    while i < |files|
      invariant 0 <= i <= |files|
      invariant SeqFiles(Run(h.Snap(), walked, false), o, facts, log, files[i..], idx) ==
                SeqFiles(Run(old(h.Snap()), walked0, false), o, facts, log, files, idx)
    {
      assert files[i..][1..] == files[i + 1..];
      if h.errorSet {
        return walked, false;
      }
      var p := files[i];
      if !SkipByLog(o, log, p) {
        var out := ProcessFile(h, MakeRequest(o, p, idx), facts(p));
        walked := walked + [p];
        if out == Raised {
          return walked, true;
        }
        RecordResult(h, o, out);
      }
      i := i + 1;
    }
    return walked, false;
  }

  /** The sequential loop over the sources. */
  method SeqDirsLoop(h: Hub, o: Options, facts: Path -> Facts, log: set<Path>, dirs: seq<Path>) returns (walked: seq<Path>)
    modifies h
    ensures Run(h.Snap(), walked, false) == SeqDirs(Run(old(h.Snap()), [], false), o, facts, log, dirs)
  {
    walked := [];
    var i := 0;
    while i < |dirs|
      invariant 0 <= i <= |dirs|
      invariant SeqDirs(Run(h.Snap(), walked, false), o, facts, log, dirs[i..]) ==
                SeqDirs(Run(old(h.Snap()), [], false), o, facts, log, dirs)
    {
      assert dirs[i..][1..] == dirs[i + 1..];
      if h.errorSet {
        return;
      }
      var d := dirs[i];
      var idx := GetDestIndex(h, o);
      if h.tree.IsFile(d) {
        var out := ProcessFile(h, MakeRequest(o, d, idx), facts(d));
        if out != Raised {
          RecordResult(h, o, out);
        }
      } else {
        var raised;
        walked, raised := SeqFilesLoop(h, o, facts, log, h.tree.WalkFiles(d), idx, walked);
      }
      i := i + 1;
    }
  }

  /** The submission loop over one directory's files. */
  method DispatchFilesLoop(h: Hub, o: Options, facts: Path -> Facts, log: set<Path>,
                           files: seq<Path>, idx: seq<Path>, outs0: seq<Outcome>, walked0: seq<Path>)
    returns (outs: seq<Outcome>, walked: seq<Path>, stopped: bool)
    modifies h
    ensures Batch(h.Snap(), outs, walked, stopped) ==
            DispatchFiles(Batch(old(h.Snap()), outs0, walked0, false), o, facts, log, files, idx)
  {
    outs, walked := outs0, walked0;
    var i := 0;
    while i < |files|
      invariant 0 <= i <= |files|
      invariant DispatchFiles(Batch(h.Snap(), outs, walked, false), o, facts, log, files[i..], idx) ==
                DispatchFiles(Batch(old(h.Snap()), outs0, walked0, false), o, facts, log, files, idx)
    {
      assert files[i..][1..] == files[i + 1..];
      if h.errorSet {
        return outs, walked, true;
      }
      var p := files[i];
      if !SkipByLog(o, log, p) {
        var out := ProcessFile(h, MakeRequest(o, p, idx), facts(p));
        outs, walked := outs + [out], walked + [p];
      }
      i := i + 1;
    }
    return outs, walked, false;
  }

  /** The submission loop over the sources. */
  method DispatchDirsLoop(h: Hub, o: Options, facts: Path -> Facts, log: set<Path>, dirs: seq<Path>)
    returns (outs: seq<Outcome>, walked: seq<Path>, stopped: bool)
    modifies h
    ensures Batch(h.Snap(), outs, walked, stopped) ==
            DispatchDirs(Batch(old(h.Snap()), [], [], false), o, facts, log, dirs)
  {
    outs, walked, stopped := [], [], false;
    var i := 0;
    while i < |dirs| && !stopped
      invariant 0 <= i <= |dirs|
      invariant DispatchDirs(Batch(h.Snap(), outs, walked, stopped), o, facts, log, dirs[i..]) ==
                DispatchDirs(Batch(old(h.Snap()), [], [], false), o, facts, log, dirs)
    {
      assert dirs[i..][1..] == dirs[i + 1..];
      var d := dirs[i];
      var idx := GetDestIndex(h, o);
      if h.tree.IsFile(d) {
        var out := ProcessFile(h, MakeRequest(o, d, idx), facts(d));
        outs := outs + [out];
      } else {
        outs, walked, stopped := DispatchFilesLoop(h, o, facts, log, h.tree.WalkFiles(d), idx, outs, walked);
      }
      i := i + 1;
    }
  }

  /** The result loop, in completion order. */
  method HandleLoop(h: Hub, o: Options, outs: seq<Outcome>, order: seq<nat>, count0: nat) returns (count: nat)
    requires ValidOrder(order, |outs|)
    modifies h
    ensures (h.Snap(), count) == HandleResults(old(h.Snap()), o, outs, order, count0)
  {
    count := count0;
    var i := 0;
    while i < |order|
      invariant 0 <= i <= |order|
      invariant HandleResults(h.Snap(), o, outs, order[i..], count) == HandleResults(old(h.Snap()), o, outs, order, count0)
    {
      assert order[i..][1..] == order[i + 1..];
      if h.errorSet {
        return;
      }
      var out := outs[order[i]];
      if out == Raised {
        h.errorSet := true;
      } else if out.Created? {
        RecordResult(h, o, out);
        count := count + 1;
      }
      i := i + 1;
    }
  }

  /** `create_symlinks` on the hub; `hint` chooses the completion order. */
  method CreateSymlinks(h: Hub, o: Options, facts: Path -> Facts, log: set<Path>, hint: seq<nat>)
    returns (r: Orchestrator.Result)
    modifies h
    ensures r == CreateSymlinksSpec(old(h.Snap()), o, facts, log, hint)
    ensures h.Snap() == r.s
  {
    var made := h.tree.MakeDirs(o.destDir);
    if made.None? {
      return Result(h.Snap(), true, [], [], 0, 0);
    }
    h.tree := made.value;
    var dirs := SourceDirs(o);
    if o.autoSelect {
      var total := CountTotal(h.tree, facts, dirs);
      var outs, walked, stopped := DispatchDirsLoop(h, o, facts, log, dirs);
      if stopped {
        return Result(h.Snap(), false, walked, outs, total, |walked|);
      }
      var processed := HandleLoop(h, o, outs, Reorder(|outs|, hint), |walked|);
      return Result(h.Snap(), false, walked, outs, total, processed);
    } else {
      var walked := SeqDirsLoop(h, o, facts, log, dirs);
      return Result(h.Snap(), false, walked, [], 0, 0);
    }
  }
}
