/** `create_symlinks` of MediaHub/processors/symlink_creator.py: runs
    `process_file` over the files of the source directories, sequentially or,
    with auto-select, as tasks whose results are handled in completion order.
    The thread pool is modelled sequentially: every task runs when it is
    submitted, and the results are handled afterwards in an arbitrary
    completion order. */
module Orchestrator {
  import opened Text
  import opened Wrappers
  import opened FileTree
  import opened State
  import opened Reconciler

  datatype Mode = CreateMode | MonitorMode

  /** The arguments of `create_symlinks`; an empty singlePath, tmdbId or
      imdbId stands for a missing one. */
  datatype Options = Options(
    srcDirs: seq<Path>, destDir: Path, autoSelect: bool, singlePath: Path,
    force: bool, mode: Mode, tmdbId: string, imdbId: string,
    forceShow: bool, forceMovie: bool, forceExtra: bool, skipExtras: bool)

  /** The sources to visit: the single path alone when one is given. */
  function SourceDirs(o: Options): (r: seq<Path>)
    ensures o.singlePath != "" ==> r == [o.singlePath]
    ensures o.singlePath == "" ==> r == o.srcDirs
  {
    if o.singlePath != "" then [o.singlePath] else o.srcDirs
  }

  /** The `process_file` arguments for source `p`. */
  function MakeRequest(o: Options, p: Path, destIndex: seq<Path>): Request {
    Request(p, Basename(p), destIndex, o.tmdbId, o.imdbId,
            o.forceShow, o.forceMovie, o.forceExtra, o.force, o.skipExtras)
  }

  /** The destination index handed to `process_file`: the paths of the
      `file_index` table in monitor mode, a walk of the destination otherwise. */
  function DestIndex(s: Snapshot, o: Options): (r: seq<Path>)
    ensures o.mode == CreateMode ==> forall p :: p in r ==> p in s.tree.entries && Under(o.destDir, p)
    ensures o.mode == CreateMode && s.tree.WellFormed() && s.tree.NormalPaths() && Normal(o.destDir) ==>
              forall p :: p in s.tree.entries && Under(o.destDir, p) ==> p in r
    ensures o.mode == MonitorMode ==> r == IndexPaths(s.index)
  {
    WalkComplete(s.tree, o.destDir, DirsFiles);
    if o.mode == MonitorMode then IndexPaths(s.index) else s.tree.Walk(o.destDir)
  }

  /** A walked source that create mode skips because the processed log holds it. */
  predicate SkipByLog(o: Options, log: set<Path>, p: Path) {
    o.mode == CreateMode && p in log && !o.force
  }

  /** In monitor mode a created link is stored in `file_index`. */
  function Record(s: Snapshot, o: Options, out: Outcome): (r: Snapshot)
    ensures r.tree == s.tree && r.ledger == s.ledger && r.errorSet == s.errorSet
    ensures !(o.mode == MonitorMode && out.Created?) ==> r == s
    ensures o.mode == MonitorMode && out.Created? ==>
              IndexRow(out.dest, true, out.target) in r.index &&
              forall x :: x in s.index && x.path != out.dest ==> x in r.index
  {
    if o.mode == MonitorMode && out.Created? then
      s.(index := UpsertIndexRow(s.index, IndexRow(out.dest, true, out.target)))
    else s
  }

  // ---------------------------------------------------------------------
  // Sequential mode.

  /** The state after the sequential loop over a directory's files, the
      walked sources handed to `process_file`, and whether an exception
      escaped (it abandons the rest of the directory). */
  datatype Run = Run(s: Snapshot, walked: seq<Path>, raised: bool)

  function SeqFiles(r: Run, o: Options, facts: Path -> Facts, log: set<Path>,
                    files: seq<Path>, idx: seq<Path>): (r2: Run)
    ensures r2.s.errorSet == r.s.errorSet
    ensures o.mode == CreateMode ==> r2.s.index == r.s.index
    decreases |files|
  {
    if files == [] || r.s.errorSet then r
    else if SkipByLog(o, log, files[0]) then SeqFiles(r, o, facts, log, files[1..], idx)
    else
      var (out, s2) := ProcessFileSpec(r.s, MakeRequest(o, files[0], idx), facts(files[0]));
      if out == Raised then Run(s2, r.walked + [files[0]], true)
      else SeqFiles(Run(Record(s2, o, out), r.walked + [files[0]], false), o, facts, log, files[1..], idx)
  }

  /** The sequential loop over the sources; an exception escaping one
      source is caught and the next source is visited. */
  function SeqDirs(r: Run, o: Options, facts: Path -> Facts, log: set<Path>, dirs: seq<Path>): (r2: Run)
    ensures r2.s.errorSet == r.s.errorSet
    ensures o.mode == CreateMode ==> r2.s.index == r.s.index
    decreases |dirs|
  {
    if dirs == [] || r.s.errorSet then r
    else
      var d := dirs[0];
      var idx := DestIndex(r.s, o);
      var r1 :=
        if r.s.tree.IsFile(d) then
          var (out, s2) := ProcessFileSpec(r.s, MakeRequest(o, d, idx), facts(d));
          Run(if out == Raised then s2 else Record(s2, o, out), r.walked, false)
        else SeqFiles(r.(raised := false), o, facts, log, r.s.tree.WalkFiles(d), idx);
      SeqDirs(r1.(raised := false), o, facts, log, dirs[1..])
  }

  // ---------------------------------------------------------------------
  // Auto-select mode.

  /** The submission loop's state: the outcomes of the submitted tasks in
      submission order, the walked sources submitted, and whether the loop
      returned because the flag was set. */
  datatype Batch = Batch(s: Snapshot, outs: seq<Outcome>, walked: seq<Path>, stopped: bool)

  function DispatchFiles(b: Batch, o: Options, facts: Path -> Facts, log: set<Path>,
                         files: seq<Path>, idx: seq<Path>): (r: Batch)
    ensures r.s.errorSet == b.s.errorSet
    ensures r.stopped ==> b.stopped || b.s.errorSet
    ensures Extends(b.walked, r.walked) && Extends(b.outs, r.outs)
    ensures |r.outs| - |b.outs| == |r.walked| - |b.walked|
    ensures forall i :: |b.walked| <= i < |r.walked| ==>
              r.walked[i] in files && !SkipByLog(o, log, r.walked[i])
    decreases |files|
  {
    if files == [] || b.stopped then b
    else if b.s.errorSet then b.(stopped := true)
    else if SkipByLog(o, log, files[0]) then DispatchFiles(b, o, facts, log, files[1..], idx)
    else
      var (out, s2) := ProcessFileSpec(b.s, MakeRequest(o, files[0], idx), facts(files[0]));
      DispatchFiles(Batch(s2, b.outs + [out], b.walked + [files[0]], false), o, facts, log, files[1..], idx)
  }

  /** The submission loop over the sources: a single file is submitted
      without looking at the flag or the log. */
  function DispatchDirs(b: Batch, o: Options, facts: Path -> Facts, log: set<Path>, dirs: seq<Path>): (r: Batch)
    ensures r.s.errorSet == b.s.errorSet
    ensures r.stopped ==> b.stopped || b.s.errorSet
    decreases |dirs|
  {
    if dirs == [] || b.stopped then b
    else
      var d := dirs[0];
      var idx := DestIndex(b.s, o);
      var b1 :=
        if b.s.tree.IsFile(d) then
          var (out, s2) := ProcessFileSpec(b.s, MakeRequest(o, d, idx), facts(d));
          b.(s := s2, outs := b.outs + [out])
        else DispatchFiles(b, o, facts, log, b.s.tree.WalkFiles(d), idx);
      DispatchDirs(b1, o, facts, log, dirs[1..])
  }

  predicate ValidOrder(order: seq<nat>, n: nat) {
    forall k :: 0 <= k < |order| ==> order[k] < n
  }

  /** The result loop: results are taken in completion order; once the flag
      is set the loop returns; an exception from a task sets the flag; a
      created link is counted (and indexed in monitor mode). */
  function HandleResults(s: Snapshot, o: Options, outs: seq<Outcome>, order: seq<nat>, count: nat): (r: (Snapshot, nat))
    requires ValidOrder(order, |outs|)
    ensures r.0.tree == s.tree && r.0.ledger == s.ledger
    ensures s.errorSet ==> r == (s, count)
    ensures r.1 >= count
    decreases |order|
  {
    if order == [] || s.errorSet then (s, count)
    else
      var out := outs[order[0]];
      if out == Raised then HandleResults(s.(errorSet := true), o, outs, order[1..], count)
      else if out.Created? then HandleResults(Record(s, o, out), o, outs, order[1..], count + 1)
      else HandleResults(s, o, outs, order[1..], count)
  }

  /** How many of the results taken in `order` report a created link. */
  function CountCreated(outs: seq<Outcome>, order: seq<nat>): nat
    requires ValidOrder(order, |outs|)
  {
    if order == [] then 0
    else (if outs[order[0]].Created? then 1 else 0) + CountCreated(outs, order[1..])
  }

  predicate HasRaised(outs: seq<Outcome>, order: seq<nat>)
    requires ValidOrder(order, |outs|)
  {
    exists k :: 0 <= k < |order| && outs[order[k]] == Raised
  }

  // ---------------------------------------------------------------------
  // Completion order.

  predicate Distinct(s: seq<nat>) {
    forall i, j :: 0 <= i < j < |s| ==> s[i] != s[j]
  }

  /** The hinted indices below `n`, each once, in hint order, skipping `seen`. */
  function KeepNew(hint: seq<nat>, n: nat, seen: set<nat>): (r: seq<nat>)
    ensures forall i :: i in r <==> i in hint && i < n && i !in seen
    ensures Distinct(r)
    decreases |hint|
  {
    if hint == [] then []
    else if hint[0] < n && hint[0] !in seen then [hint[0]] + KeepNew(hint[1..], n, seen + {hint[0]})
    else KeepNew(hint[1..], n, seen)
  }

  /** The indices in `k..n` that the hint does not mention, ascending. */
  function Missing(k: nat, n: nat, hint: seq<nat>): (r: seq<nat>)
    ensures forall i :: i in r <==> k <= i < n && i !in hint
    ensures forall a, b :: 0 <= a < b < |r| ==> r[a] < r[b]
    ensures forall a :: 0 <= a < |r| ==> k <= r[a]
    decreases n - k
  {
    if k >= n then []
    else if k in hint then Missing(k + 1, n, hint)
    else [k] + Missing(k + 1, n, hint)
  }

  /** The order `as_completed` yields `n` tasks in, chosen by `hint`: every
      task exactly once. */
  function Reorder(n: nat, hint: seq<nat>): (r: seq<nat>)
    ensures forall i: nat :: i in r <==> i < n
    ensures Distinct(r)
    ensures ValidOrder(r, n)
  {
    var a := KeepNew(hint, n, {});
    var b := Missing(0, n, hint);
    DistinctConcat(a, b);
    forall i: nat ensures i in a + b <==> i < n {
      assert i in a + b <==> i in a || i in b;
      if i < n && i in hint {
        assert i in a;
      }
    }
    forall k | 0 <= k < |a + b| ensures (a + b)[k] < n {
      assert (a + b)[k] in a + b;
    }
    a + b
  }

  lemma DistinctConcat(a: seq<nat>, b: seq<nat>)
    requires Distinct(a) && forall x, y :: 0 <= x < y < |b| ==> b[x] < b[y]
    requires forall x :: x in a ==> x !in b
    ensures Distinct(a + b)
  {
    var c := a + b;
    forall i, j | 0 <= i < j < |c| ensures c[i] != c[j] {
      if j < |a| {
      } else if i >= |a| {
        assert c[i] == b[i - |a|] && c[j] == b[j - |a|];
      } else {
        assert c[i] in a && c[j] == b[j - |a|];
      }
    }
  }

  // ---------------------------------------------------------------------
  // The whole call.

  /** The files the progress total counts: the known types in every walked
      source, and one for each single file. */
  function TotalFiles(t: Tree, facts: Path -> Facts, dirs: seq<Path>): nat {
    if dirs == [] then 0
    else (if t.IsFile(dirs[0]) then 1 else CountKnown(facts, t.WalkFiles(dirs[0]))) + TotalFiles(t, facts, dirs[1..])
  }

  function CountKnown(facts: Path -> Facts, files: seq<Path>): (n: nat)
    ensures n <= |files|
  {
    if files == [] then 0 else (if facts(files[0]).knownType then 1 else 0) + CountKnown(facts, files[1..])
  }

  /** What one call produces: the final state, whether an exception escaped
      (`os.makedirs` of the destination), the walked sources handed to
      `process_file`, the outcomes of the submitted tasks (auto-select
      only), and the progress counters. */
  datatype Result = Result(s: Snapshot, raised: bool, walked: seq<Path>, outcomes: seq<Outcome>, total: nat, processed: nat)

  function CreateSymlinksSpec(s: Snapshot, o: Options, facts: Path -> Facts, log: set<Path>, hint: seq<nat>): (r: Result)
    ensures r.raised <==> s.tree.MakeDirs(o.destDir).None?
    ensures r.raised ==> r.s == s
    ensures !o.autoSelect ==> r.s.errorSet == s.errorSet && r.processed == 0
  {
    match s.tree.MakeDirs(o.destDir)
    case None => Result(s, true, [], [], 0, 0)
    case Some(t) =>
      var s0 := s.(tree := t);
      var dirs := SourceDirs(o);
      if o.autoSelect then
        var total := TotalFiles(t, facts, dirs);
        var b := DispatchDirs(Batch(s0, [], [], false), o, facts, log, dirs);
        if b.stopped then Result(b.s, false, b.walked, b.outs, total, |b.walked|)
        else
          var (s2, n) := HandleResults(b.s, o, b.outs, Reorder(|b.outs|, hint), |b.walked|);
          Result(s2, false, b.walked, b.outs, total, n)
      else
        var r := SeqDirs(Run(s0, [], false), o, facts, log, dirs);
        Result(r.s, false, r.walked, [], 0, 0)
  }
}
