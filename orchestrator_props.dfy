/** What `create_symlinks` promises, stated over `CreateSymlinksSpec`. */
module OrchestratorProps {
  import opened Wrappers
  import opened FileTree
  import opened State
  import opened Reconciler
  import opened Orchestrator

  lemma {:induction false} SeqFilesWalked(r: Run, o: Options, facts: Path -> Facts, log: set<Path>,
                                          files: seq<Path>, idx: seq<Path>)
    ensures var r2 := SeqFiles(r, o, facts, log, files, idx);
            Extends(r.walked, r2.walked) &&
            forall i :: |r.walked| <= i < |r2.walked| ==> r2.walked[i] in files && !SkipByLog(o, log, r2.walked[i])
    decreases |files|
  {
    var r2 := SeqFiles(r, o, facts, log, files, idx);
    if files == [] || r.s.errorSet {
      assert r2 == r;
    } else if SkipByLog(o, log, files[0]) {
      assert r2 == SeqFiles(r, o, facts, log, files[1..], idx);
      SeqFilesWalked(r, o, facts, log, files[1..], idx);
      forall i | |r.walked| <= i < |r2.walked| ensures r2.walked[i] in files {
        assert r2.walked[i] in files[1..];
      }
    } else {
      var (out, s2) := ProcessFileSpec(r.s, MakeRequest(o, files[0], idx), facts(files[0]));
      var w := r.walked + [files[0]];
      assert w[..|r.walked|] == r.walked;
      if out == Raised {
        assert r2 == Run(s2, w, true);
      } else {
        var r1 := Run(Record(s2, o, out), w, false);
        assert r2 == SeqFiles(r1, o, facts, log, files[1..], idx);
        SeqFilesWalked(r1, o, facts, log, files[1..], idx);
        ExtendsTrans(r.walked, w, r2.walked);
        forall i | |r.walked| <= i < |r2.walked|
          ensures r2.walked[i] in files && !SkipByLog(o, log, r2.walked[i])
        {
          if i < |w| {
            assert r2.walked[i] == w[i] == files[0];
          } else {
            assert r2.walked[i] in files[1..];
          }
        }
      }
    }
  }

  lemma {:induction false} SeqDirsWalked(r: Run, o: Options, facts: Path -> Facts, log: set<Path>, dirs: seq<Path>)
    ensures var r2 := SeqDirs(r, o, facts, log, dirs);
            Extends(r.walked, r2.walked) &&
            forall i :: |r.walked| <= i < |r2.walked| ==> !SkipByLog(o, log, r2.walked[i])
    decreases |dirs|
  {
    if dirs != [] && !r.s.errorSet {
      var d := dirs[0];
      var idx := DestIndex(r.s, o);
      var r1: Run;
      if r.s.tree.IsFile(d) {
        var (out, s2) := ProcessFileSpec(r.s, MakeRequest(o, d, idx), facts(d));
        r1 := Run(if out == Raised then s2 else Record(s2, o, out), r.walked, false);
        assert r1.walked == r.walked;
        assert r.walked[..|r.walked|] == r.walked;
      } else {
        var r0 := r.(raised := false);
        assert r0.walked == r.walked;
        r1 := SeqFiles(r0, o, facts, log, r.s.tree.WalkFiles(d), idx);
        SeqFilesWalked(r0, o, facts, log, r.s.tree.WalkFiles(d), idx);
      }
      var next := r1.(raised := false);
      var rest := SeqDirs(next, o, facts, log, dirs[1..]);
      assert SeqDirs(r, o, facts, log, dirs) == rest;
      SeqDirsWalked(next, o, facts, log, dirs[1..]);
      ExtendsTrans(r.walked, next.walked, rest.walked);
      forall i | |r.walked| <= i < |rest.walked| ensures !SkipByLog(o, log, rest.walked[i]) {
        if i < |r1.walked| {
          assert rest.walked[i] == r1.walked[i];
        }
      }
    }
  }

  lemma {:induction false} DispatchDirsWalked(b: Batch, o: Options, facts: Path -> Facts, log: set<Path>, dirs: seq<Path>)
    ensures var r := DispatchDirs(b, o, facts, log, dirs);
            Extends(b.walked, r.walked) &&
            forall i :: |b.walked| <= i < |r.walked| ==> !SkipByLog(o, log, r.walked[i])
    decreases |dirs|
  {
    if dirs != [] && !b.stopped {
      var d := dirs[0];
      var idx := DestIndex(b.s, o);
      var b1: Batch;
      if b.s.tree.IsFile(d) {
        var (out, s2) := ProcessFileSpec(b.s, MakeRequest(o, d, idx), facts(d));
        b1 := b.(s := s2, outs := b.outs + [out]);
      } else {
        b1 := DispatchFiles(b, o, facts, log, b.s.tree.WalkFiles(d), idx);
      }
      var rest := DispatchDirs(b1, o, facts, log, dirs[1..]);
      assert DispatchDirs(b, o, facts, log, dirs) == rest;
      DispatchDirsWalked(b1, o, facts, log, dirs[1..]);
      NoSkipChain(o, log, b.walked, b1.walked, rest.walked);
    }
  }

  /** Two stretches of walked sources that the log does not skip make one. */
  lemma NoSkipChain(o: Options, log: set<Path>, a: seq<Path>, b: seq<Path>, c: seq<Path>)
    requires Extends(a, b) && Extends(b, c)
    requires forall i :: |a| <= i < |b| ==> !SkipByLog(o, log, b[i])
    requires forall i :: |b| <= i < |c| ==> !SkipByLog(o, log, c[i])
    ensures Extends(a, c) && forall i :: |a| <= i < |c| ==> !SkipByLog(o, log, c[i])
  {
    ExtendsTrans(a, b, c);
    forall i | |a| <= i < |c| ensures !SkipByLog(o, log, c[i]) {
      if i < |b| {
        assert c[i] == c[..|b|][i] == b[i];
      }
    }
  }

  lemma ExtendsTrans(a: seq<Path>, b: seq<Path>, c: seq<Path>)
    requires Extends(a, b) && Extends(b, c)
    ensures Extends(a, c)
  {
    assert c[..|a|] == c[..|b|][..|a|];
  }

  /** In create mode without force, a walked source the processed log
      holds is never handed to `process_file`, in either mode. */
  lemma LoggedSourcesNeverProcessed(s: Snapshot, o: Options, facts: Path -> Facts, log: set<Path>, hint: seq<nat>)
    ensures var r := CreateSymlinksSpec(s, o, facts, log, hint);
            forall i :: 0 <= i < |r.walked| ==> !(o.mode == CreateMode && !o.force && r.walked[i] in log)
  {
    if s.tree.MakeDirs(o.destDir).Some? {
      var s0 := s.(tree := s.tree.MakeDirs(o.destDir).value);
      if o.autoSelect {
        DispatchDirsWalked(Batch(s0, [], [], false), o, facts, log, SourceDirs(o));
      } else {
        SeqDirsWalked(Run(s0, [], false), o, facts, log, SourceDirs(o));
      }
    }
  }

  /** After the result loop the flag is set exactly when it was set before
      or some result taken was an exception. */
  lemma {:induction false} HandleFlag(s: Snapshot, o: Options, outs: seq<Outcome>, order: seq<nat>, count: nat)
    requires ValidOrder(order, |outs|)
    ensures HandleResults(s, o, outs, order, count).0.errorSet <==> s.errorSet || HasRaised(outs, order)
    decreases |order|
  {
    if order != [] && !s.errorSet {
      var out := outs[order[0]];
      var s1 := if out == Raised then s.(errorSet := true) else if out.Created? then Record(s, o, out) else s;
      var c1 := if out.Created? then count + 1 else count;
      HandleFlag(s1, o, outs, order[1..], c1);
      if HasRaised(outs, order[1..]) {
        var k :| 0 <= k < |order[1..]| && outs[order[1..][k]] == Raised;
        assert outs[order[k + 1]] == Raised;
      }
      if HasRaised(outs, order) && out != Raised {
        var k :| 0 <= k < |order| && outs[order[k]] == Raised;
        assert k > 0 && outs[order[1..][k - 1]] == Raised;
      }
    }
  }

  /** With no exception among the results, every created link is counted
      and the flag is left as it was. */
  lemma {:induction false} HandleWithoutRaised(s: Snapshot, o: Options, outs: seq<Outcome>, order: seq<nat>, count: nat)
    requires ValidOrder(order, |outs|) && !s.errorSet
    requires forall k :: 0 <= k < |order| ==> outs[order[k]] != Raised
    ensures HandleResults(s, o, outs, order, count).1 == count + CountCreated(outs, order)
    ensures !HandleResults(s, o, outs, order, count).0.errorSet
    decreases |order|
  {
    if order != [] {
      var out := outs[order[0]];
      assert out != Raised;
      var s1 := if out.Created? then Record(s, o, out) else s;
      var c1 := if out.Created? then count + 1 else count;
      HandleWithoutRaised(s1, o, outs, order[1..], c1);
    }
  }

  /** The first exception taken ends the loop: the results after it are
      neither counted nor indexed. */
  lemma {:induction false} HandleStopsAtFirstRaised(s: Snapshot, o: Options, outs: seq<Outcome>, order: seq<nat>,
                                                    count: nat, k: nat)
    requires ValidOrder(order, |outs|) && !s.errorSet
    requires k < |order| && outs[order[k]] == Raised
    requires forall j :: 0 <= j < k ==> outs[order[j]] != Raised
    ensures var before := HandleResults(s, o, outs, order[..k], count);
            HandleResults(s, o, outs, order, count) == (before.0.(errorSet := true), before.1)
    decreases k
  {
    var out := outs[order[0]];
    if k == 0 {
      assert order[..0] == [];
    } else {
      var s1 := if out.Created? then Record(s, o, out) else s;
      var c1 := if out.Created? then count + 1 else count;
      assert order[1..][..k - 1] == order[..k][1..];
      HandleStopsAtFirstRaised(s1, o, outs, order[1..], c1, k - 1);
    }
  }

  /** Every submitted task's result is taken by the completion order. */
  lemma ReorderCovers(outs: seq<Outcome>, hint: seq<nat>)
    ensures HasRaised(outs, Reorder(|outs|, hint)) <==> Raised in outs
  {
    var order := Reorder(|outs|, hint);
    if Raised in outs {
      var j :| 0 <= j < |outs| && outs[j] == Raised;
      assert j in order;
      var k :| 0 <= k < |order| && order[k] == j;
    }
  }

  /** The flag is set after the call exactly when it was set before, or in
      auto-select mode some task raised; sequential mode and errors
      `process_file` catches never set it. */
  lemma FlagOnlyFromRaisedTask(s: Snapshot, o: Options, facts: Path -> Facts, log: set<Path>, hint: seq<nat>)
    ensures var r := CreateSymlinksSpec(s, o, facts, log, hint);
            r.s.errorSet <==> s.errorSet || (o.autoSelect && !r.raised && Raised in r.outcomes)
  {
    if s.tree.MakeDirs(o.destDir).Some? && o.autoSelect {
      var s0 := s.(tree := s.tree.MakeDirs(o.destDir).value);
      var b := DispatchDirs(Batch(s0, [], [], false), o, facts, log, SourceDirs(o));
      if !b.stopped {
        HandleFlag(b.s, o, b.outs, Reorder(|b.outs|, hint), |b.walked|);
        ReorderCovers(b.outs, hint);
      }
    }
  }
}
