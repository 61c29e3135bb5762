/**
 How runs can go on: from any reachable state the publications that can no longer be
 accepted can be got out of the way, so a stale refresh, or a read of a catalog that is
 about to be rolled back, can always carry its catalog into memory.
 */
module CatalogRegistryContinuations {
  import opened Prelude
  import opened CatalogRegistry
  import opened CatalogRegistryProofs
  import opened CatalogRegistryRuns
  import opened CatalogRegistryCoherence
  import PQ = PromiseQueue

  // ---- Continuations ---------------------------------------------------------------------------

  /** A stretch of a run. */
  datatype Path = Path(states: seq<Slot>, steps: seq<Step>)

  /** The path leads from one state to another without a registration, by steps that are clean except for one. */
  ghost predicate Leads(t: Path, from: Slot, to: Slot, exception: Step) {
    && |t.states| == |t.steps| + 1
    && t.states[0] == from && t.states[|t.steps|] == to
    && forall k: nat :: k < |t.steps| ==>
         && NextBy(t.states[k], t.steps[k], t.states[k + 1])
         && (Clean(t.states[k], t.steps[k]) || t.steps[k] == exception)
         && !t.steps[k].DoRegister?
  }

  function Join(a: Path, b: Path): Path
    requires b.states != []
  {
    Path(a.states + b.states[1..], a.steps + b.steps)
  }

  lemma Stay(s: Slot, exception: Step) returns (t: Path)
    ensures Leads(t, s, s, exception)
  {
    t := Path([s], []);
  }

  lemma Onward(t: Path, from: Slot, s: Slot, step: Step, exception: Step) returns (t': Path)
    requires Leads(t, from, s, exception) && Enabled(s, step) && (Clean(s, step) || step == exception) && !step.DoRegister?
    ensures Leads(t', from, Apply(s, step), exception)
  {
    var s' := Apply(s, step);
    t' := Path(t.states + [s'], t.steps + [step]);
    forall k: nat | k < |t'.steps|
      ensures NextBy(t'.states[k], t'.steps[k], t'.states[k + 1])
      ensures (Clean(t'.states[k], t'.steps[k]) || t'.steps[k] == exception) && !t'.steps[k].DoRegister?
    {
      if k < |t.steps| {
        assert NextBy(t.states[k], t.steps[k], t.states[k + 1]);
      }
    }
  }

  lemma Leading(a: Path, b: Path, from: Slot, mid: Slot, to: Slot, exception: Step)
    requires Leads(a, from, mid, exception) && Leads(b, mid, to, exception)
    ensures Leads(Join(a, b), from, to, exception)
  {
    hide Clean, Enabled, Apply;
    var t, n := Join(a, b), |a.steps|;
    forall k: nat | k < |t.steps|
      ensures NextBy(t.states[k], t.steps[k], t.states[k + 1])
      ensures (Clean(t.states[k], t.steps[k]) || t.steps[k] == exception) && !t.steps[k].DoRegister?
    {
      if k < n {
        assert NextBy(a.states[k], a.steps[k], a.states[k + 1]);
      } else {
        assert NextBy(b.states[k - n], b.steps[k - n], b.states[k - n + 1]);
      }
    }
  }

  /** The one continues the other without a registration. */
  ghost predicate GoesOn(r: Path, all: Path) {
    && r.states <= all.states && r.steps <= all.steps
    && forall k: nat :: |r.steps| <= k < |all.steps| ==> !all.steps[k].DoRegister?
  }

  /** A run followed by a path is a run, and only the path's exception may be unclean if the run is clean. */
  lemma RunGoesOn(r: Path, t: Path, from: Slot, to: Slot, exception: Step)
    requires Run(r.states, r.steps) && r.states[|r.steps|] == from && Leads(t, from, to, exception)
    ensures var all := Join(r, t);
      && Run(all.states, all.steps) && all.states[|all.steps|] == to
      && GoesOn(r, all)
      && (CleanRun(r.states, r.steps) ==>
            forall k: nat :: k < |all.steps| ==> Clean(all.states[k], all.steps[k]) || all.steps[k] == exception)
  {
    hide Clean, Enabled, Apply;
    var all, n := Join(r, t), |r.steps|;
    assert all.states[0] == r.states[0];
    forall k: nat | k < |all.steps|
      ensures NextBy(all.states[k], all.steps[k], all.states[k + 1])
      ensures CleanRun(r.states, r.steps) ==> Clean(all.states[k], all.steps[k]) || all.steps[k] == exception
    {
      if k < n {
        assert NextBy(r.states[k], r.steps[k], r.states[k + 1]);
      } else {
        assert NextBy(t.states[k - n], t.steps[k - n], t.states[k - n + 1]);
      }
    }
  }

  // ---- Draining publications that cannot be accepted ------------------------------------------------

  ghost predicate DoneBelow(s: Slot, n: nat) {
    forall j: nat :: j < n && j < |s.jobs| ==> s.jobs[j].stage.Done?
  }

  /** `s'` is `s` with publication i over, and the store what that publication leaves of it. */
  ghost predicate Drained(s: Slot, s': Slot, i: nat)
    requires i < |s.jobs|
  {
    && s'.cell == s.cell && s'.ops == s.ops && s'.id == s.id
    && |s'.jobs| == |s.jobs| && s'.jobs[i].stage.Done?
    && (forall j: nat :: j < |s.jobs| && j != i ==> s'.jobs[j] == s.jobs[j])
    && s'.store == if Dirty(s.jobs[i].stage) then s.jobs[i].stage.prev else s.store
  }

  lemma NextCanStart(s: Slot, i: nat)
    requires Inv(s) && i < |s.jobs| && s.jobs[i].stage.Queued? && DoneBelow(s, i)
    ensures PQ.CanStart(s.chain, i)
  {
    assert JobOk(s, i);
    if i > 0 {
      assert JobOk(s, i - 1);
    }
  }

  /** A publication that is not admitted comes to its end once all before it have. */
  lemma DrainOne(s: Slot, i: nat, exception: Step) returns (t: Path, s': Slot)
    requires Inv(s) && i < |s.jobs| && DoneBelow(s, i)
    requires !s.jobs[i].stage.Done? && !Admitted(s.cell, s.jobs[i].generation)
    ensures Leads(t, s, s', exception) && Inv(s') && Drained(s, s', i)
  {
    hide Leads, Inv;
    JobsMatchTasks(s);
    t := Stay(s, exception);
    s' := s;
    if s.jobs[i].stage.Queued? {
      NextCanStart(s, i);
      t := Onward(t, s, s', JobStart(i), exception);
      StepKeepsInv(s', JobStart(i));
      s' := Apply(s', JobStart(i));
    } else if s.jobs[i].stage.Writing? {
      t := Onward(t, s, s', WriteFails(i), exception);
      StepKeepsInv(s', WriteFails(i));
      s' := Apply(s', WriteFails(i));
    } else {
      if s.jobs[i].stage.Written? {
        t := Onward(t, s, s', JobResume(i), exception);
        StepKeepsInv(s', JobResume(i));
        s' := Apply(s', JobResume(i));
      }
      t := Onward(t, s, s', RollbackTakes(i), exception);
      StepKeepsInv(s', RollbackTakes(i));
      s' := Apply(s', RollbackTakes(i));
    }
  }

  lemma JobsMatchTasks(s: Slot)
    requires Inv(s)
    ensures |s.jobs| == |s.chain.tasks|
  {}

  /** Publications from i to n are stale: over, or not to be accepted any more. */
  ghost predicate Stale(s: Slot, i: nat, n: nat) {
    forall j: nat :: i <= j < n && j < |s.jobs| ==> s.jobs[j].stage.Done? || !Admitted(s.cell, s.jobs[j].generation)
  }

  /** Stale publications all come to their end; memory and operations do not change. */
  lemma {:induction false} DrainAll(s: Slot, i: nat, n: nat, exception: Step) returns (t: Path, s': Slot)
    requires Inv(s) && i <= n <= |s.jobs| && DoneBelow(s, i) && Stale(s, i, n)
    ensures Leads(t, s, s', exception) && Inv(s') && DoneBelow(s', n)
    ensures s'.cell == s.cell && s'.ops == s.ops && |s'.jobs| == |s.jobs|
    ensures forall j: nat :: n <= j < |s.jobs| ==> s'.jobs[j] == s.jobs[j]
    ensures (forall j: nat :: j < n ==> !Dirty(s.jobs[j].stage)) ==> s'.store == s.store
    decreases n - i
  {
    hide Leads, Inv;
    if i == n {
      t := Stay(s, exception);
      s' := s;
    } else if s.jobs[i].stage.Done? {
      t, s' := DrainAll(s, i + 1, n, exception);
    } else {
      var first, mid := DrainOne(s, i, exception);
      var rest;
      rest, s' := DrainAll(mid, i + 1, n, exception);
      PathHasStates(rest, mid, s', exception);
      Leading(first, rest, s, mid, s', exception);
      t := Join(first, rest);
    }
  }

  lemma PathHasStates(t: Path, from: Slot, to: Slot, exception: Step)
    requires Leads(t, from, to, exception)
    ensures t.states != []
  {}

  /** While the newest operation awaits no publication, every unfinished one is stale. */
  lemma OldJobsAreStale(s: Slot, g: nat)
    requires Inv(s) && s.cell.generation == g && g in s.ops
    requires !s.ops[g].phase.Restoring? && !s.ops[g].phase.Publishing?
    ensures Stale(s, 0, |s.jobs|)
  {
    forall j: nat | j < |s.jobs| && !s.jobs[j].stage.Done? ensures !Admitted(s.cell, s.jobs[j].generation) {
      assert JobOk(s, j) && OpOk(s, s.jobs[j].generation);
    }
  }

  /** The newest refresh has read a catalog: it can bring it, or the newer one of memory, into memory. */
  lemma ReadReachesMemory(s: Slot, g: nat, v: Snapshot, exception: Step) returns (t: Path, s': Slot)
    requires Inv(s) && Admitted(s.cell, g) && g in s.ops && s.ops[g].phase == HasRead(Some(v))
    ensures Leads(t, s, s', exception) && NoPublicationRunning(s')
    ensures s'.cell == s.cell.(snapshot := Some(SelectRestored(s.cell.snapshot, v)))
    ensures NoDirty(s) ==> s'.store == s.store
  {
    hide Leads, Inv, PQ.Inv;
    var n, step := |s.jobs|, RestoreResume(g, true);
    OldJobsAreStale(s, g);
    JobsMatchTasks(s);
    t := Stay(s, exception);
    t := Onward(t, s, s, step, exception);
    var queued := Apply(s, step);
    StepKeepsInv(s, step);
    assert queued.jobs == s.jobs + [Job(g, SelectRestored(s.cell.snapshot, v), false, Queued)];
    var rest, ready := DrainAll(queued, 0, n, exception);
    PathHasStates(rest, queued, ready, exception);
    Leading(t, rest, s, queued, ready, exception);
    JobsMatchTasks(ready);
    NextCanStart(ready, n);
    t := Onward(Join(t, rest), s, ready, JobStart(n), exception);
    s' := Apply(ready, JobStart(n));
  }

  // ---- A refresh that begins unregistered -------------------------------------------------------------

  /** Only issued generations are ever aborted, so the next one starts with a quiet signal. */
  ghost predicate AbortsIssued(s: Slot) {
    forall g: nat :: g in s.cell.aborted ==> g <= s.cell.generation
  }

  lemma StepKeepsAbortsIssued(s: Slot, step: Step)
    requires Inv(s) && AbortsIssued(s) && Enabled(s, step)
    ensures AbortsIssued(Apply(s, step))
  {
    GenerationGrows(s, step);
    if step.CallerAbort? {
      assert OpOk(s, step.g);
    } else if IsOpStep(step) {
      OpStepFrame(s, step);
    }
  }

  lemma {:induction false} RunKeepsAbortsIssued(states: seq<Slot>, steps: seq<Step>, k: nat)
    requires Run(states, steps) && k <= |steps|
    ensures AbortsIssued(states[k])
  {
    if k > 0 {
      RunKeepsAbortsIssued(states, steps, k - 1);
      RunKeepsInv(states, steps, k - 1);
      assert NextBy(states[k - 1], steps[k - 1], states[k]);
      StepKeepsAbortsIssued(states[k - 1], steps[k - 1]);
    }
  }

  /**
   Every reachable state in which an id is not registered, a refresh called while it was
   still awaits its authentication check, and the store holds a catalog, can go on like
   this: that refresh begins, and the catalog (or the newer one still in memory) ends up in
   memory, with the id still unregistered and, if it was, the registry still disposed.
   */
  lemma StaleBeginCanRevive(r: Path, s: Slot, v: Snapshot) returns (all: Path, s': Slot)
    requires Run(r.states, r.steps) && s == r.states[|r.steps|]
    requires !s.cell.registered && s.checks > 0 && s.store == Some(v)
    ensures Run(all.states, all.steps) && all.states[|all.steps|] == s'
    ensures GoesOn(r, all) && |r.steps| < |all.steps| && all.steps[|r.steps|] == Begin(FullRefresh, true)
    ensures !s'.cell.registered && s'.cell.disposed == s.cell.disposed && NoPublicationRunning(s')
    ensures s'.cell.snapshot == Some(SelectRestored(s.cell.snapshot, v))
  {
    hide Leads, Inv, Run;
    RunKeepsInv(r.states, r.steps, |r.steps|);
    RunKeepsAbortsIssued(r.states, r.steps, |r.steps|);
    RunHasStates(r);
    var begin := Begin(FullRefresh, true);
    var begun, g := Apply(s, begin), s.cell.generation + 1;
    StepKeepsInv(s, begin);
    assert Admitted(begun.cell, g);
    StepKeepsInv(begun, ReadTakes(g));
    var read := Apply(begun, ReadTakes(g));
    var t, rest;
    rest, s' := ReadReachesMemory(read, g, v, ReadTakes(g));
    t := BeginAndRead(s, g);
    PathHasStates(rest, read, s', ReadTakes(g));
    Leading(t, rest, s, read, s', ReadTakes(g));
    RunGoesOn(r, Join(t, rest), s, s', ReadTakes(g));
    all := Join(r, Join(t, rest));
  }

  /**
   So an id that is unregistered, without catalog and live refresh, over a stored catalog,
   can get a catalog into memory before it is registered again if and only if a refresh
   called earlier still awaits its authentication check.
   */
  lemma UnregisteredGetsCatalogExactly(r: Path, s: Slot, v: Snapshot)
    requires Run(r.states, r.steps) && s == r.states[|r.steps|]
    requires !s.cell.registered && QuietWhenUnregistered(s.cell) && s.store == Some(v)
    ensures s.checks > 0 <==> exists all: Path :: EndsWithCatalog(r, all)
  {
    hide Run, QuietWhenUnregistered, GoesOn;
    if s.checks > 0 {
      var all, s' := StaleBeginCanRevive(r, s, v);
      assert EndsWithCatalog(r, all);
    } else {
      forall all: Path ensures !EndsWithCatalog(r, all) {
        NoCatalogWithoutCheck(r, all, s);
      }
    }
  }

  /** The run continues the other without a registration, and ends with a catalog in memory. */
  ghost predicate EndsWithCatalog(r: Path, all: Path) {
    Run(all.states, all.steps) && GoesOn(r, all) && all.states[|all.steps|].cell.snapshot.Some?
  }

  lemma NoCatalogWithoutCheck(r: Path, all: Path, s: Slot)
    requires Run(r.states, r.steps) && s == r.states[|r.steps|]
    requires !s.cell.registered && QuietWhenUnregistered(s.cell) && s.checks == 0
    ensures !EndsWithCatalog(r, all)
  {
    if EndsWithCatalog(r, all) {
      StaysQuietUntilRegistered(all.states, all.steps, |r.steps|, |all.steps|);
    }
  }

  lemma RunHasStates(r: Path)
    requires Run(r.states, r.steps)
    ensures |r.states| == |r.steps| + 1
  {}

  lemma BeginAndRead(s: Slot, g: nat) returns (t: Path)
    requires g == s.cell.generation + 1 && s.checks > 0
    ensures var begun := Apply(s, Begin(FullRefresh, true));
      Leads(t, s, Apply(begun, ReadTakes(g)), ReadTakes(g)) && t.steps == [Begin(FullRefresh, true), ReadTakes(g)]
  {
    var begun := Apply(s, Begin(FullRefresh, true));
    t := Path([s, begun, Apply(begun, ReadTakes(g))], [Begin(FullRefresh, true), ReadTakes(g)]);
  }

  // ---- A read of a catalog that is about to be rolled back -----------------------------------------------

  /**
   The side condition on reads is needed wherever it can fail: from any state of any clean
   run in which the newest refresh is about to read a catalog that a publication has written
   but not had accepted, if that catalog is not older than memory and not what the rollback
   puts back, the run goes on, clean but for that read, to a state in which no publication
   is running and memory and store disagree.
   */
  lemma DirtyReadCanDisagree(r: Path, s: Slot, g: nat, j: nat) returns (all: Path, s': Slot)
    requires CleanRun(r.states, r.steps) && s == r.states[|r.steps|]
    requires Admitted(s.cell, g) && g in s.ops && s.ops[g].phase.Reading?
    requires j < |s.jobs| && Dirty(s.jobs[j].stage)
    requires GenerationOf(s.cell.snapshot) <= s.jobs[j].snapshot.generation
    requires s.jobs[j].stage.before != Some(s.jobs[j].snapshot)
    ensures Run(all.states, all.steps) && all.states[|all.steps|] == s'
    ensures GoesOn(r, all)
    ensures forall k: nat :: k < |all.steps| ==> Clean(all.states[k], all.steps[k]) || all.steps[k] == ReadTakes(g)
    ensures NoPublicationRunning(s') && s'.cell.snapshot == Some(s.jobs[j].snapshot)
    ensures s'.store == s.jobs[j].stage.before && s'.cell.snapshot != s'.store
  {
    hide Leads, Inv, Run, Coherent, CleanRun;
    var exception, v := ReadTakes(g), s.jobs[j].snapshot;
    CleanRunIsRun(r);
    RunKeepsInv(r.states, r.steps, |r.steps|);
    RunKeepsCoherent(r.states, r.steps, |r.steps|);
    DirtyStore(s, j);
    var t := Stay(s, exception);
    t := Onward(t, s, s, exception, exception);
    StepKeepsInv(s, exception);
    var read := Apply(s, exception);
    OldJobsAreStale(read, g);
    DirtyIsFirst(read, j);
    var undo, clean := DrainOne(read, j, exception);
    PathHasStates(undo, read, clean, exception);
    Leading(t, undo, s, read, clean, exception);
    NothingDirtyAfter(read, clean, j);
    var rest;
    rest, s' := ReadReachesMemory(clean, g, v, exception);
    PathHasStates(rest, clean, s', exception);
    Leading(Join(t, undo), rest, s, clean, s', exception);
    RunGoesOn(r, Join(Join(t, undo), rest), s, s', exception);
    all := Join(r, Join(Join(t, undo), rest));
  }

  /**
   A rollback that fails after a clean run leaves memory and store in agreement if and only
   if memory is absent, or holds the very catalog that should have been taken back.
   */
  lemma FailedRollbackAgreesExactly(r: Path, s: Slot, j: nat)
    requires CleanRun(r.states, r.steps) && s == r.states[|r.steps|] && Enabled(s, RollbackFails(j))
    ensures var s' := Apply(s, RollbackFails(j));
      && NoPublicationRunning(s') && s'.store == Some(s.jobs[j].snapshot)
      && ((s'.cell.snapshot.Some? ==> s'.cell.snapshot == s'.store) <==>
          s.cell.snapshot.None? || s.cell.snapshot == Some(s.jobs[j].snapshot))
  {
    RunKeepsInv(r.states, r.steps, |r.steps|);
    RunKeepsCoherent(r.states, r.steps, |r.steps|);
    DirtyStore(s, j);
    OthersIdle(s, j);
  }

  lemma CleanRunIsRun(r: Path)
    requires CleanRun(r.states, r.steps)
    ensures Run(r.states, r.steps) && |r.states| == |r.steps| + 1
  {}

  lemma DirtyStore(s: Slot, j: nat)
    requires Coherent(s) && j < |s.jobs| && Dirty(s.jobs[j].stage)
    ensures s.store == Some(s.jobs[j].snapshot) && s.jobs[j].stage.prev == s.jobs[j].stage.before
  {
    assert JobCoherent(s, j);
  }

  lemma DirtyIsFirst(s: Slot, j: nat)
    requires Inv(s) && j < |s.jobs| && Dirty(s.jobs[j].stage)
    ensures DoneBelow(s, j)
    ensures forall i: nat :: i < |s.jobs| && i != j ==> !Dirty(s.jobs[i].stage)
  {
    OthersIdle(s, j);
    assert JobOk(s, j) && PQ.SettledBelow(s.chain, j);
    forall i: nat | i < j ensures s.jobs[i].stage.Done? {
      assert JobOk(s, i);
    }
  }

  lemma NothingDirtyAfter(s: Slot, s': Slot, j: nat)
    requires j < |s.jobs| && Drained(s, s', j)
    requires forall i: nat :: i < |s.jobs| && i != j ==> !Dirty(s.jobs[i].stage)
    ensures NoDirty(s')
  {}
}
