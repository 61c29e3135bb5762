/**
 Memory and store agree: what a superseded publication wrote is taken back exactly,
 and between publications memory is empty or holds what the store holds. The claims
 are for clean runs, and two witness runs show that neither condition can be dropped.
 */
module CatalogRegistryCoherence {
  import opened Prelude
  import opened CatalogRegistry
  import opened CatalogRegistryProofs
  import opened CatalogRegistryRuns
  import PQ = PromiseQueue

  predicate Dirty(stage: JobStage) {
    stage.Written? || stage.RollingBack?
  }

  ghost predicate NoDirty(s: Slot) {
    forall j: nat :: j < |s.jobs| ==> !Dirty(s.jobs[j].stage)
  }

  /** `v` is the stored catalog once a write that has not been accepted yet is discounted. */
  ghost predicate StoreNet(s: Slot, v: Option<Snapshot>) {
    && (NoDirty(s) ==> s.store == v)
    && forall j: nat :: j < |s.jobs| && Dirty(s.jobs[j].stage) ==> s.jobs[j].stage.before == v
  }

  ghost predicate OpCoherent(s: Slot, g: nat)
    requires g in s.ops
  {
    Admitted(s.cell, g) ==>
      match s.ops[g].phase
      case HasRead(stored) => StoreNet(s, stored)
      case Restoring(j, selected) =>
        StoreNet(s, if JobDone(s, j) then s.cell.snapshot else Some(selected))
      case Fetching(_) => StoreNet(s, s.cell.snapshot)
      case Publishing(j, _) => JobDone(s, j) || StoreNet(s, s.cell.snapshot)
      case _ => true
  }

  ghost predicate JobCoherent(s: Slot, j: nat)
    requires j < |s.jobs|
  {
    match s.jobs[j].stage
    case Writing(prev) => prev == s.store
    case Written(prev, before) => prev == before && s.store == Some(s.jobs[j].snapshot)
    case RollingBack(prev, before) => prev == before && s.store == Some(s.jobs[j].snapshot)
    case _ => true
  }

  ghost predicate Coherent(s: Slot) {
    && (s.cell.snapshot.Some? ==> StoreNet(s, s.cell.snapshot))
    && (forall g: nat :: g in s.ops ==> OpCoherent(s, g))
    && (forall j: nat :: j < |s.jobs| ==> JobCoherent(s, j))
  }

  /**
   The two side conditions: a restore that may still publish does not read the store
   between a publication's write and the end of its rollback, and rollbacks succeed.
   */
  ghost predicate Clean(s: Slot, step: Step) {
    && (step.ReadTakes? && Admitted(s.cell, step.g) ==> NoDirty(s))
    && !step.RollbackFails?
  }

  // ---- Coherence is inductive over clean steps ----------------------------------

  lemma OneRunning(s: Slot, i: nat, j: nat)
    requires Inv(s) && i < |s.jobs| && j < |s.jobs|
    requires !s.jobs[i].stage.Queued? && !s.jobs[i].stage.Done?
    requires !s.jobs[j].stage.Queued? && !s.jobs[j].stage.Done?
    ensures i == j
  {
    assert JobOk(s, i) && JobOk(s, j);
    assert PQ.SettledBelow(s.chain, i) && PQ.SettledBelow(s.chain, j);
  }

  /** When a queued publication may start, none is running. */
  lemma NoneRunning(s: Slot, j: nat)
    requires Inv(s) && PQ.CanStart(s.chain, j)
    ensures NoDirty(s)
    ensures forall i: nat :: i < |s.jobs| ==> s.jobs[i].stage.Queued? || s.jobs[i].stage.Done?
  {
    PQ.StartKeepsInv(s.chain, j);
    forall i: nat | i < |s.jobs| ensures s.jobs[i].stage.Queued? || s.jobs[i].stage.Done? {
      assert JobOk(s, i);
    }
  }

  lemma OthersIdle(s: Slot, j: nat)
    requires Inv(s) && j < |s.jobs| && !s.jobs[j].stage.Queued? && !s.jobs[j].stage.Done?
    ensures forall i: nat :: i < |s.jobs| && i != j ==> s.jobs[i].stage.Queued? || s.jobs[i].stage.Done?
  {
    forall i: nat | i < |s.jobs| && i != j ensures s.jobs[i].stage.Queued? || s.jobs[i].stage.Done? {
      if !(s.jobs[i].stage.Queued? || s.jobs[i].stage.Done?) {
        OneRunning(s, i, j);
      }
    }
  }

  /** The operation whose publication may act is the one admitted operation, and it awaits that publication. */
  lemma AdmittedOwner(s: Slot, j: nat)
    requires Inv(s) && j < |s.jobs| && !s.jobs[j].stage.Done? && Admitted(s.cell, s.jobs[j].generation)
    ensures s.jobs[j].generation in s.ops && Awaits(s.ops[s.jobs[j].generation].phase, j)
    ensures var p := s.ops[s.jobs[j].generation].phase;
      if s.jobs[j].persist then p == Publishing(j, s.jobs[j].snapshot) else p == Restoring(j, s.jobs[j].snapshot)
  {
    assert JobOk(s, j);
    assert OpOk(s, s.jobs[j].generation);
  }

  lemma StartKeepsCoherent(s: Slot, j: nat)
    requires Inv(s) && Coherent(s) && Enabled(s, JobStart(j))
    ensures Coherent(Apply(s, JobStart(j)))
  {
    NoneRunning(s, j);
    var s' := Apply(s, JobStart(j));
    assert NoDirty(s');
    if Admitted(s.cell, s.jobs[j].generation) {
      AdmittedOwner(s, j);
      assert OpCoherent(s, s.jobs[j].generation);
    } else {
      assert JobOk(s, j);
    }
    forall g: nat | g in s'.ops ensures OpCoherent(s', g) {
      assert OpCoherent(s, g) && OpOk(s, g);
    }
    forall i: nat | i < |s'.jobs| ensures JobCoherent(s', i) {
      assert JobCoherent(s, i);
    }
  }

  /** A running publication that is not installed leaves the net stored catalog as it was. */
  lemma RunningKeepsNet(s: Slot, step: Step)
    requires Inv(s) && Coherent(s) && Enabled(s, step) && Installs(s, step).None?
    requires step.WriteTakes? || step.WriteFails? || step.JobResume? || step.RollbackTakes?
    ensures forall v :: StoreNet(s, v) ==> StoreNet(Apply(s, step), v)
    ensures JobCoherent(Apply(s, step), step.j)
    ensures step.RollbackTakes? ==> Apply(s, step).store == s.jobs[step.j].stage.before
  {
    var j := step.j;
    OthersIdle(s, j);
    assert JobOk(s, j) && JobCoherent(s, j);
    var s' := Apply(s, step);
    assert forall i: nat :: i < |s.jobs| && i != j ==> s'.jobs[i] == s.jobs[i];
    assert Dirty(s.jobs[j].stage) || NoDirty(s);
    assert Dirty(s'.jobs[j].stage) || NoDirty(s');
  }

  lemma RunningKeepsCoherent(s: Slot, step: Step)
    requires Inv(s) && Coherent(s) && Enabled(s, step) && Installs(s, step).None?
    requires step.WriteTakes? || step.WriteFails? || step.JobResume? || step.RollbackTakes?
    ensures Coherent(Apply(s, step))
  {
    var j := step.j;
    var s' := Apply(s, step);
    RunningKeepsNet(s, step);
    OthersIdle(s, j);
    assert JobOk(s, j);
    if Admitted(s.cell, s.jobs[j].generation) {
      AdmittedOwner(s, j);
    }
    assert s'.cell == s.cell && s'.ops == s.ops && |s'.jobs| == |s.jobs|;
    assert forall i: nat :: i < |s.jobs| && i != j ==> s'.jobs[i] == s.jobs[i];
    forall g: nat | g in s'.ops ensures OpCoherent(s', g) {
      assert OpCoherent(s, g) && OpOk(s, g);
    }
    forall i: nat | i < |s'.jobs| ensures JobCoherent(s', i) {
      assert JobCoherent(s, i);
    }
  }

  lemma InstallKeepsCoherent(s: Slot, j: nat)
    requires Inv(s) && Coherent(s) && Enabled(s, JobResume(j)) && Admitted(s.cell, s.jobs[j].generation)
    ensures Coherent(Apply(s, JobResume(j)))
  {
    var s' := Apply(s, JobResume(j));
    OthersIdle(s, j);
    assert JobOk(s, j) && JobCoherent(s, j);
    AdmittedOwner(s, j);
    assert forall i: nat :: i < |s.jobs| && i != j ==> s'.jobs[i] == s.jobs[i];
    assert NoDirty(s');
    forall g: nat | g in s'.ops ensures OpCoherent(s', g) {
      assert OpCoherent(s, g) && OpOk(s, g);
    }
    forall i: nat | i < |s'.jobs| ensures JobCoherent(s', i) {
      assert JobCoherent(s, i);
    }
  }

  lemma CellStepKeepsCoherent(s: Slot, step: Step)
    requires Inv(s) && Coherent(s) && Enabled(s, step)
    requires step.DoRegister? || step.DoUnregister? || step.DoSetEnabled? || step.DoDispose? || step.Begin?
             || step.CallRefresh? || step.CheckEnds? || step.CallerAbort? || step.ForgetChain?
    ensures Coherent(Apply(s, step))
  {
    var s' := Apply(s, step);
    assert forall v :: StoreNet(s, v) ==> StoreNet(s', v);
    forall g: nat | g in s'.ops ensures OpCoherent(s', g) {
      if g in s.ops {
        assert OpCoherent(s, g) && OpOk(s, g);
      }
    }
    forall i: nat | i < |s'.jobs| ensures JobCoherent(s', i) {
      assert JobCoherent(s, i);
    }
  }

  lemma OpStepKeepsCoherent(s: Slot, step: Step)
    requires Inv(s) && Coherent(s) && Enabled(s, step) && Clean(s, step) && IsOpStep(step)
    ensures Coherent(Apply(s, step))
  {
    var s' := Apply(s, step);
    OpStepFrame(s, step);
    assert forall v :: StoreNet(s, v) <==> StoreNet(s', v);
    forall g: nat | g in s'.ops ensures OpCoherent(s', g) {
      assert OpCoherent(s, g) && OpOk(s, g);
      if g == step.g {
        OwnStepKeepsCoherent(s, step);
      }
    }
    forall i: nat | i < |s'.jobs| ensures JobCoherent(s', i) {
      assert i < |s.jobs| ==> JobCoherent(s, i);
    }
  }

  lemma OwnStepKeepsCoherent(s: Slot, step: Step)
    requires Inv(s) && Coherent(s) && Enabled(s, step) && Clean(s, step) && IsOpStep(step)
    requires forall v :: StoreNet(s, v) <==> StoreNet(Apply(s, step), v)
    ensures OpCoherent(Apply(s, step), step.g)
  {
    var g := step.g;
    assert OpCoherent(s, g) && OpOk(s, g);
    if step.RestoreResume? && Admitted(s.cell, g) && s.cell.snapshot.Some? {
      NetIsUnique(s, s.cell.snapshot, s.ops[g].phase.stored);
    }
    if step.RestoreResume? && Admitted(s.cell, g) && s.ops[g].phase.stored.None? {
      assert StoreNet(s, s.cell.snapshot);
    }
  }

  lemma NetIsUnique(s: Slot, v: Option<Snapshot>, w: Option<Snapshot>)
    requires StoreNet(s, v) && StoreNet(s, w)
    ensures v == w
  {
    if j: nat :| j < |s.jobs| && Dirty(s.jobs[j].stage) {
      assert s.jobs[j].stage.before == v;
    }
  }

  lemma StepKeepsCoherent(s: Slot, step: Step)
    requires Inv(s) && Coherent(s) && Enabled(s, step) && Clean(s, step)
    ensures Coherent(Apply(s, step))
  {
    if step.JobStart? {
      StartKeepsCoherent(s, step.j);
    } else if step.JobResume? && Admitted(s.cell, s.jobs[step.j].generation) {
      InstallKeepsCoherent(s, step.j);
    } else if IsJobStep(step) {
      RunningKeepsCoherent(s, step);
    } else if IsOpStep(step) {
      OpStepKeepsCoherent(s, step);
    } else {
      CellStepKeepsCoherent(s, step);
    }
  }

  ghost predicate CleanRun(states: seq<Slot>, steps: seq<Step>) {
    && Run(states, steps)
    && forall k: nat :: k < |steps| ==> Clean(states[k], steps[k])
  }

  lemma {:induction false} RunKeepsCoherent(states: seq<Slot>, steps: seq<Step>, k: nat)
    requires CleanRun(states, steps) && k <= |steps|
    ensures Coherent(states[k])
  {
    if k > 0 {
      RunKeepsCoherent(states, steps, k - 1);
      RunKeepsInv(states, steps, k - 1);
      assert NextBy(states[k - 1], steps[k - 1], states[k]);
      StepKeepsCoherent(states[k - 1], steps[k - 1]);
    }
  }

  ghost predicate NoPublicationRunning(s: Slot) {
    forall j: nat :: j < |s.jobs| ==> s.jobs[j].stage.Queued? || s.jobs[j].stage.Done?
  }

  /** Whenever no publication is running, the in-memory catalog is absent or is the stored one. */
  lemma MemoryAgreesWithStore(states: seq<Slot>, steps: seq<Step>, k: nat)
    requires CleanRun(states, steps) && k <= |steps| && NoPublicationRunning(states[k])
    ensures states[k].cell.snapshot.Some? ==> states[k].cell.snapshot == states[k].store
  {
    RunKeepsCoherent(states, steps, k);
  }

  /**
   A rejected publication puts back exactly what the store held when its write took
   effect, and nothing else touched the store in between.
   */
  lemma RollbackRestoresTheStore(states: seq<Slot>, steps: seq<Step>, k: nat, m: nat, j: nat)
    requires CleanRun(states, steps) && k < m < |steps|
    requires steps[k] == WriteTakes(j) && steps[m] == RollbackTakes(j)
    ensures states[m + 1].store == states[k].store
    ensures forall i: nat :: k < i <= m ==> states[i].store == states[k + 1].store
  {
    assert NextBy(states[k], steps[k], states[k + 1]);
    assert NextBy(states[m], steps[m], states[m + 1]);
    forall i: nat | k < i <= m ensures WroteAt(states[i], j, states[k].store) || Settled(states[i], j) {
      WriteIsRemembered(states, steps, k, i, j);
    }
    assert !Settled(states[m], j);
    RunKeepsCoherent(states, steps, m);
    assert JobCoherent(states[m], j);
    forall i: nat | k < i <= m ensures states[i].store == Some(states[k].jobs[j].snapshot) {
      if Settled(states[i], j) {
        SettledLasts(states, steps, i, m, j);
      } else {
        RunKeepsCoherent(states, steps, i);
        assert JobCoherent(states[i], j);
        SnapshotIsFixed(states, steps, k, i, j);
      }
    }
  }

  ghost predicate Settled(s: Slot, j: nat) {
    j < |s.jobs| && s.jobs[j].stage.Done?
  }

  ghost predicate WroteAt(s: Slot, j: nat, before: Option<Snapshot>) {
    j < |s.jobs| && Dirty(s.jobs[j].stage) && s.jobs[j].stage.before == before
  }

  lemma {:induction false} WriteIsRemembered(states: seq<Slot>, steps: seq<Step>, k: nat, i: nat, j: nat)
    requires Run(states, steps) && k < i <= |steps| && steps[k] == WriteTakes(j)
    ensures WroteAt(states[i], j, states[k].store) || Settled(states[i], j)
    decreases i
  {
    assert NextBy(states[i - 1], steps[i - 1], states[i]);
    if k < i - 1 {
      WriteIsRemembered(states, steps, k, i - 1, j);
      JobsOnlyAdvance(states[i - 1], steps[i - 1], j);
    }
  }

  lemma {:induction false} SettledLasts(states: seq<Slot>, steps: seq<Step>, i: nat, m: nat, j: nat)
    requires Run(states, steps) && i <= m <= |steps| && Settled(states[i], j)
    ensures Settled(states[m], j)
    decreases m
  {
    if i < m {
      SettledLasts(states, steps, i, m - 1, j);
      assert NextBy(states[m - 1], steps[m - 1], states[m]);
      JobsOnlyAdvance(states[m - 1], steps[m - 1], j);
    }
  }

  lemma {:induction false} SnapshotIsFixed(states: seq<Slot>, steps: seq<Step>, k: nat, i: nat, j: nat)
    requires Run(states, steps) && k <= i <= |steps| && j < |states[k].jobs|
    ensures j < |states[i].jobs| && states[i].jobs[j].snapshot == states[k].jobs[j].snapshot
    decreases i
  {
    if k < i {
      SnapshotIsFixed(states, steps, k, i - 1, j);
      assert NextBy(states[i - 1], steps[i - 1], states[i]);
      JobsOnlyAdvance(states[i - 1], steps[i - 1], j);
    }
  }

  /** No step replaces a publication's snapshot, reopens a settled one, or rewrites its history. */
  lemma JobsOnlyAdvance(s: Slot, step: Step, j: nat)
    requires Enabled(s, step) && j < |s.jobs|
    ensures j < |Apply(s, step).jobs|
    ensures var job, job' := s.jobs[j], Apply(s, step).jobs[j];
      && job'.snapshot == job.snapshot
      && (job.stage.Done? ==> job'.stage == job.stage)
      && (Dirty(job.stage) ==> job'.stage.Done? || (Dirty(job'.stage) && job'.stage.before == job.stage.before))
  {
    if IsOpStep(step) {
      OpStepFrame(s, step);
    }
  }
}
