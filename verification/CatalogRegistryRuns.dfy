/** Properties of whole runs of the refresh protocol that hold for every interleaving. */
module CatalogRegistryRuns {
  import opened Prelude
  import opened CatalogRegistry
  import opened CatalogRegistryProofs

  // ---- Runs --------------------------------------------------------------------

  /** A run: any interleaving of enabled steps, from a registry that starts over any stored catalog. */
  ghost predicate Run(states: seq<Slot>, steps: seq<Step>) {
    && |states| == |steps| + 1
    && (exists id: string, stored: Option<Snapshot> :: states[0] == Init(id, stored))
    && forall k: nat :: k < |steps| ==> NextBy(states[k], steps[k], states[k + 1])
  }

  lemma {:induction false} RunKeepsInv(states: seq<Slot>, steps: seq<Step>, k: nat)
    requires Run(states, steps) && k <= |steps|
    ensures Inv(states[k])
  {
    if k == 0 {
      var id, stored :| states[0] == Init(id, stored);
      InitInv(id, stored);
    } else {
      RunKeepsInv(states, steps, k - 1);
      assert NextBy(states[k - 1], steps[k - 1], states[k]);
      StepKeepsInv(states[k - 1], steps[k - 1]);
    }
  }

  // ---- Superseded generations never come back ------------------------------------

  /** The generation whose publication a step puts into memory, if the step does that. */
  function Installs(s: Slot, step: Step): Option<nat>
    requires Enabled(s, step)
  {
    match step
    case JobStart(j) =>
      if Admitted(s.cell, s.jobs[j].generation) && !s.jobs[j].persist then Some(s.jobs[j].generation) else None
    case JobResume(j) => if Admitted(s.cell, s.jobs[j].generation) then Some(s.jobs[j].generation) else None
    case _ => None
  }

  /** Memory changes only by an installation, or by being cleared. */
  lemma OnlyInstallsChangeMemory(s: Slot, step: Step)
    requires Enabled(s, step)
    ensures Installs(s, step).None? ==>
              Apply(s, step).cell.snapshot == (if step.DoUnregister? || step.DoDispose? then None else s.cell.snapshot)
    ensures Installs(s, step).Some? ==>
              Installs(s, step).value == s.cell.generation && Apply(s, step).cell.snapshot == Some(s.jobs[step.j].snapshot)
  {}

  lemma GenerationGrows(s: Slot, step: Step)
    requires Enabled(s, step)
    ensures s.cell.generation <= Apply(s, step).cell.generation
    ensures (step.DoUnregister? || step.Begin? || (step.DoSetEnabled? && !step.value)) ==>
              Apply(s, step).cell.generation == s.cell.generation + 1
  {}

  lemma {:induction false} GenerationGrowsAlongRun(states: seq<Slot>, steps: seq<Step>, k: nat, m: nat)
    requires Run(states, steps) && k <= m <= |steps|
    ensures states[k].cell.generation <= states[m].cell.generation
    decreases m
  {
    if k < m {
      GenerationGrowsAlongRun(states, steps, k, m - 1);
      assert NextBy(states[m - 1], steps[m - 1], states[m]);
      GenerationGrows(states[m - 1], steps[m - 1]);
    }
  }

  /**
   Once a newer refresh, a disable or an unregister has happened after generation g
   was issued, no later step of the run puts a publication of g into memory: not
   after the id has been registered again, and not after a disposal either.
   */
  lemma SupersededNeverInstalls(states: seq<Slot>, steps: seq<Step>, k: nat, m: nat, g: nat)
    requires Run(states, steps) && k < m < |steps|
    requires g <= states[k].cell.generation
    requires steps[k].Begin? || steps[k].DoUnregister? || (steps[k].DoSetEnabled? && !steps[k].value)
    ensures Enabled(states[m], steps[m]) && Installs(states[m], steps[m]) != Some(g)
  {
    assert NextBy(states[k], steps[k], states[k + 1]);
    assert NextBy(states[m], steps[m], states[m + 1]);
    GenerationGrows(states[k], steps[k]);
    GenerationGrowsAlongRun(states, steps, k + 1, m);
    OnlyInstallsChangeMemory(states[m], steps[m]);
  }

  lemma {:induction false} RegisteredBeginsKeepQuiet(states: seq<Slot>, steps: seq<Step>, m: nat)
    requires Run(states, steps) && m <= |steps|
    requires forall i: nat :: i < m && steps[i].Begin? ==> states[i].cell.registered
    ensures QuietWhenUnregistered(states[m].cell)
  {
    if m > 0 {
      RegisteredBeginsKeepQuiet(states, steps, m - 1);
      assert NextBy(states[m - 1], steps[m - 1], states[m]);
      RunKeepsInv(states, steps, m - 1);
      StepKeepsQuiet(states[m - 1], steps[m - 1]);
    }
  }

  /**
   Throughout a run an unregistered id has neither a catalog in memory nor a live refresh,
   if and only if every refresh begins while its provider is registered. `refresh` checks
   registration before it awaits the authentication check and begins after it, so the
   source does not guarantee the condition; what a refresh that breaks it can do is in
   CatalogRegistryContinuations.
   */
  lemma UnregisteredHasNoCatalog(states: seq<Slot>, steps: seq<Step>, m: nat)
    requires Run(states, steps) && m <= |steps|
    ensures (forall j: nat :: j <= m ==> QuietWhenUnregistered(states[j].cell)) <==>
            (forall i: nat :: i < m && steps[i].Begin? ==> states[i].cell.registered)
  {
    if forall i: nat :: i < m && steps[i].Begin? ==> states[i].cell.registered {
      forall j: nat | j <= m ensures QuietWhenUnregistered(states[j].cell) {
        RegisteredBeginsKeepQuiet(states, steps, j);
      }
    } else {
      var i: nat :| i < m && steps[i].Begin? && !states[i].cell.registered;
      assert NextBy(states[i], steps[i], states[i + 1]);
      assert !QuietWhenUnregistered(states[i + 1].cell);
    }
  }

  /**
   An unregistered id without catalog and live refresh, of which no refresh awaits its
   authentication check, stays like that until it is registered again.
   */
  lemma {:induction false} StaysQuietUntilRegistered(states: seq<Slot>, steps: seq<Step>, k: nat, m: nat)
    requires Run(states, steps) && k <= m <= |steps|
    requires !states[k].cell.registered && states[k].checks == 0 && QuietWhenUnregistered(states[k].cell)
    requires forall i: nat :: k <= i < m ==> !steps[i].DoRegister?
    ensures !states[m].cell.registered && states[m].checks == 0 && QuietWhenUnregistered(states[m].cell)
    decreases m
  {
    if k < m {
      StaysQuietUntilRegistered(states, steps, k, m - 1);
      assert NextBy(states[m - 1], steps[m - 1], states[m]);
      RunKeepsInv(states, steps, m - 1);
      StepKeepsQuiet(states[m - 1], steps[m - 1]);
      StepKeepsUnregistered(states[m - 1], steps[m - 1]);
    }
  }

  lemma StepKeepsUnregistered(s: Slot, step: Step)
    requires Enabled(s, step) && !s.cell.registered && s.checks == 0 && !step.DoRegister?
    ensures !Apply(s, step).cell.registered && Apply(s, step).checks == 0
  {}

  ghost predicate QuietWhenUnregistered(c: Cell) {
    && (c.disposed ==> !c.registered)
    && (!c.registered ==> c.controller.None? && c.snapshot.None?)
  }

  lemma StepKeepsQuiet(s: Slot, step: Step)
    requires Inv(s) && Enabled(s, step) && QuietWhenUnregistered(s.cell)
    requires step.Begin? ==> s.cell.registered
    ensures QuietWhenUnregistered(Apply(s, step).cell)
  {
    if IsOpStep(step) {
      OpStepFrame(s, step);
    } else if IsJobStep(step) {
      assert JobOk(s, step.j) && OpOk(s, s.jobs[step.j].generation);
      OnlyInstallsChangeMemory(s, step);
    }
  }

  // ---- Catalog generations never decrease ------------------------------------------

  /** What an operation that may still publish knows about memory. */
  ghost predicate OpFresh(s: Slot, g: nat)
    requires g in s.ops
  {
    var p := s.ops[g].phase;
    Admitted(s.cell, g) ==>
      match p
      case Restoring(j, selected) =>
        if JobDone(s, j) then s.cell.snapshot == Some(selected) && s.jobs[j].stage.published
        else GenerationOf(s.cell.snapshot) <= selected.generation
      case Fetching(previous) => s.cell.snapshot == previous
      case Publishing(j, candidate) => JobDone(s, j) || GenerationOf(s.cell.snapshot) <= candidate.generation
      case _ => true
  }

  ghost predicate Fresh(s: Slot) {
    forall g: nat :: g in s.ops ==> OpFresh(s, g)
  }

  predicate IsJobStep(step: Step) {
    step.JobStart? || step.WriteTakes? || step.WriteFails? || step.JobResume? || step.RollbackTakes? || step.RollbackFails?
  }

  lemma JobStepKeepsFresh(s: Slot, step: Step, g: nat)
    requires Inv(s) && Enabled(s, step) && IsJobStep(step) && g in s.ops && OpFresh(s, g)
    ensures OpFresh(Apply(s, step), g)
  {
    var j := step.j;
    var job := s.jobs[j];
    assert JobOk(s, j) && OpOk(s, g);
    var s' := Apply(s, step);
    assert s'.jobs == s.jobs[j := s'.jobs[j]] && s'.ops == s.ops;
    if Admitted(s.cell, g) && job.generation != g && Installs(s, step).None? {
      assert s'.cell == s.cell;
    }
  }

  /** Freshness of an operation depends on its phase, its publication and memory only. */
  lemma FreshFrame(s: Slot, s': Slot, g: nat)
    requires Inv(s) && g in s.ops && OpFresh(s, g)
    requires g in s'.ops && s'.ops[g] == s.ops[g]
    requires s.jobs <= s'.jobs && |s.chain.tasks| <= |s'.chain.tasks|
    requires Admitted(s'.cell, g) && !s.ops[g].phase.Finished? ==>
               Admitted(s.cell, g) && s'.cell.snapshot == s.cell.snapshot
    ensures OpFresh(s', g)
  {}

  lemma CellStepKeepsFresh(s: Slot, step: Step, g: nat)
    requires Inv(s) && Enabled(s, step) && g in s.ops && OpFresh(s, g)
    requires step.DoRegister? || step.DoUnregister? || step.DoSetEnabled? || step.DoDispose? || step.Begin?
             || step.CallRefresh? || step.CheckEnds? || step.CallerAbort? || step.ForgetChain?
    ensures OpFresh(Apply(s, step), g)
  {
    assert OpOk(s, g);
    FreshFrame(s, Apply(s, step), g);
  }

  predicate IsOpStep(step: Step) {
    step.ReadTakes? || step.ReadFails? || step.RestoreResume? || step.RestoreReport? || step.Fetched?
    || step.FetchFails? || step.PublishReport? || step.GiveUp?
  }

  lemma OpStepKeepsOps(s: Slot, step: Step)
    requires Enabled(s, step) && IsOpStep(step)
    ensures Apply(s, step).ops.Keys == s.ops.Keys
    ensures forall g: nat :: g in s.ops && g != step.g ==> Apply(s, step).ops[g] == s.ops[g]
  {}

  lemma OpStepKeepsJobs(s: Slot, step: Step)
    requires Enabled(s, step) && IsOpStep(step)
    ensures var s' := Apply(s, step);
      && s.jobs <= s'.jobs && |s'.jobs| - |s.jobs| == |s'.chain.tasks| - |s.chain.tasks|
      && (forall j: nat :: |s.jobs| <= j < |s'.jobs| ==> s'.jobs[j].stage == Queued)
  {}

  lemma OpStepKeepsCell(s: Slot, step: Step)
    requires Enabled(s, step) && IsOpStep(step)
    ensures Apply(s, step).cell == s.cell.(controller := Apply(s, step).cell.controller)
  {}

  lemma OpStepKeepsStore(s: Slot, step: Step)
    requires Enabled(s, step) && IsOpStep(step)
    ensures Apply(s, step).store == s.store
  {}

  /** An operation's own step leaves memory, the other operations and the existing publications alone. */
  lemma OpStepFrame(s: Slot, step: Step)
    requires Enabled(s, step) && IsOpStep(step)
    ensures var s' := Apply(s, step);
      && s'.cell == s.cell.(controller := s'.cell.controller)
      && s'.store == s.store
      && s.jobs <= s'.jobs && |s'.jobs| - |s.jobs| == |s'.chain.tasks| - |s.chain.tasks|
      && (forall j: nat :: |s.jobs| <= j < |s'.jobs| ==> s'.jobs[j].stage == Queued)
      && s'.ops.Keys == s.ops.Keys
      && forall g: nat :: g in s.ops && g != step.g ==> s'.ops[g] == s.ops[g]
  {
    hide Enabled, Apply;
    OpStepKeepsOps(s, step);
    OpStepKeepsJobs(s, step);
    OpStepKeepsCell(s, step);
    OpStepKeepsStore(s, step);
  }

  lemma OpStepKeepsFresh(s: Slot, step: Step, g: nat)
    requires Inv(s) && Enabled(s, step) && g in s.ops && OpFresh(s, g) && IsOpStep(step)
    ensures OpFresh(Apply(s, step), g)
  {
    OpStepFrame(s, step);
    assert OpOk(s, g);
    if step.g != g {
      FreshFrame(s, Apply(s, step), g);
    }
  }

  lemma StepKeepsFresh(s: Slot, step: Step)
    requires Inv(s) && Fresh(s) && Enabled(s, step)
    ensures Fresh(Apply(s, step))
  {
    var s' := Apply(s, step);
    forall g: nat | g in s'.ops ensures OpFresh(s', g) {
      if g in s.ops {
        assert OpFresh(s, g);
        if IsJobStep(step) {
          JobStepKeepsFresh(s, step, g);
        } else if step.DoRegister? || step.DoUnregister? || step.DoSetEnabled? || step.DoDispose? || step.Begin?
                  || step.CallRefresh? || step.CheckEnds? || step.CallerAbort? || step.ForgetChain? {
          CellStepKeepsFresh(s, step, g);
        } else {
          OpStepKeepsFresh(s, step, g);
        }
      }
    }
  }

  lemma {:induction false} RunKeepsFresh(states: seq<Slot>, steps: seq<Step>, k: nat)
    requires Run(states, steps) && k <= |steps|
    ensures Fresh(states[k])
  {
    if k > 0 {
      RunKeepsFresh(states, steps, k - 1);
      RunKeepsInv(states, steps, k - 1);
      assert NextBy(states[k - 1], steps[k - 1], states[k]);
      StepKeepsFresh(states[k - 1], steps[k - 1]);
    }
  }

  lemma StepKeepsGeneration(s: Slot, step: Step)
    requires Inv(s) && Fresh(s) && Enabled(s, step) && !step.DoUnregister? && !step.DoDispose? && s.cell.snapshot.Some?
    ensures var snapshot := Apply(s, step).cell.snapshot;
      snapshot.Some? && s.cell.snapshot.value.generation <= snapshot.value.generation
  {
    OnlyInstallsChangeMemory(s, step);
    if Installs(s, step).Some? {
      var g := s.jobs[step.j].generation;
      assert JobOk(s, step.j) && OpOk(s, g) && OpFresh(s, g);
    }
  }

  /**
   While a provider stays registered its in-memory catalog never disappears and
   never goes back to an older generation, whatever its refreshes read from the store.
   */
  lemma {:induction false} CatalogGenerationNeverDecreases(states: seq<Slot>, steps: seq<Step>, k: nat, m: nat)
    requires Run(states, steps) && k <= m <= |steps|
    requires forall i: nat :: k <= i < m ==> !steps[i].DoUnregister? && !steps[i].DoDispose?
    ensures states[k].cell.snapshot.Some? ==>
              states[m].cell.snapshot.Some?
              && states[k].cell.snapshot.value.generation <= states[m].cell.snapshot.value.generation
    decreases m
  {
    hide Inv, Fresh, Enabled, Apply;
    if k < m {
      CatalogGenerationNeverDecreases(states, steps, k, m - 1);
      assert NextBy(states[m - 1], steps[m - 1], states[m]);
      RunKeepsInv(states, steps, m - 1);
      RunKeepsFresh(states, steps, m - 1);
      if states[m - 1].cell.snapshot.Some? {
        StepKeepsGeneration(states[m - 1], steps[m - 1]);
      }
    }
  }
}
