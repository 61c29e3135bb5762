/** The invariant that every step of the refresh protocol keeps. */
module CatalogRegistryProofs {
  import opened Prelude
  import opened CatalogRegistry
  import PQ = PromiseQueue

  ghost predicate StageAgrees(job: JobStage, task: PQ.Stage) {
    match job
    case Queued => task == PQ.Waiting
    case Writing(_) => task == PQ.Running
    case Written(_, _) => task == PQ.Running
    case RollingBack(_, _) => task == PQ.Running
    case Done(_, _) => task == PQ.Settled
  }

  predicate Awaits(p: Phase, j: nat) {
    (p.Restoring? || p.Publishing?) && p.job == j
  }

  ghost predicate OpOk(s: Slot, g: nat)
    requires g in s.ops
  {
    var p := s.ops[g].phase;
    && 0 < g <= s.cell.generation
    // A live operation either owns the controller or has had its signal fired.
    && (!p.Finished? && g < s.cell.generation ==> g in s.cell.aborted)
    && (!p.Finished? && g == s.cell.generation ==> s.cell.controller == Some(g))
    && (p.Restoring? ==> p.job < |s.jobs| && JobFor(s.jobs[p.job], g, p.selected, false))
    && (p.Publishing? ==> p.job < |s.jobs| && JobFor(s.jobs[p.job], g, p.candidate, true))
  }

  predicate JobFor(job: Job, g: nat, snapshot: Snapshot, persist: bool) {
    job.generation == g && job.snapshot == snapshot && job.persist == persist
  }

  ghost predicate JobOk(s: Slot, j: nat)
    requires j < |s.jobs| && j < |s.chain.tasks|
  {
    var job := s.jobs[j];
    && StageAgrees(job.stage, s.chain.tasks[j].stage)
    && job.generation in s.ops
    && (!job.persist ==> job.stage.Queued? || job.stage.Done?)
    && (!job.stage.Done? && job.generation !in s.cell.aborted ==> Awaits(s.ops[job.generation].phase, j))
    && (job.stage.Done? && !job.stage.published && !job.stage.failed ==> job.generation in s.cell.aborted)
    && (job.stage.RollingBack? ==> job.generation in s.cell.aborted)
    && (job.stage.Done? && job.stage.failed ==> job.persist)
  }

  /** The shape every reachable slot has, whatever order the steps came in. */
  ghost predicate Inv(s: Slot) {
    && PQ.Inv(s.chain)
    && |s.jobs| == |s.chain.tasks|
    && (s.cell.controller.Some? ==> s.cell.controller.value == s.cell.generation)
    && (forall g: nat :: g in s.ops ==> OpOk(s, g))
    && (forall j: nat :: j < |s.jobs| ==> JobOk(s, j))
  }

  ghost predicate NextBy(s: Slot, step: Step, s': Slot) {
    Enabled(s, step) && s' == Apply(s, step)
  }

  lemma InitInv(id: string, stored: Option<Snapshot>)
    ensures Inv(Init(id, stored))
  {}

  // ---- Inv is inductive ------------------------------------------------------

  lemma StartAndSettle(q: PQ.Queue, j: nat)
    requires PQ.Inv(q) && PQ.CanStart(q, j)
    ensures PQ.Inv(PQ.SetStage(q, j, PQ.Settled))
  {}

  /** Jobs untouched by a step stay consistent when no operation stops awaiting an unfinished one. */
  lemma JobsStayOk(s: Slot, s': Slot)
    requires Inv(s) && s'.jobs == s.jobs && s'.chain == s.chain
    requires s.cell.aborted <= s'.cell.aborted
    requires forall g: nat :: g in s.ops ==> g in s'.ops
    requires forall g: nat, j: nat ::
               g in s.ops && j < |s.jobs| && Awaits(s.ops[g].phase, j) && g !in s'.cell.aborted
               ==> Awaits(s'.ops[g].phase, j) || s.jobs[j].stage.Done?
    ensures forall j: nat :: j < |s'.jobs| ==> JobOk(s', j)
  {
    forall j: nat | j < |s'.jobs| ensures JobOk(s', j) {
      assert JobOk(s, j);
    }
  }

  lemma CellStepKeepsInv(s: Slot, c: Cell)
    requires Inv(s)
    requires c.aborted >= s.cell.aborted
    requires
      || (c.generation == s.cell.generation && c.controller == s.cell.controller)
      || (c.generation == s.cell.generation + 1 && c.controller == None
          && (s.cell.controller.Some? ==> s.cell.controller.value in c.aborted))
    ensures Inv(s.(cell := c))
  {
    JobsStayOk(s, s.(cell := c));
  }

  lemma FinishKeepsInv(s: Slot, g: nat, outcome: Outcome)
    requires Inv(s) && g in s.ops && !s.ops[g].phase.Finished?
    requires g !in s.cell.aborted ==> forall j: nat :: j < |s.jobs| && Awaits(s.ops[g].phase, j) ==> s.jobs[j].stage.Done?
    ensures Inv(FinishOp(s, g, outcome))
  {
    JobsStayOk(s, FinishOp(s, g, outcome));
  }

  lemma PhaseKeepsInv(s: Slot, g: nat, p: Phase)
    requires Inv(s) && g in s.ops && !s.ops[g].phase.Finished? && !p.Restoring? && !p.Publishing?
    requires forall j: nat :: j < |s.jobs| && Awaits(s.ops[g].phase, j) ==> s.jobs[j].stage.Done?
    ensures Inv(SetPhase(s, g, p))
  {
    JobsStayOk(s, SetPhase(s, g, p));
  }

  lemma EnqueueKeepsInv(s: Slot, g: nat, snapshot: Snapshot, persist: bool)
    requires Inv(s) && g in s.ops && !s.ops[g].phase.Finished?
    requires !s.ops[g].phase.Restoring? && !s.ops[g].phase.Publishing?
    ensures Inv(SetPhase(EnqueueJob(s, g, snapshot, persist), g,
                         if persist then Publishing(|s.jobs|, snapshot) else Restoring(|s.jobs|, snapshot)))
  {
    PQ.EnqueueKeepsInv(s.chain);
    var p := if persist then Publishing(|s.jobs|, snapshot) else Restoring(|s.jobs|, snapshot);
    var s' := SetPhase(EnqueueJob(s, g, snapshot, persist), g, p);
    forall j: nat | j < |s'.jobs| ensures JobOk(s', j) {
      assert j < |s.jobs| ==> JobOk(s, j);
    }
    forall h: nat | h in s'.ops ensures OpOk(s', h) {
      assert OpOk(s, h);
    }
  }

  lemma SetJobKeepsInv(s: Slot, j: nat, stage: JobStage, task: PQ.Stage)
    requires Inv(s) && j < |s.jobs| && !s.jobs[j].stage.Done?
    requires PQ.Inv(PQ.SetStage(s.chain, j, task)) && StageAgrees(stage, task)
    requires stage.Done? || s.jobs[j].persist
    requires (stage.RollingBack? || (stage.Done? && !stage.published && !stage.failed)) ==>
               !Admitted(s.cell, s.jobs[j].generation)
    requires stage.Done? && stage.failed ==> s.jobs[j].persist
    ensures Inv(SetJob(s, j, stage, task))
  {
    var s' := SetJob(s, j, stage, task);
    assert JobOk(s, j) && OpOk(s, s.jobs[j].generation);
    forall k: nat | k < |s'.jobs| ensures JobOk(s', k) {
      assert JobOk(s, k);
    }
  }

  /** Inv does not look at what memory and the store hold. */
  lemma ContentsDoNotMatter(s: Slot, memory: Option<Snapshot>, store: Option<Snapshot>)
    requires Inv(s)
    ensures Inv(s.(cell := s.cell.(snapshot := memory), store := store))
  {
    JobsStayOk(s, s.(cell := s.cell.(snapshot := memory), store := store));
  }

  /** Settling a publication, from its queue position or from its write. */
  lemma SettleKeepsInv(s: Slot, j: nat, published: bool, failed: bool)
    requires Inv(s) && j < |s.jobs| && !s.jobs[j].stage.Done?
    requires s.jobs[j].stage.Queued? ==> PQ.CanStart(s.chain, j)
    requires !published && !failed ==> !Admitted(s.cell, s.jobs[j].generation)
    requires failed ==> s.jobs[j].persist
    ensures Inv(SettleJob(s, j, published, failed))
  {
    assert JobOk(s, j);
    if s.jobs[j].stage.Queued? {
      StartAndSettle(s.chain, j);
    } else {
      PQ.SettleKeepsInv(s.chain, j);
    }
    SetJobKeepsInv(s, j, Done(published, failed), PQ.Settled);
  }

  /** A publication that persists moving from one running stage to the next. */
  lemma AdvanceKeepsInv(s: Slot, j: nat, stage: JobStage)
    requires Inv(s) && j < |s.jobs| && !s.jobs[j].stage.Done? && s.jobs[j].persist
    requires s.jobs[j].stage.Queued? ==> PQ.CanStart(s.chain, j)
    requires stage.Writing? || stage.Written? || (stage.RollingBack? && !Admitted(s.cell, s.jobs[j].generation))
    ensures Inv(SetJob(s, j, stage, PQ.Running))
  {
    assert JobOk(s, j);
    if s.jobs[j].stage.Queued? {
      PQ.StartKeepsInv(s.chain, j);
    } else {
      assert PQ.SetStage(s.chain, j, PQ.Running) == s.chain;
    }
    SetJobKeepsInv(s, j, stage, PQ.Running);
  }

  lemma JobStartKeepsInv(s: Slot, j: nat)
    requires Inv(s) && Enabled(s, JobStart(j))
    ensures Inv(Apply(s, JobStart(j)))
  {
    if !Admitted(s.cell, s.jobs[j].generation) {
      SettleKeepsInv(s, j, false, false);
    } else if s.jobs[j].persist {
      AdvanceKeepsInv(s, j, Writing(s.cell.snapshot));
    } else {
      InstallKeepsInv(s, j);
    }
  }

  lemma InstallKeepsInv(s: Slot, j: nat)
    requires Inv(s) && j < |s.jobs| && !s.jobs[j].stage.Done?
    requires s.jobs[j].stage.Queued? ==> PQ.CanStart(s.chain, j)
    ensures Inv(Install(s, j))
  {
    SettleKeepsInv(s, j, true, false);
    ContentsDoNotMatter(SettleJob(s, j, true, false), Some(s.jobs[j].snapshot), s.store);
  }

  lemma JobWriteKeepsInv(s: Slot, step: Step)
    requires Inv(s) && Enabled(s, step)
    requires step.WriteTakes? || step.WriteFails? || step.JobResume? || step.RollbackTakes? || step.RollbackFails?
    ensures Inv(Apply(s, step))
  {
    var j := step.j;
    assert JobOk(s, j);
    match step
    case WriteTakes(_) =>
      AdvanceKeepsInv(s, j, Written(s.jobs[j].stage.prev, s.store));
      ContentsDoNotMatter(SetJob(s, j, Written(s.jobs[j].stage.prev, s.store), PQ.Running),
                          s.cell.snapshot, Some(s.jobs[j].snapshot));
    case WriteFails(_) => SettleKeepsInv(s, j, false, true);
    case JobResume(_) =>
      if Admitted(s.cell, s.jobs[j].generation) {
        InstallKeepsInv(s, j);
      } else {
        AdvanceKeepsInv(s, j, RollingBack(s.jobs[j].stage.prev, s.jobs[j].stage.before));
      }
    case RollbackTakes(_) =>
      SettleKeepsInv(s, j, false, false);
      ContentsDoNotMatter(SettleJob(s, j, false, false), s.cell.snapshot, s.jobs[j].stage.prev);
    case RollbackFails(_) => SettleKeepsInv(s, j, false, true);
  }

  lemma BeginKeepsInv(s: Slot, kind: Kind, afterCheck: bool)
    requires Inv(s) && Enabled(s, Begin(kind, afterCheck))
    ensures Inv(Apply(s, Begin(kind, afterCheck)))
  {
    CellStepKeepsInv(s, Supersede(s.cell));
    var s' := Apply(s, Begin(kind, afterCheck));
    assert s'.cell.generation !in s.ops by {
      forall g: nat | g in s.ops ensures g <= s.cell.generation { assert OpOk(s, g); }
    }
    JobsStayOk(s, s');
  }

  lemma AfterRestoreKeepsInv(s: Slot, g: nat, previous: Option<Snapshot>)
    requires Inv(s) && g in s.ops && !s.ops[g].phase.Finished?
    requires forall j: nat :: j < |s.jobs| && Awaits(s.ops[g].phase, j) ==> s.jobs[j].stage.Done?
    ensures Inv(AfterRestore(s, g, previous))
  {
    if s.ops[g].kind.RestoreOnly? {
      FinishKeepsInv(s, g, Restored(previous));
    } else if g in s.cell.aborted {
      FinishKeepsInv(s, g, Superseded);
    } else {
      PhaseKeepsInv(s, g, Fetching(previous));
    }
  }

  lemma OpStepKeepsInv(s: Slot, step: Step)
    requires Inv(s) && Enabled(s, step)
    requires step.ReadTakes? || step.ReadFails? || step.RestoreResume? || step.RestoreReport? || step.Fetched?
             || step.FetchFails? || step.PublishReport? || step.GiveUp?
    ensures Inv(Apply(s, step))
  {
    var g := step.g;
    var p := s.ops[g].phase;
    match step
    case ReadTakes(_) => PhaseKeepsInv(s, g, HasRead(s.store));
    case RestoreResume(_, valid) =>
      if g in s.cell.aborted {
        FinishKeepsInv(s, g, Superseded);
      } else if p.stored.None? {
        AfterRestoreKeepsInv(s, g, s.cell.snapshot);
      } else if !valid {
        FinishKeepsInv(s, g, Failed);
      } else {
        EnqueueKeepsInv(s, g, SelectRestored(s.cell.snapshot, p.stored.value), false);
      }
    case RestoreReport(_) =>
      AfterRestoreKeepsInv(s, g, if s.jobs[p.job].stage.published then Some(p.selected) else None);
    case Fetched(_, result, now, valid) =>
      var candidate := Candidate(s.id, g, s.cell.snapshot, p.previous, result, now);
      if g !in s.cell.aborted && candidate.Some? && valid {
        EnqueueKeepsInv(s, g, candidate.value, true);
      } else {
        FinishKeepsInv(s, g, if g in s.cell.aborted then Superseded else Failed);
      }
    case PublishReport(_) =>
      var outcome := Apply(s, step).ops[g].phase.outcome;
      FinishKeepsInv(s, g, outcome);
    case _ =>
      FinishKeepsInv(s, g, Superseded);
      FinishKeepsInv(s, g, Failed);
  }

  lemma StepKeepsInv(s: Slot, step: Step)
    requires Inv(s) && Enabled(s, step)
    ensures Inv(Apply(s, step))
  {
    match step
    case DoRegister(enabled) => CellStepKeepsInv(s, s.cell.(registered := true, enabled := enabled));
    case DoUnregister => CellStepKeepsInv(s, Unregister(s.cell));
    case DoSetEnabled(value) => CellStepKeepsInv(s, SetEnabled(s.cell, value));
    case DoDispose => CellStepKeepsInv(s, Dispose(s.cell));
    case CallRefresh => JobsStayOk(s, Apply(s, step));
    case CheckEnds => JobsStayOk(s, Apply(s, step));
    case CallerAbort(g) => CellStepKeepsInv(s, s.cell.(aborted := s.cell.aborted + {g}));
    case Begin(kind, afterCheck) => BeginKeepsInv(s, kind, afterCheck);
    case JobStart(j) => JobStartKeepsInv(s, j);
    case ForgetChain =>
      PQ.ForgetKeepsInv(s.chain);
      var s' := s.(chain := PQ.Forget(s.chain));
      forall j: nat | j < |s'.jobs| ensures JobOk(s', j) {
        assert JobOk(s, j);
      }
    case WriteTakes(_) => JobWriteKeepsInv(s, step);
    case WriteFails(_) => JobWriteKeepsInv(s, step);
    case JobResume(_) => JobWriteKeepsInv(s, step);
    case RollbackTakes(_) => JobWriteKeepsInv(s, step);
    case RollbackFails(_) => JobWriteKeepsInv(s, step);
    case _ => OpStepKeepsInv(s, step);
  }
}
