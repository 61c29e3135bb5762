/**
 The catalog refresh protocol of the provider registry, for one provider id, as
 a transition system. Every await in the source is a place where other steps
 may run, so each step below is one stretch of code between two awaits, or the
 moment at which an asynchronous store operation takes effect.
 */
module CatalogRegistry {
  import opened Prelude
  import PQ = PromiseQueue

  datatype Model = Model(modelId: string, unavailable: bool)

  /** A stored catalog; the fields the protocol never looks at are left out. */
  datatype Snapshot = Snapshot(generation: nat, checkedAt: int, updatedAt: int, source: string, models: seq<Model>)

  /** What the registry object remembers about one provider id. */
  datatype Cell = Cell(
    registered: bool,
    enabled: bool,
    disposed: bool,
    generation: nat,            // refreshGenerations.get(id) ?? 0
    controller: Option<nat>,    // refreshControllers.get(id), named by the generation that owns it
    aborted: set<nat>,          // generations whose signal has fired
    snapshot: Option<Snapshot>  // snapshots.get(id)
  )

  const FRESH := Cell(false, false, false, 0, None, {}, None)

  // ---- Synchronous registry operations -------------------------------------

  function Supersede(c: Cell): Cell {
    c.(generation := c.generation + 1,
       controller := None,
       aborted := if c.controller.Some? then c.aborted + {c.controller.value} else c.aborted)
  }

  function BeginRefresh(c: Cell): Cell {
    var s := Supersede(c);
    s.(controller := Some(s.generation))
  }

  function FinishRefresh(c: Cell, g: nat): Cell {
    if c.controller == Some(g) then c.(controller := None) else c
  }

  function Unregister(c: Cell): Cell {
    Supersede(c).(registered := false, enabled := false, snapshot := None)
  }

  function SetEnabled(c: Cell, enabled: bool): Cell {
    var c' := c.(enabled := enabled);
    if enabled then c' else Supersede(c')
  }

  function Dispose(c: Cell): Cell {
    var c' := if c.controller.Some? then Supersede(c) else c;
    c'.(disposed := true, registered := false, enabled := false, snapshot := None)
  }

  /** The test a publication makes before it acts, and again after its store write. */
  predicate Admitted(c: Cell, g: nat) {
    g !in c.aborted && c.generation == g
  }

  function SelectRestored(current: Option<Snapshot>, stored: Snapshot): Snapshot {
    if current.Some? && current.value.generation > stored.generation then current.value else stored
  }

  function GenerationOf(s: Option<Snapshot>): nat {
    if s.Some? then s.value.generation else 0
  }

  datatype FetchResult =
    | NotModified(providerId: string, generation: nat, source: string)
    | Updated(providerId: string, generation: nat, source: string, models: seq<Model>)

  /** The snapshot a fetch result turns into; None where the source throws. */
  function Candidate(id: string, g: nat, current: Option<Snapshot>, previous: Option<Snapshot>,
                     result: FetchResult, now: int): Option<Snapshot>
  {
    if result.providerId != id || result.generation != g then None
    else match result
      case NotModified(_, _, source) =>
        if previous.None? then None else Some(previous.value.(checkedAt := now, source := source))
      case Updated(_, _, source, models) =>
        Some(Snapshot(Max(GenerationOf(previous), GenerationOf(current)) + 1, now, now, source, models))
  }

  // ---- Operations and publications in flight --------------------------------

  datatype Kind = RestoreOnly | FullRefresh

  /** Superseded also stands for an operation aborted by its caller. */
  datatype Outcome = Restored(snapshot: Option<Snapshot>) | Refreshed(candidate: Snapshot) | Superseded | Failed

  datatype Phase =
    | Reading                                        // the store read is under way
    | HasRead(stored: Option<Snapshot>)              // the read took effect, the caller has not resumed
    | Restoring(job: nat, selected: Snapshot)        // awaiting the publication of the restored catalog
    | Fetching(previous: Option<Snapshot>)           // awaiting the provider
    | Publishing(job: nat, candidate: Snapshot)      // awaiting the publication of the fetched catalog
    | Finished(outcome: Outcome)

  datatype Op = Op(kind: Kind, phase: Phase)

  /** `before` is a history variable: what the store held when the write took effect. */
  datatype JobStage =
    | Queued
    | Writing(prev: Option<Snapshot>)
    | Written(prev: Option<Snapshot>, before: Option<Snapshot>)
    | RollingBack(prev: Option<Snapshot>, before: Option<Snapshot>)
    | Done(published: bool, failed: bool)

  datatype Job = Job(generation: nat, snapshot: Snapshot, persist: bool, stage: JobStage)

  datatype Slot = Slot(
    id: string,
    cell: Cell,
    store: Option<Snapshot>,   // catalogStore's entry for the id
    chain: PQ.Queue,           // publicationChains.get(id)
    jobs: seq<Job>,            // the publications on that chain, in queue order
    ops: map<nat, Op>,         // refreshes and restores, by generation
    checks: nat                // refreshes called for the id that still await their authentication check
  )

  function Init(id: string, stored: Option<Snapshot>): Slot {
    Slot(id, FRESH, stored, PQ.EMPTY, [], map[], 0)
  }

  datatype Step =
    | DoRegister(enabled: bool)
    | DoUnregister
    | DoSetEnabled(value: bool)
    | DoDispose
    | CallRefresh                           // refresh with configuredOnly: the check is awaited first
    | CheckEnds                             // it finds the provider logged out, or fails
    | Begin(kind: Kind, afterCheck: bool)   // afterCheck: resumed from the awaited authentication check
    | CallerAbort(g: nat)
    | ReadTakes(g: nat)
    | ReadFails(g: nat)
    | RestoreResume(g: nat, valid: bool)
    | RestoreReport(g: nat)
    | Fetched(g: nat, result: FetchResult, now: int, valid: bool)
    | FetchFails(g: nat)
    | PublishReport(g: nat)
    | GiveUp(g: nat)                        // raceWithSignal rejects
    | JobStart(j: nat)
    | WriteTakes(j: nat)
    | WriteFails(j: nat)
    | JobResume(j: nat)
    | RollbackTakes(j: nat)
    | RollbackFails(j: nat)
    | ForgetChain

  predicate InPhase(s: Slot, g: nat, p: Phase -> bool) {
    g in s.ops && p(s.ops[g].phase)
  }

  predicate JobIn(s: Slot, j: nat, p: JobStage -> bool) {
    j < |s.jobs| && j < |s.chain.tasks| && p(s.jobs[j].stage)
  }

  predicate JobDone(s: Slot, j: nat) {
    JobIn(s, j, (t: JobStage) => t.Done?)
  }

  /** A call to refresh or restore the id finds it. */
  predicate CanRefresh(c: Cell) {
    !c.disposed && c.registered && c.enabled
  }

  predicate Enabled(s: Slot, step: Step) {
    match step
    case DoRegister(_) => !s.cell.disposed && !s.cell.registered
    case DoUnregister => s.cell.registered
    case DoSetEnabled(_) => !s.cell.disposed && s.cell.registered
    case DoDispose => !s.cell.disposed
    case CallRefresh => CanRefresh(s.cell)
    case CheckEnds => s.checks > 0
    case Begin(kind, afterCheck) => if afterCheck then kind.FullRefresh? && s.checks > 0 else CanRefresh(s.cell)
    case CallerAbort(g) => g in s.ops
    case ReadTakes(g) => InPhase(s, g, (p: Phase) => p.Reading?)
    case ReadFails(g) => InPhase(s, g, (p: Phase) => p.Reading?)
    case RestoreResume(g, _) => InPhase(s, g, (p: Phase) => p.HasRead?)
    case RestoreReport(g) => InPhase(s, g, (p: Phase) => p.Restoring?) && JobDone(s, s.ops[g].phase.job)
    case Fetched(g, _, _, _) => InPhase(s, g, (p: Phase) => p.Fetching?)
    case FetchFails(g) => InPhase(s, g, (p: Phase) => p.Fetching?)
    case PublishReport(g) => InPhase(s, g, (p: Phase) => p.Publishing?) && JobDone(s, s.ops[g].phase.job)
    case GiveUp(g) =>
      g in s.cell.aborted && InPhase(s, g, (p: Phase) => p.Restoring? || p.Fetching? || p.Publishing?)
    case JobStart(j) => JobIn(s, j, (t: JobStage) => t.Queued?) && PQ.CanStart(s.chain, j)
    case WriteTakes(j) => JobIn(s, j, (t: JobStage) => t.Writing?)
    case WriteFails(j) => JobIn(s, j, (t: JobStage) => t.Writing?)
    case JobResume(j) => JobIn(s, j, (t: JobStage) => t.Written?)
    case RollbackTakes(j) => JobIn(s, j, (t: JobStage) => t.RollingBack?)
    case RollbackFails(j) => JobIn(s, j, (t: JobStage) => t.RollingBack?)
    case ForgetChain => PQ.CanForget(s.chain)
  }

  function SetPhase(s: Slot, g: nat, p: Phase): Slot
    requires g in s.ops
  {
    s.(ops := s.ops[g := s.ops[g].(phase := p)])
  }

  function FinishOp(s: Slot, g: nat, outcome: Outcome): Slot
    requires g in s.ops
  {
    SetPhase(s, g, Finished(outcome)).(cell := FinishRefresh(s.cell, g))
  }

  /** An error is reported as a supersession when the operation's signal has fired. */
  function FailOp(s: Slot, g: nat): Slot
    requires g in s.ops
  {
    FinishOp(s, g, if g in s.cell.aborted then Superseded else Failed)
  }

  function SetJob(s: Slot, j: nat, stage: JobStage, task: PQ.Stage): Slot
    requires j < |s.jobs| && j < |s.chain.tasks|
  {
    s.(jobs := s.jobs[j := s.jobs[j].(stage := stage)], chain := PQ.SetStage(s.chain, j, task))
  }

  function SettleJob(s: Slot, j: nat, published: bool, failed: bool): Slot
    requires j < |s.jobs| && j < |s.chain.tasks|
  {
    SetJob(s, j, Done(published, failed), PQ.Settled)
  }

  function Install(s: Slot, j: nat): Slot
    requires j < |s.jobs| && j < |s.chain.tasks|
  {
    SettleJob(s, j, true, false).(cell := s.cell.(snapshot := Some(s.jobs[j].snapshot)))
  }

  function EnqueueJob(s: Slot, g: nat, snapshot: Snapshot, persist: bool): Slot {
    s.(jobs := s.jobs + [Job(g, snapshot, persist, Queued)], chain := PQ.Enqueue(s.chain))
  }

  /** Where an operation goes once its restore has produced `previous`. */
  function AfterRestore(s: Slot, g: nat, previous: Option<Snapshot>): Slot
    requires g in s.ops
  {
    if s.ops[g].kind.RestoreOnly? then FinishOp(s, g, Restored(previous))
    else if g in s.cell.aborted then FinishOp(s, g, Superseded)
    else SetPhase(s, g, Fetching(previous))
  }

  function Apply(s: Slot, step: Step): Slot
    requires Enabled(s, step)
  {
    match step
    case DoRegister(enabled) => s.(cell := s.cell.(registered := true, enabled := enabled))
    case DoUnregister => s.(cell := Unregister(s.cell))
    case DoSetEnabled(value) => s.(cell := SetEnabled(s.cell, value))
    case DoDispose => s.(cell := Dispose(s.cell))
    case CallRefresh => s.(checks := s.checks + 1)
    case CheckEnds => s.(checks := s.checks - 1)
    case Begin(kind, afterCheck) =>
      var c := BeginRefresh(s.cell);
      s.(cell := c, ops := s.ops[c.generation := Op(kind, Reading)], checks := if afterCheck then s.checks - 1 else s.checks)
    case CallerAbort(g) => s.(cell := s.cell.(aborted := s.cell.aborted + {g}))
    case ReadTakes(g) => SetPhase(s, g, HasRead(s.store))
    case ReadFails(g) => FailOp(s, g)
    case RestoreResume(g, valid) =>
      if g in s.cell.aborted then FinishOp(s, g, Superseded) else ResumeRestore(s, g, valid)
    case RestoreReport(g) =>
      var p := s.ops[g].phase;
      AfterRestore(s, g, if s.jobs[p.job].stage.published then Some(p.selected) else None)
    case Fetched(g, result, now, valid) =>
      var candidate := Candidate(s.id, g, s.cell.snapshot, s.ops[g].phase.previous, result, now);
      if g in s.cell.aborted then FinishOp(s, g, Superseded)
      else if candidate.None? || !valid then FailOp(s, g)
      else SetPhase(EnqueueJob(s, g, candidate.value, true), g, Publishing(|s.jobs|, candidate.value))
    case FetchFails(g) => FailOp(s, g)
    case PublishReport(g) =>
      var p := s.ops[g].phase;
      var stage := s.jobs[p.job].stage;
      if stage.failed then FailOp(s, g)
      else FinishOp(s, g, if stage.published then Refreshed(p.candidate) else Superseded)
    case GiveUp(g) => FinishOp(s, g, Superseded)
    case JobStart(j) =>
      if !Admitted(s.cell, s.jobs[j].generation) then SettleJob(s, j, false, false)
      else if s.jobs[j].persist then SetJob(s, j, Writing(s.cell.snapshot), PQ.Running)
      else Install(s, j)
    case WriteTakes(j) =>
      SetJob(s, j, Written(s.jobs[j].stage.prev, s.store), PQ.Running).(store := Some(s.jobs[j].snapshot))
    case WriteFails(j) => SettleJob(s, j, false, true)
    case JobResume(j) =>
      if Admitted(s.cell, s.jobs[j].generation) then Install(s, j)
      else SetJob(s, j, RollingBack(s.jobs[j].stage.prev, s.jobs[j].stage.before), PQ.Running)
    case RollbackTakes(j) => SettleJob(s, j, false, false).(store := s.jobs[j].stage.prev)
    case RollbackFails(j) => SettleJob(s, j, false, true)
    case ForgetChain => s.(chain := PQ.Forget(s.chain))
  }

  /** restoreProvider after its read: keep memory, or publish the newer of memory and store. */
  function ResumeRestore(s: Slot, g: nat, valid: bool): Slot
    requires InPhase(s, g, (p: Phase) => p.HasRead?)
  {
    match s.ops[g].phase.stored
    case None => AfterRestore(s, g, s.cell.snapshot)
    case Some(stored) =>
      if !valid then FailOp(s, g)
      else
        var selected := SelectRestored(s.cell.snapshot, stored);
        SetPhase(EnqueueJob(s, g, selected, false), g, Restoring(|s.jobs|, selected))
  }
}
