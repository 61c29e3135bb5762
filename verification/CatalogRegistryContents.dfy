/** What refreshes publish, where every catalog comes from, and what callers are told. */
module CatalogRegistryContents {
  import opened Prelude
  import opened CatalogRegistry
  import opened CatalogRegistryProofs
  import opened CatalogRegistryRuns

  // ---- What a refresh publishes ----------------------------------------------------------------

  /** A fetched result is published by its own step only, as the last publication of the queue. */
  lemma FetchedWhenNewest(states: seq<Slot>, steps: seq<Step>, k: nat)
    requires Run(states, steps) && k < |steps| && steps[k].Fetched? && steps[k].g !in states[k].cell.aborted
    ensures var s, g := states[k], steps[k].g;
      && g in s.ops && s.ops[g].phase.Fetching? && s.cell.generation == g && s.cell.snapshot == s.ops[g].phase.previous
  {
    RunKeepsInv(states, steps, k);
    RunKeepsFresh(states, steps, k);
    assert NextBy(states[k], steps[k], states[k + 1]);
    assert OpOk(states[k], steps[k].g) && OpFresh(states[k], steps[k].g);
  }

  /**
   A not-modified result is published if it is the newest refresh's own and a catalog is in
   memory: that catalog with its models, generation and time of update, checked now and
   from the source the provider names. Otherwise nothing is published.
   */
  lemma NotModifiedKeepsTheCatalog(states: seq<Slot>, steps: seq<Step>, k: nat, g: nat, providerId: string, echoed: nat,
                                   source: string, now: int)
    requires Run(states, steps) && k < |steps| && steps[k] == Fetched(g, NotModified(providerId, echoed, source), now, true)
    ensures var s, s' := states[k], states[k + 1];
      if g !in s.cell.aborted && providerId == s.id && echoed == g && s.cell.snapshot.Some? then
        var kept := s.cell.snapshot.value;
        s'.jobs == s.jobs + [Job(g, Snapshot(kept.generation, now, kept.updatedAt, source, kept.models), true, Queued)]
      else s'.jobs == s.jobs
  {
    assert NextBy(states[k], steps[k], states[k + 1]);
    if g !in states[k].cell.aborted {
      FetchedWhenNewest(states, steps, k);
    }
  }

  /**
   An update is published with exactly its models, under the generation that follows that of
   the catalog in memory.
   */
  lemma UpdateIsPublished(states: seq<Slot>, steps: seq<Step>, k: nat, g: nat, providerId: string, echoed: nat,
                          source: string, models: seq<Model>, now: int)
    requires Run(states, steps) && k < |steps| && steps[k] == Fetched(g, Updated(providerId, echoed, source, models), now, true)
    ensures var s, s' := states[k], states[k + 1];
      if g !in s.cell.aborted && providerId == s.id && echoed == g then
        var generation := if s.cell.snapshot.Some? then s.cell.snapshot.value.generation + 1 else 1;
        s'.jobs == s.jobs + [Job(g, Snapshot(generation, now, now, source, models), true, Queued)]
      else s'.jobs == s.jobs
  {
    assert NextBy(states[k], steps[k], states[k + 1]);
    if g !in states[k].cell.aborted {
      FetchedWhenNewest(states, steps, k);
    }
  }

  /** A restore publishes what it read, unless memory has a catalog of a larger generation: then that one. */
  lemma RestorePublishesTheNewer(s: Slot, g: nat, stored: Snapshot)
    requires Enabled(s, RestoreResume(g, true)) && s.ops[g].phase == HasRead(Some(stored)) && g !in s.cell.aborted
    ensures var s' := Apply(s, RestoreResume(g, true));
      |s'.jobs| == |s.jobs| + 1 && s'.jobs[|s.jobs|] ==
        Job(g, match s.cell.snapshot
               case None => stored
               case Some(current) => if current.generation > stored.generation then current else stored,
            false, Queued)
  {}

  /** Only valid catalogs of operations whose signal has not fired are ever published, and a refused one ends the operation. */
  lemma OnlyValidIsPublished(s: Slot, step: Step)
    requires Enabled(s, step) && (step.RestoreResume? || step.Fetched?)
    requires step.g in s.cell.aborted || (!step.valid && (step.Fetched? || s.ops[step.g].phase.stored.Some?))
    ensures Apply(s, step).jobs == s.jobs && Apply(s, step).ops[step.g].phase.Finished?
    ensures Apply(s, step).ops[step.g].phase.outcome == if step.g in s.cell.aborted then Superseded else Failed
  {}

  /** And no other step publishes. */
  lemma OnlyTheyPublish(s: Slot, step: Step)
    requires Enabled(s, step) && !step.RestoreResume? && !step.Fetched?
    ensures |Apply(s, step).jobs| == |s.jobs|
  {}

  // ---- Where every catalog comes from ------------------------------------------------------------

  /** The model lists given by the store at the start and by the provider's updates so far. */
  function Given(states: seq<Slot>, steps: seq<Step>, k: nat): set<seq<Model>>
    requires k <= |steps| && |states| == |steps| + 1
  {
    if k == 0 then if states[0].store.Some? then {states[0].store.value.models} else {}
    else Given(states, steps, k - 1) + GivenBy(steps[k - 1])
  }

  function GivenBy(step: Step): set<seq<Model>> {
    if step.Fetched? && step.valid && step.result.Updated? then {step.result.models} else {}
  }

  predicate From(v: Option<Snapshot>, given: set<seq<Model>>) {
    v.Some? ==> v.value.models in given
  }

  predicate PhaseFrom(p: Phase, given: set<seq<Model>>) {
    match p
    case HasRead(stored) => From(stored, given)
    case Restoring(_, selected) => From(Some(selected), given)
    case Fetching(previous) => From(previous, given)
    case Publishing(_, candidate) => From(Some(candidate), given)
    case Finished(Restored(v)) => From(v, given)
    case Finished(Refreshed(c)) => From(Some(c), given)
    case _ => true
  }

  predicate JobFrom(job: Job, given: set<seq<Model>>) {
    && From(Some(job.snapshot), given)
    && (job.stage.Writing? || job.stage.Written? || job.stage.RollingBack? ==> From(job.stage.prev, given))
  }

  /** Every catalog in memory, in the store, in a publication, or in an operation or its result. */
  ghost predicate AllFrom(s: Slot, given: set<seq<Model>>) {
    && From(s.cell.snapshot, given) && From(s.store, given)
    && (forall j :: 0 <= j < |s.jobs| ==> JobFrom(s.jobs[j], given))
    && (forall g :: g in s.ops ==> PhaseFrom(s.ops[g].phase, given))
  }

  lemma OpStepKeepsFrom(s: Slot, step: Step, given: set<seq<Model>>)
    requires Inv(s) && Enabled(s, step) && IsOpStep(step) && AllFrom(s, given)
    ensures AllFrom(Apply(s, step), given + GivenBy(step))
  {
    OpStepFrame(s, step);
    assert OpOk(s, step.g) && PhaseFrom(s.ops[step.g].phase, given);
    OwnStepKeepsFrom(s, step, given);
    NewJobsFrom(s, step, given);
    var s' := Apply(s, step);
    forall g | g in s'.ops ensures PhaseFrom(s'.ops[g].phase, given + GivenBy(step)) {
      assert g != step.g ==> PhaseFrom(s.ops[g].phase, given);
    }
  }

  lemma OwnStepKeepsFrom(s: Slot, step: Step, given: set<seq<Model>>)
    requires Enabled(s, step) && IsOpStep(step) && From(s.cell.snapshot, given) && From(s.store, given)
    requires PhaseFrom(s.ops[step.g].phase, given)
    ensures step.g in Apply(s, step).ops && PhaseFrom(Apply(s, step).ops[step.g].phase, given + GivenBy(step))
  {
    hide Candidate;
    if step.Fetched? {
      CandidateFrom(s.id, step.g, s.cell.snapshot, s.ops[step.g].phase.previous, step.result, step.now, given);
    }
  }

  lemma CandidateFrom(id: string, g: nat, current: Option<Snapshot>, previous: Option<Snapshot>, result: FetchResult, now: int,
                      given: set<seq<Model>>)
    requires From(previous, given)
    ensures From(Candidate(id, g, current, previous, result, now),
                 given + if result.Updated? then {result.models} else {})
  {}

  lemma NewJobsFrom(s: Slot, step: Step, given: set<seq<Model>>)
    requires Enabled(s, step) && IsOpStep(step) && From(s.cell.snapshot, given) && From(s.store, given)
    requires PhaseFrom(s.ops[step.g].phase, given)
    ensures forall j: nat :: |s.jobs| <= j < |Apply(s, step).jobs| ==> JobFrom(Apply(s, step).jobs[j], given + GivenBy(step))
  {
    hide Candidate;
    if step.Fetched? {
      CandidateFrom(s.id, step.g, s.cell.snapshot, s.ops[step.g].phase.previous, step.result, step.now, given);
    }
  }

  lemma JobStepKeepsFrom(s: Slot, step: Step, given: set<seq<Model>>)
    requires Enabled(s, step) && IsJobStep(step) && AllFrom(s, given)
    ensures AllFrom(Apply(s, step), given)
  {
    assert JobFrom(s.jobs[step.j], given);
    var s' := Apply(s, step);
    forall j | 0 <= j < |s'.jobs| ensures JobFrom(s'.jobs[j], given) {
      assert JobFrom(s.jobs[j], given);
    }
  }

  lemma StepKeepsFrom(s: Slot, step: Step, given: set<seq<Model>>)
    requires Inv(s) && Enabled(s, step) && AllFrom(s, given)
    ensures AllFrom(Apply(s, step), given + GivenBy(step))
  {
    if IsOpStep(step) {
      OpStepKeepsFrom(s, step, given);
    } else if IsJobStep(step) {
      JobStepKeepsFrom(s, step, given);
      assert given + GivenBy(step) == given;
    } else {
      CellStepKeepsFrom(s, step, given);
    }
  }

  lemma CellStepKeepsFrom(s: Slot, step: Step, given: set<seq<Model>>)
    requires Enabled(s, step) && AllFrom(s, given) && !IsOpStep(step) && !IsJobStep(step)
    ensures AllFrom(Apply(s, step), given + GivenBy(step))
  {
    assert given + GivenBy(step) == given;
  }

  /**
   No catalog ever has models other than those the store held at the start or the provider
   sent in an update before: not in memory, not in the store, and not in what callers get.
   */
  lemma {:induction false} CatalogsAreGiven(states: seq<Slot>, steps: seq<Step>, k: nat)
    requires Run(states, steps) && k <= |steps|
    ensures AllFrom(states[k], Given(states, steps, k))
  {
    if k > 0 {
      CatalogsAreGiven(states, steps, k - 1);
      RunKeepsInv(states, steps, k - 1);
      assert NextBy(states[k - 1], steps[k - 1], states[k]);
      StepKeepsFrom(states[k - 1], steps[k - 1], Given(states, steps, k - 1));
    }
  }

  // ---- What callers are told ------------------------------------------------------------------------

  /** Some publication of the operation put this catalog into memory. */
  ghost predicate WasPublished(s: Slot, g: nat, catalog: Snapshot, persisted: bool) {
    exists j: nat :: j < |s.jobs| && s.jobs[j] == Job(g, catalog, persisted, Done(true, false))
  }

  /**
   When an operation ends: it reports a refreshed catalog exactly when its own publication
   was installed, a supersession only when its signal has fired, and a failure only when it
   has not.
   */
  lemma ReportIsHonest(states: seq<Slot>, steps: seq<Step>, k: nat, g: nat)
    requires Run(states, steps) && k < |steps| && g in states[k].ops && g in states[k + 1].ops
    requires !states[k].ops[g].phase.Finished? && states[k + 1].ops[g].phase.Finished?
    ensures match states[k + 1].ops[g].phase.outcome
            case Refreshed(catalog) => steps[k] == PublishReport(g) && WasPublished(states[k], g, catalog, true)
            case Restored(v) => states[k].ops[g].kind.RestoreOnly? && IsRestored(states[k], steps[k], g, v)
            case Superseded => g in states[k].cell.aborted
            case Failed => g !in states[k].cell.aborted
    ensures states[k + 1].cell.controller != Some(g)
    ensures steps[k] == PublishReport(g) && WasPublishedBy(states[k], g) ==> states[k + 1].ops[g].phase.outcome.Refreshed?
  {
    var s, step := states[k], steps[k];
    RunKeepsInv(states, steps, k);
    assert NextBy(s, step, states[k + 1]);
    OnlyOwnStepEnds(s, step, g);
    EndIsHonest(s, step);
  }

  lemma OnlyOwnStepEnds(s: Slot, step: Step, g: nat)
    requires Inv(s) && Enabled(s, step) && g in s.ops && g in Apply(s, step).ops
    requires !s.ops[g].phase.Finished? && Apply(s, step).ops[g].phase.Finished?
    ensures IsOpStep(step) && step.g == g
  {
    assert OpOk(s, g);
    if IsOpStep(step) {
      OpStepFrame(s, step);
    }
  }

  ghost predicate WasPublishedBy(s: Slot, g: nat) {
    && g in s.ops && s.ops[g].phase.Publishing? && s.ops[g].phase.job < |s.jobs|
    && s.jobs[s.ops[g].phase.job].stage == Done(true, false)
  }

  /** What a restore gives: memory if nothing was stored, else what its own publication put there, if it was not superseded. */
  ghost predicate IsRestored(s: Slot, step: Step, g: nat, v: Option<Snapshot>) {
    || (step.RestoreResume? && g in s.ops && s.ops[g].phase == HasRead(None) && v == s.cell.snapshot)
    || (step.RestoreReport? && match v
                               case Some(catalog) => WasPublished(s, g, catalog, false)
                               case None => g in s.cell.aborted)
  }

  lemma EndIsHonest(s: Slot, step: Step)
    requires Inv(s) && Enabled(s, step) && IsOpStep(step)
    requires step.g in Apply(s, step).ops && Apply(s, step).ops[step.g].phase.Finished?
    ensures match Apply(s, step).ops[step.g].phase.outcome
            case Refreshed(catalog) => step.PublishReport? && WasPublished(s, step.g, catalog, true)
            case Restored(v) => s.ops[step.g].kind.RestoreOnly? && IsRestored(s, step, step.g, v)
            case Superseded => step.g in s.cell.aborted
            case Failed => step.g !in s.cell.aborted
    ensures Apply(s, step).cell.controller != Some(step.g)
    ensures step.PublishReport? && WasPublishedBy(s, step.g) ==> Apply(s, step).ops[step.g].phase.outcome.Refreshed?
  {
    assert OpOk(s, step.g);
    if step.PublishReport? || step.RestoreReport? {
      assert JobOk(s, s.ops[step.g].phase.job);
    }
  }

  /** Publication j was installed by an earlier step, as the catalog it carries. */
  ghost predicate WasInstalled(states: seq<Slot>, steps: seq<Step>, k: nat, j: nat, catalog: Snapshot)
    requires k <= |steps| && |states| == |steps| + 1
  {
    exists i: nat :: i < k && Enabled(states[i], steps[i]) && Installs(states[i], steps[i]).Some? && steps[i].j == j
                     && states[i + 1].cell.snapshot == Some(catalog)
  }

  /** A publication counts as published only if it was put into memory, and as failed only if its write or rollback failed. */
  lemma {:induction false} PublishedMeansInstalled(states: seq<Slot>, steps: seq<Step>, k: nat, j: nat)
    requires Run(states, steps) && k <= |steps| && j < |states[k].jobs| && states[k].jobs[j].stage.Done?
    ensures states[k].jobs[j].stage.published ==> WasInstalled(states, steps, k, j, states[k].jobs[j].snapshot)
    ensures states[k].jobs[j].stage.failed ==> exists i: nat :: i < k && (steps[i] == WriteFails(j) || steps[i] == RollbackFails(j))
    decreases k
  {
    if k > 0 {
      var s, step := states[k - 1], steps[k - 1];
      assert NextBy(s, step, states[k]);
      JobDoneBy(s, step, j);
      if j < |s.jobs| && s.jobs[j].stage.Done? {
        PublishedMeansInstalled(states, steps, k - 1, j);
      }
    }
  }

  lemma JobDoneBy(s: Slot, step: Step, j: nat)
    requires Enabled(s, step) && j < |Apply(s, step).jobs| && Apply(s, step).jobs[j].stage.Done?
    ensures j < |s.jobs| && Apply(s, step).jobs[j].snapshot == s.jobs[j].snapshot
    ensures s.jobs[j].stage.Done? ==> Apply(s, step).jobs[j] == s.jobs[j]
    ensures !s.jobs[j].stage.Done? ==>
              var stage := Apply(s, step).jobs[j].stage;
              && (stage.published <==> Installs(s, step).Some? && step.j == j)
              && (stage.published ==> Apply(s, step).cell.snapshot == Some(s.jobs[j].snapshot))
              && (stage.failed <==> step == WriteFails(j) || step == RollbackFails(j))
  {
    if IsOpStep(step) {
      OpStepFrame(s, step);
    } else if IsJobStep(step) {
      assert j != step.j ==> Apply(s, step).jobs[j] == s.jobs[j];
    }
  }

  /** What the synchronous operations do to the record of an id, field by field. */
  lemma SynchronousSteps(c: Cell, enabled: bool)
    ensures var fired := if c.controller.Some? then c.aborted + {c.controller.value} else c.aborted;
      && Unregister(c) == Cell(false, false, c.disposed, c.generation + 1, None, fired, None)
      && BeginRefresh(c) == Cell(c.registered, c.enabled, c.disposed, c.generation + 1, Some(c.generation + 1), fired, c.snapshot)
      && SetEnabled(c, true) == Cell(c.registered, true, c.disposed, c.generation, c.controller, c.aborted, c.snapshot)
      && SetEnabled(c, false) == Cell(c.registered, false, c.disposed, c.generation + 1, None, fired, c.snapshot)
      && Dispose(c) == Cell(false, false, true, if c.controller.Some? then c.generation + 1 else c.generation, None, fired, None)
      && forall g: nat :: FinishRefresh(c, g) == Cell(c.registered, c.enabled, c.disposed, c.generation,
                                                 if c.controller == Some(g) then None else c.controller, c.aborted, c.snapshot)
  {}

  /** A step of the protocol does to the record what its operation does, and only then. */
  lemma StepsOnTheRecord(s: Slot, step: Step)
    requires Enabled(s, step)
    ensures match step
            case DoRegister(enabled) => Apply(s, step).cell == s.cell.(registered := true, enabled := enabled)
            case DoUnregister => Apply(s, step).cell == Unregister(s.cell)
            case DoSetEnabled(enabled) => Apply(s, step).cell == SetEnabled(s.cell, enabled)
            case DoDispose => Apply(s, step).cell == Dispose(s.cell)
            case Begin(_, _) => Apply(s, step).cell == BeginRefresh(s.cell)
            case CallerAbort(g) => Apply(s, step).cell == s.cell.(aborted := s.cell.aborted + {g})
            case _ =>
              var c := Apply(s, step).cell;
              c == s.cell.(controller := c.controller, snapshot := c.snapshot)
  {
    if IsOpStep(step) {
      OpStepFrame(s, step);
    }
  }

  // ---- Calls, and what goes on ----------------------------------------------------------------------------

  /** Which calls the registry takes: only on a live registry, and refreshes only of a registered and enabled id. */
  lemma CallsAreGuarded(s: Slot, kind: Kind, flag: bool)
    ensures Enabled(s, DoRegister(flag)) <==> !s.cell.disposed && !s.cell.registered
    ensures Enabled(s, DoUnregister) <==> s.cell.registered
    ensures Enabled(s, DoSetEnabled(flag)) <==> !s.cell.disposed && s.cell.registered
    ensures Enabled(s, DoDispose) <==> !s.cell.disposed
    ensures Enabled(s, CallRefresh) <==> !s.cell.disposed && s.cell.registered && s.cell.enabled
    ensures Enabled(s, Begin(kind, false)) <==> !s.cell.disposed && s.cell.registered && s.cell.enabled
    ensures Enabled(s, Begin(kind, true)) <==> kind == FullRefresh && s.checks > 0
  {}

  /** An operation begins by reading the store, under the next generation. */
  lemma BeginReads(s: Slot, kind: Kind, afterCheck: bool)
    requires Enabled(s, Begin(kind, afterCheck))
    ensures var s' := Apply(s, Begin(kind, afterCheck));
      s'.ops == s.ops[s.cell.generation + 1 := Op(kind, Reading)] && s'.jobs == s.jobs && s'.store == s.store
  {}

  /** How many refreshes the first k steps leave waiting for their check. */
  function Waiting(steps: seq<Step>, k: nat): int
    requires k <= |steps|
  {
    if k == 0 then 0
    else
      Waiting(steps, k - 1) +
      match steps[k - 1]
      case CallRefresh => 1
      case CheckEnds => -1
      case Begin(_, true) => -1
      case _ => 0
  }

  lemma {:induction false} ChecksAreWaiting(states: seq<Slot>, steps: seq<Step>, k: nat)
    requires Run(states, steps) && k <= |steps|
    ensures states[k].checks == Waiting(steps, k)
  {
    if k > 0 {
      ChecksAreWaiting(states, steps, k - 1);
      assert NextBy(states[k - 1], steps[k - 1], states[k]);
      CountChecks(states[k - 1], steps[k - 1]);
    }
  }

  lemma CountChecks(s: Slot, step: Step)
    requires Enabled(s, step)
    ensures Apply(s, step).checks == s.checks + match step
                                                case CallRefresh => 1
                                                case CheckEnds => -1
                                                case Begin(_, true) => -1
                                                case _ => 0
  {}

  /** Each operation goes on as soon as what it waits for is there, and gives up waiting only when its signal has fired. */
  lemma OperationsGoOn(s: Slot, g: nat)
    requires g in s.ops
    ensures match s.ops[g].phase
            case Reading => Enabled(s, ReadTakes(g)) && Enabled(s, ReadFails(g))
            case HasRead(_) => Enabled(s, RestoreResume(g, true)) && Enabled(s, RestoreResume(g, false))
            case Restoring(j, _) => Enabled(s, RestoreReport(g)) <==> JobDone(s, j)
            case Fetching(_) =>
              Enabled(s, FetchFails(g)) && forall result: FetchResult, now: int, valid: bool :: Enabled(s, Fetched(g, result, now, valid))
            case Publishing(j, _) => Enabled(s, PublishReport(g)) <==> JobDone(s, j)
            case Finished(_) => true
    ensures Enabled(s, GiveUp(g)) <==>
            g in s.cell.aborted && (s.ops[g].phase.Restoring? || s.ops[g].phase.Fetching? || s.ops[g].phase.Publishing?)
    ensures Enabled(s, CallerAbort(g))
  {}

  /** The first unfinished publication can always move. */
  lemma FirstPublicationCanMove(s: Slot, j: nat)
    requires Inv(s) && j < |s.jobs| && !s.jobs[j].stage.Done? && forall i: nat :: i < j ==> s.jobs[i].stage.Done?
    ensures match s.jobs[j].stage
            case Queued => Enabled(s, JobStart(j))
            case Writing(_) => Enabled(s, WriteTakes(j)) && Enabled(s, WriteFails(j))
            case Written(_, _) => Enabled(s, JobResume(j))
            case RollingBack(_, _) => Enabled(s, RollbackTakes(j)) && Enabled(s, RollbackFails(j))
            case Done(_, _) => false
  {
    hide OpOk;
    assert JobOk(s, j);
    if j > 0 {
      assert JobOk(s, j - 1);
    }
  }

  /** A refresh whose signal has fired goes no further when it resumes. */
  lemma AbortedEnds(s: Slot, step: Step)
    requires Enabled(s, step) && (step.RestoreResume? || step.RestoreReport? || step.Fetched?) && step.g in s.cell.aborted
    requires s.ops[step.g].kind.FullRefresh?
    ensures Apply(s, step).ops[step.g].phase == Finished(Superseded)
  {}
}
