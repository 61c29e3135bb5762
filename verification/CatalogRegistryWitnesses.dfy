/** Runs that show the side conditions of the agreement theorems are needed. */
module CatalogRegistryWitnesses {
  import opened Prelude
  import opened CatalogRegistry
  import opened CatalogRegistryProofs
  import opened CatalogRegistryRuns
  import opened CatalogRegistryCoherence
  import PQ = PromiseQueue

  /** A run in which every step is clean, except those equal to `exception`. */
  datatype Script = Script(states: seq<Slot>, steps: seq<Step>)

  ghost predicate Plays(t: Script, s: Slot, exception: Step) {
    && Run(t.states, t.steps)
    && t.states[|t.steps|] == s
    && forall k: nat :: k < |t.steps| ==> Clean(t.states[k], t.steps[k]) || t.steps[k] == exception
  }

  lemma Then(t: Script, s: Slot, step: Step, exception: Step) returns (t': Script, s': Slot)
    requires Plays(t, s, exception) && Enabled(s, step) && (Clean(s, step) || step == exception)
    ensures s' == Apply(s, step) && Plays(t', s', exception)
    ensures t'.states == t.states + [s'] && t'.steps == t.steps + [step]
  {
    s' := Apply(s, step);
    t' := Script(t.states + [s'], t.steps + [step]);
    assert t'.states[0] == t.states[0];
    forall k: nat | k < |t'.steps|
      ensures NextBy(t'.states[k], t'.steps[k], t'.states[k + 1])
      ensures Clean(t'.states[k], t'.steps[k]) || t'.steps[k] == exception
    {
      if k < |t.steps| {
        assert NextBy(t.states[k], t.steps[k], t.states[k + 1]);
      }
    }
  }

  const ONE_QUEUED := PQ.Queue([PQ.Task(None, PQ.Waiting)], Some(0))
  const ONE_SETTLED := PQ.Queue([PQ.Task(None, PQ.Settled)], Some(0))
  const TWO_RUNNING := PQ.Queue([PQ.Task(None, PQ.Settled), PQ.Task(Some(0), PQ.Running)], Some(1))
  const TWO_SETTLED := PQ.Queue([PQ.Task(None, PQ.Settled), PQ.Task(Some(0), PQ.Settled)], Some(1))

  /** Operation `g` has begun over a store that holds `first`, with nothing published yet. */
  function Begun(id: string, c: Cell, g: nat, first: Snapshot): Slot {
    Slot(id, c, Some(first), PQ.EMPTY, [], map[g := Op(FullRefresh, Reading)], 0)
  }

  /** Its restored catalog has reached memory. */
  function RestoredIn(id: string, c: Cell, g: nat, first: Snapshot): Slot {
    Slot(id, c.(snapshot := Some(first)), Some(first), ONE_SETTLED, [Job(g, first, false, Done(true, false))],
         map[g := Op(FullRefresh, Restoring(0, first))], 0)
  }

  /** The read has returned; the restore is to be published. */
  function ReadIn(id: string, c: Cell, g: nat, first: Snapshot): Slot {
    Begun(id, c, g, first).(ops := map[g := Op(FullRefresh, HasRead(Some(first)))])
  }

  function RestoreQueuedIn(id: string, c: Cell, g: nat, first: Snapshot): Slot {
    Begun(id, c, g, first).(ops := map[g := Op(FullRefresh, Restoring(0, first))], chain := ONE_QUEUED,
                            jobs := [Job(g, first, false, Queued)])
  }

  lemma RestoreSteps(id: string, c: Cell, g: nat, first: Snapshot)
    requires Admitted(c, g) && c.snapshot.None?
    ensures Enabled(Begun(id, c, g, first), ReadTakes(g)) && Clean(Begun(id, c, g, first), ReadTakes(g))
    ensures Apply(Begun(id, c, g, first), ReadTakes(g)) == ReadIn(id, c, g, first)
  {}

  lemma RestoreQueueStep(id: string, c: Cell, g: nat, first: Snapshot)
    requires Admitted(c, g) && c.snapshot.None?
    ensures var s := ReadIn(id, c, g, first);
      && Enabled(s, RestoreResume(g, true)) && Clean(s, RestoreResume(g, true))
      && Apply(s, RestoreResume(g, true)) == RestoreQueuedIn(id, c, g, first)
  {}

  lemma RestoreJobStep(id: string, c: Cell, g: nat, first: Snapshot)
    requires Admitted(c, g) && c.snapshot.None?
    ensures var s := RestoreQueuedIn(id, c, g, first);
      Enabled(s, JobStart(0)) && Clean(s, JobStart(0)) && Apply(s, JobStart(0)) == RestoredIn(id, c, g, first)
  {}

  lemma PlayRestore(t0: Script, id: string, c: Cell, g: nat, first: Snapshot, exception: Step) returns (t: Script)
    requires Plays(t0, Begun(id, c, g, first), exception)
    requires Admitted(c, g) && c.snapshot.None?
    ensures Plays(t, RestoredIn(id, c, g, first), exception) && t0.steps <= t.steps
  {
    hide Plays, Run, Enabled, Clean, Apply;
    RestoreSteps(id, c, g, first);
    RestoreQueueStep(id, c, g, first);
    RestoreJobStep(id, c, g, first);
    var s := Begun(id, c, g, first);
    t := t0;
    t, s := Then(t, s, ReadTakes(g), exception);
    t, s := Then(t, s, RestoreResume(g, true), exception);
    t, s := Then(t, s, JobStart(0), exception);
  }

  const FIRST_REFRESH := Cell(true, true, false, 1, Some(1), {}, None)

  lemma PlayBegin(id: string, first: Snapshot, exception: Step) returns (t: Script)
    ensures Plays(t, Begun(id, FIRST_REFRESH, 1, first), exception)
  {
    var s := Init(id, Some(first));
    t := Script([s], []);
    t, s := Then(t, s, DoRegister(true), exception);
    t, s := Then(t, s, Begin(FullRefresh, false), exception);
    assert s == Begun(id, FIRST_REFRESH, 1, first);
  }

  /** An update of `first` is being written by the first refresh. */
  function WritingUpdate(id: string, first: Snapshot, update: Snapshot): Slot {
    Slot(id, FIRST_REFRESH.(snapshot := Some(first)), Some(first), TWO_RUNNING,
         [Job(1, first, false, Done(true, false)), Job(1, update, true, Writing(Some(first)))],
         map[1 := Op(FullRefresh, Publishing(1, update))], 0)
  }

  lemma PlayUpdate(id: string, first: Snapshot, source: string, models: seq<Model>, now: int, exception: Step)
    returns (t: Script, update: Snapshot)
    ensures update == Snapshot(first.generation + 1, now, now, source, models)
    ensures Plays(t, WritingUpdate(id, first, update), exception)
  {
    hide Plays, Run;
    update := Snapshot(first.generation + 1, now, now, source, models);
    t := PlayBegin(id, first, exception);
    t := PlayRestore(t, id, FIRST_REFRESH, 1, first, exception);
    var s := RestoredIn(id, FIRST_REFRESH, 1, first);
    t, s := Then(t, s, RestoreReport(1), exception);
    assert s == RestoredIn(id, FIRST_REFRESH, 1, first).(ops := map[1 := Op(FullRefresh, Fetching(Some(first)))]);
    t, s := Then(t, s, Fetched(1, Updated(id, 1, source, models), now, true), exception);
    assert s.jobs == [Job(1, first, false, Done(true, false)), Job(1, update, true, Queued)];
    assert s.ops == map[1 := Op(FullRefresh, Publishing(1, update))];
    t := StartWriting(t, s, id, first, update, exception);
  }

  lemma StartWriting(t0: Script, s: Slot, id: string, first: Snapshot, update: Snapshot, exception: Step) returns (t: Script)
    requires Plays(t0, s, exception)
    requires s == WritingUpdate(id, first, update).(
      chain := PQ.Queue([PQ.Task(None, PQ.Settled), PQ.Task(Some(0), PQ.Waiting)], Some(1)),
      jobs := [Job(1, first, false, Done(true, false)), Job(1, update, true, Queued)])
    ensures Plays(t, WritingUpdate(id, first, update), exception)
  {
    hide Plays, Run;
    var s';
    t, s' := Then(t0, s, JobStart(1), exception);
    assert s' == WritingUpdate(id, first, update);
  }

  /** The update has reached the store, and a second refresh has begun meanwhile. */
  function WrittenTooLate(id: string, first: Snapshot, update: Snapshot): Slot {
    Slot(id, Cell(true, true, false, 2, Some(2), {1}, Some(first)), Some(update), TWO_RUNNING,
         [Job(1, first, false, Done(true, false)), Job(1, update, true, Written(Some(first), Some(first)))],
         map[1 := Op(FullRefresh, Publishing(1, update)), 2 := Op(FullRefresh, Reading)], 0)
  }

  lemma PlaySupersededWrite(id: string, first: Snapshot, source: string, models: seq<Model>, now: int, exception: Step)
    returns (t: Script, update: Snapshot)
    ensures update == Snapshot(first.generation + 1, now, now, source, models)
    ensures Plays(t, WrittenTooLate(id, first, update), exception)
  {
    hide Plays, Run;
    t, update := PlayUpdate(id, first, source, models, now, exception);
    var s := WritingUpdate(id, first, update);
    t, s := Then(t, s, Begin(FullRefresh, false), exception);
    assert s.ops == map[1 := Op(FullRefresh, Publishing(1, update)), 2 := Op(FullRefresh, Reading)];
    t, s := Then(t, s, WriteTakes(1), exception);
    assert s == WrittenTooLate(id, first, update);
  }

  /**
   The store read of a restore is outside the publication chain. A read that lands
   between a superseded write and its rollback puts the rejected catalog into memory:
   for every stored catalog and every update of it there is a run, clean but for that
   one read, which ends with nothing running and memory and store in disagreement.
   */
  lemma DirtyReadBreaksAgreement(id: string, first: Snapshot, source: string, models: seq<Model>, now: int)
    returns (t: Script, s: Slot)
    ensures Plays(t, s, ReadTakes(2))
    ensures NoPublicationRunning(s) && s.store == Some(first)
    ensures s.cell.snapshot == Some(Snapshot(first.generation + 1, now, now, source, models))
  {
    hide Plays, Run;
    var update;
    t, update := PlaySupersededWrite(id, first, source, models, now, ReadTakes(2));
    s := WrittenTooLate(id, first, update);
    t, s := Then(t, s, ReadTakes(2), ReadTakes(2));
    assert s.ops == map[1 := Op(FullRefresh, Publishing(1, update)), 2 := Op(FullRefresh, HasRead(Some(update)))];
    t, s := PlayRollback(t, s, id, first, update);
    t, s := PlayStaleCatalog(t, s, update, ReadTakes(2));
  }

  /** The rejected update, read by the second refresh, is taken back. */
  lemma PlayRollback(t0: Script, s0: Slot, id: string, first: Snapshot, update: Snapshot) returns (t: Script, s: Slot)
    requires Plays(t0, s0, ReadTakes(2))
    requires s0 == WrittenTooLate(id, first, update).(
      ops := map[1 := Op(FullRefresh, Publishing(1, update)), 2 := Op(FullRefresh, HasRead(Some(update)))])
    ensures Plays(t, s, ReadTakes(2)) && NoPublicationRunning(s)
    ensures s == s0.(store := Some(first), chain := TWO_SETTLED, jobs := s.jobs) && |s.jobs| == 2
  {
    hide Plays, Run;
    t, s := Then(t0, s0, JobResume(1), ReadTakes(2));
    t, s := Then(t, s, RollbackTakes(1), ReadTakes(2));
    assert s.jobs == [Job(1, first, false, Done(true, false)), Job(1, update, true, Done(false, false))];
  }

  /** A second refresh that has read `update` carries it into memory. */
  lemma PlayStaleCatalog(t0: Script, s0: Slot, update: Snapshot, exception: Step) returns (t: Script, s: Slot)
    requires Plays(t0, s0, exception) && Admitted(s0.cell, 2)
    requires 2 in s0.ops && s0.ops[2] == Op(FullRefresh, HasRead(Some(update)))
    requires GenerationOf(s0.cell.snapshot) < update.generation
    requires |s0.jobs| == 2 && s0.chain == TWO_SETTLED && NoPublicationRunning(s0)
    ensures Plays(t, s, exception) && NoPublicationRunning(s)
    ensures s.cell.snapshot == Some(update) && s.store == s0.store
  {
    hide Plays, Run;
    t, s := Then(t0, s0, RestoreResume(2, true), exception);
    assert s.jobs == s0.jobs + [Job(2, update, false, Queued)];
    t, s := Then(t, s, JobStart(2), exception);
  }

  /** A rollback that fails leaves the rejected catalog in the store. */
  lemma FailedRollbackBreaksAgreement(id: string, first: Snapshot, source: string, models: seq<Model>, now: int)
    returns (t: Script, s: Slot)
    ensures Plays(t, s, RollbackFails(1))
    ensures NoPublicationRunning(s) && s.cell.snapshot == Some(first)
    ensures s.store == Some(Snapshot(first.generation + 1, now, now, source, models))
  {
    hide Plays, Run;
    var update;
    t, update := PlaySupersededWrite(id, first, source, models, now, RollbackFails(1));
    s := WrittenTooLate(id, first, update);
    t, s := Then(t, s, JobResume(1), RollbackFails(1));
    t, s := Then(t, s, RollbackFails(1), RollbackFails(1));
  }

  /** A refresh is called and awaits its check while the id is unregistered. */
  lemma PlayUnregister(id: string, first: Snapshot, dispose: bool) returns (t: Script, s: Slot)
    ensures Plays(t, s, ForgetChain) && t.steps == [DoRegister(true), CallRefresh, if dispose then DoDispose else DoUnregister]
    ensures s == Init(id, Some(first)).(cell := s.cell, checks := 1)
    ensures !s.cell.registered && (dispose ==> s.cell.disposed) && s.cell.snapshot.None? && s.cell.controller.None? && s.cell.aborted == {}
  {
    s := Init(id, Some(first));
    t := Script([s], []);
    t, s := Then(t, s, DoRegister(true), ForgetChain);
    t, s := Then(t, s, CallRefresh, ForgetChain);
    t, s := Then(t, s, if dispose then DoDispose else DoUnregister, ForgetChain);
  }

  /**
   A refresh that was called for a registered id, and awaits its authentication check
   while the id is unregistered (or the registry disposed), begins anyway, and brings the
   stored catalog into memory for an id that is no longer registered.
   */
  lemma StaleBeginRevivesCatalog(id: string, first: Snapshot, dispose: bool) returns (t: Script, s: Slot)
    ensures Plays(t, s, ForgetChain)
    ensures [DoRegister(true), CallRefresh, if dispose then DoDispose else DoUnregister, Begin(FullRefresh, true)] <= t.steps
    ensures !s.cell.registered && (dispose ==> s.cell.disposed) && s.cell.snapshot == Some(first)
  {
    t, s := PlayUnregister(id, first, dispose);
    hide Plays, Run;
    t, s := Then(t, s, Begin(FullRefresh, true), ForgetChain);
    var c, g := s.cell, s.cell.generation;
    assert s == Begun(id, c, g, first);
    t := PlayRestore(t, id, c, g, first, ForgetChain);
    s := RestoredIn(id, c, g, first);
  }
}
