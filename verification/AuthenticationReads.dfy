/**
 When a resolve over a store that answers reads at once can report a credential that a
 logout has deleted: from which states, and how the run then goes on.
 */
module AuthenticationReads {
  import opened Prelude
  import opened Authentication
  import opened AuthenticationProofs
  import opened AuthenticationRuns
  import PQ = PromiseQueue

  datatype Path = Path(states: seq<Auth>, steps: seq<Step>)

  ghost predicate Ends(r: Path, a: Auth) {
    Run(r.states, r.steps) && a == r.states[|r.steps|]
  }

  predicate BeginsNothing(step: Step) {
    !step.LoginBegin? && !step.LogoutBegin?
  }

  /** The run continues the other, and no login or logout begins in between. */
  ghost predicate GoesOn(r: Path, all: Path) {
    && r.states <= all.states && r.steps <= all.steps
    && forall k: nat :: |r.steps| <= k < |all.steps| ==> BeginsNothing(all.steps[k])
  }

  lemma Then(r: Path, t: Path, a: Auth, step: Step) returns (t': Path, b: Auth)
    requires Ends(t, a) && GoesOn(r, t) && Enabled(a, step) && BeginsNothing(step)
    ensures b == Apply(a, step) && Ends(t', b) && GoesOn(r, t')
    ensures t' == Path(t.states + [b], t.steps + [step])
  {
    b := Apply(a, step);
    t' := Path(t.states + [b], t.steps + [step]);
    assert t'.states[0] == t.states[0];
    forall k: nat | k < |t'.steps| ensures NextBy(t'.states[k], t'.steps[k], t'.states[k + 1]) {
      if k < |t.steps| {
        assert NextBy(t.states[k], t.steps[k], t.states[k + 1]);
      }
    }
  }

  lemma EndInv(r: Path, a: Auth)
    requires Ends(r, a)
    ensures Inv(a)
  {
    RunKeepsInv(r.states, r.steps, |r.steps|);
  }

  // ---- Tasks run to their end ------------------------------------------------------------------

  ghost predicate DoneBelow(a: Auth, n: nat) {
    forall t: nat :: t < n && t < |a.tasks| ==> a.tasks[t].stage.Done?
  }

  /** `b` is `a` with task t moved on, and the store as that leaves it. */
  ghost predicate MovedTo(a: Auth, b: Auth, t: nat) {
    && b.face == a.face && b.ops == a.ops && b.resolves == a.resolves && b.queuedReads == a.queuedReads
    && t < |a.tasks| == |b.tasks| && b.tasks[t].job == a.tasks[t].job
    && forall i: nat :: i < |a.tasks| && i != t ==> b.tasks[i] == a.tasks[i]
  }

  lemma TaskMoves(a: Auth, t: nat, now: int)
    requires IsTask(a, t)
    ensures a.tasks[t].stage.Queued? && PQ.CanStart(a.queue, t) ==>
              var step := TaskStart(t, now, false);
              Enabled(a, step) && MovedTo(a, Apply(a, step), t) && IsTask(Apply(a, step), t)
              && (Apply(a, step).tasks[t].stage.Refreshing? || Apply(a, step).tasks[t].stage.Decided?)
    ensures a.tasks[t].stage.Refreshing? ==>
              var step := RefreshReturns(t, Token("refreshed", now));
              Enabled(a, step) && MovedTo(a, Apply(a, step), t) && IsTask(Apply(a, step), t) && Apply(a, step).tasks[t].stage.Decided?
  {}

  lemma TaskEnds(a: Auth, t: nat)
    requires IsTask(a, t) && a.tasks[t].stage.Decided?
    ensures var step := TaskTakes(t);
      && Enabled(a, step) && MovedTo(a, Apply(a, step), t) && Apply(a, step).tasks[t].stage.Done? && !Apply(a, step).tasks[t].stage.failed
      && (a.tasks[t].job.Remove? ==> Apply(a, step).store.None?)
  {}

  lemma NextCanStart(a: Auth, t: nat)
    requires Inv(a) && t < |a.tasks| && a.tasks[t].stage.Queued? && DoneBelow(a, t)
    ensures PQ.CanStart(a.queue, t)
  {
    assert TaskOk(a, t);
    if t > 0 {
      assert TaskOk(a, t - 1);
    }
  }

  lemma TasksMatchQueue(a: Auth)
    requires Inv(a)
    ensures |a.tasks| == |a.queue.tasks|
  {}

  /** What the continuation adds to the steps only moves tasks. */
  ghost predicate OnlyTasks(t: Path, t': Path) {
    && t.steps <= t'.steps
    && forall k: nat :: |t.steps| <= k < |t'.steps| ==> IsTaskStep(t'.steps[k])
  }

  /** The first task that is not done comes to its end without a failure; a delete empties the store. */
  lemma FinishTask(r: Path, t0: Path, a0: Auth, i: nat, now: int) returns (t: Path, a: Auth)
    requires Ends(t0, a0) && GoesOn(r, t0)
    requires i < |a0.tasks| && !a0.tasks[i].stage.Done? && DoneBelow(a0, i)
    ensures Ends(t, a) && GoesOn(r, t) && OnlyTasks(t0, t) && MovedTo(a0, a, i)
    ensures a.tasks[i].stage.Done? && !a.tasks[i].stage.failed
    ensures a0.tasks[i].job.Remove? ==> a.store.None?
  {
    hide Ends, GoesOn, Inv, Enabled, Apply;
    EndInv(t0, a0);
    TasksMatchQueue(a0);
    t, a := t0, a0;
    TaskMoves(a, i, now);
    if a.tasks[i].stage.Queued? {
      NextCanStart(a, i);
      t, a := Then(r, t, a, TaskStart(i, now, false));
      TaskMoves(a, i, now);
    }
    if a.tasks[i].stage.Refreshing? {
      t, a := Then(r, t, a, RefreshReturns(i, Token("refreshed", now)));
    }
    TaskEnds(a, i);
    t, a := Then(r, t, a, TaskTakes(i));
  }

  lemma {:induction false} FinishTasksBelow(r: Path, t0: Path, a0: Auth, i: nat, n: nat, now: int) returns (t: Path, a: Auth)
    requires Ends(t0, a0) && GoesOn(r, t0) && i <= n <= |a0.tasks| && DoneBelow(a0, i)
    ensures Ends(t, a) && GoesOn(r, t) && OnlyTasks(t0, t) && DoneBelow(a, n)
    ensures a.face == a0.face && a.ops == a0.ops && a.resolves == a0.resolves && |a.tasks| == |a0.tasks|
    ensures forall j: nat :: n <= j < |a0.tasks| ==> a.tasks[j] == a0.tasks[j]
    decreases n - i
  {
    hide Ends, GoesOn;
    t, a := t0, a0;
    if i < n {
      if !a.tasks[i].stage.Done? {
        t, a := FinishTask(r, t, a, i, now);
      }
      t, a := FinishTasksBelow(r, t, a, i + 1, n, now);
    }
  }

  // ---- A resolve that goes stale -----------------------------------------------------------------

  /** The in-memory store holds a credential that is good at `now`, and a logout's delete is under way. */
  ghost predicate Exposed(a: Auth, minValidity: int, now: int) {
    && !a.queuedReads && a.store.Some? && !NoRemovePending(a)
    && !ExpiresSoon(a.store.value.credential, minValidity, now)
  }

  /**
   The run goes on with a resolve that chooses at `now`, and ends when that resolve publishes
   `authenticated` from a stored credential over an empty store.
   */
  ghost predicate GoesStale(r: Path, all: Path, minValidity: int, now: int) {
    && Run(r.states, r.steps) && Run(all.states, all.steps) && r.states <= all.states && r.steps < all.steps
    && var n, last := |r.steps|, |all.steps| - 1;
      var own := |all.states[n].resolves|;
      && n < last && all.steps[n] == ResolveBegin(minValidity)
      && (forall i: nat :: n < i <= last && all.steps[i].ResolveChoose? && all.steps[i].r == own ==> all.steps[i].now == now)
      && PublishesStored(all.states[last], all.steps[last], own)
      && all.states[last + 1].store.None?
  }

  /** Only from an exposed state. */
  lemma OnlyExposedGoStale(r: Path, a: Auth, all: Path, minValidity: int, now: int)
    requires Ends(r, a) && GoesStale(r, all, minValidity, now)
    ensures Exposed(a, minValidity, now)
  {
    var n, last := |r.steps|, |all.steps| - 1;
    assert all.states[n] == a;
    var own := |a.resolves|;
    if !Exposed(a, minValidity, now) {
      assert SafelyRead(all.states, all.steps, n, own);
      ResolveFindsACredential(all.states, all.steps, n, last, own);
    }
  }

  /** The resolve has read the credential and found it good; nothing else has changed. */
  function ReadIn(a: Auth, minValidity: int): Auth {
    a.(resolves := a.resolves + [Resolve(a.face.generation, minValidity, Authorized(a.store))])
  }

  lemma BeginAndChoose(r: Path, a: Auth, minValidity: int, now: int) returns (t: Path, b: Auth)
    requires Ends(r, a) && Exposed(a, minValidity, now)
    ensures Ends(t, b) && GoesOn(r, t) && b == ReadIn(a, minValidity)
    ensures t.steps == r.steps + [ResolveBegin(minValidity), ResolveChoose(|a.resolves|, now, true)]
  {
    hide Run;
    var own := |a.resolves|;
    t, b := Then(r, r, a, ResolveBegin(minValidity));
    t, b := Then(r, t, b, ResolveChoose(own, now, true));
    assert b.resolves == ReadIn(a, minValidity).resolves;
  }

  lemma ReportAndPublish(r: Path, t0: Path, a0: Auth, i: nat, own: nat) returns (t: Path, a: Auth)
    requires Ends(t0, a0) && GoesOn(r, t0)
    requires i < |a0.tasks| && a0.tasks[i].job.Remove? && a0.tasks[i].stage.Done? && !a0.tasks[i].stage.failed
    requires own < |a0.resolves| && a0.resolves[own].operation == a0.face.generation && a0.store.None?
    requires a0.resolves[own].phase.Authorized? && a0.resolves[own].phase.held.Some?
    ensures Ends(t, a) && GoesOn(r, t) && a.store.None?
    ensures a.face.current == Authenticated(Some(MethodOf(a0.resolves[own].phase.held.value.credential)))
    ensures t.steps == t0.steps + [LogoutReport(a0.tasks[i].job.g, false), ResolvePublish(own, true)]
    ensures |t.states| == |t.steps| + 1 && PublishesStored(t.states[|t.steps| - 1], ResolvePublish(own, true), own)
  {
    hide Ends, GoesOn, Inv;
    EndInv(t0, a0);
    DeleteKnowsItsLogout(a0, i);
    t, a := Then(r, t0, a0, LogoutReport(a0.tasks[i].job.g, false));
    ghost var reported := a;
    LengthOf(t, a);
    t, a := Then(r, t, a, ResolvePublish(own, true));
    LengthOf(t, a);
    assert t.states[|t.steps| - 1] == reported;
  }

  lemma LengthOf(t: Path, a: Auth)
    requires Ends(t, a)
    ensures |t.states| == |t.steps| + 1 && t.states[|t.steps|] == a
  {}

  lemma DeleteKnowsItsLogout(a: Auth, t: nat)
    requires Inv(a) && t < |a.tasks| && a.tasks[t].job.Remove?
    ensures a.tasks[t].job.g in a.ops && a.ops[a.tasks[t].job.g] == Logout(Some(t))
  {
    assert TaskOk(a, t);
  }

  /**
   From every exposed state the run can go on, with no further login or logout begun: the
   delete runs, the logout reports that it is done, and then the resolve publishes
   `authenticated` over the empty store.
   */
  lemma ExposedCanGoStale(r: Path, a: Auth, minValidity: int, now: int) returns (all: Path, b: Auth)
    requires Ends(r, a) && Exposed(a, minValidity, now)
    ensures GoesStale(r, all, minValidity, now) && GoesOn(r, all) && Ends(all, b)
    ensures |all.steps| > 1 && all.steps[|all.steps| - 2].LogoutReport? && !all.steps[|all.steps| - 2].aborted
    ensures b.face.current == Authenticated(Some(MethodOf(a.store.value.credential)))
  {
    hide Ends, GoesOn, Inv, PublishesStored;
    var i: nat :| i < |a.tasks| && a.tasks[i].job.Remove? && !a.tasks[i].stage.Done?;
    var t, own := r, |a.resolves|;
    t, b := BeginAndChoose(r, a, minValidity, now);
    ghost var chosen := t;
    t, b := FinishTasksBelow(r, t, b, 0, i, now);
    ghost var before := t;
    t, b := FinishTask(r, t, b, i, now);
    ghost var deleted := t;
    all, b := ReportAndPublish(r, t, b, i, own);
    AllIsStale(r, a, chosen, before, deleted, all, b, minValidity, now, own);
  }

  lemma AllIsStale(r: Path, a: Auth, chosen: Path, before: Path, deleted: Path, all: Path, b: Auth, minValidity: int, now: int, own: nat)
    requires Ends(r, a) && own == |a.resolves| && Ends(all, b) && GoesOn(r, all) && b.store.None?
    requires chosen.steps == r.steps + [ResolveBegin(minValidity), ResolveChoose(own, now, true)]
    requires OnlyTasks(chosen, before) && OnlyTasks(before, deleted)
    requires |deleted.steps| + 2 == |all.steps| && deleted.steps <= all.steps
    requires all.steps[|deleted.steps|].LogoutReport? && all.steps[|deleted.steps| + 1] == ResolvePublish(own, true)
    requires |all.states| == |all.steps| + 1 && PublishesStored(all.states[|all.steps| - 1], ResolvePublish(own, true), own)
    ensures GoesStale(r, all, minValidity, now)
  {
    hide PublishesStored;
    assert all.states[|r.steps|] == a;
    var n := |r.steps|;
    assert all.steps[n] == chosen.steps[n];
  }

  /** A resolve begun now can go stale if and only if the state is exposed. */
  lemma GoesStaleExactly(r: Path, a: Auth, minValidity: int, now: int)
    requires Ends(r, a)
    ensures Exposed(a, minValidity, now) <==> exists all: Path :: GoesStale(r, all, minValidity, now)
  {
    hide Ends, GoesStale, Exposed;
    if Exposed(a, minValidity, now) {
      var all, b := ExposedCanGoStale(r, a, minValidity, now);
    }
    if all: Path :| GoesStale(r, all, minValidity, now) {
      OnlyExposedGoStale(r, a, all, minValidity, now);
    }
  }
}
