/** What holds along every run of the authentication protocol. */
module AuthenticationRuns {
  import opened Prelude
  import opened Authentication
  import opened AuthenticationProofs

  ghost predicate NextBy(a: Auth, step: Step, b: Auth) {
    Enabled(a, step) && b == Apply(a, step)
  }

  ghost predicate Run(states: seq<Auth>, steps: seq<Step>) {
    && |states| == |steps| + 1
    && (exists queuedReads: bool, stored: Option<Credential> :: states[0] == Init(queuedReads, stored))
    && forall k: nat :: k < |steps| ==> NextBy(states[k], steps[k], states[k + 1])
  }

  lemma {:induction false} RunKeepsInv(states: seq<Auth>, steps: seq<Step>, k: nat)
    requires Run(states, steps) && k <= |steps|
    ensures Inv(states[k])
  {
    if k == 0 {
      var queuedReads, stored :| states[0] == Init(queuedReads, stored);
      InitInv(queuedReads, stored);
    } else {
      RunKeepsInv(states, steps, k - 1);
      assert NextBy(states[k - 1], steps[k - 1], states[k]);
      StepKeepsInv(states[k - 1], steps[k - 1]);
    }
  }

  // ---- Logout is not undone ----------------------------------------------------------

  /** Which logout's delete a step performs. */
  function Removes(a: Auth, step: Step): Option<nat>
    requires Enabled(a, step)
  {
    if step.TaskTakes? && a.tasks[step.t].job.Remove? then Some(a.tasks[step.t].job.g) else None
  }

  /** Deletes are queued, and so take effect, in the order in which their logouts began. */
  ghost predicate RemovesInOrder(a: Auth) {
    && (forall i: nat, j: nat :: i < j < |a.tasks| && a.tasks[i].job.Remove? && a.tasks[j].job.Remove? ==>
          a.tasks[i].job.g < a.tasks[j].job.g)
    && (forall i: nat :: i < |a.tasks| && a.tasks[i].job.Remove? ==>
          && a.tasks[i].job.g <= a.face.generation
          && (!a.tasks[i].stage.Done? && a.removed.Some? ==> a.removed.value < a.tasks[i].job.g))
  }

  predicate IsTaskStep(step: Step) {
    step.TaskStart? || step.RefreshReturns? || step.RefreshFails? || step.TaskTakes? || step.TaskFails?
  }

  lemma TaskStepFrame(a: Auth, step: Step)
    requires Inv(a) && Enabled(a, step) && IsTaskStep(step)
    ensures var b, t := Apply(a, step), step.t;
      && t < |a.tasks|
      && b.tasks == a.tasks[t := a.tasks[t].(stage := b.tasks[t].stage)]
      && !a.tasks[t].stage.Done? && !b.tasks[t].stage.Queued?
      && b.face == a.face && b.ops == a.ops && b.resolves == a.resolves && b.queuedReads == a.queuedReads
      && (!step.TaskTakes? ==> b.store == a.store && b.removed == a.removed)
      && (forall i: nat :: i < t ==> a.tasks[i].stage.Done?)
      && (forall i: nat :: i < |a.tasks| && i != t ==> AtRest(a.tasks[i].stage))
  {
    hide Inv;
    OthersAtRest(a, step.t);
    TaskStepChanges(a, step);
  }

  lemma TaskStepChanges(a: Auth, step: Step)
    requires Enabled(a, step) && IsTaskStep(step)
    ensures var b, t := Apply(a, step), step.t;
      && t < |a.tasks|
      && b.tasks == a.tasks[t := a.tasks[t].(stage := b.tasks[t].stage)]
      && !a.tasks[t].stage.Done? && !b.tasks[t].stage.Queued?
      && b.face == a.face && b.ops == a.ops && b.resolves == a.resolves && b.queuedReads == a.queuedReads
      && (!step.TaskTakes? ==> b.store == a.store && b.removed == a.removed)
  {}

  lemma OtherStepFrame(a: Auth, step: Step)
    requires Enabled(a, step) && !IsTaskStep(step)
    ensures var b := Apply(a, step);
      && a.tasks <= b.tasks && b.store == a.store && b.removed == a.removed && b.queuedReads == a.queuedReads
      && (forall i: nat :: |a.tasks| <= i < |b.tasks| ==>
            b.tasks[i].stage.Queued? && (b.tasks[i].job.Remove? ==> step.LogoutBegin? && b.tasks[i].job.g == b.face.generation))
      && |b.tasks| <= |a.tasks| + 1
      && a.face.generation <= b.face.generation
      && (step.LoginBegin? || step.LogoutBegin? ==> b.face.generation == a.face.generation + 1)
      && (!step.LoginBegin? && !step.LogoutBegin? ==> b.face.generation == a.face.generation)
  {}

  lemma StepKeepsRemovesInOrder(a: Auth, step: Step)
    requires Inv(a) && RemovesInOrder(a) && Enabled(a, step)
    ensures RemovesInOrder(Apply(a, step))
    ensures a.removed.Some? ==> Apply(a, step).removed.Some? && a.removed.value <= Apply(a, step).removed.value
    ensures Removes(a, step).Some? ==> Apply(a, step).removed == Removes(a, step) && Apply(a, step).store.None?
  {
    if IsTaskStep(step) {
      TaskStepFrame(a, step);
      TaskKeepsRemovesInOrder(a, Apply(a, step), step.t);
    } else {
      OtherStepFrame(a, step);
      if a.removed.Some? {
        assert OpOk(a, a.removed.value);
      }
    }
  }

  lemma TaskKeepsRemovesInOrder(a: Auth, b: Auth, t: nat)
    requires RemovesInOrder(a) && t < |a.tasks| && !a.tasks[t].stage.Done? && t < |b.tasks|
    requires b.tasks == a.tasks[t := a.tasks[t].(stage := b.tasks[t].stage)] && b.face == a.face
    requires forall i: nat :: i < t ==> a.tasks[i].stage.Done?
    requires b.removed == a.removed || (a.tasks[t].job.Remove? && b.removed == Some(a.tasks[t].job.g) && b.tasks[t].stage.Done?)
    ensures RemovesInOrder(b)
  {}

  lemma {:induction false} RunKeepsRemovesInOrder(states: seq<Auth>, steps: seq<Step>, k: nat)
    requires Run(states, steps) && k <= |steps|
    ensures RemovesInOrder(states[k])
  {
    if k > 0 {
      RunKeepsRemovesInOrder(states, steps, k - 1);
      RunKeepsInv(states, steps, k - 1);
      assert NextBy(states[k - 1], steps[k - 1], states[k]);
      StepKeepsRemovesInOrder(states[k - 1], steps[k - 1]);
    }
  }

  lemma {:induction false} RemovedGrows(states: seq<Auth>, steps: seq<Step>, k: nat, m: nat)
    requires Run(states, steps) && k <= m <= |steps| && states[k].removed.Some?
    ensures states[m].removed.Some? && states[k].removed.value <= states[m].removed.value
    decreases m
  {
    hide Inv, RemovesInOrder, Enabled, Apply;
    if k < m {
      RemovedGrows(states, steps, k, m - 1);
      RunKeepsInv(states, steps, m - 1);
      RunKeepsRemovesInOrder(states, steps, m - 1);
      assert NextBy(states[m - 1], steps[m - 1], states[m]);
      StepKeepsRemovesInOrder(states[m - 1], steps[m - 1]);
    }
  }

  /**
   Once the delete of a logout has taken effect the credential stays absent, until
   a login that began after that logout has written one: anything the store holds
   later descends from such a login, never from an older login or a running refresh.
   */
  lemma LogoutIsNotUndone(states: seq<Auth>, steps: seq<Step>, k: nat, m: nat, g: nat)
    requires Run(states, steps) && k < m <= |steps|
    requires Enabled(states[k], steps[k]) && Removes(states[k], steps[k]) == Some(g)
    ensures states[k + 1].store.None?
    ensures states[m].store.Some? ==> g < states[m].store.value.origin && IsLogin(states[m], states[m].store.value.origin)
  {
    RunKeepsInv(states, steps, k);
    RunKeepsRemovesInOrder(states, steps, k);
    assert NextBy(states[k], steps[k], states[k + 1]);
    StepKeepsRemovesInOrder(states[k], steps[k]);
    RemovedGrows(states, steps, k + 1, m);
    RunKeepsInv(states, steps, m);
  }

  // ---- A login that reports success finds its credential --------------------------------

  /** What the newest login knows about the queue once its write is on it. */
  ghost predicate NewestLogin(a: Auth) {
    var g := a.face.generation;
    IsLogin(a, g) && a.ops[g].phase.Storing? ==>
      var t := a.ops[g].phase.task;
      && t < |a.tasks|
      && (forall i: nat :: i < |a.tasks| && a.tasks[i].job.Remove? ==> i < t)
      && (forall i: nat :: t < i < |a.tasks| && a.tasks[i].job.LoginWrite? && a.tasks[i].stage.Decided? ==>
            a.tasks[i].stage.next.None?)
      && (a.tasks[t].stage.Decided? ==> a.tasks[t].stage.next.Some?)
      && (a.tasks[t].stage.Done? && !a.tasks[t].stage.failed ==> a.store.Some? && a.store.value.origin == g)
  }

  lemma StepKeepsNewestLogin(a: Auth, step: Step)
    requires Inv(a) && NewestLogin(a) && Enabled(a, step)
    ensures NewestLogin(Apply(a, step))
  {
    if IsTaskStep(step) {
      TaskStepKeepsNewestLogin(a, step);
    } else {
      OtherStepFrame(a, step);
      assert a.face.generation in a.ops ==> OpOk(a, a.face.generation);
    }
  }

  lemma TaskStepKeepsNewestLogin(a: Auth, step: Step)
    requires Inv(a) && NewestLogin(a) && Enabled(a, step) && IsTaskStep(step)
    ensures NewestLogin(Apply(a, step))
  {
    var b, g, t := Apply(a, step), a.face.generation, step.t;
    TaskStepFrame(a, step);
    assert TaskOk(a, t);
    if IsLogin(a, g) && a.ops[g].phase.Storing? {
      assert OpOk(a, g);
      var own := a.ops[g].phase.task;
      assert forall i: nat :: i < |b.tasks| ==> b.tasks[i].job == a.tasks[i].job;
      if t != own && step.TaskTakes? && a.tasks[own].stage.Done? {
        SettledComesFirst(a, own, t);
      }
    }
  }

  lemma {:induction false} RunKeepsNewestLogin(states: seq<Auth>, steps: seq<Step>, k: nat)
    requires Run(states, steps) && k <= |steps|
    ensures NewestLogin(states[k])
  {
    if k > 0 {
      RunKeepsNewestLogin(states, steps, k - 1);
      RunKeepsInv(states, steps, k - 1);
      assert NextBy(states[k - 1], steps[k - 1], states[k]);
      StepKeepsNewestLogin(states[k - 1], steps[k - 1]);
    }
  }

  /** A login that publishes `authenticated` finds its own credential in the store, or a refresh of it. */
  lemma LoginFindsItsCredential(states: seq<Auth>, steps: seq<Step>, k: nat, g: nat, aborted: bool)
    requires Run(states, steps) && k < |steps| && steps[k] == LoginReport(g, aborted)
    requires g in states[k + 1].ops && states[k + 1].ops[g].Login? && states[k + 1].ops[g].phase == Ended(true)
    ensures states[k + 1].face.current == Authenticated(Some(states[k].ops[g].requested))
    ensures states[k + 1].store.Some? && states[k + 1].store.value.origin == g
  {
    RunKeepsNewestLogin(states, steps, k);
    assert NextBy(states[k], steps[k], states[k + 1]);
  }

  // ---- A resolve that reports success --------------------------------------------------------

  ghost predicate NoRemovePending(a: Auth) {
    forall i: nat :: i < |a.tasks| && a.tasks[i].job.Remove? ==> a.tasks[i].stage.Done?
  }

  /** A read or a refresh behind every delete: if it answers with a credential, the store holds one. */
  ghost predicate AnswerOk(a: Auth, t: nat) {
    && t < |a.tasks| && (a.tasks[t].job.Read? || a.tasks[t].job.Refresh?)
    && (forall i: nat :: i < |a.tasks| && a.tasks[i].job.Remove? ==> i < t)
    && (a.tasks[t].stage.Done? && a.tasks[t].stage.result.Some? ==> a.store.Some?)
  }

  /** What a resolve that nothing has superseded knows about the store. */
  ghost predicate ResolveOk(a: Auth, r: nat)
    requires r < |a.resolves|
  {
    var resolve := a.resolves[r];
    && resolve.operation <= a.face.generation
    && (resolve.operation == a.face.generation ==>
          match resolve.phase
          case AwaitingRead(t) => AnswerOk(a, t)
          case HasRead(stored) => stored.Some? ==> a.store.Some? && NoRemovePending(a)
          case AwaitingRefresh(t) => AnswerOk(a, t)
          case Authorized(held) => held.Some? ==> a.store.Some? && NoRemovePending(a)
          case Finished(_) => true)
  }

  lemma TaskStepKeepsResolveOk(a: Auth, step: Step, r: nat)
    requires Inv(a) && Enabled(a, step) && IsTaskStep(step) && r < |a.resolves| && ResolveOk(a, r)
    ensures ResolveOk(Apply(a, step), r)
  {
    var b, t := Apply(a, step), step.t;
    TaskStepFrame(a, step);
    assert TaskOk(a, t);
    assert forall i: nat :: i < |b.tasks| ==> b.tasks[i].job == a.tasks[i].job;
    assert a.store.Some? && b.store.None? ==> a.tasks[t].job.Remove?;
    if (a.resolves[r].phase.AwaitingRead? || a.resolves[r].phase.AwaitingRefresh?) && a.resolves[r].operation == a.face.generation {
      var own := a.resolves[r].phase.task;
      if a.tasks[own].stage.Done? {
        SettledComesFirst(a, own, t);
      }
    }
  }

  /** Which resolve a step moves: the one it names, or the one it begins. */
  function Moves(a: Auth, step: Step): Option<nat> {
    match step
    case ResolveBegin(_) => Some(|a.resolves|)
    case ResolveRead(r) => Some(r)
    case ResolveChoose(r, _, _) => Some(r)
    case ResolveRefreshed(r, _) => Some(r)
    case ResolvePublish(r, _) => Some(r)
    case _ => None
  }

  lemma ResolveFrame(a: Auth, step: Step)
    requires Enabled(a, step) && !IsTaskStep(step)
    ensures |a.resolves| <= |Apply(a, step).resolves| <= |a.resolves| + 1
    ensures forall r: nat :: r < |a.resolves| && Moves(a, step) != Some(r) ==> Apply(a, step).resolves[r] == a.resolves[r]
    ensures |Apply(a, step).resolves| == |a.resolves| + 1 ==> Moves(a, step) == Some(|a.resolves|)
    ensures Moves(a, step).Some? ==> Apply(a, step).face.generation == a.face.generation
  {}

  lemma OtherResolveOk(a: Auth, step: Step, r: nat)
    requires Inv(a) && Enabled(a, step) && !IsTaskStep(step) && r < |a.resolves| && ResolveOk(a, r)
    requires Moves(a, step) != Some(r)
    ensures r < |Apply(a, step).resolves| && ResolveOk(Apply(a, step), r)
  {
    var b := Apply(a, step);
    OtherStepFrame(a, step);
    ResolveFrame(a, step);
    assert NoRemovePending(a) && a.face.generation == b.face.generation ==> NoRemovePending(b);
  }

  /** A read that is not queued is safe when it finds nothing, or no delete is pending. */
  lemma MovedResolveOk(a: Auth, step: Step, r: nat)
    requires Inv(a) && Enabled(a, step) && Moves(a, step) == Some(r)
    requires r < |a.resolves| ==> ResolveOk(a, r)
    requires step.ResolveBegin? ==> a.queuedReads || a.store.None? || NoRemovePending(a)
    ensures r < |Apply(a, step).resolves| && ResolveOk(Apply(a, step), r)
  {
    var b := Apply(a, step);
    OtherStepFrame(a, step);
    ResolveFrame(a, step);
    assert NoRemovePending(a) ==> NoRemovePending(b);
    if (step.ResolveRead? || step.ResolveRefreshed?) && a.resolves[r].operation == a.face.generation {
      AnsweredBehindDeletes(a, a.resolves[r].phase.task);
    }
  }

  lemma AnsweredBehindDeletes(a: Auth, t: nat)
    requires Inv(a) && AnswerOk(a, t) && a.tasks[t].stage.Done?
    ensures NoRemovePending(a)
  {
    forall i: nat | i < |a.tasks| && a.tasks[i].job.Remove? ensures a.tasks[i].stage.Done? {
      if !a.tasks[i].stage.Done? {
        SettledComesFirst(a, t, i);
      }
    }
  }

  /** Step b begins resolve r. */
  ghost predicate Begins(states: seq<Auth>, steps: seq<Step>, b: nat, r: nat) {
    b < |steps| && b < |states| && steps[b].ResolveBegin? && r == |states[b].resolves|
  }

  /** The credential the store holds is about to expire at each time at which resolve r chooses what to do with it. */
  ghost predicate ChoosesToRefresh(states: seq<Auth>, steps: seq<Step>, b: nat, r: nat, held: Held)
    requires Begins(states, steps, b, r)
  {
    forall i: nat :: b < i < |steps| && steps[i].ResolveChoose? && steps[i].r == r ==>
      ExpiresSoon(held.credential, steps[b].minValidity, steps[i].now)
  }

  /**
   The resolve reads through the queue, or while no delete is pending, or nothing, or it
   refreshes what it reads.
   */
  ghost predicate SafelyRead(states: seq<Auth>, steps: seq<Step>, b: nat, r: nat)
    requires Begins(states, steps, b, r)
  {
    var a := states[b];
    a.queuedReads || NoRemovePending(a) || a.store.None? || ChoosesToRefresh(states, steps, b, r, a.store.value)
  }

  /** The resolve is about to refresh `held`, or it is safe. */
  ghost predicate ResolveSafe(a: Auth, r: nat, minValidity: int, held: Option<Held>) {
    && r < |a.resolves|
    && (ResolveOk(a, r) ||
        (held.Some? && a.resolves[r] == Resolve(a.resolves[r].operation, minValidity, HasRead(held))
         && a.resolves[r].operation <= a.face.generation))
  }

  lemma StepKeepsResolveSafe(a: Auth, step: Step, r: nat, minValidity: int, held: Option<Held>)
    requires Inv(a) && Enabled(a, step) && ResolveSafe(a, r, minValidity, held)
    requires held.Some? && step.ResolveChoose? && step.r == r ==> ExpiresSoon(held.value.credential, minValidity, step.now)
    ensures ResolveSafe(Apply(a, step), r, minValidity, held)
  {
    if ResolveOk(a, r) {
      if IsTaskStep(step) {
        TaskStepFrame(a, step);
        TaskStepKeepsResolveOk(a, step, r);
      } else if Moves(a, step) == Some(r) {
        MovedResolveOk(a, step, r);
      } else {
        OtherResolveOk(a, step, r);
      }
    } else if IsTaskStep(step) {
      TaskStepFrame(a, step);
    } else {
      OtherStepFrame(a, step);
      ResolveFrame(a, step);
    }
  }

  lemma {:induction false} RunKeepsResolveSafe(states: seq<Auth>, steps: seq<Step>, b: nat, k: nat, r: nat)
    requires Run(states, steps) && b < k <= |steps| && Begins(states, steps, b, r) && SafelyRead(states, steps, b, r)
    ensures var a := states[b];
      if a.queuedReads || NoRemovePending(a) || a.store.None? then r < |states[k].resolves| && ResolveOk(states[k], r)
      else ResolveSafe(states[k], r, steps[b].minValidity, a.store)
    decreases k
  {
    var a, step := states[k - 1], steps[k - 1];
    RunKeepsInv(states, steps, k - 1);
    assert NextBy(a, step, states[k]);
    var held := if states[b].queuedReads || NoRemovePending(states[b]) then None else states[b].store;
    if k - 1 > b {
      RunKeepsResolveSafe(states, steps, b, k - 1, r);
      StepKeepsResolveSafe(a, step, r, steps[b].minValidity, held);
    } else if held.None? {
      MovedResolveOk(a, step, r);
    }
  }

  /** A step by which resolve r publishes `authenticated` from a stored credential. */
  ghost predicate PublishesStored(a: Auth, step: Step, r: nat) {
    && step.ResolvePublish? && step.r == r && Enabled(a, step)
    && a.resolves[r].phase.held.Some? && Apply(a, step).resolves[r].phase == Finished(true)
  }

  /**
   A resolve that publishes `authenticated` from a stored credential does so while the
   store holds one, provided that it read through the queue, or while no delete was
   pending, or refreshed what it read. AuthenticationReads shows that nothing less will do.
   */
  lemma ResolveFindsACredential(states: seq<Auth>, steps: seq<Step>, b: nat, k: nat, r: nat)
    requires Run(states, steps) && b < k < |steps| && Begins(states, steps, b, r) && SafelyRead(states, steps, b, r)
    requires PublishesStored(states[k], steps[k], r)
    ensures states[k + 1].store.Some?
  {
    RunKeepsResolveSafe(states, steps, b, k, r);
    assert NextBy(states[k], steps[k], states[k + 1]);
  }

  lemma {:induction false} ResolveWasBegun(states: seq<Auth>, steps: seq<Step>, k: nat, r: nat) returns (b: nat)
    requires Run(states, steps) && k <= |steps| && r < |states[k].resolves|
    ensures b < k && Begins(states, steps, b, r)
    decreases k
  {
    if k == 0 {
      assert false;
    } else {
      var a, step := states[k - 1], steps[k - 1];
      assert NextBy(a, step, states[k]);
      RunKeepsInv(states, steps, k - 1);
      ResolvesBegin(a, step);
      if r < |a.resolves| {
        b := ResolveWasBegun(states, steps, k - 1, r);
      } else {
        b := k - 1;
      }
    }
  }

  lemma ResolvesBegin(a: Auth, step: Step)
    requires Enabled(a, step)
    ensures |Apply(a, step).resolves| == if step.ResolveBegin? then |a.resolves| + 1 else |a.resolves|
    ensures Apply(a, step).queuedReads == a.queuedReads
  {}

  lemma {:induction false} QueueingIsFixed(states: seq<Auth>, steps: seq<Step>, k: nat)
    requires Run(states, steps) && k <= |steps|
    ensures states[k].queuedReads == states[0].queuedReads
  {
    if k > 0 {
      QueueingIsFixed(states, steps, k - 1);
      assert NextBy(states[k - 1], steps[k - 1], states[k]);
      ResolvesBegin(states[k - 1], steps[k - 1]);
    }
  }

  /** Over a store that queues its reads, every resolve that publishes a stored credential finds one. */
  lemma QueuedResolveFindsACredential(states: seq<Auth>, steps: seq<Step>, k: nat, r: nat)
    requires Run(states, steps) && k < |steps| && states[0].queuedReads && PublishesStored(states[k], steps[k], r)
    ensures states[k + 1].store.Some?
  {
    var b := ResolveWasBegun(states, steps, k, r);
    QueueingIsFixed(states, steps, b);
    ResolveFindsACredential(states, steps, b, k, r);
  }

  // ---- One refresh per burst -----------------------------------------------------------------

  /** A step that can only leave a valid token in place: reads, and refresh checks that find it valid. */
  ghost predicate FindsTokenValid(a: Auth, step: Step, c: Credential)
    requires Enabled(a, step)
  {
    step.TaskStart? ==>
      match a.tasks[step.t].job
      case Refresh(minValidity) => !ExpiresSoon(c, minValidity, step.now)
      case Read => true
      case _ => false
  }

  /** The task is over, and its answer is not `held`. */
  predicate AnsweredOtherwise(stage: Stage, held: Held) {
    stage.Done? && !stage.failed && stage.result != Some(held)
  }

  /** Answered before the burst, waiting, or answered with the token `held`. */
  ghost predicate BurstTask(a: Auth, t: nat, held: Held, before: set<nat>)
    requires t < |a.tasks|
  {
    match a.tasks[t].stage
    case Queued => true
    case Refreshing(_) => false
    case Decided(next, seen) => next.None? && seen == Some(held) && !a.tasks[t].job.Remove?
    case Done(result, failed) => t in before || failed || result == Some(held)
  }

  /**
   After a refresh has been written that no caller considers expiring, no queued task
   calls the provider again, the store keeps that token, and every task that succeeds
   answers with it, however many resolves are waiting.
   */
  lemma {:induction false} OneRefreshPerBurst(states: seq<Auth>, steps: seq<Step>, k: nat, m: nat, held: Held, before: set<nat>)
    requires Run(states, steps) && k <= m <= |steps|
    requires states[k].store == Some(held)
    requires before == set t: nat | t < |states[k].tasks| && AnsweredOtherwise(states[k].tasks[t].stage, held)
    requires forall t: nat :: t < |states[k].tasks| ==> AtRest(states[k].tasks[t].stage)
    requires forall i: nat :: k <= i < m ==> Enabled(states[i], steps[i]) && FindsTokenValid(states[i], steps[i], held.credential)
    ensures states[m].refreshCalls == states[k].refreshCalls && states[m].store == Some(held)
    ensures forall t: nat :: t < |states[m].tasks| ==> BurstTask(states[m], t, held, before)
    decreases m
  {
    if k < m {
      OneRefreshPerBurst(states, steps, k, m - 1, held, before);
      var a, step := states[m - 1], steps[m - 1];
      RunKeepsInv(states, steps, m - 1);
      assert NextBy(a, step, states[m]);
      BurstStep(a, step, held, before);
    }
  }

  lemma BurstStep(a: Auth, step: Step, held: Held, before: set<nat>)
    requires Inv(a) && Enabled(a, step) && FindsTokenValid(a, step, held.credential)
    requires a.store == Some(held)
    requires forall t: nat :: t < |a.tasks| ==> BurstTask(a, t, held, before)
    ensures Apply(a, step).refreshCalls == a.refreshCalls && Apply(a, step).store == Some(held)
    ensures forall t: nat :: t < |Apply(a, step).tasks| ==> BurstTask(Apply(a, step), t, held, before)
  {
    var b := Apply(a, step);
    if IsTaskStep(step) {
      TaskStepFrame(a, step);
      assert BurstTask(a, step.t, held, before);
      forall t: nat | t < |b.tasks| ensures BurstTask(b, t, held, before) {
        assert BurstTask(a, t, held, before);
      }
    } else {
      OtherStepFrame(a, step);
      forall t: nat | t < |b.tasks| ensures BurstTask(b, t, held, before) {
        assert t < |a.tasks| ==> BurstTask(a, t, held, before);
      }
    }
  }

  /**
   What the waiting callers see: in such a burst, whenever a resolve takes the answer of a
   refresh task that had not been answered otherwise before, it is authorized with that
   token, unless its own task failed. That includes the resolve whose task did the refresh.
   */
  lemma BurstAuthorizesWaitingResolves(states: seq<Auth>, steps: seq<Step>, k: nat, m: nat, held: Held, before: set<nat>,
                                       r: nat, aborted: bool)
    requires Run(states, steps) && k <= m < |steps| && held.credential.Token?
    requires states[k].store == Some(held)
    requires before == set t: nat | t < |states[k].tasks| && AnsweredOtherwise(states[k].tasks[t].stage, held)
    requires forall t: nat :: t < |states[k].tasks| ==> AtRest(states[k].tasks[t].stage)
    requires forall i: nat :: k <= i < m ==> Enabled(states[i], steps[i]) && FindsTokenValid(states[i], steps[i], held.credential)
    requires steps[m] == ResolveRefreshed(r, aborted)
    requires r < |states[m].resolves| && states[m].resolves[r].phase.AwaitingRefresh?
    requires states[m].resolves[r].phase.task !in before
    ensures var t := states[m].resolves[r].phase.task;
      && t < |states[m].tasks| && r < |states[m + 1].resolves|
      && states[m + 1].resolves[r].phase ==
         if states[m].tasks[t].stage.Done? && !states[m].tasks[t].stage.failed then Authorized(Some(held)) else Finished(false)
  {
    OneRefreshPerBurst(states, steps, k, m, held, before);
    assert NextBy(states[m], steps[m], states[m + 1]);
    assert BurstTask(states[m], states[m].resolves[r].phase.task, held, before);
  }
}
