/** Logins, logouts and refreshes in any order: what every run of the protocol keeps. */
module AuthenticationProofs {
  import opened Prelude
  import opened Authentication
  import PQ = PromiseQueue

  ghost predicate StageAgrees(stage: Stage, task: PQ.Stage) {
    match stage
    case Queued => task == PQ.Waiting
    case Refreshing(_) => task == PQ.Running
    case Decided(_, _) => task == PQ.Running
    case Done(_, _) => task == PQ.Settled
  }

  /** A credential that no logout whose delete has run covers. */
  ghost predicate Lives(a: Auth, h: Held) {
    && (a.removed.Some? ==> a.removed.value < h.origin)
    && (h.origin == 0 || IsLogin(a, h.origin))
  }

  ghost predicate StageOk(a: Auth, t: nat)
    requires t < |a.tasks|
  {
    match a.tasks[t].stage
    case Refreshing(held) => a.tasks[t].job.Refresh? && a.store == Some(held)
    case Decided(next, seen) =>
      && seen == a.store
      && (next.Some? ==> Lives(a, next.value))
      && (match a.tasks[t].job
          case LoginWrite(g, _) => next.Some? ==> next.value.origin == g
          case Refresh(_) => next.Some? ==> seen.Some? && next.value.origin == seen.value.origin
          case _ => next.None?)
    case _ => true
  }

  ghost predicate TaskOk(a: Auth, t: nat)
    requires IsTask(a, t)
  {
    && StageAgrees(a.tasks[t].stage, a.queue.tasks[t].stage)
    && StageOk(a, t)
    && match a.tasks[t].job
       case LoginWrite(g, _) => IsLogin(a, g) && !a.ops[g].phase.Asking? && (a.ops[g].phase.Storing? ==> a.ops[g].phase.task == t)
       case Remove(g) => g in a.ops && a.ops[g] == Logout(Some(t))
       case _ => true
  }

  ghost predicate OpOk(a: Auth, g: nat)
    requires g in a.ops
  {
    && 0 < g <= a.face.generation
    && (a.ops[g].Login? && a.ops[g].phase.Storing? ==>
          var t := a.ops[g].phase.task;
          t < |a.tasks| && a.tasks[t].job.LoginWrite? && a.tasks[t].job.g == g)
  }

  ghost predicate Inv(a: Auth) {
    && PQ.Inv(a.queue)
    && |a.tasks| == |a.queue.tasks|
    && (a.removed.Some? ==> a.removed.value in a.ops && a.ops[a.removed.value].Logout?)
    && (a.store.Some? ==> Lives(a, a.store.value))
    && (forall g: nat :: g in a.ops ==> OpOk(a, g))
    && (forall t: nat :: t < |a.tasks| ==> TaskOk(a, t))
  }

  lemma InitInv(queuedReads: bool, stored: Option<Credential>)
    ensures Inv(Init(queuedReads, stored))
  {}

  lemma StartAndSettle(q: PQ.Queue, t: nat)
    requires PQ.Inv(q) && PQ.CanStart(q, t)
    ensures PQ.Inv(PQ.SetStage(q, t, PQ.Running)) && PQ.Inv(PQ.SetStage(q, t, PQ.Settled))
  {}

  predicate AtRest(stage: Stage) {
    stage.Queued? || stage.Done?
  }

  /** When a task may start, no other one is running; and at most one ever is. */
  lemma OthersAtRest(a: Auth, t: nat)
    requires Inv(a) && t < |a.tasks|
    requires !AtRest(a.tasks[t].stage) || PQ.CanStart(a.queue, t)
    ensures forall i: nat :: i < |a.tasks| && i != t ==> AtRest(a.tasks[i].stage)
    ensures forall i: nat :: i < t ==> a.tasks[i].stage.Done?
  {
    assert TaskOk(a, t);
    if PQ.CanStart(a.queue, t) {
      PQ.StartKeepsInv(a.queue, t);
    }
    assert PQ.SettledBelow(a.queue, t);
    forall i: nat | i < |a.tasks| && i != t
      ensures AtRest(a.tasks[i].stage) && (i < t ==> a.tasks[i].stage.Done?)
    {
      assert TaskOk(a, i);
      assert t < i ==> !PQ.SettledBelow(a.queue, i);
    }
  }

  lemma SettledComesFirst(a: Auth, i: nat, j: nat)
    requires Inv(a) && i < |a.tasks| && j < |a.tasks|
    requires a.tasks[i].stage.Done? && !a.tasks[j].stage.Done?
    ensures i < j
  {
    assert TaskOk(a, i) && TaskOk(a, j);
    assert PQ.SettledBelow(a.queue, i);
  }

  // ---- Inv is inductive ------------------------------------------------------------

  /** Steps that add operations, end phases or bump the generation, without touching tasks or the store. */
  lemma FaceStepKeepsInv(a: Auth, b: Auth)
    requires Inv(a)
    requires b.tasks == a.tasks && b.queue == a.queue && b.store == a.store && b.removed == a.removed
    requires a.face.generation <= b.face.generation
    requires forall g: nat :: g in b.ops ==>
               || (g in a.ops && b.ops[g] == a.ops[g])
               || (IsLogin(a, g) && b.ops[g].Login? && b.ops[g].phase.Ended?)
               || (g !in a.ops && 0 < g <= b.face.generation && (b.ops[g].Login? ==> !b.ops[g].phase.Storing?))
    requires forall g: nat :: g in a.ops ==> g in b.ops
    ensures Inv(b)
  {
    forall g: nat | g in b.ops ensures OpOk(b, g) {
      if g in a.ops {
        assert OpOk(a, g);
      }
    }
    forall h: Held | Lives(a, h) ensures Lives(b, h) {}
    forall t: nat | t < |b.tasks| ensures TaskOk(b, t) {
      assert TaskOk(a, t);
    }
  }

  lemma AddTaskKeepsInv(a: Auth, job: Job)
    requires Inv(a)
    requires !job.LoginWrite? && (job.Remove? ==> job.g in a.ops && a.ops[job.g] == Logout(Some(|a.tasks|)))
    ensures Inv(AddTask(a, job))
  {
    PQ.EnqueueKeepsInv(a.queue);
    var b := AddTask(a, job);
    forall g: nat | g in b.ops ensures OpOk(b, g) {
      assert OpOk(a, g);
    }
    forall h: Held | Lives(a, h) ensures Lives(b, h) {}
    forall t: nat | t < |b.tasks| ensures TaskOk(b, t) {
      assert t < |a.tasks| ==> TaskOk(a, t);
    }
  }

  lemma StoreLoginKeepsInv(a: Auth, g: nat, c: Credential)
    requires Inv(a) && IsLogin(a, g) && a.ops[g].phase.Asking?
    ensures Inv(SetLogin(AddTask(a, LoginWrite(g, c)), g, Storing(|a.tasks|)))
  {
    PQ.EnqueueKeepsInv(a.queue);
    var b := SetLogin(AddTask(a, LoginWrite(g, c)), g, Storing(|a.tasks|));
    forall h: nat | h in b.ops ensures OpOk(b, h) {
      assert OpOk(a, h);
    }
    forall h: Held | Lives(a, h) ensures Lives(b, h) {}
    forall t: nat | t < |b.tasks| ensures TaskOk(b, t) {
      assert t < |a.tasks| ==> TaskOk(a, t);
    }
  }

  /** A running or startable task moves on; every other task is idle, so the store is its own to change. */
  lemma TaskStepKeepsInv(a: Auth, b: Auth, t: nat, stage: Stage)
    requires Inv(a) && t < |a.tasks| && !stage.Queued?
    requires if a.tasks[t].stage.Queued? then PQ.CanStart(a.queue, t) else !a.tasks[t].stage.Done?
    requires b == SetTask(a, t, stage).(store := b.store, removed := b.removed, refreshCalls := b.refreshCalls)
    requires b.removed.Some? ==> b.removed.value in a.ops && a.ops[b.removed.value].Logout?
    requires b.store.Some? ==> Lives(b, b.store.value)
    requires StageOk(b, t)
    ensures Inv(b)
  {
    OthersAtRest(a, t);
    assert TaskOk(a, t);
    if a.tasks[t].stage.Queued? {
      StartAndSettle(a.queue, t);
    } else {
      PQ.SettleKeepsInv(a.queue, t);
      assert PQ.SetStage(a.queue, t, PQ.Running) == a.queue;
    }
    forall g: nat | g in b.ops ensures OpOk(b, g) {
      assert OpOk(a, g);
    }
    forall i: nat | i < |b.tasks| ensures TaskOk(b, i) {
      assert TaskOk(a, i);
    }
  }

  lemma StartKeepsInv(a: Auth, t: nat, now: int, aborted: bool)
    requires Inv(a) && Enabled(a, TaskStart(t, now, aborted))
    ensures Inv(Apply(a, TaskStart(t, now, aborted)))
  {
    var b := Apply(a, TaskStart(t, now, aborted));
    assert TaskOk(a, t);
    if a.removed.Some? {
      assert OpOk(a, a.removed.value);
    }
    TaskStepKeepsInv(a, b, t, b.tasks[t].stage);
  }

  lemma MoveKeepsInv(a: Auth, step: Step)
    requires Inv(a) && Enabled(a, step)
    requires step.RefreshReturns? || step.RefreshFails? || step.TaskTakes? || step.TaskFails?
    ensures Inv(Apply(a, step))
  {
    var b := Apply(a, step);
    assert TaskOk(a, step.t);
    TaskStepKeepsInv(a, b, step.t, b.tasks[step.t].stage);
  }

  lemma ResolveStepKeepsInv(a: Auth, step: Step)
    requires Inv(a) && Enabled(a, step)
    requires step.ResolveBegin? || step.ResolveRead? || step.ResolveChoose? || step.ResolveRefreshed? || step.ResolvePublish?
    ensures Inv(Apply(a, step))
  {
    var b := Apply(a, step);
    if step.ResolveBegin? && a.queuedReads {
      AddTaskKeepsInv(a, Read);
      FaceStepKeepsInv(AddTask(a, Read), b);
    } else if step.ResolveChoose? && |b.tasks| > |a.tasks| {
      AddTaskKeepsInv(a, Refresh(a.resolves[step.r].minValidity));
      FaceStepKeepsInv(AddTask(a, Refresh(a.resolves[step.r].minValidity)), b);
    } else {
      FaceStepKeepsInv(a, b);
    }
  }

  lemma GenerationsAreIssued(a: Auth)
    requires Inv(a)
    ensures forall g: nat :: g in a.ops ==> g <= a.face.generation
  {}

  lemma LoginStepKeepsInv(a: Auth, step: Step)
    requires Inv(a) && Enabled(a, step) && (step.LoginBegin? || step.LoginObtains? || step.LoginFails? || step.LoginReport?)
    ensures Inv(Apply(a, step))
  {
    GenerationsAreIssued(a);
    if step.LoginObtains? && !step.aborted {
      StoreLoginKeepsInv(a, step.g, step.credential);
    } else {
      FaceStepKeepsInv(a, Apply(a, step));
    }
  }

  lemma LogoutStepKeepsInv(a: Auth, step: Step)
    requires Inv(a) && Enabled(a, step) && (step.LogoutBegin? || step.LogoutReport?)
    ensures Inv(Apply(a, step))
  {
    GenerationsAreIssued(a);
    if step.LogoutBegin? {
      var f := BeginLogout(a.face);
      var c := a.(face := f, ops := a.ops[f.generation := Logout(if step.aborted then None else Some(|a.tasks|))]);
      FaceStepKeepsInv(a, c);
      if !step.aborted {
        AddTaskKeepsInv(c, Remove(f.generation));
      }
    } else {
      FaceStepKeepsInv(a, Apply(a, step));
    }
  }

  lemma StepKeepsInv(a: Auth, step: Step)
    requires Inv(a) && Enabled(a, step)
    ensures Inv(Apply(a, step))
  {
    hide Inv;
    match step
    case TaskStart(t, now, aborted) => StartKeepsInv(a, t, now, aborted);
    case RefreshReturns(_, _) => MoveKeepsInv(a, step);
    case RefreshFails(_) => MoveKeepsInv(a, step);
    case TaskTakes(_) => MoveKeepsInv(a, step);
    case TaskFails(_) => MoveKeepsInv(a, step);
    case _ =>
      if step.LoginBegin? || step.LoginObtains? || step.LoginFails? || step.LoginReport? {
        LoginStepKeepsInv(a, step);
      } else if step.LogoutBegin? || step.LogoutReport? {
        LogoutStepKeepsInv(a, step);
      } else {
        ResolveStepKeepsInv(a, step);
      }
  }
}
