/** What the authentication object reports along a run, and what its store tasks write and answer. */
module AuthenticationStates {
  import opened Prelude
  import opened Authentication
  import opened AuthenticationProofs
  import opened AuthenticationRuns

  // ---- What is reported -----------------------------------------------------------------------

  /** The end of a login that failed, for whatever reason; a login that has been overtaken reports nothing. */
  function AfterFailedLogin(a: Auth, g: nat, aborted: bool): Option<AuthState>
    requires IsLogin(a, g)
  {
    if g != a.face.generation then None
    else Some(if aborted then a.ops[g].previous else ReauthenticationRequired(a.ops[g].requested))
  }

  /** What a step makes the object report, if it reports anything. */
  function Reports(a: Auth, step: Step): Option<AuthState>
    requires Enabled(a, step)
  {
    match step
    case LoginBegin(m, supported, aborted) =>
      if aborted then None else Some(if supported then Authorizing(m) else ReauthenticationRequired(m))
    case LoginObtains(g, _, true) => AfterFailedLogin(a, g, true)
    case LoginFails(g, aborted) => AfterFailedLogin(a, g, aborted)
    case LoginReport(g, aborted) =>
      if a.tasks[a.ops[g].phase.task].stage.failed || aborted then AfterFailedLogin(a, g, aborted)
      else if g == a.face.generation then Some(Authenticated(Some(a.ops[g].requested)))
      else None
    case LogoutReport(g, false) => if a.tasks[a.ops[g].task.value].stage.failed then None else Some(LoggedOut)
    case ResolveRefreshed(r, false) =>
      if a.tasks[a.resolves[r].phase.task].stage.failed then Some(ReauthenticationRequired(OAuth)) else None
    case ResolvePublish(r, true) =>
      if a.resolves[r].operation != a.face.generation then None
      else
        (match a.resolves[r].phase.held
         case None => Some(Authenticated(None))
         case Some(Held(Key(_), _)) => Some(Authenticated(Some(ApiKey)))
         case Some(Held(Token(_, _), _)) => Some(Authenticated(Some(OAuth))))
    case _ => None
  }

  lemma StepReports(a: Auth, step: Step)
    requires Enabled(a, step)
    ensures Apply(a, step).face.current == match Reports(a, step) case Some(state) => state case None => a.face.current
  {
    if step.LoginObtains? || step.LoginFails? || step.LoginReport? {
      LoginEndReports(a, step);
    }
  }

  lemma LoginEndReports(a: Auth, step: Step)
    requires Enabled(a, step) && (step.LoginObtains? || step.LoginFails? || step.LoginReport?)
    ensures Apply(a, step).face.current == match Reports(a, step) case Some(state) => state case None => a.face.current
  {}

  /** What the steps before k have reported last. */
  ghost function LastReport(states: seq<Auth>, steps: seq<Step>, k: nat): AuthState
    requires Run(states, steps) && k <= |steps|
    decreases k
  {
    if k == 0 then Idle
    else
      assert NextBy(states[k - 1], steps[k - 1], states[k]);
      match Reports(states[k - 1], steps[k - 1])
      case Some(state) => state
      case None => LastReport(states, steps, k - 1)
  }

  /** The object's state is always what was reported last. */
  lemma {:induction false} CurrentIsLastReport(states: seq<Auth>, steps: seq<Step>, k: nat)
    requires Run(states, steps) && k <= |steps|
    ensures states[k].face.current == LastReport(states, steps, k)
  {
    if k > 0 {
      CurrentIsLastReport(states, steps, k - 1);
      assert NextBy(states[k - 1], steps[k - 1], states[k]);
      StepReports(states[k - 1], steps[k - 1]);
    }
  }

  // ---- After a logout ---------------------------------------------------------------------------

  /** The step ends a logout whose delete succeeded. */
  ghost predicate EndsLogout(a: Auth, step: Step) {
    step.LogoutReport? && !step.aborted && Enabled(a, step) && !a.tasks[a.ops[step.g].task.value].stage.failed
  }

  /** The newest operation is not a login. */
  ghost predicate NoNewLogin(a: Auth) {
    !IsLogin(a, a.face.generation)
  }

  /**
   A finished logout reports `logged_out`, and that stays, once no login is the newest
   operation, until a login begins, a resolve publishes, or a refresh fails.
   */
  lemma {:induction false} LogoutReportsLoggedOut(states: seq<Auth>, steps: seq<Step>, k: nat, m: nat)
    requires Run(states, steps) && k < m <= |steps| && EndsLogout(states[k], steps[k]) && NoNewLogin(states[k])
    requires forall i: nat :: k < i < m ==> !steps[i].LoginBegin?
    requires forall i: nat :: k < i < m && Enabled(states[i], steps[i]) && Reports(states[i], steps[i]).Some? ==>
               !steps[i].ResolvePublish? && !steps[i].ResolveRefreshed?
    ensures states[k + 1].face.current == LoggedOut
    ensures states[m].face.current == LoggedOut && NoNewLogin(states[m])
    decreases m
  {
    hide Inv, Apply, NoNewLogin;
    var a, step := states[m - 1], steps[m - 1];
    assert NextBy(a, step, states[m]);
    RunKeepsInv(states, steps, m - 1);
    if m - 1 > k {
      LogoutReportsLoggedOut(states, steps, k, m - 1);
    }
    StepReports(a, step);
    ReportWithoutLogin(a, step);
    StepKeepsNoNewLogin(a, step);
  }

  lemma ReportWithoutLogin(a: Auth, step: Step)
    requires Enabled(a, step) && NoNewLogin(a) && !step.LoginBegin?
    ensures Reports(a, step).Some? ==> step.ResolvePublish? || step.ResolveRefreshed? || Reports(a, step) == Some(LoggedOut)
    ensures EndsLogout(a, step) ==> Reports(a, step) == Some(LoggedOut)
  {}

  lemma StepKeepsNoNewLogin(a: Auth, step: Step)
    requires Inv(a) && Enabled(a, step) && NoNewLogin(a) && !step.LoginBegin?
    ensures NoNewLogin(Apply(a, step))
  {
    GenerationsAreIssued(a);
  }

  /** Of the operations begun after logout g, none is a login. */
  ghost predicate OnlyLogoutsSince(a: Auth, g: nat) {
    g <= a.face.generation && forall h: nat :: h in a.ops && h > g ==> a.ops[h].Logout?
  }

  lemma StepKeepsOnlyLogouts(a: Auth, step: Step, g: nat)
    requires Inv(a) && Enabled(a, step) && OnlyLogoutsSince(a, g) && !step.LoginBegin?
    ensures OnlyLogoutsSince(Apply(a, step), g)
  {}

  /** Nothing is stored from the delete on, as long as only logouts have begun since. */
  lemma NothingStored(a: Auth, g: nat)
    requires Inv(a) && OnlyLogoutsSince(a, g) && a.removed.Some? && a.removed.value >= g
    ensures a.store.None?
  {}

  /** A delete that is done has taken effect, or failed. */
  ghost predicate DoneDeletesTook(a: Auth) {
    forall t: nat :: t < |a.tasks| && a.tasks[t].job.Remove? && a.tasks[t].stage.Done? && !a.tasks[t].stage.failed ==>
      a.removed.Some? && a.removed.value >= a.tasks[t].job.g
  }

  lemma StepKeepsDoneDeletes(a: Auth, step: Step)
    requires Inv(a) && RemovesInOrder(a) && Enabled(a, step) && DoneDeletesTook(a)
    ensures DoneDeletesTook(Apply(a, step))
  {
    StepKeepsRemovesInOrder(a, step);
    if IsTaskStep(step) {
      TaskStepFrame(a, step);
      if a.tasks[step.t].job.Remove? {
        DeleteDoneByTaking(a, step);
      }
    } else {
      OtherStepFrame(a, step);
    }
  }

  lemma DeleteDoneByTaking(a: Auth, step: Step)
    requires Enabled(a, step) && IsTaskStep(step) && a.tasks[step.t].job.Remove?
    ensures var stage := Apply(a, step).tasks[step.t].stage;
      stage.Done? && !stage.failed ==> step.TaskTakes? && Apply(a, step).removed == Some(a.tasks[step.t].job.g)
  {}

  lemma {:induction false} RunKeepsDoneDeletes(states: seq<Auth>, steps: seq<Step>, k: nat)
    requires Run(states, steps) && k <= |steps|
    ensures DoneDeletesTook(states[k])
  {
    if k > 0 {
      RunKeepsDoneDeletes(states, steps, k - 1);
      RunKeepsInv(states, steps, k - 1);
      RunKeepsRemovesInOrder(states, steps, k - 1);
      assert NextBy(states[k - 1], steps[k - 1], states[k]);
      StepKeepsDoneDeletes(states[k - 1], steps[k - 1]);
    }
  }

  /** A logout's task is its own delete. */
  ghost predicate LogoutsQueued(a: Auth) {
    forall g: nat :: g in a.ops && a.ops[g].Logout? && a.ops[g].task.Some? ==>
      a.ops[g].task.value < |a.tasks| && a.tasks[a.ops[g].task.value].job == Remove(g)
  }

  lemma StepKeepsLogoutsQueued(a: Auth, step: Step)
    requires Inv(a) && Enabled(a, step) && LogoutsQueued(a)
    ensures LogoutsQueued(Apply(a, step))
  {
    var b := Apply(a, step);
    if IsTaskStep(step) {
      TaskStepFrame(a, step);
    } else if !step.LogoutBegin? {
      OtherStepFrame(a, step);
      LogoutsAreKept(a, step);
    }
  }

  lemma LogoutsAreKept(a: Auth, step: Step)
    requires Enabled(a, step) && !IsTaskStep(step) && !step.LogoutBegin?
    ensures forall g: nat :: g in Apply(a, step).ops && Apply(a, step).ops[g].Logout? ==> g in a.ops && Apply(a, step).ops[g] == a.ops[g]
  {}

  lemma {:induction false} RunKeepsLogoutsQueued(states: seq<Auth>, steps: seq<Step>, k: nat)
    requires Run(states, steps) && k <= |steps|
    ensures LogoutsQueued(states[k])
  {
    if k > 0 {
      RunKeepsLogoutsQueued(states, steps, k - 1);
      RunKeepsInv(states, steps, k - 1);
      assert NextBy(states[k - 1], steps[k - 1], states[k]);
      StepKeepsLogoutsQueued(states[k - 1], steps[k - 1]);
    }
  }

  lemma EndedLogoutTook(states: seq<Auth>, steps: seq<Step>, k: nat)
    requires Run(states, steps) && k < |steps| && EndsLogout(states[k], steps[k])
    ensures states[k].removed.Some? && states[k].removed.value >= steps[k].g
  {
    RunKeepsLogoutsQueued(states, steps, k);
    RunKeepsDoneDeletes(states, steps, k);
  }

  /** From the end of the newest logout on, and until a login begins, nothing is stored. */
  lemma {:induction false} NothingStoredUntilLogin(states: seq<Auth>, steps: seq<Step>, k: nat, m: nat)
    requires Run(states, steps) && k <= m <= |steps| && k < |steps|
    requires EndsLogout(states[k], steps[k]) && steps[k].g == states[k].face.generation
    requires forall i: nat :: k < i < m ==> !steps[i].LoginBegin?
    ensures OnlyLogoutsSince(states[m], steps[k].g) && states[m].store.None? && NoNewLogin(states[m])
    decreases m
  {
    hide Apply, Enabled, OnlyLogoutsSince;
    RunKeepsInv(states, steps, m);
    if m == k {
      NewestIsOnly(states[k], steps[k]);
    } else {
      NothingStoredUntilLogin(states, steps, k, m - 1);
      assert NextBy(states[m - 1], steps[m - 1], states[m]);
      assert !steps[m - 1].LoginBegin?;
      RunKeepsInv(states, steps, m - 1);
      StepKeepsOnlyLogouts(states[m - 1], steps[m - 1], steps[k].g);
    }
    EndedLogoutTook(states, steps, k);
    RemovedGrows(states, steps, k, m);
    NothingStored(states[m], steps[k].g);
    NoLoginIsNewest(states[m], steps[k].g);
  }

  lemma NewestIsOnly(a: Auth, step: Step)
    requires Inv(a) && EndsLogout(a, step) && step.g == a.face.generation
    ensures OnlyLogoutsSince(a, step.g)
  {
    GenerationsAreIssued(a);
  }

  /** The deleted logout is an operation since g, so no login is the newest. */
  lemma NoLoginIsNewest(a: Auth, g: nat)
    requires Inv(a) && OnlyLogoutsSince(a, g) && a.removed.Some? && a.removed.value >= g
    ensures NoNewLogin(a)
  {}

  /**
   Over a store with queued reads, from the end of the newest logout on and until a login
   begins, the object never reports `authenticated` by way of a stored credential.
   */
  lemma {:induction false} NotAuthenticatedUntilLogin(states: seq<Auth>, steps: seq<Step>, k: nat, m: nat)
    requires Run(states, steps) && k < m <= |steps| && states[0].queuedReads
    requires EndsLogout(states[k], steps[k]) && steps[k].g == states[k].face.generation
    requires forall i: nat :: k < i < m ==> !steps[i].LoginBegin?
    ensures !states[m].face.current.Authenticated? || states[m].face.current.via.None?
    decreases m
  {
    hide Apply, Enabled, Inv, OnlyLogoutsSince, NoNewLogin;
    var a, step := states[m - 1], steps[m - 1];
    assert NextBy(a, step, states[m]);
    NothingStoredUntilLogin(states, steps, k, m - 1);
    NothingStoredUntilLogin(states, steps, k, m);
    if m - 1 > k {
      NotAuthenticatedUntilLogin(states, steps, k, m - 1);
    } else {
      EndedIsNoBegin(a, step);
    }
    StepReports(a, step);
    AuthenticatedByPublishing(a, step);
    if Reports(a, step).Some? && Reports(a, step).value.Authenticated? && Reports(a, step).value.via.Some? {
      QueuedResolveFindsACredential(states, steps, m - 1, step.r);
    }
  }

  lemma EndedIsNoBegin(a: Auth, step: Step)
    requires EndsLogout(a, step)
    ensures !step.LoginBegin? && Reports(a, step) == Some(LoggedOut)
  {}

  lemma AuthenticatedByPublishing(a: Auth, step: Step)
    requires Enabled(a, step) && NoNewLogin(a) && !step.LoginBegin?
    ensures Reports(a, step).Some? && Reports(a, step).value.Authenticated? && Reports(a, step).value.via.Some? ==>
              step.ResolvePublish? && PublishesStored(a, step, step.r)
  {}

  // ---- What tasks decide, write and answer ---------------------------------------------------------

  /** A refresh is due for a token that expires within the time asked for, but at least five minutes. */
  lemma RefreshIsDue(c: Credential, minValidity: int, now: int)
    ensures ExpiresSoon(c, minValidity, now) <==>
            c.Token? && (c.expiresAt <= now + 300000 || c.expiresAt <= now + minValidity)
  {}

  /** What a started task has decided: whether the provider is called, and what it will write and answer. */
  lemma TaskDecides(a: Auth, t: nat, now: int)
    requires Enabled(a, TaskStart(t, now, false))
    ensures var b := Apply(a, TaskStart(t, now, false));
      match a.tasks[t].job
      case LoginWrite(g, c) =>
        b.tasks[t].stage == Decided(if g == a.face.generation then Some(Held(c, g)) else None, a.store) && b.refreshCalls == a.refreshCalls
      case Refresh(minValidity) =>
        if a.store.Some? && ExpiresSoon(a.store.value.credential, minValidity, now)
        then b.tasks[t].stage == Refreshing(a.store.value) && b.refreshCalls == a.refreshCalls + 1
        else b.tasks[t].stage == Decided(None, a.store) && b.refreshCalls == a.refreshCalls
      case _ => b.tasks[t].stage == Decided(None, a.store) && b.refreshCalls == a.refreshCalls
  {}

  /** The provider's new token takes the place of the one that was sent to it. */
  lemma RefreshDecides(a: Auth, t: nat, c: Credential)
    requires Inv(a) && Enabled(a, RefreshReturns(t, c))
    ensures a.store.Some?
    ensures Apply(a, RefreshReturns(t, c)).tasks[t].stage == Decided(Some(Held(c, a.store.value.origin)), a.store)
  {
    assert TaskOk(a, t);
  }

  /** What a task that has decided leaves in the store and answers. */
  ghost predicate Takes(a: Auth, t: nat, decided: Stage, b: Auth)
    requires decided.Decided?
  {
    && t < |a.tasks| && t < |b.tasks|
    && a.store == decided.seen
    && b.store == (if a.tasks[t].job.Remove? then None else if decided.next.Some? then decided.next else a.store)
    && b.tasks[t].stage == Done(if a.tasks[t].job.Remove? then None else if decided.next.Some? then decided.next else decided.seen, false)
  }

  lemma DecidedStays(a: Auth, step: Step, t: nat)
    requires Inv(a) && Enabled(a, step) && t < |a.tasks| && a.tasks[t].stage.Decided?
    requires step != TaskTakes(t) && step != TaskFails(t)
    ensures t < |Apply(a, step).tasks| && Apply(a, step).tasks[t] == a.tasks[t]
  {
    if IsTaskStep(step) {
      TaskStepFrame(a, step);
    } else {
      OtherStepFrame(a, step);
    }
  }

  lemma DoneStays(a: Auth, step: Step, t: nat)
    requires Inv(a) && Enabled(a, step) && t < |a.tasks| && a.tasks[t].stage.Done?
    ensures t < |Apply(a, step).tasks| && Apply(a, step).tasks[t] == a.tasks[t]
  {
    if IsTaskStep(step) {
      TaskStepFrame(a, step);
    } else {
      OtherStepFrame(a, step);
    }
  }

  lemma {:induction false} DecidedOrDone(states: seq<Auth>, steps: seq<Step>, k: nat, m: nat, t: nat)
    requires Run(states, steps) && k <= m <= |steps| && t < |states[k].tasks| && states[k].tasks[t].stage.Decided?
    ensures t < |states[m].tasks| && (states[m].tasks[t] == states[k].tasks[t] || states[m].tasks[t].stage.Done?)
    decreases m
  {
    hide Inv, Apply, Enabled;
    if k < m {
      DecidedOrDone(states, steps, k, m - 1, t);
      var a, step := states[m - 1], steps[m - 1];
      assert NextBy(a, step, states[m]);
      RunKeepsInv(states, steps, m - 1);
      if a.tasks[t].stage.Done? {
        DoneStays(a, step, t);
      } else if step == TaskTakes(t) || step == TaskFails(t) {
        EndedTaskIsDone(a, step, t);
      } else {
        DecidedStays(a, step, t);
      }
    }
  }

  lemma EndedTaskIsDone(a: Auth, step: Step, t: nat)
    requires Enabled(a, step) && (step == TaskTakes(t) || step == TaskFails(t))
    ensures t < |Apply(a, step).tasks| && Apply(a, step).tasks[t].stage.Done?
  {}

  /**
   A task takes effect as it decided, however long its write takes: nothing else changes the
   store in between.
   */
  lemma DecisionTakesEffect(states: seq<Auth>, steps: seq<Step>, k: nat, m: nat, t: nat)
    requires Run(states, steps) && k <= m < |steps| && t < |states[k].tasks| && states[k].tasks[t].stage.Decided?
    requires steps[m] == TaskTakes(t)
    ensures Takes(states[m], t, states[k].tasks[t].stage, states[m + 1]) && states[m].tasks[t].job == states[k].tasks[t].job
  {
    DecidedOrDone(states, steps, k, m, t);
    RunKeepsInv(states, steps, m);
    assert NextBy(states[m], steps[m], states[m + 1]);
    assert TaskOk(states[m], t);
  }

  /** A login's write stores exactly its credential, if the login was the newest operation when the write began; else nothing. */
  lemma LoginWritesItsCredential(states: seq<Auth>, steps: seq<Step>, k: nat, m: nat, t: nat, now: int, g: nat, c: Credential)
    requires Run(states, steps) && k < m < |steps| && steps[k] == TaskStart(t, now, false) && steps[m] == TaskTakes(t)
    requires t < |states[k].tasks| && states[k].tasks[t].job == LoginWrite(g, c)
    ensures states[m + 1].store == if states[k].face.generation == g then Some(Held(c, g)) else states[k].store
  {
    assert NextBy(states[k], steps[k], states[k + 1]);
    TaskDecides(states[k], t, now);
    DecisionTakesEffect(states, steps, k + 1, m, t);
  }

  /** A refreshed token is what is stored, in place of the old one, and what the refresh answers. */
  lemma RefreshStoresTheToken(states: seq<Auth>, steps: seq<Step>, k: nat, m: nat, t: nat, c: Credential)
    requires Run(states, steps) && k < m < |steps| && steps[k] == RefreshReturns(t, c) && steps[m] == TaskTakes(t)
    ensures states[m + 1].store.Some? && states[m + 1].store.value.credential == c
    ensures t < |states[m + 1].tasks| && states[m + 1].tasks[t].stage == Done(states[m + 1].store, false)
  {
    assert NextBy(states[k], steps[k], states[k + 1]);
    RunKeepsInv(states, steps, k);
    RefreshDecides(states[k], t, c);
    RefreshIsNoRemove(states[k], t, c);
    DecisionTakesEffect(states, steps, k + 1, m, t);
  }

  lemma RefreshIsNoRemove(a: Auth, t: nat, c: Credential)
    requires Inv(a) && Enabled(a, RefreshReturns(t, c))
    ensures t < |a.tasks| && a.tasks[t].job.Refresh? && Apply(a, RefreshReturns(t, c)).tasks[t].job == a.tasks[t].job
  {
    assert TaskOk(a, t);
  }

  /** A queued read answers with what the store held when it began, and so does a refresh that is not due. */
  lemma ReadAnswersTheStore(states: seq<Auth>, steps: seq<Step>, k: nat, m: nat, t: nat, now: int)
    requires Run(states, steps) && k < m < |steps| && steps[k] == TaskStart(t, now, false) && steps[m] == TaskTakes(t)
    requires t < |states[k].tasks| && (states[k].tasks[t].job.Read? || (states[k].tasks[t].job.Refresh? && !states[k + 1].tasks[t].stage.Refreshing?))
    ensures t < |states[m + 1].tasks| && states[m + 1].tasks[t].stage == Done(states[k].store, false)
    ensures states[m + 1].store == states[k].store
  {
    assert NextBy(states[k], steps[k], states[k + 1]);
    TaskDecides(states[k], t, now);
    DecisionTakesEffect(states, steps, k + 1, m, t);
  }

  /** What a resolve does with the answers: it uses what it read, or what the refresh answered. */
  lemma ResolveUsesItsAnswer(a: Auth, step: Step)
    requires Enabled(a, step) && (step.ResolveRead? || step.ResolveChoose? || step.ResolveRefreshed?)
    ensures var phase, b := a.resolves[step.r].phase, Apply(a, step);
      match step
      case ResolveRead(r) =>
        b.resolves[r].phase == (match a.tasks[phase.task].stage
                                case Done(result, failed) => if failed then Finished(false) else HasRead(result)
                                case _ => Finished(false))
      case ResolveChoose(r, now, usable) =>
        if !usable then b.resolves[r].phase == Finished(false)
        else if phase.stored.Some? && ExpiresSoon(phase.stored.value.credential, a.resolves[r].minValidity, now)
        then b.resolves[r].phase == AwaitingRefresh(|a.tasks|) && b.tasks == a.tasks + [Task(Refresh(a.resolves[r].minValidity), Queued)]
        else b.resolves[r].phase == Authorized(phase.stored)
      case ResolveRefreshed(r, _) =>
        b.resolves[r].phase == (match a.tasks[phase.task].stage
                                case Done(Some(Held(Token(access, expiresAt), origin)), false) => Authorized(Some(Held(Token(access, expiresAt), origin)))
                                case _ => Finished(false))
      case _ => true
  {}

  // ---- How logins and logouts proceed --------------------------------------------------------------------

  /**
   A login asks only if its method supports it and it is not aborted at once; what it obtains
   is queued to be stored unless it is aborted by then; and it ends authenticated exactly
   when that is reported. A logout queues its delete unless it is aborted at once.
   */
  lemma OperationsProceed(a: Auth, step: Step)
    requires Enabled(a, step)
    ensures var b, next := Apply(a, step), a.face.generation + 1;
      match step
      case LoginBegin(m, supported, aborted) =>
        && b.face.generation == next && b.tasks == a.tasks
        && b.ops == a.ops[next := Login(m, a.face.current, if supported && !aborted then Asking else Ended(false))]
      case LoginObtains(g, c, aborted) =>
        if aborted then b.ops == a.ops[g := a.ops[g].(phase := Ended(false))] && b.tasks == a.tasks
        else b.ops == a.ops[g := a.ops[g].(phase := Storing(|a.tasks|))] && b.tasks == a.tasks + [Task(LoginWrite(g, c), Queued)]
      case LoginFails(g, _) => b.ops == a.ops[g := a.ops[g].(phase := Ended(false))] && b.tasks == a.tasks
      case LoginReport(g, aborted) =>
        && b.ops == a.ops[g := a.ops[g].(phase := Ended(Reports(a, step) == Some(Authenticated(Some(a.ops[g].requested)))
                                                        && !aborted && !a.tasks[a.ops[g].phase.task].stage.failed && g == a.face.generation))]
        && b.tasks == a.tasks
      case LogoutBegin(aborted) =>
        && b.face.generation == next && b.ops == a.ops[next := Logout(if aborted then None else Some(|a.tasks|))]
        && b.tasks == if aborted then a.tasks else a.tasks + [Task(Remove(next), Queued)]
      case LogoutReport(_, _) => b.ops == a.ops && b.tasks == a.tasks && b.face.generation == a.face.generation
      case _ => b.ops == a.ops && b.face.generation == a.face.generation
  {
    if IsTaskStep(step) {
      TaskStepChanges(a, step);
    }
  }

  /** A login that has been aborted by the time its write begins writes nothing and fails; aborts do not concern other tasks. */
  lemma AbortedWriteFails(a: Auth, t: nat, now: int)
    requires Enabled(a, TaskStart(t, now, true))
    ensures if a.tasks[t].job.LoginWrite? then Apply(a, TaskStart(t, now, true)).tasks[t].stage == Done(None, true)
            else Apply(a, TaskStart(t, now, true)) == Apply(a, TaskStart(t, now, false))
    ensures Apply(a, TaskStart(t, now, true)).store == a.store
  {}

  /** A task whose refresh or write fails changes nothing and answers nothing. */
  lemma FailedTaskChangesNothing(a: Auth, step: Step)
    requires Enabled(a, step) && (step.RefreshFails? || step.TaskFails?)
    ensures Apply(a, step).store == a.store && Apply(a, step).tasks[step.t].stage == Done(None, true)
  {}

  // ---- Nothing is stuck --------------------------------------------------------------------------------------

  /** A queued or running task is next; it can start, or take its next step. */
  ghost predicate TaskCanMove(a: Auth, t: nat) {
    && t < |a.tasks|
    && match a.tasks[t].stage
       case Queued => forall now: int, aborted: bool :: Enabled(a, TaskStart(t, now, aborted))
       case Refreshing(_) => (forall c: Credential :: Enabled(a, RefreshReturns(t, c)) <==> c.Token?) && Enabled(a, RefreshFails(t))
       case Decided(_, _) => Enabled(a, TaskTakes(t)) && Enabled(a, TaskFails(t))
       case Done(_, _) => false
  }

  /** The first unfinished task can always move, so no task waits for ever. */
  lemma FirstTaskCanMove(a: Auth, t: nat)
    requires Inv(a) && t < |a.tasks| && !a.tasks[t].stage.Done? && forall i: nat :: i < t ==> a.tasks[i].stage.Done?
    ensures TaskCanMove(a, t)
  {
    assert TaskOk(a, t);
    if t > 0 {
      assert TaskOk(a, t - 1);
    }
  }

  /** Operations can begin at any time. */
  lemma OperationsCanBegin(a: Auth, m: Method, minValidity: int, supported: bool, aborted: bool)
    ensures Enabled(a, LoginBegin(m, supported, aborted)) && Enabled(a, LogoutBegin(aborted)) && Enabled(a, ResolveBegin(minValidity))
  {}

  /** A login or logout goes on as soon as what it waits for is there. */
  lemma OperationGoesOn(a: Auth, g: nat, c: Credential, aborted: bool)
    requires g in a.ops
    ensures match a.ops[g]
            case Login(_, _, Asking) => Enabled(a, LoginObtains(g, c, aborted)) && Enabled(a, LoginFails(g, aborted))
            case Login(_, _, Storing(t)) => Enabled(a, LoginReport(g, aborted)) <==> TaskDone(a, t)
            case Logout(Some(t)) => Enabled(a, LogoutReport(g, aborted)) <==> TaskDone(a, t)
            case _ => true
  {}

  /** So does a resolve. */
  lemma ResolveGoesOn(a: Auth, r: nat, now: int, flag: bool)
    requires r < |a.resolves|
    ensures match a.resolves[r].phase
            case AwaitingRead(t) => Enabled(a, ResolveRead(r)) <==> TaskDone(a, t)
            case HasRead(_) => Enabled(a, ResolveChoose(r, now, flag))
            case AwaitingRefresh(t) => Enabled(a, ResolveRefreshed(r, flag)) <==> TaskDone(a, t)
            case Authorized(_) => Enabled(a, ResolvePublish(r, flag))
            case Finished(_) => true
  {}
}
