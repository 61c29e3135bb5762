/**
 One provider's authentication object over its serialized credential store, as a
 transition system: interactive logins, logouts and resolves with token refresh,
 interleaved at every await. Writes to the store are tasks on one promise-tail queue.
 */
module Authentication {
  import opened Prelude
  import PQ = PromiseQueue

  datatype Method = ApiKey | OAuth

  datatype Credential = Key(key: string) | Token(access: string, expiresAt: int)

  function MethodOf(c: Credential): Method {
    if c.Key? then ApiKey else OAuth
  }

  const DEFAULT_MIN_VALIDITY_MS: int := 300000

  /** Whether a resolve asking for `minValidity` milliseconds refreshes the token at `now`. */
  predicate ExpiresSoon(c: Credential, minValidity: int, now: int) {
    c.Token? && now + (if minValidity < DEFAULT_MIN_VALIDITY_MS then DEFAULT_MIN_VALIDITY_MS else minValidity) >= c.expiresAt
  }

  datatype AuthState =
    | Idle
    | Authorizing(requested: Method)
    | Authenticated(via: Option<Method>)     // None: an ambient source
    | ReauthenticationRequired(failed: Method)
    | LoggedOut

  // ---- The object's own two variables ------------------------------------------

  datatype Face = Face(generation: nat, current: AuthState)

  function BeginLogin(f: Face, m: Method): Face {
    Face(f.generation + 1, Authorizing(m))
  }

  function BeginLogout(f: Face): Face {
    f.(generation := f.generation + 1)
  }

  /** The end of a logout whose delete succeeded. */
  function EndLogout(f: Face): Face {
    f.(current := LoggedOut)
  }

  /** What a login lets the store keep: its credential, or nothing when something newer has begun. */
  function Offer(f: Face, g: nat, c: Credential): Option<Credential> {
    if g == f.generation then Some(c) else None
  }

  /** The end of a failed login; a login that has been superseded publishes nothing. */
  function FailLogin(f: Face, g: nat, m: Method, previous: AuthState, aborted: bool): Face {
    if g != f.generation then f
    else f.(current := if aborted then previous else ReauthenticationRequired(m))
  }

  // ---- The store and its queue ---------------------------------------------------

  /** `origin` is a history variable: the generation of the login this credential descends from, 0 if older. */
  datatype Held = Held(credential: Credential, origin: nat)

  datatype Job =
    | LoginWrite(g: nat, credential: Credential)
    | Refresh(minValidity: int)
    | Remove(g: nat)
    | Read

  datatype Stage =
    | Queued
    | Refreshing(held: Held)                                   // the provider's refresh endpoint has been called
    | Decided(next: Option<Held>, seen: Option<Held>)          // the callback has answered, nothing is written yet
    | Done(result: Option<Held>, failed: bool)

  datatype Task = Task(job: Job, stage: Stage)

  // ---- Operations ------------------------------------------------------------------

  datatype Op =
    | Login(requested: Method, previous: AuthState, phase: LoginPhase)
    | Logout(task: Option<nat>)                                // None: aborted before the delete was queued

  datatype LoginPhase = Asking | Storing(task: nat) | Ended(authenticated: bool)

  datatype Resolve = Resolve(operation: nat, minValidity: int, phase: ResolvePhase)

  datatype ResolvePhase =
    | AwaitingRead(task: nat)
    | HasRead(stored: Option<Held>)
    | AwaitingRefresh(task: nat)
    | Authorized(held: Option<Held>)                           // None: resolved from an ambient source
    | Finished(published: bool)

  /** `queuedReads`: the file store queues its reads behind its writes, the in-memory store does not. */
  datatype Auth = Auth(
    queuedReads: bool,
    face: Face,
    store: Option<Held>,
    queue: PQ.Queue,
    tasks: seq<Task>,
    ops: map<nat, Op>,             // logins and logouts, by generation
    resolves: seq<Resolve>,
    removed: Option<nat>,          // history: the generation of the last logout whose delete took effect
    refreshCalls: nat              // history: how often the provider's refresh endpoint was called
  )

  function Init(queuedReads: bool, stored: Option<Credential>): Auth {
    Auth(queuedReads, Face(0, Idle), if stored.Some? then Some(Held(stored.value, 0)) else None,
         PQ.EMPTY, [], map[], [], None, 0)
  }

  datatype Step =
    | LoginBegin(m: Method, supported: bool, aborted: bool)
    | LoginObtains(g: nat, credential: Credential, aborted: bool)   // the provider's login returned
    | LoginFails(g: nat, aborted: bool)                             // it threw, or the credential was invalid
    | LoginReport(g: nat, aborted: bool)                            // the store write settled
    | LogoutBegin(aborted: bool)
    | LogoutReport(g: nat, aborted: bool)
    | ResolveBegin(minValidity: int)
    | ResolveRead(r: nat)                                           // a queued read settled
    | ResolveChoose(r: nat, now: int, usable: bool)                 // what to do with the stored credential
    | ResolveRefreshed(r: nat, aborted: bool)
    | ResolvePublish(r: nat, valid: bool)                           // toAuth has answered
    | TaskStart(t: nat, now: int, aborted: bool)
    | RefreshReturns(t: nat, credential: Credential)
    | RefreshFails(t: nat)
    | TaskTakes(t: nat)                                             // the task's effect on the store
    | TaskFails(t: nat)                                             // store I/O failed

  predicate TaskDone(a: Auth, t: nat) {
    t < |a.tasks| && a.tasks[t].stage.Done?
  }

  predicate IsLogin(a: Auth, g: nat) {
    g in a.ops && a.ops[g].Login?
  }

  predicate IsTask(a: Auth, t: nat) {
    t < |a.tasks| && t < |a.queue.tasks|
  }

  predicate Enabled(a: Auth, step: Step) {
    match step
    case LoginBegin(_, _, _) => true
    case LoginObtains(g, _, _) => IsLogin(a, g) && a.ops[g].phase.Asking?
    case LoginFails(g, _) => IsLogin(a, g) && a.ops[g].phase.Asking?
    case LoginReport(g, _) => IsLogin(a, g) && a.ops[g].phase.Storing? && TaskDone(a, a.ops[g].phase.task)
    case LogoutBegin(_) => true
    case LogoutReport(g, _) => g in a.ops && a.ops[g].Logout? && a.ops[g].task.Some? && TaskDone(a, a.ops[g].task.value)
    case ResolveBegin(_) => true
    case ResolveRead(r) =>
      r < |a.resolves| && a.resolves[r].phase.AwaitingRead? && TaskDone(a, a.resolves[r].phase.task)
    case ResolveChoose(r, _, _) => r < |a.resolves| && a.resolves[r].phase.HasRead?
    case ResolveRefreshed(r, _) =>
      r < |a.resolves| && a.resolves[r].phase.AwaitingRefresh? && TaskDone(a, a.resolves[r].phase.task)
    case ResolvePublish(r, _) => r < |a.resolves| && a.resolves[r].phase.Authorized?
    case TaskStart(t, _, _) => IsTask(a, t) && a.tasks[t].stage.Queued? && PQ.CanStart(a.queue, t)
    case RefreshReturns(t, c) => IsTask(a, t) && a.tasks[t].stage.Refreshing? && c.Token?
    case RefreshFails(t) => IsTask(a, t) && a.tasks[t].stage.Refreshing?
    case TaskTakes(t) => IsTask(a, t) && a.tasks[t].stage.Decided?
    case TaskFails(t) => IsTask(a, t) && a.tasks[t].stage.Decided?
  }

  function AddTask(a: Auth, job: Job): Auth {
    a.(tasks := a.tasks + [Task(job, Queued)], queue := PQ.Enqueue(a.queue))
  }

  function SetTask(a: Auth, t: nat, stage: Stage): Auth
    requires IsTask(a, t)
  {
    a.(tasks := a.tasks[t := a.tasks[t].(stage := stage)],
       queue := PQ.SetStage(a.queue, t, if stage.Done? then PQ.Settled else PQ.Running))
  }

  function SetLogin(a: Auth, g: nat, phase: LoginPhase): Auth
    requires IsLogin(a, g)
  {
    a.(ops := a.ops[g := a.ops[g].(phase := phase)])
  }

  function SetResolve(a: Auth, r: nat, phase: ResolvePhase): Auth
    requires r < |a.resolves|
  {
    a.(resolves := a.resolves[r := a.resolves[r].(phase := phase)])
  }

  function EndLogin(a: Auth, g: nat, aborted: bool): Auth
    requires IsLogin(a, g)
  {
    var op := a.ops[g];
    SetLogin(a, g, Ended(false)).(face := FailLogin(a.face, g, op.requested, op.previous, aborted))
  }

  /** A task's callback: how it answers when it sees what the store holds. */
  function Start(a: Auth, t: nat, now: int, aborted: bool): Auth
    requires IsTask(a, t)
  {
    match a.tasks[t].job
    case LoginWrite(g, c) =>
      if aborted then SetTask(a, t, Done(None, true))
      else
        var next := if Offer(a.face, g, c).Some? then Some(Held(c, g)) else None;
        SetTask(a, t, Decided(next, a.store))
    case Refresh(minValidity) =>
      if a.store.Some? && ExpiresSoon(a.store.value.credential, minValidity, now)
      then SetTask(a, t, Refreshing(a.store.value)).(refreshCalls := a.refreshCalls + 1)
      else SetTask(a, t, Decided(None, a.store))
    case Remove(_) => SetTask(a, t, Decided(None, a.store))
    case Read => SetTask(a, t, Decided(None, a.store))
  }

  function Take(a: Auth, t: nat): Auth
    requires IsTask(a, t) && a.tasks[t].stage.Decided?
  {
    var Decided(next, seen) := a.tasks[t].stage;
    if a.tasks[t].job.Remove? then
      SetTask(a, t, Done(None, false)).(store := None, removed := Some(a.tasks[t].job.g))
    else if next.Some? then SetTask(a, t, Done(next, false)).(store := next)
    else SetTask(a, t, Done(seen, false))
  }

  function Apply(a: Auth, step: Step): Auth
    requires Enabled(a, step)
  {
    match step
    case LoginBegin(m, supported, aborted) =>
      var f := BeginLogin(a.face, m);
      var phase := if supported && !aborted then Asking else Ended(false);
      a.(face := if aborted then f.(current := a.face.current)
                 else if supported then f
                 else f.(current := ReauthenticationRequired(m)),
         ops := a.ops[f.generation := Login(m, a.face.current, phase)])
    case LoginObtains(g, c, aborted) =>
      if aborted then EndLogin(a, g, true)
      else SetLogin(AddTask(a, LoginWrite(g, c)), g, Storing(|a.tasks|))
    case LoginFails(g, aborted) => EndLogin(a, g, aborted)
    case LoginReport(g, aborted) =>
      if a.tasks[a.ops[g].phase.task].stage.failed || aborted || g != a.face.generation then EndLogin(a, g, aborted)
      else SetLogin(a, g, Ended(true)).(face := a.face.(current := Authenticated(Some(a.ops[g].requested))))
    case LogoutBegin(aborted) =>
      var f := BeginLogout(a.face);
      var b := a.(face := f, ops := a.ops[f.generation := Logout(if aborted then None else Some(|a.tasks|))]);
      if aborted then b else AddTask(b, Remove(f.generation))
    case LogoutReport(g, aborted) =>
      if a.tasks[a.ops[g].task.value].stage.failed || aborted then a
      else a.(face := EndLogout(a.face))
    case ResolveBegin(minValidity) =>
      if a.queuedReads
      then AddTask(a, Read).(resolves := a.resolves + [Resolve(a.face.generation, minValidity, AwaitingRead(|a.tasks|))])
      else a.(resolves := a.resolves + [Resolve(a.face.generation, minValidity, HasRead(a.store))])
    case ResolveRead(r) =>
      var stage := a.tasks[a.resolves[r].phase.task].stage;
      SetResolve(a, r, if stage.failed then Finished(false) else HasRead(stage.result))
    case ResolveChoose(r, now, usable) =>
      var stored := a.resolves[r].phase.stored;
      if !usable then SetResolve(a, r, Finished(false))
      else if stored.Some? && ExpiresSoon(stored.value.credential, a.resolves[r].minValidity, now)
      then SetResolve(AddTask(a, Refresh(a.resolves[r].minValidity)), r, AwaitingRefresh(|a.tasks|))
      else SetResolve(a, r, Authorized(stored))
    case ResolveRefreshed(r, aborted) =>
      var stage := a.tasks[a.resolves[r].phase.task].stage;
      if stage.failed && aborted then SetResolve(a, r, Finished(false))
      else if stage.failed
      then SetResolve(a, r, Finished(false)).(face := a.face.(current := ReauthenticationRequired(OAuth)))
      else if stage.result.Some? && stage.result.value.credential.Token?
      then SetResolve(a, r, Authorized(stage.result))
      else SetResolve(a, r, Finished(false))
    case ResolvePublish(r, valid) =>
      var resolve := a.resolves[r];
      if !valid || resolve.operation != a.face.generation then SetResolve(a, r, Finished(false))
      else
        var via := if resolve.phase.held.Some? then Some(MethodOf(resolve.phase.held.value.credential)) else None;
        SetResolve(a, r, Finished(true)).(face := a.face.(current := Authenticated(via)))
    case TaskStart(t, now, aborted) => Start(a, t, now, aborted)
    case RefreshReturns(t, c) =>
      var held := a.tasks[t].stage.held;
      SetTask(a, t, Decided(Some(Held(c, held.origin)), Some(held)))
    case RefreshFails(t) => SetTask(a, t, Done(None, true))
    case TaskTakes(t) => Take(a, t)
    case TaskFails(t) => SetTask(a, t, Done(None, true))
  }
}
