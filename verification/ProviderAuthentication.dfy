/**
 The authentication object itself, its two variables and the synchronous code that
 updates them, as the transition system uses it; and a run in which it reports a
 credential that a finished logout has already deleted.
 */
module ProviderAuthentication {
  import opened Prelude
  import opened Authentication
  import opened AuthenticationRuns
  import PQ = PromiseQueue

  class Authenticator {
    var current: AuthState
    var generation: nat
    ghost var issued: set<nat>     // the operations handed out so far

    ghost function View(): Face
      reads this
    {
      Face(generation, current)
    }

    ghost predicate Valid()
      reads this
    {
      && (forall g :: g in issued ==> 0 < g <= generation)
      && (issued != {} ==> generation in issued)
    }

    /** The operation was issued after every other one. */
    ghost predicate Newest(operation: nat)
      reads this
    {
      operation in issued && forall g :: g in issued ==> g <= operation
    }

    constructor ()
      ensures Valid() && View() == Face(0, Idle) && issued == {}
    {
      current, generation, issued := Idle, 0, {};
    }

    /**
     A login is a new operation, newer than all others, even if it is aborted at once or the
     method supports no login; none of the others is the newest any more.
     */
    method StartLogin(m: Method, supported: bool, aborted: bool) returns (operation: nat, previous: AuthState)
      requires Valid()
      modifies this
      ensures Valid() && operation !in old(issued) && issued == old(issued) + {operation}
      ensures Newest(operation) && forall g :: g in old(issued) ==> !Newest(g)
      ensures previous == old(current)
      ensures current == if aborted then old(current) else if supported then Authorizing(m) else ReauthenticationRequired(m)
      ensures supported && !aborted ==> View() == BeginLogin(old(View()), m)
    {
      previous := current;
      generation := generation + 1;
      operation := generation;
      issued := issued + {operation};
      if aborted {
        return;
      }
      current := Authorizing(m);
      if !supported {
        current := ReauthenticationRequired(m);
      }
    }

    /** The callback of a login's store write: only the newest operation may write its credential. */
    method AnswerStore(operation: nat, c: Credential) returns (kept: Option<Credential>)
      requires Valid() && operation in issued
      ensures kept == if Newest(operation) then Some(c) else None
      ensures kept == Offer(View(), operation, c)
    {
      kept := if operation == generation then Some(c) else None;
    }

    /** Only the newest operation publishes; any other leaves the object alone. */
    method CompleteLogin(operation: nat, m: Method) returns (published: bool)
      requires Valid() && operation in issued
      modifies this`current
      ensures Valid()
      ensures published <==> Newest(operation)
      ensures current == if Newest(operation) then Authenticated(Some(m)) else old(current)
    {
      if operation != generation {
        return false;
      }
      current := Authenticated(Some(m));
      published := true;
    }

    /** Only the newest operation reports its failure; any other leaves the object alone. */
    method AbandonLogin(operation: nat, m: Method, previous: AuthState, aborted: bool)
      requires Valid() && operation in issued
      modifies this`current
      ensures Valid()
      ensures !Newest(operation) ==> current == old(current)
      ensures Newest(operation) ==> current == if aborted then previous else ReauthenticationRequired(m)
      ensures View() == FailLogin(old(View()), operation, m, previous, aborted)
    {
      if operation == generation {
        current := if aborted then previous else ReauthenticationRequired(m);
      }
    }

    /** A logout makes every operation before it stale, and says nothing yet. */
    method StartLogout() returns (operation: nat)
      requires Valid()
      modifies this`generation, this`issued
      ensures Valid() && operation !in old(issued) && issued == old(issued) + {operation}
      ensures Newest(operation) && forall g :: g in old(issued) ==> !Newest(g)
      ensures View() == BeginLogout(old(View()))
    {
      generation := generation + 1;
      operation := generation;
      issued := issued + {operation};
    }

    /** The end of a logout: unless its delete failed or it is aborted, nobody is logged in. */
    method FinishLogout(deleted: bool, aborted: bool)
      requires Valid()
      modifies this`current
      ensures Valid()
      ensures current == if deleted && !aborted then LoggedOut else old(current)
      ensures deleted && !aborted ==> View() == EndLogout(old(View()))
    {
      if !deleted || aborted {
        return;
      }
      current := LoggedOut;
    }

    /** The end of a resolve begun under a generation: it publishes if no operation has been issued since. */
    method FinishResolve(operation: nat, via: Option<Method>) returns (published: bool)
      requires Valid() && operation <= generation
      modifies this`current
      ensures Valid()
      ensures issued != {} ==> (published <==> forall g :: g in issued ==> g <= operation)
      ensures current == if published then Authenticated(via) else old(current)
    {
      if operation != generation {
        return false;
      }
      current := Authenticated(via);
      published := true;
    }

    /** A refresh that fails asks for a new login, whatever has been issued since; an aborted one says nothing. */
    method FailRefresh(aborted: bool)
      requires Valid()
      modifies this`current
      ensures Valid()
      ensures current == if aborted then old(current) else ReauthenticationRequired(OAuth)
    {
      if !aborted {
        current := ReauthenticationRequired(OAuth);
      }
    }
  }

  /**
   A login overtaken by a logout does nothing from then on: the store is offered nothing,
   and neither its success nor its failure changes the state.
   */
  method OvertakenLogin(a: Authenticator, m: Method, c: Credential, aborted: bool) returns (kept: Option<Credential>, published: bool)
    requires a.Valid()
    modifies a
    ensures a.Valid() && kept.None? && !published
    ensures a.View() == BeginLogout(BeginLogin(old(a.View()), m))
  {
    var operation, previous := a.StartLogin(m, true, false);
    var _ := a.StartLogout();
    kept := a.AnswerStore(operation, c);
    published := a.CompleteLogin(operation, m);
    a.AbandonLogin(operation, m, previous, aborted);
  }

  // ---- Why the read has to be queued -----------------------------------------------------

  ghost predicate Reaches(states: seq<Auth>, steps: seq<Step>, a: Auth) {
    Run(states, steps) && states[|steps|] == a
  }

  lemma Then(states: seq<Auth>, steps: seq<Step>, a: Auth, step: Step)
    returns (states': seq<Auth>, steps': seq<Step>, b: Auth)
    requires Reaches(states, steps, a) && Enabled(a, step)
    ensures b == Apply(a, step) && Reaches(states', steps', b)
    ensures states' == states + [b] && steps' == steps + [step]
  {
    b := Apply(a, step);
    states', steps' := states + [b], steps + [step];
    assert states'[0] == states[0];
    forall k: nat | k < |steps'| ensures NextBy(states'[k], steps'[k], states'[k + 1]) {
      if k < |steps| {
        assert NextBy(states[k], steps[k], states[k + 1]);
      }
    }
  }

  const RUNNING := PQ.Queue([PQ.Task(None, PQ.Running)], Some(0))
  const SETTLED := PQ.Queue([PQ.Task(None, PQ.Settled)], Some(0))

  /** A logout has begun; a resolve has read the stored key and is awaiting toAuth; the delete is under way. */
  function LogoutUnderWay(h: Held): Auth {
    Auth(false, Face(1, Idle), Some(h), RUNNING, [Task(Remove(1), Decided(None, Some(h)))],
         map[1 := Logout(Some(0))], [Resolve(1, 0, Authorized(Some(h)))], None, 0)
  }

  lemma PlayLogout(key: string) returns (states: seq<Auth>, steps: seq<Step>)
    ensures Reaches(states, steps, LogoutUnderWay(Held(Key(key), 0)))
  {
    var h := Held(Key(key), 0);
    var a := Init(false, Some(Key(key)));
    states, steps := [a], [];
    assert Reaches(states, steps, a);
    hide Reaches, Run;
    states, steps, a := Then(states, steps, a, LogoutBegin(false));
    assert a.ops == map[1 := Logout(Some(0))];
    states, steps, a := Then(states, steps, a, ResolveBegin(0));
    assert a.resolves == [Resolve(1, 0, HasRead(Some(h)))];
    states, steps, a := Then(states, steps, a, ResolveChoose(0, 0, true));
    assert a.resolves == [Resolve(1, 0, Authorized(Some(h)))];
    states, steps, a := Then(states, steps, a, TaskStart(0, 0, false));
    assert a == LogoutUnderWay(h);
  }

  /**
   With the in-memory store, whose reads are not queued, a resolve that began between
   a logout and its delete publishes `authenticated` after the logout has finished,
   for every stored key: the generation it compares has not changed since it began.
   */
  lemma StaleResolveAfterLogout(key: string) returns (states: seq<Auth>, steps: seq<Step>, a: Auth)
    ensures Reaches(states, steps, a) && !a.queuedReads
    ensures |steps| > 1 && steps[|steps| - 2..] == [LogoutReport(1, false), ResolvePublish(0, true)]
    ensures a.store.None? && a.removed == Some(1) && a.face.current == Authenticated(Some(ApiKey))
  {
    hide Reaches, Run;
    states, steps := PlayLogout(key);
    a := LogoutUnderWay(Held(Key(key), 0));
    states, steps, a := Then(states, steps, a, TaskTakes(0));
    assert a == LogoutUnderWay(Held(Key(key), 0)).(store := None, removed := Some(1), queue := SETTLED,
                                                   tasks := [Task(Remove(1), Done(None, false))]);
    states, steps, a := Then(states, steps, a, LogoutReport(1, false));
    states, steps, a := Then(states, steps, a, ResolvePublish(0, true));
  }
}
