/**
 The promise-tail queue behind the credential store, the file catalog store and the
 registry's publication chains: each task waits for the tail it found, then becomes
 the tail. The per-key variants also drop a settled tail from their map.
 */
module PromiseQueue {
  import opened Prelude

  datatype Stage = Waiting | Running | Settled

  /** `prev` is the tail the task found when it was queued; None is a resolved promise. */
  datatype Task = Task(prev: Option<nat>, stage: Stage)

  datatype Queue = Queue(tasks: seq<Task>, tail: Option<nat>)

  const EMPTY := Queue([], None)

  function Enqueue(q: Queue): Queue {
    Queue(q.tasks + [Task(q.tail, Waiting)], Some(|q.tasks|))
  }

  predicate CanStart(q: Queue, i: nat) {
    && i < |q.tasks|
    && q.tasks[i].stage == Waiting
    && match q.tasks[i].prev
       case None => true
       case Some(p) => p < |q.tasks| && q.tasks[p].stage == Settled
  }

  predicate CanSettle(q: Queue, i: nat) {
    i < |q.tasks| && q.tasks[i].stage == Running
  }

  function SetStage(q: Queue, i: nat, stage: Stage): Queue
    requires i < |q.tasks|
  {
    q.(tasks := q.tasks[i := q.tasks[i].(stage := stage)])
  }

  predicate CanForget(q: Queue) {
    q.tail.Some? && q.tail.value < |q.tasks| && q.tasks[q.tail.value].stage == Settled
  }

  function Forget(q: Queue): Queue {
    q.(tail := None)
  }

  ghost predicate Next(q: Queue, q': Queue) {
    || q' == Enqueue(q)
    || (exists i: nat :: CanStart(q, i) && q' == SetStage(q, i, Running))
    || (exists i: nat :: CanSettle(q, i) && q' == SetStage(q, i, Settled))
    || (CanForget(q) && q' == Forget(q))
  }

  ghost predicate SettledBelow(q: Queue, n: nat) {
    forall i: nat :: i < n && i < |q.tasks| ==> q.tasks[i].stage == Settled
  }

  /** Every task is chained to its predecessor, or was queued when all earlier ones had settled. */
  ghost predicate Inv(q: Queue) {
    && (forall j: nat :: j < |q.tasks| ==>
          match q.tasks[j].prev
          case None => SettledBelow(q, j)
          case Some(p) => p + 1 == j)
    && (forall j: nat :: j < |q.tasks| && q.tasks[j].stage != Waiting ==> SettledBelow(q, j))
    && match q.tail
       case None => SettledBelow(q, |q.tasks|)
       case Some(t) => t + 1 == |q.tasks|
  }

  lemma NextKeepsInv(q: Queue, q': Queue)
    requires Inv(q) && Next(q, q')
    ensures Inv(q')
  {
    if i: nat :| CanStart(q, i) && q' == SetStage(q, i, Running) {
      StartKeepsInv(q, i);
    } else if i: nat :| CanSettle(q, i) && q' == SetStage(q, i, Settled) {
      SettleKeepsInv(q, i);
    } else if q' == Enqueue(q) {
      EnqueueKeepsInv(q);
    } else {
      ForgetKeepsInv(q);
    }
  }

  lemma EnqueueKeepsInv(q: Queue)
    requires Inv(q)
    ensures Inv(Enqueue(q))
  {
    var q' := Enqueue(q);
    assert forall i: nat :: i < |q.tasks| ==> q'.tasks[i] == q.tasks[i];
    forall n: nat | n <= |q.tasks| && SettledBelow(q, n) ensures SettledBelow(q', n) {}
  }

  lemma StartKeepsInv(q: Queue, i: nat)
    requires Inv(q) && CanStart(q, i)
    ensures Inv(SetStage(q, i, Running))
    ensures SettledBelow(q, i)
    ensures forall j: nat :: j < |q.tasks| ==> q.tasks[j].stage != Running
  {
    if q.tasks[i].prev.Some? {
      assert SettledBelow(q, i - 1);
    }
    assert SettledBelow(q, i);
    forall j: nat | j < |q.tasks| && i < j ensures q.tasks[j].stage == Waiting {
      assert !SettledBelow(q, j);
    }
    var q' := SetStage(q, i, Running);
    forall n: nat | n <= |q.tasks| && SettledBelow(q, n) ensures n <= i && SettledBelow(q', n) {}
  }

  lemma SettleKeepsInv(q: Queue, i: nat)
    requires Inv(q) && CanSettle(q, i)
    ensures Inv(SetStage(q, i, Settled))
  {
    var q' := SetStage(q, i, Settled);
    forall n: nat | SettledBelow(q, n) ensures SettledBelow(q', n) {}
  }

  lemma ForgetKeepsInv(q: Queue)
    requires Inv(q) && CanForget(q)
    ensures Inv(Forget(q))
  {
    var q' := Forget(q);
    assert SettledBelow(q, |q.tasks| - 1);
    forall n: nat | SettledBelow(q, n) ensures SettledBelow(q', n) {}
  }

  ghost predicate Run(states: seq<Queue>) {
    && |states| > 0
    && states[0] == EMPTY
    && forall k: nat :: k + 1 < |states| ==> Next(states[k], states[k + 1])
  }

  lemma {:induction false} RunKeepsInv(states: seq<Queue>, k: nat)
    requires Run(states) && k < |states|
    ensures Inv(states[k])
  {
    if k > 0 {
      RunKeepsInv(states, k - 1);
      NextKeepsInv(states[k - 1], states[k]);
    }
  }

  /**
   In every run at most one task is running, and tasks leave the queue in the order
   in which they entered it: whatever has started, everything queued before it is done.
   */
  lemma SerializedInCallOrder(states: seq<Queue>, k: nat)
    requires Run(states) && k < |states|
    ensures forall i: nat, j: nat | i < j < |states[k].tasks| && states[k].tasks[j].stage != Waiting ::
              states[k].tasks[i].stage == Settled
    ensures forall i: nat, j: nat | CanSettle(states[k], i) && CanSettle(states[k], j) :: i == j
  {
    RunKeepsInv(states, k);
    forall i: nat, j: nat | i < j < |states[k].tasks| && states[k].tasks[j].stage != Waiting
      ensures states[k].tasks[i].stage == Settled
    {
      assert SettledBelow(states[k], j);
    }
  }

  /** No task is stuck behind a finished one: an unfinished queue always has a task that can move. */
  lemma SomeTaskCanMove(q: Queue, i: nat)
    requires Inv(q) && i < |q.tasks| && q.tasks[i].stage != Settled
    ensures exists j: nat :: j <= i && (CanStart(q, j) || CanSettle(q, j))
  {
    if q.tasks[i].stage == Running {
      assert CanSettle(q, i);
    } else if q.tasks[i].prev.None? || q.tasks[i - 1].stage == Settled {
      assert CanStart(q, i);
    } else {
      SomeTaskCanMove(q, i - 1);
    }
  }
}
