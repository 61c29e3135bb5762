/** Polling for a device authorization, as section 3.5 of RFC 8628 asks. */
module DevicePolling {
  import opened Prelude

  const MINIMUM_INTERVAL: nat := 1000
  const DEFAULT_INTERVAL: nat := 5000

  datatype Response<V> = Pending | SlowDown(interval: Option<int>) | Complete(value: V) | Failed(message: string)

  datatype Outcome<V> = Authorized(value: V) | Refused(message: string) | Cancelled | TimedOut

  /**
   What happens around each poll, counted from zero: the answer, how long it takes, how
   much longer than asked the sleep before it lasts, and whether the caller has aborted.
   */
  datatype World<!V> = World(answer: nat -> Response<V>, takes: nat -> nat, oversleep: nat -> nat, aborted: nat -> bool)

  function Max(a: int, b: int): int {
    if a < b then b else a
  }

  function Min(a: int, b: int): int {
    if a < b then a else b
  }

  /** The interval before each poll: a slow-down sets it anew, or adds five seconds. */
  function Interval<V>(w: World<V>, initial: int, k: nat): int {
    if k == 0 then Max(MINIMUM_INTERVAL, initial)
    else match w.answer(k - 1)
      case SlowDown(None) => Interval(w, initial, k - 1) + 5000
      case SlowDown(Some(asked)) => Max(MINIMUM_INTERVAL, asked)
      case _ => Interval(w, initial, k - 1)
  }

  lemma {:induction false} IntervalIsAtLeastASecond<V>(w: World<V>, initial: int, k: nat)
    ensures Interval(w, initial, k) >= MINIMUM_INTERVAL
  {
    if k > 0 {
      IntervalIsAtLeastASecond(w, initial, k - 1);
    }
  }

  /** A poll neither follows the start nor another poll sooner than the interval of the time. */
  ghost predicate Spaced<V>(w: World<V>, initial: int, start: int, polls: seq<int>) {
    && (|polls| > 0 ==> polls[0] >= start + Interval(w, initial, 0))
    && forall k :: 0 < k < |polls| ==> polls[k] >= polls[k - 1] + Interval(w, initial, k)
  }

  lemma {:induction false} PollsAreSecondsApart<V>(w: World<V>, initial: int, start: int, polls: seq<int>, k: nat)
    requires Spaced(w, initial, start, polls) && k < |polls|
    ensures polls[k] >= start + (k + 1) * MINIMUM_INTERVAL
  {
    IntervalIsAtLeastASecond(w, initial, k);
    if k > 0 {
      PollsAreSecondsApart(w, initial, start, polls, k - 1);
    }
  }

  /**
   When poll k is due: an interval after the start, or after the poll before it has been
   answered, and as much later as the sleep lasts longer than asked.
   */
  function Due<V>(w: World<V>, initial: int, start: int, k: nat): int {
    (if k == 0 then start else Due(w, initial, start, k - 1) + w.takes(k - 1)) + Interval(w, initial, k) + w.oversleep(k)
  }

  /** The polls made are those that are due, each before the deadline and with the caller still there. */
  ghost predicate MadeWhenDue<V>(w: World<V>, initial: int, start: int, expires: int, polls: seq<int>) {
    forall k: nat :: k < |polls| ==> polls[k] == Due(w, initial, start, k) < start + expires && !w.aborted(k)
  }

  lemma DueIsSpaced<V>(w: World<V>, initial: int, start: int, expires: int, polls: seq<int>)
    requires MadeWhenDue(w, initial, start, expires, polls)
    ensures Spaced(w, initial, start, polls)
  {
    hide Interval;
    forall k: nat | 0 < k < |polls| ensures polls[k] >= polls[k - 1] + Interval(w, initial, k) {
      assert polls[k] == Due(w, initial, start, k) && polls[k - 1] == Due(w, initial, start, k - 1);
    }
  }

  /**
   The loop against a clock in milliseconds. Every poll is made when it is due, before the
   deadline and spaced by the interval then in force; the number of polls is below the
   number of seconds until the deadline; the outcome is that of the first answer that
   decides; and without one, polling ends only by an abort before the next poll would be
   made, or because that poll would not be due before the deadline.
   */
  method PollDevice<V>(w: World<V>, start: int, interval: Option<int>, expires: int)
    returns (outcome: Outcome<V>, polls: seq<int>)
    ensures var initial := if interval.Some? then interval.value else 5000; Spaced(w, initial, start, polls)
    ensures var initial := if interval.Some? then interval.value else 5000;
      MadeWhenDue(w, initial, start, expires, polls)
    ensures forall k :: 0 <= k < |polls| ==> polls[k] < start + expires
    ensures polls != [] ==> |polls| * 1000 < expires
    ensures forall k :: 0 <= k < |polls| - 1 ==> w.answer(k).Pending? || w.answer(k).SlowDown?
    ensures match outcome
            case Authorized(value) => polls != [] && w.answer(|polls| - 1) == Complete(value)
            case Refused(message) => polls != [] && w.answer(|polls| - 1) == Failed(message)
            case _ => polls == [] || w.answer(|polls| - 1).Pending? || w.answer(|polls| - 1).SlowDown?
    ensures var next := Due(w, if interval.Some? then interval.value else 5000, start, |polls|);
      && (outcome.Cancelled? ==> w.aborted(|polls|) && next < start + expires)
      && (outcome.TimedOut? ==> next >= start + expires)
  {
    hide Interval, Spaced, Due, MadeWhenDue;
    ghost var initial := if interval.Some? then interval.value else DEFAULT_INTERVAL;
    IntervalUnfold(w, initial, 0);
    NoneMade(w, initial, start, expires);
    DueUnfold(w, initial, start, 0);
    var deadline := start + expires;
    var pause := Max(MINIMUM_INTERVAL, if interval.Some? then interval.value else DEFAULT_INTERVAL);
    var now := start + Max(0, Min(pause, Max(0, deadline - start))) + w.oversleep(0);
    polls := [];
    while now < deadline
      invariant pause == Interval(w, initial, |polls|) >= MINIMUM_INTERVAL
      invariant MadeWhenDue(w, initial, start, expires, polls)
      invariant if now < deadline then now == Due(w, initial, start, |polls|) else Due(w, initial, start, |polls|) >= deadline
      invariant forall k :: 0 <= k < |polls| ==> w.answer(k).Pending? || w.answer(k).SlowDown?
      decreases deadline - now
    {
      if w.aborted(|polls|) {
        CountPolls(w, initial, start, polls, expires);
        return Cancelled, polls;
      }
      var k := |polls|;
      var result := w.answer(k);
      MadeGrows(w, initial, start, expires, polls, now);
      polls := polls + [now];
      IntervalUnfold(w, initial, k + 1);
      DueUnfold(w, initial, start, k + 1);
      CountPolls(w, initial, start, polls, expires);
      match result {
        case Complete(value) => return Authorized(value), polls;
        case Failed(message) => return Refused(message), polls;
        case SlowDown(None) => pause := pause + 5000;
        case SlowDown(Some(asked)) => pause := Max(MINIMUM_INTERVAL, asked);
        case Pending =>
      }
      IntervalIsAtLeastASecond(w, initial, k + 1);
      now := now + w.takes(k);
      now := now + Min(pause, Max(0, deadline - now)) + w.oversleep(k + 1);
    }
    CountPolls(w, initial, start, polls, expires);
    return TimedOut, polls;
  }

  /** Never below a second; a slow-down without a number adds five. */
  lemma IntervalUnfold<V>(w: World<V>, initial: int, k: nat)
    ensures Interval(w, initial, k) ==
            if k == 0 then if initial < 1000 then 1000 else initial
            else match w.answer(k - 1)
              case SlowDown(None) => Interval(w, initial, k - 1) + 5000
              case SlowDown(Some(asked)) => if asked < 1000 then 1000 else asked
              case _ => Interval(w, initial, k - 1)
  {}

  lemma DueUnfold<V>(w: World<V>, initial: int, start: int, k: nat)
    ensures Due(w, initial, start, k) ==
            (if k == 0 then start else Due(w, initial, start, k - 1) + w.takes(k - 1)) + Interval(w, initial, k) + w.oversleep(k)
  {}

  lemma NoneMade<V>(w: World<V>, initial: int, start: int, expires: int)
    ensures MadeWhenDue(w, initial, start, expires, [])
  {}

  lemma MadeGrows<V>(w: World<V>, initial: int, start: int, expires: int, polls: seq<int>, now: int)
    requires MadeWhenDue(w, initial, start, expires, polls) && !w.aborted(|polls|)
    requires now == Due(w, initial, start, |polls|) < start + expires
    ensures MadeWhenDue(w, initial, start, expires, polls + [now])
  {}

  lemma CountPolls<V>(w: World<V>, initial: int, start: int, polls: seq<int>, expires: int)
    requires MadeWhenDue(w, initial, start, expires, polls)
    ensures Spaced(w, initial, start, polls) && forall k :: 0 <= k < |polls| ==> polls[k] < start + expires
    ensures polls != [] ==> |polls| * 1000 < expires
  {
    DueIsSpaced(w, initial, start, expires, polls);
    if polls != [] {
      PollsAreSecondsApart(w, initial, start, polls, |polls| - 1);
    }
  }
}
