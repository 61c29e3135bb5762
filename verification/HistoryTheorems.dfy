/** Exactly which histories can be prepared, and what every prepared history satisfies. */
module HistoryTheorems {
  import opened Prelude
  import opened History
  import opened HistoryProofs
  import ToolCallIds

  // ---- What every prepared history satisfies -------------------------------------------------

  function WireEntry<C, J>(m: Prepared<C, J>): Entry<string> {
    match m
    case PreparedUser(_) => Talk
    case PreparedAssistant(_, calls) => Ask(seq(|calls|, i requires 0 <= i < |calls| => calls[i].id))
    case PreparedTool(id, _, _, _, _, _) => Answer(id)
  }

  /** A prepared history's entries, with calls and results named by their wire ids. */
  function WireEntries<C, J>(out: seq<Prepared<C, J>>): seq<Entry<string>> {
    seq(|out|, i requires 0 <= i < |out| => WireEntry(out[i]))
  }

  /** The wire ids of the calls of a prepared history, in order. */
  function WireIds<C, J>(out: seq<Prepared<C, J>>): seq<string> {
    if out == [] then []
    else (match WireEntry(out[0])
          case Ask(calls) => calls
          case _ => []) + WireIds(out[1..])
  }

  /** Naming a call by its wire id. */
  function WireTag(ids: map<string, string>): (string, string) -> string {
    (id, name) => if id in ids then ids[id] else ""
  }

  ghost predicate Injective(ids: map<string, string>) {
    forall a, b :: a in ids && b in ids && ids[a] == ids[b] ==> a == b
  }

  ghost predicate AllMatch(rule: ToolCallIds.Rule, ids: map<string, string>) {
    forall a :: a in ids ==> ToolCallIds.Matches(rule, ids[a])
  }

  lemma WireEntriesAreTags<C, J>(s: Settings<C, J>, ids: map<string, string>, ms: seq<Message<C, J>>, out: seq<Prepared<C, J>>)
    requires AllTranslated(s, ids, ms, out)
    ensures WireEntries(out) == Entries(WireTag(ids), ms)
  {
    hide Clean;
    forall i | 0 <= i < |ms| ensures WireEntry(out[i]) == MessageEntry(WireTag(ids), ms[i]) {
      assert Translated(s, ids, ms[i], out[i]);
      EntryIsTag(s, ids, ms[i], out[i]);
    }
  }

  lemma EntryIsTag<C, J>(s: Settings<C, J>, ids: map<string, string>, m: Message<C, J>, out: Prepared<C, J>)
    requires Translated(s, ids, m, out)
    ensures WireEntry(out) == MessageEntry(WireTag(ids), m)
  {}

  lemma {:induction false} WireIdsAreRenamed<C, J>(s: Settings<C, J>, ids: map<string, string>, ms: seq<Message<C, J>>, out: seq<Prepared<C, J>>)
    requires AllTranslated(s, ids, ms, out)
    ensures |WireIds(out)| == |CallIds(ms)|
    ensures forall i :: 0 <= i < |CallIds(ms)| ==> CallIds(ms)[i] in ids && WireIds(out)[i] == ids[CallIds(ms)[i]]
    decreases |ms|
  {
    hide Translated;
    if ms != [] {
      WireIdsAreRenamed(s, ids, ms[1..], out[1..]);
      FirstWireIds(s, ids, ms[0], out[0]);
    }
  }

  lemma FirstWireIds<C, J>(s: Settings<C, J>, ids: map<string, string>, m: Message<C, J>, out: Prepared<C, J>)
    requires Translated(s, ids, m, out)
    ensures WireEntry(out).Ask? <==> m.Assistant?
    ensures m.Assistant? ==>
              && |WireEntry(out).calls| == |MessageCallIds(m)|
              && forall i :: 0 <= i < |MessageCallIds(m)| ==>
                               MessageCallIds(m)[i] in ids && WireEntry(out).calls[i] == ids[MessageCallIds(m)[i]]
  {}

  /** What holds of a prepared history `out` of `ms`, with the wire ids `ids` given to its calls. */
  ghost predicate WellPrepared<C, J>(s: Settings<C, J>, ids: map<string, string>, ms: seq<Message<C, J>>, out: seq<Prepared<C, J>>) {
    && Injective(ids) && AllMatch(s.rule, ids)
    && AllTranslated(s, ids, ms, out)
    && Turns(WireEntries(out)) && Distinct(WireIds(out))
  }

  lemma StartIsFine<C, J>(s: Settings<C, J>)
    ensures Inv(s, START)
  {}

  lemma InvMeans<C, J>(s: Settings<C, J>, p: Progress)
    requires Inv(s, p)
    ensures Injective(p.ids) && AllMatch(s.rule, p.ids) && TellsApart(WireTag(p.ids), p.ids.Keys)
    ensures TellsApart(ById, p.ids.Keys)
  {}

  /**
   Every history that preparation accepts pairs each call with one result at once, and no
   call id occurs twice. What comes out is the history message by message, with call ids
   replaced through a one-to-one table whose values obey the dialect's rule, the same table
   for calls and results; so pairing and distinctness also hold of the wire ids.
   */
  lemma PreparedHistory<C, J>(s: Settings<C, J>, ms: seq<Message<C, J>>)
    requires ToolCallIds.DigestOk(s.rule) && Prepare(s, ms).Ok?
    ensures Turns(Entries(ById, ms)) && Distinct(CallIds(ms))
    ensures exists ids :: WellPrepared(s, ids, ms, Prepare(s, ms).value)
  {
    hide Settles, Turns, Owed, Inv, TellsApart, AllTranslated, Injective, AllMatch, Distinct, ToolCallIds.DigestOk;
    StartIsFine(s);
    var (out, end) := PrepareFrom(s, START, ms).value;
    HistoryStep(s, START, ms, ById);
    var tag := WireTag(end.ids);
    HistoryStep(s, START, ms, tag);
    InvMeans(s, end);
    NothingOwed(ById);
    NothingOwed(tag);
    SettledMeansTurns(Entries(ById, ms));
    SettledMeansTurns(Entries(tag, ms));
    WireEntriesAreTags(s, end.ids, ms, out);
    WireIdsStayDistinct(s, end.ids, ms, out);
    assert WellPrepared(s, end.ids, ms, out);
  }

  lemma WireIdsStayDistinct<C, J>(s: Settings<C, J>, ids: map<string, string>, ms: seq<Message<C, J>>, out: seq<Prepared<C, J>>)
    requires AllTranslated(s, ids, ms, out) && Injective(ids) && Distinct(CallIds(ms))
    ensures Distinct(WireIds(out))
  {
    hide AllTranslated;
    WireIdsAreRenamed(s, ids, ms, out);
  }

  // ---- Which histories can be prepared ---------------------------------------------------------

  lemma CallProceeds<C, J>(s: Settings<C, J>, p: Progress, call: Call<J>)
    requires ValidCall(s, call) && call.id !in p.ids
    ensures PrepareCall(s, p, call).Ok? || PrepareCall(s, p, call) == Err(TooManyCollisions)
  {}

  lemma {:induction false} CallsProceed<C, J>(s: Settings<C, J>, p: Progress, calls: seq<Call<J>>)
    requires Inv(s, p) && ToolCallIds.DigestOk(s.rule)
    requires forall i :: 0 <= i < |calls| ==> ValidCall(s, calls[i])
    requires Distinct(CallIdsOf(calls)) && forall x :: x in CallIdsOf(calls) ==> x !in p.ids
    ensures PrepareCalls(s, p, calls).Ok? || PrepareCalls(s, p, calls) == Err(TooManyCollisions)
    decreases |calls|
  {
    hide ValidCall, PrepareCall, Inv, ToolCallIds.DigestOk;
    if calls != [] {
      assert CallIdsOf(calls)[0] == calls[0].id;
      CallProceeds(s, p, calls[0]);
      if PrepareCall(s, p, calls[0]).Ok? {
        CallStep(s, p, calls[0]);
        assert CallIdsOf(calls) == [calls[0].id] + CallIdsOf(calls[1..]);
        DistinctJoins([calls[0].id], CallIdsOf(calls[1..]));
        CallsProceed(s, PrepareCall(s, p, calls[0]).value.1, calls[1..]);
      }
    }
  }

  lemma OwedIsPending(pending: map<string, string>, id: string, name: string)
    ensures Owed(ById, pending) == multiset{} ==> pending == map[]
    ensures (id, name) in Owed(ById, pending) ==> id in pending && pending[id] == name
  {
    if pending != map[] {
      var i :| i in pending;
      TagIn(ById, pending, i);
      assert ById(i, pending[i]) in Owed(ById, pending);
    }
  }

  lemma MessageProceeds<C, J>(s: Settings<C, J>, p: Progress, m: Message<C, J>, es: seq<Entry<(string, string)>>)
    requires Inv(s, p) && ToolCallIds.DigestOk(s.rule) && Clean(s, m)
    requires Distinct(MessageCallIds(m)) && forall x :: x in MessageCallIds(m) ==> x !in p.ids
    requires es != [] && es[0] == MessageEntry(ById, m) && Settles(Owed(ById, p.pending), es)
    ensures PrepareMessage(s, p, m).Ok? || PrepareMessage(s, p, m) == Err(TooManyCollisions)
  {
    hide MapContent, Owed, Blank, PrepareCalls, Distinct, LacksContent, ToolCallIds.DigestOk;
    match m
    case User(_) =>
      OwedIsPending(p.pending, "", "");
    case Assistant(_, calls) =>
      OwedIsPending(p.pending, "", "");
      CallsProceed(s, p, calls);
    case Tool(id, name, _, _) =>
      OwedIsPending(p.pending, id, name);
  }

  lemma {:induction false} HistoryProceeds<C, J>(s: Settings<C, J>, p: Progress, ms: seq<Message<C, J>>)
    requires Inv(s, p) && ToolCallIds.DigestOk(s.rule)
    requires Settles(Owed(ById, p.pending), Entries(ById, ms))
    requires Distinct(CallIds(ms)) && forall x :: x in CallIds(ms) ==> x !in p.ids
    requires forall i :: 0 <= i < |ms| ==> Clean(s, ms[i])
    ensures PrepareFrom(s, p, ms).Ok? || PrepareFrom(s, p, ms) == Err(TooManyCollisions)
    ensures PrepareFrom(s, p, ms).Ok? ==> PrepareFrom(s, p, ms).value.1.pending == map[]
    decreases |ms|
  {
    hide PrepareMessage, Owed, Settles, Inv, TellsApart, Clean, Distinct, Translated, ToolCallIds.DigestOk;
    if ms == [] {
      SettledAtTheEnd(p, Entries(ById, ms));
    } else {
      var es, m := Entries(ById, ms), ms[0];
      EntriesUnfold(ById, ms);
      DistinctJoins(MessageCallIds(m), CallIds(ms[1..]));
      MessageProceeds(s, p, m, es);
      if PrepareMessage(s, p, m).Ok? {
        MessageStep(s, p, m);
        var next := PrepareMessage(s, p, m).value.1;
        InvMeans(s, next);
        MessageMoves(s, p, m, ById);
        SettlesUnfold(ById, p, next, m, es);
        HistoryProceeds(s, next, ms[1..]);
      }
    }
  }

  lemma SettledAtTheEnd(p: Progress, es: seq<Entry<(string, string)>>)
    requires es == [] && Settles(Owed(ById, p.pending), es)
    ensures p.pending == map[]
  {
    OwedIsPending(p.pending, "", "");
  }

  /** A history that pairs calls and results, names no call twice, and is clean message by message. */
  ghost predicate Acceptable<C, J>(s: Settings<C, J>, ms: seq<Message<C, J>>) {
    Turns(Entries(ById, ms)) && Distinct(CallIds(ms)) && forall i :: 0 <= i < |ms| ==> Clean(s, ms[i])
  }

  /** Preparation accepts exactly the acceptable histories, unless it runs out of wire ids. */
  lemma AcceptsExactly<C, J>(s: Settings<C, J>, ms: seq<Message<C, J>>)
    requires ToolCallIds.DigestOk(s.rule)
    ensures Prepare(s, ms).Ok? ==> Acceptable(s, ms)
    ensures Acceptable(s, ms) ==> Prepare(s, ms).Ok? || Prepare(s, ms) == Err(TooManyCollisions)
  {
    hide Turns, Settles, Owed, Distinct, Clean, Inv, ToolCallIds.DigestOk;
    if Prepare(s, ms).Ok? {
      PreparedHistory(s, ms);
      var ids :| WellPrepared(s, ids, ms, Prepare(s, ms).value);
      forall i | 0 <= i < |ms| ensures Clean(s, ms[i]) {
        assert Translated(s, ids, ms[i], Prepare(s, ms).value[i]);
      }
    }
    if Acceptable(s, ms) {
      SettledMeansTurns(Entries(ById, ms));
      NothingOwed(ById);
      StartIsFine(s);
      HistoryProceeds(s, START, ms);
    }
  }

  // ---- Wire ids do not run out -----------------------------------------------------------------

  /** The candidates for one call id all differ, as digests of different texts should. */
  ghost predicate CandidatesDiffer(rule: ToolCallIds.Rule, id: string) {
    forall j, k :: 0 <= j < k < ToolCallIds.ATTEMPTS ==> ToolCallIds.Candidate(rule, id, j) != ToolCallIds.Candidate(rule, id, k)
  }

  ghost function CandidateSet(rule: ToolCallIds.Rule, id: string, n: nat): set<string> {
    set k: nat | k < n :: ToolCallIds.Candidate(rule, id, k)
  }

  lemma {:induction false} CandidatesCount(rule: ToolCallIds.Rule, id: string, n: nat)
    requires CandidatesDiffer(rule, id) && n <= ToolCallIds.ATTEMPTS
    ensures |CandidateSet(rule, id, n)| == n
  {
    hide ToolCallIds.Candidate;
    if n > 0 {
      CandidatesCount(rule, id, n - 1);
      var last := ToolCallIds.Candidate(rule, id, n - 1);
      assert last !in CandidateSet(rule, id, n - 1);
      assert CandidateSet(rule, id, n) == CandidateSet(rule, id, n - 1) + {last};
    }
  }

  lemma SubsetIsSmaller<T>(a: set<T>, b: set<T>)
    requires a <= b
    ensures |a| <= |b|
  {
    assert b == a + (b - a);
  }

  /** With fewer than a thousand ids in use, one of a thousand different candidates is free. */
  lemma SomeCandidateIsFree(rule: ToolCallIds.Rule, id: string, occupied: set<string>)
    requires ToolCallIds.DigestOk(rule) && CandidatesDiffer(rule, id) && |occupied| < ToolCallIds.ATTEMPTS
    ensures ToolCallIds.Normalized(rule, id, occupied).Some?
  {
    hide ToolCallIds.Candidate, ToolCallIds.Normalized, ToolCallIds.DigestOk;
    ToolCallIds.NormalizedIsFree(rule, id, occupied);
    CandidatesCount(rule, id, ToolCallIds.ATTEMPTS);
    if CandidateSet(rule, id, ToolCallIds.ATTEMPTS) <= occupied {
      SubsetIsSmaller(CandidateSet(rule, id, ToolCallIds.ATTEMPTS), occupied);
    }
  }

  lemma {:induction false} CallsFindIds<C, J>(s: Settings<C, J>, p: Progress, calls: seq<Call<J>>)
    requires ToolCallIds.DigestOk(s.rule) && |p.occupied| + |calls| <= ToolCallIds.ATTEMPTS
    requires forall i :: 0 <= i < |calls| ==> CandidatesDiffer(s.rule, calls[i].id)
    ensures PrepareCalls(s, p, calls) != Err(TooManyCollisions)
    ensures PrepareCalls(s, p, calls).Ok? ==> |PrepareCalls(s, p, calls).value.1.occupied| <= |p.occupied| + |calls|
    decreases |calls|
  {
    hide Blank, CandidatesDiffer, ToolCallIds.Normalized, ToolCallIds.DigestOk;
    if calls != [] {
      SomeCandidateIsFree(s.rule, calls[0].id, p.occupied);
      if PrepareCall(s, p, calls[0]).Ok? {
        CallsFindIds(s, PrepareCall(s, p, calls[0]).value.1, calls[1..]);
      }
    }
  }

  lemma {:induction false} HistoryFindsIds<C, J>(s: Settings<C, J>, p: Progress, ms: seq<Message<C, J>>)
    requires ToolCallIds.DigestOk(s.rule) && |p.occupied| + |CallIds(ms)| <= ToolCallIds.ATTEMPTS
    requires forall x :: x in CallIds(ms) ==> CandidatesDiffer(s.rule, x)
    ensures PrepareFrom(s, p, ms) != Err(TooManyCollisions)
    decreases |ms|
  {
    hide Blank, MapContent, PrepareCalls, LacksContent, CandidatesDiffer, ToolCallIds.DigestOk;
    if ms != [] {
      var m := ms[0];
      if m.Assistant? {
        forall i | 0 <= i < |m.calls| ensures CandidatesDiffer(s.rule, m.calls[i].id) {
          assert MessageCallIds(m)[i] in CallIds(ms);
        }
        CallsFindIds(s, p, m.calls);
      }
      if PrepareMessage(s, p, m).Ok? {
        HistoryFindsIds(s, PrepareMessage(s, p, m).value.1, ms[1..]);
      }
    }
  }

  /** With at most a thousand calls, each with different candidates, preparation accepts exactly the acceptable histories. */
  lemma AcceptsExactlyUpToAThousandCalls<C, J>(s: Settings<C, J>, ms: seq<Message<C, J>>)
    requires ToolCallIds.DigestOk(s.rule) && |CallIds(ms)| <= ToolCallIds.ATTEMPTS
    requires forall x :: x in CallIds(ms) ==> CandidatesDiffer(s.rule, x)
    ensures Prepare(s, ms).Ok? <==> Acceptable(s, ms)
  {
    hide Acceptable, CandidatesDiffer, ToolCallIds.DigestOk;
    AcceptsExactly(s, ms);
    HistoryFindsIds(s, START, ms);
  }

  // ---- Ids that need no renaming -----------------------------------------------------------------

  /** Every id given out so far is the call's own. */
  ghost predicate OwnIds(p: Progress) {
    p.occupied == p.ids.Keys && forall a :: a in p.ids ==> p.ids[a] == a
  }

  lemma {:induction false} CallsKeepIds<C, J>(s: Settings<C, J>, p: Progress, calls: seq<Call<J>>)
    requires OwnIds(p) && forall i :: 0 <= i < |calls| ==> ToolCallIds.Matches(s.rule, calls[i].id)
    ensures PrepareCalls(s, p, calls) != Err(TooManyCollisions)
    ensures PrepareCalls(s, p, calls).Ok? ==> OwnIds(PrepareCalls(s, p, calls).value.1)
    decreases |calls|
  {
    hide Blank, ToolCallIds.Matches;
    if calls != [] && PrepareCall(s, p, calls[0]).Ok? {
      CallsKeepIds(s, PrepareCall(s, p, calls[0]).value.1, calls[1..]);
    }
  }

  lemma {:induction false} HistoryKeepsIds<C, J>(s: Settings<C, J>, p: Progress, ms: seq<Message<C, J>>)
    requires OwnIds(p) && forall x :: x in CallIds(ms) ==> ToolCallIds.Matches(s.rule, x)
    ensures PrepareFrom(s, p, ms) != Err(TooManyCollisions)
    ensures PrepareFrom(s, p, ms).Ok? ==> OwnIds(PrepareFrom(s, p, ms).value.1)
    decreases |ms|
  {
    hide Blank, MapContent, PrepareCalls, OwnIds, LacksContent, ToolCallIds.Matches;
    if ms != [] {
      var m := ms[0];
      if m.Assistant? {
        forall i | 0 <= i < |m.calls| ensures ToolCallIds.Matches(s.rule, m.calls[i].id) {
          assert MessageCallIds(m)[i] in CallIds(ms);
        }
        CallsKeepIds(s, p, m.calls);
      }
      PendingDoesNotMatter(p, p.pending - (if m.Tool? then {m.id} else {}));
      if PrepareMessage(s, p, m).Ok? {
        HistoryKeepsIds(s, PrepareMessage(s, p, m).value.1, ms[1..]);
      }
    }
  }

  lemma PendingDoesNotMatter(p: Progress, pending: map<string, string>)
    requires OwnIds(p)
    ensures OwnIds(p.(pending := pending))
  {}

  /**
   When every call id obeys the dialect's rule already, preparation accepts exactly the
   acceptable histories, and every call and result keeps its id.
   */
  lemma PortableIdsAreKept<C, J>(s: Settings<C, J>, ms: seq<Message<C, J>>)
    requires ToolCallIds.DigestOk(s.rule) && forall x :: x in CallIds(ms) ==> ToolCallIds.Matches(s.rule, x)
    ensures Prepare(s, ms).Ok? <==> Acceptable(s, ms)
    ensures Prepare(s, ms).Ok? ==> WireIds(Prepare(s, ms).value) == CallIds(ms)
  {
    hide Acceptable, Inv, Settles, Owed, AllTranslated, Grows, Entries, ToolCallIds.DigestOk, ToolCallIds.Matches;
    AcceptsExactly(s, ms);
    assert OwnIds(START);
    HistoryKeepsIds(s, START, ms);
    if Prepare(s, ms).Ok? {
      StartIsFine(s);
      HistoryStep(s, START, ms, ById);
      var (out, end) := PrepareFrom(s, START, ms).value;
      WireIdsAreRenamed(s, end.ids, ms, out);
    }
  }
}
