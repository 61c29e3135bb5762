/** What preparing a history guarantees: pairing, distinct wire ids, and results under their calls' ids. */
module HistoryProofs {
  import opened Prelude
  import opened History
  import ToolCallIds

  // ---- Pairing -----------------------------------------------------------------------------

  /** What a message means for pairing: nothing, some calls, or the answer to one call. */
  datatype Entry<T> = Talk | Ask(calls: seq<T>) | Answer(call: T)

  /** Every call is answered exactly once, before anything but an answer follows; `owed` are the open calls. */
  predicate Settles<T(==)>(owed: multiset<T>, es: seq<Entry<T>>)
    decreases |es|
  {
    if es == [] then owed == multiset{}
    else match es[0]
      case Talk => owed == multiset{} && Settles(owed, es[1..])
      case Ask(calls) => owed == multiset{} && Settles(multiset(calls), es[1..])
      case Answer(call) => call in owed && Settles(owed - multiset{call}, es[1..])
  }

  predicate AllAnswers<T(==)>(es: seq<Entry<T>>) {
    forall i :: 0 <= i < |es| ==> es[i].Answer?
  }

  function Answered<T(==)>(es: seq<Entry<T>>): seq<T>
    requires AllAnswers(es)
  {
    if es == [] then [] else [es[0].call] + Answered(es[1..])
  }

  /** Turn by turn: a message with n calls is followed at once by n answers, to those calls in some order. */
  predicate Turns<T(==)>(es: seq<Entry<T>>)
    decreases |es|
  {
    es == [] ||
    match es[0]
    case Talk => Turns(es[1..])
    case Answer(_) => false
    case Ask(calls) =>
      var n := |calls| + 1;
      && n <= |es| && AllAnswers(es[1..n])
      && multiset(Answered(es[1..n])) == multiset(calls)
      && Turns(es[n..])
  }

  /** The next messages answer the open calls, one each, and leave nothing open. */
  predicate PaidAtOnce<T(==)>(owed: multiset<T>, es: seq<Entry<T>>) {
    var n := |owed|;
    && n <= |es| && AllAnswers(es[..n])
    && multiset(Answered(es[..n])) == owed && Settles(multiset{}, es[n..])
  }

  lemma AnsweredFirst<T>(es: seq<Entry<T>>)
    requires es != [] && es[0].Answer?
    ensures AllAnswers(es) <==> AllAnswers(es[1..])
    ensures AllAnswers(es) ==> multiset(Answered(es)) == multiset{es[0].call} + multiset(Answered(es[1..]))
  {}

  lemma PaymentStep<T>(owed: multiset<T>, es: seq<Entry<T>>)
    requires owed != multiset{} && es != [] && es[0].Answer?
    ensures PaidAtOnce(owed, es) <==> es[0].call in owed && PaidAtOnce(owed - multiset{es[0].call}, es[1..])
  {
    hide Settles, AllAnswers, Answered;
    var n, call := |owed|, es[0].call;
    if n <= |es| {
      assert es[..n][1..] == es[1..][..n - 1] && es[n..] == es[1..][n - 1..] && es[..n][0] == es[0];
      AnsweredFirst(es[..n]);
      if AllAnswers(es[..n]) {
        OneLess(multiset(Answered(es[..n])), multiset(Answered(es[1..][..n - 1])), owed, call);
      }
    }
  }

  lemma OneLess<T>(all: multiset<T>, less: multiset<T>, owed: multiset<T>, x: T)
    requires all == multiset{x} + less
    ensures all == owed <==> x in owed && less == owed - multiset{x}
  {}

  /** Open calls are settled by the next messages. */
  lemma {:induction false} DebtIsPaidAtOnce<T>(owed: multiset<T>, es: seq<Entry<T>>)
    ensures Settles(owed, es) <==> PaidAtOnce(owed, es)
    decreases |es|
  {
    if owed == multiset{} {
      assert es[..0] == [] && es[0..] == es && Answered(es[..0]) == [];
    } else if es != [] && es[0].Answer? {
      PaymentStep(owed, es);
      DebtIsPaidAtOnce(owed - multiset{es[0].call}, es[1..]);
    } else if |es| >= |owed| {
      assert es[..|owed|][0] == es[0];
    }
  }

  /** The ledger and the turns say the same. */
  lemma {:induction false} SettledMeansTurns<T>(es: seq<Entry<T>>)
    ensures Settles(multiset{}, es) <==> Turns(es)
    decreases |es|
  {
    if es != [] {
      match es[0]
      case Talk =>
        SettledMeansTurns(es[1..]);
      case Answer(_) =>
      case Ask(calls) =>
        var owed, rest, n := multiset(calls), es[1..], |calls|;
        DebtIsPaidAtOnce(owed, rest);
        if n <= |rest| {
          assert es[1..n + 1] == rest[..n] && es[n + 1..] == rest[n..];
          SettledMeansTurns(rest[n..]);
        }
    }
  }

  // ---- Entries of a history ------------------------------------------------------------------

  function CallEntries<J, T>(tag: (string, string) -> T, calls: seq<Call<J>>): seq<T> {
    seq(|calls|, i requires 0 <= i < |calls| => tag(calls[i].id, calls[i].name))
  }

  function MessageEntry<C, J, T>(tag: (string, string) -> T, m: Message<C, J>): Entry<T> {
    match m
    case User(_) => Talk
    case Assistant(_, calls) => Ask(CallEntries(tag, calls))
    case Tool(id, name, _, _) => Answer(tag(id, name))
  }

  /** The history's entries, with calls and results named by `tag`. */
  function Entries<C, J, T>(tag: (string, string) -> T, ms: seq<Message<C, J>>): seq<Entry<T>> {
    seq(|ms|, i requires 0 <= i < |ms| => MessageEntry(tag, ms[i]))
  }

  lemma EntriesUnfold<C, J, T>(tag: (string, string) -> T, ms: seq<Message<C, J>>)
    requires ms != []
    ensures var es := Entries(tag, ms); es[0] == MessageEntry(tag, ms[0]) && es[1..] == Entries(tag, ms[1..])
  {}

  /** Calls and results named by their id and the tool's name. */
  function ById(id: string, name: string): (string, string) {
    (id, name)
  }

  // ---- Which calls are open --------------------------------------------------------------------

  ghost predicate TellsApart<T(!new)>(tag: (string, string) -> T, ids: set<string>) {
    forall a, b, x, y :: a in ids && b in ids && tag(a, x) == tag(b, y) ==> a == b
  }

  ghost function Tags<T>(tag: (string, string) -> T, pending: map<string, string>): set<T> {
    set id | id in pending :: tag(id, pending[id])
  }

  ghost function Owed<T>(tag: (string, string) -> T, pending: map<string, string>): multiset<T> {
    multiset(Tags(tag, pending))
  }

  lemma TagIn<T>(tag: (string, string) -> T, pending: map<string, string>, id: string)
    requires id in pending
    ensures tag(id, pending[id]) in Tags(tag, pending)
  {}

  lemma OwedAdds<T(!new)>(tag: (string, string) -> T, pending: map<string, string>, id: string, name: string)
    requires id !in pending && TellsApart(tag, pending.Keys + {id})
    ensures Owed(tag, pending[id := name]) == Owed(tag, pending) + multiset{tag(id, name)}
  {
    var all, new' := pending[id := name], tag(id, name);
    assert new' !in Tags(tag, pending);
    forall t | t in Tags(tag, pending) + {new'} ensures t in Tags(tag, all) {
      if t in Tags(tag, pending) {
        var i :| i in pending && t == tag(i, pending[i]);
        TagIn(tag, all, i);
      } else {
        TagIn(tag, all, id);
      }
    }
    assert Tags(tag, all) <= Tags(tag, pending) + {new'};
    assert Tags(tag, all) == Tags(tag, pending) + {new'};
  }

  lemma OwedRemoves<T(!new)>(tag: (string, string) -> T, pending: map<string, string>, id: string)
    requires id in pending && TellsApart(tag, pending.Keys)
    ensures tag(id, pending[id]) in Owed(tag, pending)
    ensures Owed(tag, pending - {id}) == Owed(tag, pending) - multiset{tag(id, pending[id])}
  {
    hide Owed;
    var less := pending - {id};
    assert less[id := pending[id]] == pending;
    OwedAdds(tag, less, id, pending[id]);
  }

  // ---- One step --------------------------------------------------------------------------------

  ghost predicate Inv<C, J>(s: Settings<C, J>, p: Progress) {
    && p.pending.Keys <= p.ids.Keys
    && (forall a, b :: a in p.ids && b in p.ids && p.ids[a] == p.ids[b] ==> a == b)
    && (forall a :: a in p.ids ==> p.ids[a] in p.occupied && ToolCallIds.Matches(s.rule, p.ids[a]))
  }

  ghost predicate Extends(later: map<string, string>, earlier: map<string, string>) {
    forall a :: a in earlier ==> a in later && later[a] == earlier[a]
  }

  function CallIdsOf<J>(calls: seq<Call<J>>): seq<string> {
    seq(|calls|, i requires 0 <= i < |calls| => calls[i].id)
  }

  function MessageCallIds<C, J>(m: Message<C, J>): seq<string> {
    if m.Assistant? then CallIdsOf(m.calls) else []
  }

  /** All call ids of a history, in order. */
  function CallIds<C, J>(ms: seq<Message<C, J>>): seq<string> {
    if ms == [] then [] else MessageCallIds(ms[0]) + CallIds(ms[1..])
  }

  lemma DistinctJoins<T>(a: seq<T>, b: seq<T>)
    ensures Distinct(a + b) <==> Distinct(a) && Distinct(b) && (forall x :: x in a ==> x !in b)
  {
    if Distinct(a + b) {
      forall i, j | 0 <= i < j < |b| ensures b[i] != b[j] {
        assert (a + b)[|a| + i] != (a + b)[|a| + j];
      }
      forall i, j | 0 <= i < j < |a| ensures a[i] != a[j] {
        assert (a + b)[i] != (a + b)[j];
      }
      forall x | x in a ensures x !in b {
        var i :| 0 <= i < |a| && a[i] == x;
        forall j | 0 <= j < |b| ensures b[j] != x {
          assert (a + b)[i] != (a + b)[|a| + j];
        }
      }
    } else if Distinct(a) && Distinct(b) && (forall x :: x in a ==> x !in b) {
      forall i, j | 0 <= i < j < |a + b| ensures (a + b)[i] != (a + b)[j] {
        if |a| <= i {
          assert b[i - |a|] != b[j - |a|];
        } else if |a| <= j {
          assert a[i] in a && b[j - |a|] in b;
        }
      }
    }
  }

  /** What one step adds: new call ids with their wire ids. */
  ghost predicate Grows(p: Progress, next: Progress, fresh': seq<string>) {
    && Extends(next.ids, p.ids)
    && next.ids.Keys == p.ids.Keys + (set x | x in fresh')
    && Distinct(fresh') && forall x :: x in fresh' ==> x !in p.ids
  }

  lemma GrowsOn(p: Progress, mid: Progress, end: Progress, a: seq<string>, b: seq<string>)
    requires Grows(p, mid, a) && Grows(mid, end, b)
    ensures Grows(p, end, a + b)
  {
    DistinctJoins(a, b);
  }

  lemma CallStep<C, J>(s: Settings<C, J>, p: Progress, call: Call<J>)
    requires Inv(s, p) && ToolCallIds.DigestOk(s.rule) && PrepareCall(s, p, call).Ok?
    ensures var (prepared, next) := PrepareCall(s, p, call).value;
      && Inv(s, next) && Grows(p, next, [call.id]) && ValidCall(s, call) && prepared == TranslateCall(s, next.ids, call)
      && call.id !in p.pending && next.pending == p.pending[call.id := call.name]
  {
    hide Blank, ToolCallIds.Normalized, ToolCallIds.Matches, ToolCallIds.DigestOk;
    ToolCallIds.NormalizedIsFree(s.rule, call.id, p.occupied);
  }

  ghost predicate CallsTranslated<C, J>(s: Settings<C, J>, ids: map<string, string>, calls: seq<Call<J>>, out: seq<PreparedCall<J>>) {
    && |out| == |calls|
    && forall i :: 0 <= i < |calls| ==>
                     ValidCall(s, calls[i]) && calls[i].id in ids && out[i] == TranslateCall(s, ids, calls[i])
  }

  lemma NoCallsTranslated<C, J>(s: Settings<C, J>, ids: map<string, string>)
    ensures CallsTranslated(s, ids, [], [])
  {}

  lemma FirstCallTranslated<C, J>(s: Settings<C, J>, ids: map<string, string>, later: map<string, string>, calls: seq<Call<J>>,
                                  first: PreparedCall<J>, rest: seq<PreparedCall<J>>)
    requires calls != [] && ValidCall(s, calls[0]) && calls[0].id in ids && first == TranslateCall(s, ids, calls[0])
    requires Extends(later, ids) && CallsTranslated(s, later, calls[1..], rest)
    ensures CallsTranslated(s, later, calls, [first] + rest)
  {}

  lemma PendingIsKnown<C, J>(s: Settings<C, J>, p: Progress)
    requires Inv(s, p)
    ensures p.pending.Keys <= p.ids.Keys
  {}

  lemma {:induction false} CallsStep<C, J>(s: Settings<C, J>, p: Progress, calls: seq<Call<J>>)
    requires Inv(s, p) && ToolCallIds.DigestOk(s.rule) && PrepareCalls(s, p, calls).Ok?
    ensures var (prepared, next) := PrepareCalls(s, p, calls).value;
      Inv(s, next) && Grows(p, next, CallIdsOf(calls)) && CallsTranslated(s, next.ids, calls, prepared)
    decreases |calls|
  {
    hide PrepareCall, ValidCall, Inv, CallsTranslated, ToolCallIds.DigestOk;
    if calls == [] {
      assert CallIdsOf(calls) == [];
      NoCallsTranslated(s, p.ids);
    } else {
      CallStep(s, p, calls[0]);
      var (first, mid) := PrepareCall(s, p, calls[0]).value;
      CallsStep(s, mid, calls[1..]);
      var (rest, next) := PrepareCalls(s, mid, calls[1..]).value;
      GrowsOn(p, mid, next, [calls[0].id], CallIdsOf(calls[1..]));
      assert CallIdsOf(calls) == [calls[0].id] + CallIdsOf(calls[1..]);
      FirstCallTranslated(s, mid.ids, next.ids, calls, first, rest);
    }
  }

  lemma CallIsOwed<C, J, T(!new)>(s: Settings<C, J>, p: Progress, call: Call<J>, tag: (string, string) -> T, later: Progress)
    requires Inv(s, p) && ToolCallIds.DigestOk(s.rule) && PrepareCall(s, p, call).Ok?
    requires TellsApart(tag, later.ids.Keys) && PrepareCall(s, p, call).value.1.ids.Keys <= later.ids.Keys
    ensures Owed(tag, PrepareCall(s, p, call).value.1.pending) == Owed(tag, p.pending) + multiset{tag(call.id, call.name)}
  {
    hide PrepareCall, ValidCall, Owed, Inv, TellsApart, ToolCallIds.DigestOk;
    CallStep(s, p, call);
    PendingIsKnown(s, p);
    ApartBefore(tag, p.pending.Keys + {call.id}, later.ids.Keys);
    OwedAdds(tag, p.pending, call.id, call.name);
  }

  lemma GrowsKeys(p: Progress, next: Progress, ids: seq<string>)
    requires Grows(p, next, ids)
    ensures p.ids.Keys <= next.ids.Keys
  {}

  /** The calls of a message become open calls. */
  lemma {:induction false} CallsAreOwed<C, J, T(!new)>(s: Settings<C, J>, p: Progress, calls: seq<Call<J>>, tag: (string, string) -> T)
    requires Inv(s, p) && ToolCallIds.DigestOk(s.rule) && PrepareCalls(s, p, calls).Ok?
    requires TellsApart(tag, PrepareCalls(s, p, calls).value.1.ids.Keys)
    ensures Owed(tag, PrepareCalls(s, p, calls).value.1.pending) == Owed(tag, p.pending) + multiset(CallEntries(tag, calls))
    decreases |calls|
  {
    hide PrepareCall, ValidCall, Owed, Inv, TellsApart, CallsTranslated, Grows, ToolCallIds.DigestOk;
    if calls != [] {
      var mid, next := PrepareCall(s, p, calls[0]).value.1, PrepareCalls(s, p, calls).value.1;
      CallStep(s, p, calls[0]);
      CallsStep(s, mid, calls[1..]);
      GrowsKeys(mid, next, CallIdsOf(calls[1..]));
      CallIsOwed(s, p, calls[0], tag, next);
      CallsAreOwed(s, mid, calls[1..], tag);
      assert CallEntries(tag, calls) == [tag(calls[0].id, calls[0].name)] + CallEntries(tag, calls[1..]);
    }
  }

  /** A message preparation does not object to by itself. */
  ghost predicate Clean<C, J>(s: Settings<C, J>, m: Message<C, J>) {
    && !LacksContent(m)
    && match m
       case User(content) => MapContent(s.basic, content).Some?
       case Assistant(content, calls) =>
         MapContent(s.kept, content).Some? && forall i :: 0 <= i < |calls| ==> ValidCall(s, calls[i])
       case Tool(id, name, content, _) =>
         !Blank(id) && !Blank(name) && s.visible(name).Some? && MapContent(s.basic, content).Some?
  }

  ghost predicate Covers<C, J>(ids: map<string, string>, m: Message<C, J>) {
    match m
    case User(_) => true
    case Assistant(_, calls) => forall i :: 0 <= i < |calls| ==> calls[i].id in ids
    case Tool(id, _, _, _) => id in ids
  }

  /** A message as it is sent, under given wire ids. */
  ghost function Translate<C, J>(s: Settings<C, J>, ids: map<string, string>, m: Message<C, J>): Prepared<C, J>
    requires Clean(s, m) && Covers(ids, m)
  {
    match m
    case User(content) => PreparedUser(MapContent(s.basic, content).value)
    case Assistant(content, calls) =>
      PreparedAssistant(MapContent(s.kept, content).value,
                        seq(|calls|, i requires 0 <= i < |calls| => TranslateCall(s, ids, calls[i])))
    case Tool(id, name, content, isError) =>
      PreparedTool(ids[id], id, s.visible(name).value, name, MapContent(s.basic, content).value, isError)
  }

  ghost predicate Translated<C, J>(s: Settings<C, J>, ids: map<string, string>, m: Message<C, J>, out: Prepared<C, J>) {
    Clean(s, m) && Covers(ids, m) && out == Translate(s, ids, m)
  }

  lemma TranslatedLater<C, J>(s: Settings<C, J>, ids: map<string, string>, later: map<string, string>, m: Message<C, J>, out: Prepared<C, J>)
    requires Translated(s, ids, m, out) && Extends(later, ids)
    ensures Translated(s, later, m, out)
  {}

  /** A message with the open calls before it leaves the open calls after it. */
  ghost predicate Moves<C, J, T(!new)>(tag: (string, string) -> T, p: Progress, next: Progress, m: Message<C, J>) {
    match MessageEntry(tag, m)
    case Talk => Owed(tag, p.pending) == multiset{} && Owed(tag, next.pending) == multiset{}
    case Ask(calls) => Owed(tag, p.pending) == multiset{} && Owed(tag, next.pending) == multiset(calls)
    case Answer(call) => call in Owed(tag, p.pending) && Owed(tag, next.pending) == Owed(tag, p.pending) - multiset{call}
  }

  lemma NothingOwed<T(!new)>(tag: (string, string) -> T)
    ensures Owed(tag, map[]) == multiset{}
  {}

  lemma ToolStep<C, J>(s: Settings<C, J>, p: Progress, m: Message<C, J>)
    requires m.Tool? && Inv(s, p) && PrepareMessage(s, p, m).Ok?
    ensures var (prepared, next) := PrepareMessage(s, p, m).value;
      && Inv(s, next) && Grows(p, next, []) && Translated(s, next.ids, m, prepared)
      && m.id in p.pending && m.name == p.pending[m.id] && next.pending == p.pending - {m.id}
  {
    hide MapContent, Blank, ToolCallIds.Matches;
  }

  lemma AssistantStep<C, J>(s: Settings<C, J>, p: Progress, m: Message<C, J>)
    requires m.Assistant? && Inv(s, p) && ToolCallIds.DigestOk(s.rule) && PrepareMessage(s, p, m).Ok?
    ensures var (prepared, next) := PrepareMessage(s, p, m).value;
      && Inv(s, next) && Grows(p, next, MessageCallIds(m)) && Translated(s, next.ids, m, prepared)
      && p.pending == map[] && PrepareCalls(s, p, m.calls).Ok? && next == PrepareCalls(s, p, m.calls).value.1
  {
    hide MapContent, ValidCall, Blank, PrepareCalls, Inv, Grows, ToolCallIds.DigestOk;
    var (prepared, next) := PrepareMessage(s, p, m).value;
    CallsStep(s, p, m.calls);
    assert prepared.calls == Translate(s, next.ids, m).calls;
  }

  lemma MessageStep<C, J>(s: Settings<C, J>, p: Progress, m: Message<C, J>)
    requires Inv(s, p) && ToolCallIds.DigestOk(s.rule) && PrepareMessage(s, p, m).Ok?
    ensures var (prepared, next) := PrepareMessage(s, p, m).value;
      Inv(s, next) && Grows(p, next, MessageCallIds(m)) && Translated(s, next.ids, m, prepared)
  {
    hide MapContent, PrepareCalls, Inv, ToolCallIds.DigestOk;
    match m
    case User(_) =>
    case Assistant(_, _) =>
      hide PrepareMessage, Grows, Translated;
      AssistantStep(s, p, m);
    case Tool(_, _, _, _) =>
      hide PrepareMessage, Grows, Translated;
      ToolStep(s, p, m);
  }

  lemma MessageMoves<C, J, T(!new)>(s: Settings<C, J>, p: Progress, m: Message<C, J>, tag: (string, string) -> T)
    requires Inv(s, p) && ToolCallIds.DigestOk(s.rule) && PrepareMessage(s, p, m).Ok?
    requires TellsApart(tag, PrepareMessage(s, p, m).value.1.ids.Keys)
    ensures Moves(tag, p, PrepareMessage(s, p, m).value.1, m)
  {
    hide Owed, PrepareCalls, Inv, Translated, TellsApart, ToolCallIds.DigestOk;
    NothingOwed(tag);
    match m
    case User(_) =>
    case Assistant(_, calls) =>
      hide PrepareMessage, Grows;
      AssistantStep(s, p, m);
      CallsAreOwed(s, p, calls, tag);
    case Tool(id, name, _, _) =>
      hide PrepareMessage;
      ToolStep(s, p, m);
      PendingIsKnown(s, p);
      ApartBefore(tag, p.pending.Keys, PrepareMessage(s, p, m).value.1.ids.Keys);
      OwedRemoves(tag, p.pending, id);
  }

  // ---- The whole history -------------------------------------------------------------------------

  ghost predicate AllTranslated<C, J>(s: Settings<C, J>, ids: map<string, string>, ms: seq<Message<C, J>>, out: seq<Prepared<C, J>>) {
    |out| == |ms| && forall i :: 0 <= i < |ms| ==> Translated(s, ids, ms[i], out[i])
  }

  lemma {:induction false} HistoryStep<C, J, T(!new)>(s: Settings<C, J>, p: Progress, ms: seq<Message<C, J>>, tag: (string, string) -> T)
    requires Inv(s, p) && ToolCallIds.DigestOk(s.rule) && PrepareFrom(s, p, ms).Ok?
    ensures var (out, end) := PrepareFrom(s, p, ms).value;
      && Inv(s, end) && Grows(p, end, CallIds(ms)) && AllTranslated(s, end.ids, ms, out)
      && (TellsApart(tag, end.ids.Keys) && end.pending == map[] ==> Settles(Owed(tag, p.pending), Entries(tag, ms)))
    decreases |ms|
  {
    hide PrepareMessage, Translated, Owed, Settles, Inv, TellsApart, ToolCallIds.DigestOk;
    if ms == [] {
      NothingOwed(tag);
      NothingToSettle<T>();
    } else {
      MessageStep(s, p, ms[0]);
      var (first, mid) := PrepareMessage(s, p, ms[0]).value;
      HistoryStep(s, mid, ms[1..], tag);
      var (rest, end) := PrepareFrom(s, mid, ms[1..]).value;
      GrowsOn(p, mid, end, MessageCallIds(ms[0]), CallIds(ms[1..]));
      TranslatedLater(s, mid.ids, end.ids, ms[0], first);
      assert ms == [ms[0]] + ms[1..];
      EntriesUnfold(tag, ms);
      if TellsApart(tag, end.ids.Keys) && end.pending == map[] {
        ApartBefore(tag, mid.ids.Keys, end.ids.Keys);
        MessageMoves(s, p, ms[0], tag);
        SettlesUnfold(tag, p, mid, ms[0], Entries(tag, ms));
      }
    }
  }

  lemma NothingToSettle<T>()
    ensures Settles<T>(multiset{}, [])
  {}

  lemma ApartBefore<T(!new)>(tag: (string, string) -> T, ids: set<string>, later: set<string>)
    requires TellsApart(tag, later) && ids <= later
    ensures TellsApart(tag, ids)
  {}

  lemma SettlesUnfold<C, J, T(!new)>(tag: (string, string) -> T, p: Progress, mid: Progress, m: Message<C, J>, es: seq<Entry<T>>)
    requires Moves(tag, p, mid, m) && es != [] && es[0] == MessageEntry(tag, m)
    ensures Settles(Owed(tag, p.pending), es) <==> Settles(Owed(tag, mid.pending), es[1..])
  {}
}
