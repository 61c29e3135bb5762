/**
 Everything the Chat decoder says, as a function of what the provider sends: the texts and
 thoughts with their content indexes, the ends of the calls, and how the stream ends.
 */
module OpenAiChatContents {
  import opened Prelude
  import opened StreamTrace
  import opened OpenAiChat
  import opened OpenAiChatProofs
  import opened OpenAiChatText
  import ToolNames

  // ---- Content indexes ------------------------------------------------------------------------

  /** What has a content index of its own. */
  datatype Key = TextKey | ThinkingKey | CallKey(index: nat)

  function AddKey(keys: seq<Key>, k: Key): seq<Key> {
    if k in keys then keys else keys + [k]
  }

  function AddCalls(keys: seq<Key>, ds: seq<ToolDelta>): seq<Key>
    decreases |ds|
  {
    if ds == [] then keys else AddCalls(AddKey(keys, CallKey(ds[0].index)), ds[1..])
  }

  function Position(keys: seq<Key>, k: Key): (i: nat)
    ensures k in keys ==> i < |keys| && keys[i] == k
  {
    if keys == [] || keys[0] == k then 0 else 1 + Position(keys[1..], k)
  }

  // ---- One frame ----------------------------------------------------------------------------------

  function NonEmpty(fields: seq<string>): seq<string> {
    if fields == [] then [] else (if fields[0] == "" then [] else [fields[0]]) + NonEmpty(fields[1..])
  }

  /** The reasoning of a delta is its first field that is not empty. */
  function Reasoning(d: Delta): string {
    var given := NonEmpty(d.reasoning);
    if given == [] || d.reasoningDetails then "" else given[0]
  }

  function DeltaOf(a: Arrival): Option<Delta> {
    if !a.aborted && a.frame.Chunk? && a.frame.choices.One? then a.frame.choices.delta else None
  }

  function TextKeys(keys: seq<Key>, d: Delta): seq<Key> {
    if d.content == "" then keys else AddKey(keys, TextKey)
  }

  function ThinkingKeys(keys: seq<Key>, d: Delta): seq<Key> {
    if Reasoning(d) == "" then TextKeys(keys, d) else AddKey(TextKeys(keys, d), ThinkingKey)
  }

  /** Everything gets the next content index when it first appears: text, then thinking, then calls. */
  function FrameKeys(keys: seq<Key>, a: Arrival): seq<Key> {
    match DeltaOf(a)
    case None => keys
    case Some(d) => AddCalls(ThinkingKeys(keys, d), ValidItems(FrameItems(a)))
  }

  function FrameShown<I>(keys: seq<Key>, a: Arrival): seq<Event<I>> {
    match DeltaOf(a)
    case None => []
    case Some(d) =>
      (if d.content == "" then [] else [TextDelta(Position(TextKeys(keys, d), TextKey), d.content)]) +
      (if Reasoning(d) == "" then [] else [ThinkingDelta(Position(ThinkingKeys(keys, d), ThinkingKey), Reasoning(d))])
  }

  datatype Halt = IsAborted | IsError(code: string) | IsDone | Throws(error: Error)

  /** Whether and how a frame ends the decoding of frames. */
  function Halts(a: Arrival): Option<Halt> {
    if a.aborted then Some(IsAborted)
    else match a.frame
      case Done => Some(IsDone)
      case Undecodable => Some(Throws(BadFrame))
      case ProviderError(code) => Some(IsError(code))
      case Chunk(NoChoice) => None
      case Chunk(NotAnArray) => Some(Throws(ChoicesNotAnArray))
      case Chunk(Many) => Some(Throws(ManyChoices))
      case Chunk(Malformed) => Some(Throws(BadChoice))
      case Chunk(One(_, None)) => None
      case Chunk(One(_, Some(Delta(_, true, _, _)))) => Some(Throws(ReplayMetadataLost))
      case Chunk(One(_, Some(Delta(_, false, _, NoTools)))) => None
      case Chunk(One(_, Some(Delta(_, false, _, NotAList)))) => Some(Throws(ToolsNotAnArray))
      case Chunk(One(_, Some(Delta(_, false, _, Tools(items))))) => if None in items then Some(Throws(BadToolIndex)) else None
  }

  /** The finish reason a frame gives. */
  function FinishOf(a: Arrival): Option<string> {
    if !a.aborted && a.frame.Chunk? && a.frame.choices.One? && a.frame.choices.finish != Some("") then a.frame.choices.finish else None
  }

  // ---- The whole stream -----------------------------------------------------------------------------

  /** The text and thinking events of a stream. */
  function AllShown<I>(keys: seq<Key>, arrivals: seq<Arrival>): seq<Event<I>>
    decreases |arrivals|
  {
    if arrivals == [] then []
    else FrameShown(keys, arrivals[0]) + if Halts(arrivals[0]).Some? then [] else AllShown(FrameKeys(keys, arrivals[0]), arrivals[1..])
  }

  function AllKeys(keys: seq<Key>, arrivals: seq<Arrival>): seq<Key>
    decreases |arrivals|
  {
    if arrivals == [] then keys
    else if Halts(arrivals[0]).Some? then FrameKeys(keys, arrivals[0])
    else AllKeys(FrameKeys(keys, arrivals[0]), arrivals[1..])
  }

  function FirstHalt(arrivals: seq<Arrival>): Option<Halt>
    decreases |arrivals|
  {
    if arrivals == [] then None else if Halts(arrivals[0]).Some? then Halts(arrivals[0]) else FirstHalt(arrivals[1..])
  }

  /** The last finish reason given, or the one given before. */
  function LastFinish(before: Option<string>, arrivals: seq<Arrival>): Option<string>
    decreases |arrivals|
  {
    if arrivals == [] then before
    else
      var first := if FinishOf(arrivals[0]).Some? then FinishOf(arrivals[0]) else before;
      if Halts(arrivals[0]).Some? then first else LastFinish(first, arrivals[1..])
  }

  // ---- The calls ----------------------------------------------------------------------------------------

  /** The first id sent. */
  function IdOf(ds: seq<ToolDelta>): string {
    if ds == [] then ""
    else
      var before, last := IdOf(ds[..|ds| - 1]), ds[|ds| - 1];
      if before != "" then before else last.id
  }

  /** The first name sent, a function's before a custom tool's. */
  function NameOf(ds: seq<ToolDelta>): string {
    if ds == [] then ""
    else
      var before, last := NameOf(ds[..|ds| - 1]), ds[|ds| - 1];
      if before != "" then before else if last.functionName != "" then last.functionName else last.customName
  }

  /** The tool indexes in the order in which they were first sent. */
  function Appearances(ds: seq<ToolDelta>): seq<nat> {
    if ds == [] then []
    else
      var before, last := Appearances(ds[..|ds| - 1]), ds[|ds| - 1];
      if last.index in before then before else before + [last.index]
  }

  /** The input of a call, or what is wrong with it. */
  function InputOf<I>(env: Env<I>, ds: seq<ToolDelta>): Result<I, Error> {
    if IdOf(ds) == "" || NameOf(ds) == "" then Err(IncompleteCall)
    else if TurnsCustom(ds) then
      match env.inputProperty(NameOf(ds))
      case None => Err(UnknownCustomTool)
      case Some(property) => Ok(env.wrap(property, CustomText(ds)))
    else if Arguments(ds) == "" then Ok(env.empty)
    else match env.json(Arguments(ds))
      case None => Err(BadArguments)
      case Some(input) => Ok(input)
  }

  /** The ends of the calls with the given indexes, up to the first that is wrong. */
  function CallEnds<I>(env: Env<I>, keys: seq<Key>, sent: seq<ToolDelta>, indexes: seq<nat>): (seq<Event<I>>, Option<Error>)
    decreases |indexes|
  {
    if indexes == [] then ([], None)
    else
      var ds := Of(sent, indexes[0]);
      match InputOf(env, ds)
      case Err(e) => ([], Some(e))
      case Ok(input) =>
        var (more, error) := CallEnds(env, keys, sent, indexes[1..]);
        ([CallEnd(Position(keys, CallKey(indexes[0])), IdOf(ds), ToolNames.ReverseName(env.tools, NameOf(ds)), input)] + more, error)
  }

  /** The last event of a stream with a finish reason; `spoke` says that anything was passed on before. */
  function LastEvent<I>(reason: string, called: bool, spoke: bool): Event<I> {
    match reason
    case "stop" => Completed(if called then ToolUse else Stop, false)
    case "end" => Completed(Stop, false)
    case "length" => Completed(Length, true)
    case "tool_calls" => Completed(ToolUse, false)
    case "function_call" => Completed(ToolUse, false)
    case _ => Failure("provider_finish_reason", spoke)
  }

  /** The ends of the calls and of the stream, after all frames. */
  function EndingFrom<I>(env: Env<I>, keys: seq<Key>, sent: seq<ToolDelta>, finish: Option<string>, abortedAtEnd: bool, spoke: bool): (seq<Event<I>>, Stop) {
    if abortedAtEnd then ([Aborted(spoke)], Returned)
    else
      match finish
      case None => ([], Returned)
      case Some(reason) =>
        var (calls, error) := CallEnds(env, keys, sent, Sorted(Appearances(sent)));
        match error
        case Some(e) => (calls, Threw(e))
        case None => (calls + [LastEvent(reason, calls != [], spoke)], Returned)
  }

  /** What follows the deltas. */
  function EndingAfter<I>(env: Env<I>, keys: seq<Key>, sent: seq<ToolDelta>, finish: Option<string>, arrivals: seq<Arrival>,
                          abortedAtEnd: bool, spoke: bool): (seq<Event<I>>, Stop)
  {
    match FirstHalt(arrivals)
    case Some(IsAborted) => ([Aborted(spoke)], Returned)
    case Some(IsError(code)) => ([Failure(code, spoke)], Returned)
    case Some(Throws(e)) => ([], Threw(e))
    case _ => EndingFrom(env, AllKeys(keys, arrivals), sent + Sent(arrivals), LastFinish(finish, arrivals), abortedAtEnd, spoke)
  }

  function Ending<I>(env: Env<I>, arrivals: seq<Arrival>, abortedAtEnd: bool, spoke: bool): (seq<Event<I>>, Stop) {
    EndingAfter(env, [], [], None, arrivals, abortedAtEnd, spoke)
  }

  // ---- The state that is tracked -------------------------------------------------------------------------

  ghost predicate Knows(st: State, keys: seq<Key>) {
    && Distinct(keys) && st.next == |keys|
    && st.textIndex == (if TextKey in keys then Some(Position(keys, TextKey)) else None)
    && st.thinkingIndex == (if ThinkingKey in keys then Some(Position(keys, ThinkingKey)) else None)
    && forall i: nat :: (i in st.tools <==> CallKey(i) in keys) && (i in st.tools ==> st.tools[i].contentIndex == Position(keys, CallKey(i)))
  }

  lemma {:induction false} PositionStays(keys: seq<Key>, k: Key, added: Key)
    requires k in keys || k == added
    ensures Position(keys + [added], k) == if k in keys then Position(keys, k) else |keys|
  {
    if keys != [] && keys[0] != k {
      assert (keys + [added])[1..] == keys[1..] + [added];
      PositionStays(keys[1..], k, added);
    } else if keys == [] {
      assert keys + [added] == [added];
    }
  }

  lemma AddedKey(keys: seq<Key>, added: Key)
    requires Distinct(keys)
    ensures var more := AddKey(keys, added);
      && Distinct(more) && (forall k :: k in more <==> k in keys || k == added)
      && (forall k :: k in keys ==> Position(more, k) == Position(keys, k))
      && (added !in keys ==> |more| == |keys| + 1 && Position(more, added) == |keys|)
  {
    forall k | k in keys || k == added ensures Position(keys + [added], k) == if k in keys then Position(keys, k) else |keys| {
      PositionStays(keys, k, added);
    }
  }

  lemma TextKnows<I>(st: State, keys: seq<Key>, text: string)
    requires Knows(st, keys)
    ensures var o, more := ReadText<I>(st, text), if text == "" then keys else AddKey(keys, TextKey);
      && Knows(o.state, more)
      && o.events == (if text == "" then [] else [TextDelta(Position(more, TextKey), text)])
  {
    hide Position, Distinct;
    AddedKey(keys, TextKey);
  }

  lemma ThinkingKnows<I>(st: State, keys: seq<Key>, text: string)
    requires Knows(st, keys)
    ensures var o, more := ReadThinking<I>(st, text), if text == "" then keys else AddKey(keys, ThinkingKey);
      && Knows(o.state, more)
      && o.events == (if text == "" then [] else [ThinkingDelta(Position(more, ThinkingKey), text)])
  {
    hide Position, Distinct;
    AddedKey(keys, ThinkingKey);
  }

  lemma EmitShowsNothing<I>(env: Env<I>, t: Tool)
    ensures Shown(Emit(env, t).0) == [] && EndsNothing(Emit(env, t).0)
    ensures Emit(env, t).1.contentIndex == t.contentIndex
  {
    var es := Emit(env, t).0;
    assert |es| <= 2 && forall i :: 0 <= i < |es| ==> es[i].CallStart? || es[i].CallDelta?;
    CallsShowNothing(es);
  }

  lemma {:induction false} CallsShowNothing<I>(es: seq<Event<I>>)
    requires forall i :: 0 <= i < |es| ==> es[i].CallStart? || es[i].CallDelta?
    ensures Shown(es) == [] && EndsNothing(es)
    decreases |es|
  {
    if es != [] {
      CallsShowNothing(es[1..]);
    }
  }

  lemma ToolKnows<I>(env: Env<I>, st: State, keys: seq<Key>, d: ToolDelta)
    requires Knows(st, keys)
    ensures var o := ReadTool(env, st, Some(d));
      && Knows(o.state, AddKey(keys, CallKey(d.index))) && o.stop.None? && Shown(o.events) == [] && EndsNothing(o.events)
      && o.state.finish == st.finish
  {
    hide Position, Distinct, Emit, Shown, EndsNothing;
    AddedKey(keys, CallKey(d.index));
    var tool := if d.index in st.tools then st.tools[d.index] else FreshTool(st.next);
    EmitShowsNothing(env, Merge(tool, d));
  }

  lemma ShowsNothingJoins<I>(a: seq<Event<I>>, b: seq<Event<I>>)
    requires EndsNothing(a) && EndsNothing(b)
    ensures EndsNothing(a + b) && Shown(a + b) == Shown(a) + Shown(b)
  {
    ShownJoins(a, b);
  }

  lemma {:induction false} ToolsKnow<I>(env: Env<I>, st: State, keys: seq<Key>, items: seq<Option<ToolDelta>>)
    requires Knows(st, keys)
    ensures var o := ReadTools(env, st, items);
      && Knows(o.state, AddCalls(keys, ValidItems(items))) && Shown(o.events) == [] && EndsNothing(o.events)
      && o.stop == (if None in items then Some(Threw(BadToolIndex)) else None) && o.state.finish == st.finish
    decreases |items|
  {
    hide Knows, ReadTool, Shown, EndsNothing, AddKey;
    if items == [] {
      NothingShown<I>();
    } else if items[0].None? {
      NothingShown<I>();
      NoToolIsThrown(env, st);
    } else {
      var d := items[0].value;
      ToolKnows(env, st, keys, d);
      var o := ReadTool(env, st, items[0]);
      ToolsKnow(env, o.state, AddKey(keys, CallKey(d.index)), items[1..]);
      ShowsNothingJoins(o.events, ReadTools(env, o.state, items[1..]).events);
    }
  }

  lemma NothingShown<I>()
    ensures Shown<I>([]) == [] && EndsNothing<I>([])
  {}

  lemma NoToolIsThrown<I>(env: Env<I>, st: State)
    ensures ReadTool(env, st, None) == Outcome([], st, Some(Threw(BadToolIndex)))
  {}

  lemma {:induction false} FirstReasoningIs(fields: seq<string>)
    ensures FirstReasoning(fields) == if NonEmpty(fields) == [] then "" else NonEmpty(fields)[0]
    ensures NonEmpty(fields) != [] ==> NonEmpty(fields)[0] != ""
  {
    if fields != [] {
      FirstReasoningIs(fields[1..]);
    }
  }

  // ---- The tools ------------------------------------------------------------------------------------------

  /** Every tool has the first id and the first name sent for its index; they are listed as they appeared. */
  ghost predicate Names(st: State, sent: seq<ToolDelta>) {
    && st.order == Appearances(sent) && Listed(st)
    && forall i: nat :: i in st.tools ==> st.tools[i].id == IdOf(Of(sent, i)) && st.tools[i].name == NameOf(Of(sent, i))
  }

  lemma OneMoreName(ds: seq<ToolDelta>, d: ToolDelta)
    ensures var all := ds + [d];
      && IdOf(all) == (if IdOf(ds) != "" then IdOf(ds) else d.id)
      && NameOf(all) == (if NameOf(ds) != "" then NameOf(ds) else if d.functionName != "" then d.functionName else d.customName)
      && Appearances(all) == (if d.index in Appearances(ds) then Appearances(ds) else Appearances(ds) + [d.index])
  {
    assert (ds + [d])[..|ds|] == ds;
  }

  lemma EmitKeepsNames<I>(env: Env<I>, t: Tool)
    ensures Emit(env, t).1.id == t.id && Emit(env, t).1.name == t.name
  {}

  lemma ToolNamed<I>(env: Env<I>, st: State, sent: seq<ToolDelta>, d: ToolDelta)
    requires Names(st, sent) && AllSum(st.tools, sent)
    ensures Names(ReadTool(env, st, Some(d)).state, sent + [d])
  {
    hide Emit, Appearances, IdOf, NameOf, Of, ToolOk, Sums;
    OneMoreName(sent, d);
    OneMoreName(Of(sent, d.index), d);
    ToolKeepsListed(env, st, Some(d));
    var tool := if d.index in st.tools then st.tools[d.index] else FreshTool(st.next);
    EmitKeepsNames(env, Merge(tool, d));
    NothingNamed();
    forall i: nat ensures Of(sent + [d], i) == if d.index == i then Of(sent, i) + [d] else Of(sent, i) {
      OfOne(sent, d, i);
    }
  }

  lemma NothingNamed()
    ensures IdOf([]) == "" && NameOf([]) == "" && Appearances([]) == []
  {}

  lemma {:induction false} ToolsNamed<I>(env: Env<I>, st: State, sent: seq<ToolDelta>, items: seq<Option<ToolDelta>>)
    requires Names(st, sent) && AllSum(st.tools, sent)
    ensures Names(ReadTools(env, st, items).state, sent + ValidItems(items))
    decreases |items|
  {
    hide Names, AllSum, Emit, Merge;
    if items == [] || items[0].None? {
      assert sent + [] == sent;
    } else {
      var d := items[0].value;
      ToolNamed(env, st, sent, d);
      ToolSums(env, st, sent, d);
      ToolsNamed(env, ReadTool(env, st, items[0]).state, sent + [d], items[1..]);
      assert sent + [d] + ValidItems(items[1..]) == sent + ([d] + ValidItems(items[1..]));
    }
  }

  // ---- Whether anything was passed on ------------------------------------------------------------------------

  /** The flag says whether there were events; calls are started only with one. */
  ghost predicate Spoke(st: State, spoke: bool) {
    st.emittedContent == spoke && forall i: nat :: i in st.tools && st.tools[i].started ==> spoke
  }

  lemma ToolSpeaks<I>(env: Env<I>, st: State, item: Option<ToolDelta>, spoke: bool)
    requires Spoke(st, spoke)
    ensures var o := ReadTool(env, st, item); Spoke(o.state, spoke || o.events != [])
  {}

  lemma {:induction false} ToolsSpeak<I>(env: Env<I>, st: State, items: seq<Option<ToolDelta>>, spoke: bool)
    requires Spoke(st, spoke)
    ensures var o := ReadTools(env, st, items); Spoke(o.state, spoke || o.events != [])
    decreases |items|
  {
    hide Spoke, ReadTool;
    if items != [] {
      ToolSpeaks(env, st, items[0], spoke);
      var o := ReadTool(env, st, items[0]);
      if o.stop.None? {
        ToolsSpeak(env, o.state, items[1..], spoke || o.events != []);
      }
    }
  }

  // ---- One frame --------------------------------------------------------------------------------------------------

  ghost predicate Tracks(st: State, keys: seq<Key>, sent: seq<ToolDelta>, spoke: bool) {
    Knows(st, keys) && AllSum(st.tools, sent) && Names(st, sent) && Spoke(st, spoke)
  }

  lemma FinishDoesNotMatter(st: State, finish: Option<string>, keys: seq<Key>, sent: seq<ToolDelta>, spoke: bool)
    requires Tracks(st, keys, sent, spoke)
    ensures Tracks(st.(finish := finish), keys, sent, spoke)
  {}

  lemma ContentTracks<I>(st: State, text: string, keys: seq<Key>, sent: seq<ToolDelta>, spoke: bool)
    requires Tracks(st, keys, sent, spoke)
    ensures var o, more := ReadText<I>(st, text), if text == "" then keys else AddKey(keys, TextKey);
      && Tracks(o.state, more, sent, spoke || text != "") && o.stop.None? && o.state.finish == st.finish
      && o.events == (if text == "" then [] else [TextDelta(Position(more, TextKey), text)])
    ensures var o, more := ReadThinking<I>(st, text), if text == "" then keys else AddKey(keys, ThinkingKey);
      && Tracks(o.state, more, sent, spoke || text != "") && o.stop.None? && o.state.finish == st.finish
      && o.events == (if text == "" then [] else [ThinkingDelta(Position(more, ThinkingKey), text)])
  {
    hide Knows, AllSum, AddKey, Position, Appearances, IdOf, NameOf;
    TextKnows<I>(st, keys, text);
    ThinkingKnows<I>(st, keys, text);
  }

  lemma ToolsTrack<I>(env: Env<I>, st: State, items: seq<Option<ToolDelta>>, keys: seq<Key>, sent: seq<ToolDelta>, spoke: bool)
    requires Tracks(st, keys, sent, spoke)
    ensures var o := ReadTools(env, st, items);
      && Tracks(o.state, AddCalls(keys, ValidItems(items)), sent + ValidItems(items), spoke || o.events != [])
      && Shown(o.events) == [] && EndsNothing(o.events) && o.state.finish == st.finish
      && o.stop == (if None in items then Some(Threw(BadToolIndex)) else None)
  {
    hide Knows, AllSum, Names, Spoke, ReadTools, Shown, EndsNothing;
    ToolsKnow(env, st, keys, items);
    ItemsSum(env, st, sent, items);
    ToolsNamed(env, st, sent, items);
    ToolsSpeak(env, st, items, spoke);
  }

  lemma SpeechIsShown<I>(e: Event<I>)
    ensures Shown<I>([]) == [] && EndsNothing<I>([])
    ensures e.TextDelta? || e.ThinkingDelta? ==> Shown([e]) == [e] && EndsNothing([e])
  {
    assert [e][1..] == [];
  }

  lemma DeltaTracks<I>(env: Env<I>, st: State, d: Delta, keys: seq<Key>, sent: seq<ToolDelta>, spoke: bool)
    requires Tracks(st, keys, sent, spoke)
    ensures var o := ReadDelta(env, st, d);
      var items := if !d.reasoningDetails && d.tools.Tools? then d.tools.items else [];
      && Tracks(o.state, AddCalls(ThinkingKeys(keys, d), ValidItems(items)), sent + ValidItems(items), spoke || o.events != [])
      && Shown(o.events) == (if d.content == "" then [] else [TextDelta(Position(TextKeys(keys, d), TextKey), d.content)]) +
                            (if Reasoning(d) == "" then [] else [ThinkingDelta(Position(ThinkingKeys(keys, d), ThinkingKey), Reasoning(d))])
      && EndsNothing(o.events) && o.state.finish == st.finish
      && o.stop == if d.reasoningDetails then Some(Threw(ReplayMetadataLost))
                   else if d.tools.NotAList? then Some(Threw(ToolsNotAnArray))
                   else if None in items then Some(Threw(BadToolIndex)) else None
  {
    hide Tracks, ReadText, ReadThinking, ReadTools, FirstReasoning, NonEmpty, AddKey, Position, Shown, EndsNothing;
    var text: Outcome<I> := ReadText(st, d.content);
    ContentTracks<I>(st, d.content, keys, sent, spoke);
    assert sent + [] == sent;
    SpeechIsShown(if text.events == [] then Aborted(false) else text.events[0]);
    if !d.reasoningDetails {
      FirstReasoningIs(d.reasoning);
      var spoken, keys' := spoke || d.content != "", TextKeys(keys, d);
      var thinking: Outcome<I> := ReadThinking(text.state, FirstReasoning(d.reasoning));
      ContentTracks<I>(text.state, FirstReasoning(d.reasoning), keys', sent, spoken);
      SpeechIsShown(if thinking.events == [] then Aborted(false) else thinking.events[0]);
      ShowsNothingJoins(text.events, thinking.events);
      if d.tools.Tools? {
        var spoken' := spoken || Reasoning(d) != "";
        ToolsTrack(env, thinking.state, d.tools.items, ThinkingKeys(keys, d), sent, spoken');
        ShowsNothingJoins(text.events + thinking.events, ReadTools(env, thinking.state, d.tools.items).events);
      }
    }
  }

  lemma FrameTracks<I>(env: Env<I>, st: State, a: Arrival, keys: seq<Key>, sent: seq<ToolDelta>, spoke: bool)
    requires Tracks(st, keys, sent, spoke)
    ensures var o := ReadFrame(env, st, a);
      match Halts(a)
      case None =>
        && o.stop.None? && Tracks(o.state, FrameKeys(keys, a), sent + ValidItems(FrameItems(a)), spoke || o.events != [])
        && Shown(o.events) == FrameShown(keys, a) && EndsNothing(o.events)
        && o.state.finish == if FinishOf(a).Some? then FinishOf(a) else st.finish
      case Some(IsAborted) => o.events == [Aborted(spoke)] && o.stop == Some(Returned)
      case Some(IsError(code)) => o.events == [Failure(code, spoke)] && o.stop == Some(Returned)
      case Some(IsDone) => o == Outcome([], st, Some(DoneSeen))
      case Some(Throws(e)) => o.stop == Some(Threw(e)) && Shown(o.events) == FrameShown(keys, a) && EndsNothing(o.events)
  {
    hide Knows, AllSum, Names, ReadDelta, AddKey, Position, Shown, EndsNothing, Reasoning;
    NothingShown<I>();
    assert sent + [] == sent;
    if DeltaOf(a).Some? {
      SpokenFrameTracks(env, st, a, keys, sent, spoke);
    } else {
      FinishDoesNotMatter(st, FinishOf(a), keys, sent, spoke);
    }
  }

  lemma SpokenFrameTracks<I>(env: Env<I>, st: State, a: Arrival, keys: seq<Key>, sent: seq<ToolDelta>, spoke: bool)
    requires Tracks(st, keys, sent, spoke) && DeltaOf(a).Some?
    ensures var o := ReadFrame(env, st, a);
      && Shown(o.events) == FrameShown(keys, a) && EndsNothing(o.events)
      && Tracks(o.state, FrameKeys(keys, a), sent + ValidItems(FrameItems(a)), spoke || o.events != [])
      && o.state.finish == (if FinishOf(a).Some? then FinishOf(a) else st.finish)
      && (Halts(a).Some? ==> Halts(a).value.Throws? && o.stop == Some(Threw(Halts(a).value.error)))
      && (Halts(a).None? ==> o.stop.None?)
  {
    hide Tracks, ReadDelta, AddKey, Position, Shown, EndsNothing, Reasoning;
    var finish := a.frame.choices.finish;
    var finished := if finish.Some? && finish.value != "" then st.(finish := finish) else st;
    FinishDoesNotMatter(st, finish, keys, sent, spoke);
    DeltaTracks(env, finished, a.frame.choices.delta.value, keys, sent, spoke);
  }

  lemma {:induction false} ValidAll(items: seq<Option<ToolDelta>>)
    ensures |ValidItems(items)| <= |items| && (|ValidItems(items)| < |items| <==> None in items)
  {
    if items != [] {
      ValidAll(items[1..]);
    }
  }

  lemma HaltsExactly(a: Arrival)
    ensures Halts(a).Some? <==> FrameEnds(a)
  {
    ValidAll(FrameItems(a));
  }

  // ---- The end ------------------------------------------------------------------------------------------------------

  lemma CallEndIs<I>(env: Env<I>, st: State, i: nat, keys: seq<Key>, sent: seq<ToolDelta>, spoke: bool)
    requires Tracks(st, keys, sent, spoke) && i in st.tools
    ensures EndCall(env, st.tools[i]) ==
      match InputOf(env, Of(sent, i))
      case Err(e) => Err(e)
      case Ok(input) => Ok(CallEnd(Position(keys, CallKey(i)), IdOf(Of(sent, i)), ToolNames.ReverseName(env.tools, NameOf(Of(sent, i))), input))
  {
    hide IdOf, NameOf, Of, Position, Appearances, Distinct, Sums;
    assert Sums(st.tools[i], Of(sent, i));
    ToolEndIs(env, st.tools[i], keys, i, Of(sent, i));
  }

  lemma ToolEndIs<I>(env: Env<I>, t: Tool, keys: seq<Key>, i: nat, ds: seq<ToolDelta>)
    requires Sums(t, ds) && t.id == IdOf(ds) && t.name == NameOf(ds) && t.contentIndex == Position(keys, CallKey(i))
    ensures EndCall(env, t) ==
      match InputOf(env, ds)
      case Err(e) => Err(e)
      case Ok(input) => Ok(CallEnd(Position(keys, CallKey(i)), IdOf(ds), ToolNames.ReverseName(env.tools, NameOf(ds)), input))
  {
    hide IdOf, NameOf, Position, HasId, HasName, Arguments, CustomText, TurnsCustom;
  }

  lemma {:induction false} CallEndsAre<I>(env: Env<I>, st: State, indexes: seq<nat>, keys: seq<Key>, sent: seq<ToolDelta>, spoke: bool)
    requires Tracks(st, keys, sent, spoke) && forall i :: i in indexes ==> i in st.tools
    ensures EndCalls(env, st.tools, indexes) == CallEnds(env, keys, sent, indexes)
    decreases |indexes|
  {
    hide Tracks, EndCall, InputOf, Position, IdOf, NameOf;
    if indexes != [] {
      CallEndIs(env, st, indexes[0], keys, sent, spoke);
      CallEndsAre(env, st, indexes[1..], keys, sent, spoke);
    }
  }

  lemma FinishIs<I>(env: Env<I>, st: State, abortedAtEnd: bool, keys: seq<Key>, sent: seq<ToolDelta>, spoke: bool)
    requires Tracks(st, keys, sent, spoke)
    ensures Listed(st) && Finish(env, st, abortedAtEnd) == EndingFrom(env, keys, sent, st.finish, abortedAtEnd, spoke)
  {
    hide Knows, AllSum, CallEnds, EndCalls, Sorted, Appearances;
    SortedKeeps(st.order);
    if !abortedAtEnd && st.finish.Some? {
      CallEndsAre(env, st, Sorted(st.order), keys, sent, spoke);
      var (calls, error) := CallEnds(env, keys, sent, Sorted(Appearances(sent)));
      ClosingIs<I>(st.finish.value, calls != [], st.emittedContent);
    }
  }

  lemma ClosingIs<I>(reason: string, called: bool, spoke: bool)
    ensures Closing<I>(if called && reason == "stop" then "tool_calls" else reason, spoke) == LastEvent(reason, called, spoke)
  {}

  /** The events before the ending. */
  ghost function Body<I>(env: Env<I>, st: State, arrivals: seq<Arrival>): seq<Event<I>>
    decreases |arrivals|
  {
    if arrivals == [] then []
    else
      match Halts(arrivals[0])
      case None => ReadFrame(env, st, arrivals[0]).events + Body(env, ReadFrame(env, st, arrivals[0]).state, arrivals[1..])
      case Some(Throws(_)) => ReadFrame(env, st, arrivals[0]).events
      case _ => []
  }

  /** Decoding from a state yields what the remaining frames say, and then their ending. */
  ghost predicate DecodesTo<I>(env: Env<I>, st: State, arrivals: seq<Arrival>, abortedAtEnd: bool,
                               keys: seq<Key>, sent: seq<ToolDelta>, spoke: bool)
  {
    var body := Body(env, st, arrivals);
    var ending := EndingAfter(env, keys, sent, st.finish, arrivals, abortedAtEnd, spoke || body != []);
    && Listed(st) && Decode(env, st, arrivals, abortedAtEnd) == (body + ending.0, ending.1)
    && Shown(body) == AllShown(keys, arrivals) && EndsNothing(body)
  }

  lemma {:induction false} StreamIs<I>(env: Env<I>, st: State, arrivals: seq<Arrival>, abortedAtEnd: bool,
                                       keys: seq<Key>, sent: seq<ToolDelta>, spoke: bool)
    requires Tracks(st, keys, sent, spoke)
    ensures DecodesTo(env, st, arrivals, abortedAtEnd, keys, sent, spoke)
    decreases |arrivals|
  {
    hide ReadFrame, Tracks, FrameKeys, DecodesTo, Halts, ValidItems;
    if arrivals == [] {
      EmptyStream(env, st, abortedAtEnd, keys, sent, spoke);
    } else {
      var a := arrivals[0];
      FrameTracks(env, st, a, keys, sent, spoke);
      if Halts(a).None? {
        var o := ReadFrame(env, st, a);
        StreamIs(env, o.state, arrivals[1..], abortedAtEnd, FrameKeys(keys, a), sent + ValidItems(FrameItems(a)), spoke || o.events != []);
        StreamGoesOn(env, st, arrivals, abortedAtEnd, keys, sent, spoke);
      } else {
        StreamHalts(env, st, arrivals, abortedAtEnd, keys, sent, spoke);
      }
    }
  }

  lemma EmptyStream<I>(env: Env<I>, st: State, abortedAtEnd: bool, keys: seq<Key>, sent: seq<ToolDelta>, spoke: bool)
    requires Tracks(st, keys, sent, spoke)
    ensures DecodesTo(env, st, [], abortedAtEnd, keys, sent, spoke)
  {
    hide Tracks, Finish, EndingFrom, Listed;
    NothingShown<I>();
    FinishIs(env, st, abortedAtEnd, keys, sent, spoke);
    assert sent + Sent([]) == sent;
    var ending := EndingFrom(env, keys, sent, st.finish, abortedAtEnd, spoke);
    assert [] + ending.0 == ending.0;
  }

  lemma StreamGoesOn<I>(env: Env<I>, st: State, arrivals: seq<Arrival>, abortedAtEnd: bool, keys: seq<Key>, sent: seq<ToolDelta>, spoke: bool)
    requires Tracks(st, keys, sent, spoke) && arrivals != [] && Halts(arrivals[0]).None?
    requires var a, o := arrivals[0], ReadFrame(env, st, arrivals[0]);
      DecodesTo(env, o.state, arrivals[1..], abortedAtEnd, FrameKeys(keys, a), sent + ValidItems(FrameItems(a)), spoke || o.events != [])
    ensures DecodesTo(env, st, arrivals, abortedAtEnd, keys, sent, spoke)
  {
    hide ReadFrame, Tracks, FrameShown, FrameKeys, Shown, EndsNothing, EndingAfter, Decode, FinishOf, Halts, Listed, ValidItems, Sent;
    var a, rest, o := arrivals[0], arrivals[1..], ReadFrame(env, st, arrivals[0]);
    FrameTracks(env, st, a, keys, sent, spoke);
    TracksListed(st, keys, sent, spoke);
    DecodeGoesOn(env, st, arrivals, abortedAtEnd);
    var later := Body(env, o.state, rest);
    ShowsNothingJoins(o.events, later);
    EndingGoesOn(env, keys, sent, st.finish, arrivals, abortedAtEnd, spoke || o.events != [] || later != []);
    var ending := EndingAfter(env, FrameKeys(keys, a), sent + ValidItems(FrameItems(a)), o.state.finish, rest, abortedAtEnd,
                              spoke || o.events != [] || later != []);
    assert o.events + (later + ending.0) == o.events + later + ending.0;
  }

  lemma DecodeGoesOn<I>(env: Env<I>, st: State, arrivals: seq<Arrival>, abortedAtEnd: bool)
    requires Listed(st) && arrivals != [] && ReadFrame(env, st, arrivals[0]).stop.None?
    ensures var o := ReadFrame(env, st, arrivals[0]);
      && Listed(o.state)
      && Decode(env, st, arrivals, abortedAtEnd) ==
         (o.events + Decode(env, o.state, arrivals[1..], abortedAtEnd).0, Decode(env, o.state, arrivals[1..], abortedAtEnd).1)
  {
    hide ReadFrame;
    FrameKeepsListed(env, st, arrivals[0]);
  }

  lemma EndingGoesOn<I>(env: Env<I>, keys: seq<Key>, sent: seq<ToolDelta>, finish: Option<string>, arrivals: seq<Arrival>,
                        abortedAtEnd: bool, spoke: bool)
    requires arrivals != [] && Halts(arrivals[0]).None?
    ensures EndingAfter(env, keys, sent, finish, arrivals, abortedAtEnd, spoke) ==
            EndingAfter(env, FrameKeys(keys, arrivals[0]), sent + ValidItems(FrameItems(arrivals[0])),
                        if FinishOf(arrivals[0]).Some? then FinishOf(arrivals[0]) else finish, arrivals[1..], abortedAtEnd, spoke)
  {
    hide FrameKeys, ValidItems, Halts, FinishOf, EndingFrom, FrameEnds;
    HaltsExactly(arrivals[0]);
    assert sent + ValidItems(FrameItems(arrivals[0])) + Sent(arrivals[1..]) == sent + (ValidItems(FrameItems(arrivals[0])) + Sent(arrivals[1..]));
  }

  lemma StreamHalts<I>(env: Env<I>, st: State, arrivals: seq<Arrival>, abortedAtEnd: bool, keys: seq<Key>, sent: seq<ToolDelta>, spoke: bool)
    requires Tracks(st, keys, sent, spoke) && arrivals != [] && Halts(arrivals[0]).Some?
    ensures DecodesTo(env, st, arrivals, abortedAtEnd, keys, sent, spoke)
  {
    hide ReadFrame, Tracks, FrameShown, FrameKeys, Shown, EndsNothing, EndingFrom, FrameEnds, FinishOf, Halts, Finish, Listed, ValidItems;
    var a, o := arrivals[0], ReadFrame(env, st, arrivals[0]);
    FrameTracks(env, st, a, keys, sent, spoke);
    TracksListed(st, keys, sent, spoke);
    HaltsExactly(a);
    NothingShown<I>();
    if Halts(a) == Some(IsDone) {
      FinishIs(env, st, abortedAtEnd, keys, sent, spoke);
      DoneSaysNothing<I>(keys, a);
      assert sent + ([] + []) == sent;
      var ending := EndingFrom(env, keys, sent, st.finish, abortedAtEnd, spoke);
      assert [] + ending.0 == ending.0;
    } else {
      assert [] + o.events == o.events && o.events + [] == o.events;
      if !Halts(a).value.Throws? {
        HaltShowsNothing<I>(keys, a);
      }
    }
  }

  lemma TracksListed(st: State, keys: seq<Key>, sent: seq<ToolDelta>, spoke: bool)
    requires Tracks(st, keys, sent, spoke)
    ensures Listed(st)
  {}

  lemma DoneSaysNothing<I>(keys: seq<Key>, a: Arrival)
    requires Halts(a) == Some(IsDone)
    ensures ValidItems(FrameItems(a)) == [] && FrameKeys(keys, a) == keys && FrameShown<I>(keys, a) == [] && FinishOf(a).None?
  {}

  lemma HaltShowsNothing<I>(keys: seq<Key>, a: Arrival)
    requires Halts(a).Some? && !Halts(a).value.Throws?
    ensures FrameShown<I>(keys, a) == []
  {}

  lemma StartTracks()
    ensures Tracks(START, [], [], false) && Sent([]) == []
  {
    assert Appearances([]) == [];
  }

  /**
   The whole output, for every frame sequence. First come events of which the texts and
   thoughts are exactly those of the frames, each under the content index of its kind and
   none of which ends anything; then exactly the ending that the frames call for.
   */
  lemma DecodesExactly<I>(env: Env<I>, arrivals: seq<Arrival>, abortedAtEnd: bool) returns (body: seq<Event<I>>)
    ensures Listed(START)
    ensures Shown(body) == AllShown([], arrivals) && EndsNothing(body)
    ensures var ending := Ending(env, arrivals, abortedAtEnd, body != []);
      Decode(env, START, arrivals, abortedAtEnd) == (body + ending.0, ending.1)
  {
    hide Tracks, Decode, Shown, EndsNothing, EndingAfter, Body, AllShown;
    StartTracks();
    body := Body(env, START, arrivals);
    StreamIs(env, START, arrivals, abortedAtEnd, [], [], false);
  }

  // ---- The text and the thinking of the answer ----------------------------------------------------------------

  /** The contents of the deltas taken up, one after the other. */
  function Contents(arrivals: seq<Arrival>): string
    decreases |arrivals|
  {
    if arrivals == [] then ""
    else
      (if DeltaOf(arrivals[0]).Some? then DeltaOf(arrivals[0]).value.content else "") +
      if Halts(arrivals[0]).Some? then "" else Contents(arrivals[1..])
  }

  /** The first non-empty reasoning fields of the deltas taken up, one after the other. */
  function Reasonings(arrivals: seq<Arrival>): string
    decreases |arrivals|
  {
    if arrivals == [] then ""
    else
      (if DeltaOf(arrivals[0]).Some? then Reasoning(DeltaOf(arrivals[0]).value) else "") +
      if Halts(arrivals[0]).Some? then "" else Reasonings(arrivals[1..])
  }

  lemma FrameText<I>(keys: seq<Key>, a: Arrival)
    ensures SaidText(FrameShown<I>(keys, a)) == if DeltaOf(a).Some? then DeltaOf(a).value.content else ""
    ensures ThoughtText(FrameShown<I>(keys, a)) == if DeltaOf(a).Some? then Reasoning(DeltaOf(a).value) else ""
  {
    hide Position, Reasoning;
    if DeltaOf(a).Some? {
      var d := DeltaOf(a).value;
      var text: seq<Event<I>> := if d.content == "" then [] else [TextDelta(Position(TextKeys(keys, d), TextKey), d.content)];
      var thinking: seq<Event<I>> := if Reasoning(d) == "" then [] else [ThinkingDelta(Position(ThinkingKeys(keys, d), ThinkingKey), Reasoning(d))];
      SaidJoins(text, thinking);
    }
  }

  lemma {:induction false} ShownText<I>(keys: seq<Key>, arrivals: seq<Arrival>)
    ensures SaidText(AllShown<I>(keys, arrivals)) == Contents(arrivals) && ThoughtText(AllShown<I>(keys, arrivals)) == Reasonings(arrivals)
    decreases |arrivals|
  {
    hide FrameShown, FrameKeys, Halts;
    if arrivals != [] {
      FrameText<I>(keys, arrivals[0]);
      ShownText<I>(FrameKeys(keys, arrivals[0]), arrivals[1..]);
      SaidJoins(FrameShown<I>(keys, arrivals[0]), if Halts(arrivals[0]).Some? then [] else AllShown<I>(FrameKeys(keys, arrivals[0]), arrivals[1..]));
    }
  }

  lemma {:induction false} EndsAreSilent<I>(env: Env<I>, keys: seq<Key>, sent: seq<ToolDelta>, indexes: seq<nat>)
    ensures var es := CallEnds(env, keys, sent, indexes).0; SaidText(es) == "" && ThoughtText(es) == ""
    decreases |indexes|
  {
    hide InputOf, Position;
    if indexes != [] {
      EndsAreSilent(env, keys, sent, indexes[1..]);
    }
  }

  lemma EndingIsSilent<I>(env: Env<I>, arrivals: seq<Arrival>, abortedAtEnd: bool, spoke: bool)
    ensures var es := Ending(env, arrivals, abortedAtEnd, spoke).0; SaidText(es) == "" && ThoughtText(es) == ""
  {
    hide CallEnds, Sorted, Appearances, AllKeys, Sent, LastFinish, FirstHalt;
    var keys, sent := AllKeys([], arrivals), [] + Sent(arrivals);
    EndsAreSilent(env, keys, sent, Sorted(Appearances(sent)));
    var calls := CallEnds(env, keys, sent, Sorted(Appearances(sent))).0;
    forall reason: string, called: bool
      ensures SaidText(calls + [LastEvent<I>(reason, called, spoke)]) == "" && ThoughtText(calls + [LastEvent<I>(reason, called, spoke)]) == ""
    {
      SaidJoins(calls, [LastEvent<I>(reason, called, spoke)]);
    }
  }

  /** The answer's text is what the deltas taken up contain, and its thinking what their reasoning fields do. */
  lemma AnswerIsContents<I>(env: Env<I>, arrivals: seq<Arrival>, abortedAtEnd: bool)
    ensures Listed(START)
    ensures var es := Decode(env, START, arrivals, abortedAtEnd).0; SaidText(es) == Contents(arrivals) && ThoughtText(es) == Reasonings(arrivals)
  {
    hide Decode, Ending, Contents, Reasonings, AllShown, Shown;
    var body := DecodesExactly(env, arrivals, abortedAtEnd);
    var ending := Ending(env, arrivals, abortedAtEnd, body != []);
    SaidIsShown(body);
    ShownText<I>([], arrivals);
    SaidJoins(body, ending.0);
    EndingIsSilent(env, arrivals, abortedAtEnd, body != []);
  }
}
