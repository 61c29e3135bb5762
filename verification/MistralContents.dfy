/**
 Everything the Mistral decoder says, as a function of what the provider sends: texts and
 thoughts with their content indexes, the ends of the calls, and how the stream ends.
 */
module MistralContents {
  import opened Prelude
  import opened StreamTrace
  import opened MistralStream
  import Chat = OpenAiChat
  import ChatText = OpenAiChatText
  import Said = OpenAiChatContents

  type Key = Said.Key

  // ---- One frame ------------------------------------------------------------------------------------

  /** The blocks so far, in order of their content indexes, and whether the last one is still the current content. */
  datatype Seen = Seen(keys: seq<Key>, open: bool)

  function KeyOf(item: Item): Key {
    if item.ThinkingItem? then Said.ThinkingKey else Said.TextKey
  }

  /** Content of another kind than the current one is a new block; empty content is nothing. */
  function AfterItem(seen: Seen, item: Item): Seen {
    if item.MalformedItem? || item.text == "" then seen
    else if seen.open && seen.keys != [] && seen.keys[|seen.keys| - 1] == KeyOf(item) then seen
    else Seen(seen.keys + [KeyOf(item)], true)
  }

  function AfterItems(seen: Seen, items: seq<Item>): Seen
    decreases |items|
  {
    if items == [] || items[0].MalformedItem? then seen else AfterItems(AfterItem(seen, items[0]), items[1..])
  }

  function ItemShown<I>(seen: Seen, item: Item): seq<Event<I>> {
    if item.MalformedItem? || item.text == "" then []
    else
      var index := if AfterItem(seen, item).keys == [] then 0 else |AfterItem(seen, item).keys| - 1;
      [if item.TextItem? then TextDelta(index, item.text) else ThinkingDelta(index, item.text)]
  }

  /** The items of a delta, up to the first that is malformed. */
  function ItemsShown<I>(seen: Seen, items: seq<Item>): seq<Event<I>>
    decreases |items|
  {
    if items == [] || items[0].MalformedItem? then []
    else ItemShown(seen, items[0]) + ItemsShown(AfterItem(seen, items[0]), items[1..])
  }

  function DeltaOf(a: Arrival): Option<Delta> {
    if !a.aborted && a.frame.Chunk? && a.frame.choices.One? && !a.frame.choices.finish.MalformedReason? && a.frame.choices.finish != Given("")
    then a.frame.choices.delta else None
  }

  function ItemsOf(d: Delta): seq<Item> {
    if d.content.Items? then d.content.items else []
  }

  predicate ContentOk(d: Delta) {
    !d.content.MalformedContent? && MalformedItem !in ItemsOf(d)
  }

  function FragmentsOf(d: Delta): seq<Result<Fragment, Error>> {
    if ContentOk(d) && d.tools.Tools? then d.tools.items else []
  }

  /** The fragments of a list, up to the first that is malformed, with the ids that they stand for. */
  function Valid<I>(env: Env<I>, items: seq<Result<Fragment, Error>>): seq<Chat.ToolDelta> {
    if items == [] || items[0].Err? then []
    else
      var f := items[0].value;
      [Chat.ToolDelta(f.index, if f.id == "" || f.id == "null" then env.fallback(f.index) else f.id, f.name, f.arguments, "", None)]
      + Valid(env, items[1..])
  }

  function FirstError(items: seq<Result<Fragment, Error>>): Option<Error> {
    if items == [] then None else if items[0].Err? then Some(items[0].error) else FirstError(items[1..])
  }

  function FrameSent<I>(env: Env<I>, a: Arrival): seq<Chat.ToolDelta> {
    match DeltaOf(a)
    case None => []
    case Some(d) => Valid(env, FragmentsOf(d))
  }

  /** A list of tool calls closes the current content. */
  function AfterFrame<I>(env: Env<I>, seen: Seen, a: Arrival): Seen {
    match DeltaOf(a)
    case None => seen
    case Some(d) =>
      var said := AfterItems(seen, ItemsOf(d));
      if ContentOk(d) && d.tools.Tools? then Seen(Said.AddCalls(said.keys, FrameSent(env, a)), false) else said
  }

  function FrameShown<I>(seen: Seen, a: Arrival): seq<Event<I>> {
    match DeltaOf(a)
    case None => []
    case Some(d) => ItemsShown(seen, ItemsOf(d))
  }

  datatype Halt = IsAborted | IsError(code: string) | IsDone | Throws(error: Error)

  function DeltaHalts(d: Delta): Option<Halt> {
    if d.content.MalformedContent? then Some(Throws(BadContent))
    else if MalformedItem in ItemsOf(d) then Some(Throws(BadItem))
    else
      match d.tools
      case NoTools => None
      case NotAList => Some(Throws(ToolsNotAnArray))
      case Tools(items) => if FirstError(items).Some? then Some(Throws(FirstError(items).value)) else None
  }

  /** Whether and how a frame ends the decoding of frames. */
  function Halts(a: Arrival): Option<Halt> {
    if a.aborted then Some(IsAborted)
    else
      match a.frame
      case Done => Some(IsDone)
      case Undecodable => Some(Throws(BadFrame))
      case ProviderError(code) => Some(IsError(code))
      case Chunk(NotAnArray) => Some(Throws(ChoicesNotAnArray))
      case Chunk(NoChoice) => None
      case Chunk(Many) => Some(Throws(ManyChoices))
      case Chunk(Malformed) => Some(Throws(BadChoice))
      case Chunk(One(MalformedReason, _)) => Some(Throws(BadFinish))
      case Chunk(One(Given(""), _)) => Some(Throws(BadFinish))
      case Chunk(One(_, None)) => Some(Throws(BadDelta))
      case Chunk(One(_, Some(d))) => DeltaHalts(d)
  }

  function FinishOf(a: Arrival): Option<string> {
    if DeltaOf(a).Some? && a.frame.choices.finish.Given? then Some(a.frame.choices.finish.reason) else None
  }

  // ---- The whole stream ---------------------------------------------------------------------------------

  function AllShown<I>(env: Env<I>, seen: Seen, arrivals: seq<Arrival>): seq<Event<I>>
    decreases |arrivals|
  {
    if arrivals == [] then []
    else FrameShown(seen, arrivals[0]) + if Halts(arrivals[0]).Some? then [] else AllShown(env, AfterFrame(env, seen, arrivals[0]), arrivals[1..])
  }

  function AllSeen<I>(env: Env<I>, seen: Seen, arrivals: seq<Arrival>): Seen
    decreases |arrivals|
  {
    if arrivals == [] || Halts(arrivals[0]).Some? then seen else AllSeen(env, AfterFrame(env, seen, arrivals[0]), arrivals[1..])
  }

  function AllSent<I>(env: Env<I>, arrivals: seq<Arrival>): seq<Chat.ToolDelta>
    decreases |arrivals|
  {
    if arrivals == [] || Halts(arrivals[0]).Some? then [] else FrameSent(env, arrivals[0]) + AllSent(env, arrivals[1..])
  }

  function FirstHalt(arrivals: seq<Arrival>): Option<Halt>
    decreases |arrivals|
  {
    if arrivals == [] then None else if Halts(arrivals[0]).Some? then Halts(arrivals[0]) else FirstHalt(arrivals[1..])
  }

  function LastFinish(before: Option<string>, arrivals: seq<Arrival>): Option<string>
    decreases |arrivals|
  {
    if arrivals == [] || Halts(arrivals[0]).Some? then before
    else LastFinish(if FinishOf(arrivals[0]).Some? then FinishOf(arrivals[0]) else before, arrivals[1..])
  }

  /** The last event of a stream with a finish reason. */
  function LastEvent<I>(reason: string, called: bool, spoke: bool): Event<I> {
    match reason
    case "stop" => Completed(if called then ToolUse else Stop, false)
    case "length" => Completed(if called then ToolUse else Length, true)
    case "model_length" => Completed(if called then ToolUse else Length, true)
    case "tool_calls" => Completed(ToolUse, false)
    case _ => Failure(reason, spoke)
  }

  /** The ends of the calls and of the stream, after all frames. */
  function EndingFrom<I>(env: Env<I>, keys: seq<Key>, sent: seq<Chat.ToolDelta>, finish: Option<string>, abortedAtEnd: bool, spoke: bool)
    : (seq<Event<I>>, Stop)
  {
    if abortedAtEnd then ([Aborted(spoke)], Returned)
    else
      match finish
      case None => ([], Returned)
      case Some(reason) =>
        var (calls, error) := Said.CallEnds(env.chat, keys, sent, Chat.Sorted(Said.Appearances(sent)));
        match error
        case Some(e) => (calls, Threw(InCall(e)))
        case None => (calls + [LastEvent(reason, calls != [], spoke)], Returned)
  }

  function EndingAfter<I>(env: Env<I>, seen: Seen, sent: seq<Chat.ToolDelta>, finish: Option<string>, arrivals: seq<Arrival>,
                          abortedAtEnd: bool, spoke: bool): (seq<Event<I>>, Stop)
  {
    match FirstHalt(arrivals)
    case Some(IsAborted) => ([Aborted(spoke)], Returned)
    case Some(IsError(code)) => ([Failure(code, spoke)], Returned)
    case Some(Throws(e)) => ([], Threw(e))
    case _ =>
      EndingFrom(env, AllSeen(env, seen, arrivals).keys, sent + AllSent(env, arrivals), LastFinish(finish, arrivals), abortedAtEnd, spoke)
  }

  /** What follows the deltas. */
  function Ending<I>(env: Env<I>, arrivals: seq<Arrival>, abortedAtEnd: bool, spoke: bool): (seq<Event<I>>, Stop) {
    EndingAfter(env, Seen([], false), [], None, arrivals, abortedAtEnd, spoke)
  }

  // ---- The state that is tracked ---------------------------------------------------------------------------

  ghost predicate Knows(st: Chat.State, seen: Seen) {
    && st.next == |seen.keys| && (seen.open ==> seen.keys != [])
    && st.textIndex == (if seen.open && seen.keys[|seen.keys| - 1] == Said.TextKey then Some(|seen.keys| - 1) else None)
    && st.thinkingIndex == (if seen.open && seen.keys[|seen.keys| - 1] == Said.ThinkingKey then Some(|seen.keys| - 1) else None)
    && (seen.open ==> !seen.keys[|seen.keys| - 1].CallKey?)
    && forall i: nat :: (i in st.tools <==> Said.CallKey(i) in seen.keys)
                        && (i in st.tools ==> st.tools[i].contentIndex == Said.Position(seen.keys, Said.CallKey(i)))
  }

  ghost predicate Tracks(st: Chat.State, seen: Seen, sent: seq<Chat.ToolDelta>, spoke: bool) {
    Knows(st, seen) && ChatText.AllSum(st.tools, sent) && Said.Names(st, sent) && Said.Spoke(st, spoke)
  }

  lemma NewBlock(keys: seq<Key>, k: Key)
    requires !k.CallKey?
    ensures forall i: nat :: Said.CallKey(i) in keys + [k] <==> Said.CallKey(i) in keys
    ensures forall i: nat :: Said.CallKey(i) in keys ==> Said.Position(keys + [k], Said.CallKey(i)) == Said.Position(keys, Said.CallKey(i))
  {
    forall i: nat | Said.CallKey(i) in keys
      ensures Said.Position(keys + [k], Said.CallKey(i)) == Said.Position(keys, Said.CallKey(i))
    {
      Said.PositionStays(keys, Said.CallKey(i), k);
    }
  }

  lemma ItemKnows<I>(st: Chat.State, item: Item, seen: Seen)
    requires Knows(st, seen) && !item.MalformedItem?
    ensures var o := ReadItem<I>(st, item);
      && Knows(o.state, AfterItem(seen, item)) && o.stop.None? && o.state.finish == st.finish && o.events == ItemShown(seen, item)
  {
    hide Said.Position;
    NewBlock(seen.keys, KeyOf(item));
  }

  lemma ItemKeepsTools<I>(st: Chat.State, item: Item, sent: seq<Chat.ToolDelta>, spoke: bool)
    requires ChatText.AllSum(st.tools, sent) && Said.Names(st, sent) && Said.Spoke(st, spoke)
    ensures var o := ReadItem<I>(st, item);
      ChatText.AllSum(o.state.tools, sent) && Said.Names(o.state, sent) && Said.Spoke(o.state, spoke || o.events != [])
  {
    hide ChatText.AllSum, Said.Appearances, Said.IdOf, Said.NameOf;
  }

  lemma ItemShows<I>(seen: Seen, item: Item)
    ensures Shown(ItemShown<I>(seen, item)) == ItemShown<I>(seen, item) && EndsNothing(ItemShown<I>(seen, item))
  {
    var es := ItemShown<I>(seen, item);
    Said.SpeechIsShown(if es == [] then Aborted(false) else es[0]);
  }

  lemma {:induction false} ItemsTrack<I>(st: Chat.State, items: seq<Item>, seen: Seen, sent: seq<Chat.ToolDelta>, spoke: bool)
    requires Tracks(st, seen, sent, spoke)
    ensures var o := ReadItems<I>(st, items);
      && Tracks(o.state, AfterItems(seen, items), sent, spoke || o.events != []) && o.state.finish == st.finish
      && o.events == ItemsShown(seen, items) && Shown(o.events) == o.events && EndsNothing(o.events)
      && o.stop == if MalformedItem in items then Some(Threw(BadItem)) else None
    decreases |items|
  {
    hide Knows, ChatText.AllSum, Said.Names, Said.Spoke, ReadItem, AfterItem, ItemShown, Shown, EndsNothing;
    Said.NothingShown<I>();
    if items != [] && items[0].MalformedItem? {
      MalformedIsThrown<I>(st);
    } else if items != [] {
      var o := ReadItem<I>(st, items[0]);
      ItemKnows<I>(st, items[0], seen);
      ItemKeepsTools<I>(st, items[0], sent, spoke);
      ItemShows<I>(seen, items[0]);
      ItemsTrack<I>(o.state, items[1..], AfterItem(seen, items[0]), sent, spoke || o.events != []);
      Said.ShowsNothingJoins(o.events, ReadItems<I>(o.state, items[1..]).events);
    }
  }

  lemma MalformedIsThrown<I>(st: Chat.State)
    ensures ReadItem<I>(st, MalformedItem) == Outcome([], st, Some(Threw(BadItem)))
  {}

  // ---- Tool calls ----------------------------------------------------------------------------------------------

  lemma FragmentKnows<I>(env: Env<I>, st: Chat.State, keys: seq<Key>, d: Chat.ToolDelta)
    requires Knows(st, Seen(keys, false))
    ensures var o := Chat.ReadTool(env.chat, st, Some(d));
      && Knows(o.state, Seen(Said.AddKey(keys, Said.CallKey(d.index)), false)) && o.stop.None?
      && Shown(o.events) == [] && EndsNothing(o.events) && o.state.finish == st.finish
  {
    hide Said.Position, Chat.Emit, Shown, EndsNothing;
    var k := Said.CallKey(d.index);
    forall i: nat | Said.CallKey(i) in keys || Said.CallKey(i) == k
      ensures Said.Position(keys + [k], Said.CallKey(i)) == if Said.CallKey(i) in keys then Said.Position(keys, Said.CallKey(i)) else |keys|
    {
      Said.PositionStays(keys, Said.CallKey(i), k);
    }
    var tool := if d.index in st.tools then st.tools[d.index] else Chat.FreshTool(st.next);
    Said.EmitShowsNothing(env.chat, Chat.Merge(tool, d));
  }

  lemma {:induction false} FragmentsTrack<I>(env: Env<I>, st: Chat.State, items: seq<Result<Fragment, Error>>, keys: seq<Key>,
                                             sent: seq<Chat.ToolDelta>, spoke: bool)
    requires Tracks(st, Seen(keys, false), sent, spoke)
    ensures var o := ReadFragments(env, st, items);
      && Tracks(o.state, Seen(Said.AddCalls(keys, Valid(env, items)), false), sent + Valid(env, items), spoke || o.events != [])
      && Shown(o.events) == [] && EndsNothing(o.events) && o.state.finish == st.finish
      && o.stop == if FirstError(items).Some? then Some(Threw(FirstError(items).value)) else None
    decreases |items|
  {
    hide Knows, ChatText.AllSum, Said.Names, Said.Spoke, Chat.ReadTool, Shown, EndsNothing, Said.AddKey;
    Said.NothingShown<I>();
    assert sent + [] == sent;
    if items != [] && items[0].Ok? {
      var d, more := FragmentDelta(env, items[0].value), Valid(env, items[1..]);
      assert Valid(env, items) == [d] + more;
      var o := Chat.ReadTool(env.chat, st, Some(d));
      FragmentKnows(env, st, keys, d);
      ChatText.ToolSums(env.chat, st, sent, d);
      Said.ToolNamed(env.chat, st, sent, d);
      Said.ToolSpeaks(env.chat, st, Some(d), spoke);
      FragmentsTrack(env, o.state, items[1..], Said.AddKey(keys, Said.CallKey(d.index)), sent + [d], spoke || o.events != []);
      Said.ShowsNothingJoins(o.events, ReadFragments(env, o.state, items[1..]).events);
      assert sent + [d] + more == sent + ([d] + more);
      assert ([d] + more)[0] == d && ([d] + more)[1..] == more;
    }
  }

  lemma CloseTracks(st: Chat.State, seen: Seen, sent: seq<Chat.ToolDelta>, spoke: bool)
    requires Tracks(st, seen, sent, spoke)
    ensures Tracks(NoCurrent(st), Seen(seen.keys, false), sent, spoke)
  {}

  // ---- One frame ---------------------------------------------------------------------------------------------------

  lemma DeltaTracks<I>(env: Env<I>, st: Chat.State, d: Delta, seen: Seen, sent: seq<Chat.ToolDelta>, spoke: bool)
    requires Tracks(st, seen, sent, spoke)
    ensures var o, said := ReadDelta(env, st, d), AfterItems(seen, ItemsOf(d));
      && Shown(o.events) == ItemsShown(seen, ItemsOf(d)) && EndsNothing(o.events) && o.state.finish == st.finish
      && (DeltaHalts(d).Some? ==> DeltaHalts(d).value.Throws? && o.stop == Some(Threw(DeltaHalts(d).value.error)))
      && (DeltaHalts(d).None? ==>
            && o.stop.None?
            && Tracks(o.state,
                      if d.tools.Tools? then Seen(Said.AddCalls(said.keys, Valid(env, FragmentsOf(d))), false) else said,
                      sent + Valid(env, FragmentsOf(d)), spoke || o.events != []))
  {
    hide Tracks, ReadItems, ReadFragments, AfterItems, ItemsShown, Shown, EndsNothing, FirstError;
    Said.NothingShown<I>();
    assert sent + [] == sent;
    var content: Outcome<I> := ReadContent(st, d.content);
    assert AfterItems(seen, []) == seen && ItemsShown<I>(seen, []) == [] by { NoItems<I>(seen); }
    if d.content.Items? {
      ItemsTrack<I>(st, d.content.items, seen, sent, spoke);
    }
    if ContentOk(d) && d.tools.Tools? {
      var said := AfterItems(seen, ItemsOf(d));
      CloseTracks(content.state, said, sent, spoke || content.events != []);
      FragmentsTrack(env, NoCurrent(content.state), d.tools.items, said.keys, sent, spoke || content.events != []);
      Said.ShowsNothingJoins(content.events, ReadFragments(env, NoCurrent(content.state), d.tools.items).events);
      assert Shown(content.events) + [] == Shown(content.events);
    }
  }

  lemma NoItems<I>(seen: Seen)
    ensures AfterItems(seen, []) == seen && ItemsShown<I>(seen, []) == []
  {}

  lemma FinishDoesNotMatter(st: Chat.State, finish: Option<string>, seen: Seen, sent: seq<Chat.ToolDelta>, spoke: bool)
    requires Tracks(st, seen, sent, spoke)
    ensures Tracks(st.(finish := finish), seen, sent, spoke)
  {}

  lemma FrameTracks<I>(env: Env<I>, st: Chat.State, a: Arrival, seen: Seen, sent: seq<Chat.ToolDelta>, spoke: bool)
    requires Tracks(st, seen, sent, spoke)
    ensures var o := ReadFrame(env, st, a);
      match Halts(a)
      case None =>
        && o.stop.None? && Tracks(o.state, AfterFrame(env, seen, a), sent + FrameSent(env, a), spoke || o.events != [])
        && Shown(o.events) == FrameShown(seen, a) && EndsNothing(o.events)
        && o.state.finish == if FinishOf(a).Some? then FinishOf(a) else st.finish
      case Some(IsAborted) => o.events == [Aborted(spoke)] && o.stop == Some(Returned)
      case Some(IsError(code)) => o.events == [Failure(code, spoke)] && o.stop == Some(Returned)
      case Some(IsDone) => o == Outcome([], st, Some(DoneSeen))
      case Some(Throws(e)) => o.stop == Some(Threw(e)) && Shown(o.events) == FrameShown(seen, a) && EndsNothing(o.events)
  {
    hide Knows, ChatText.AllSum, Said.Names, ReadDelta, DeltaHalts, AfterItems, ItemsShown, Valid, Shown, EndsNothing;
    Said.NothingShown<I>();
    assert sent + [] == sent;
    if DeltaOf(a).Some? {
      SpokenFrameTracks(env, st, a, seen, sent, spoke);
    }
  }

  lemma SpokenFrameTracks<I>(env: Env<I>, st: Chat.State, a: Arrival, seen: Seen, sent: seq<Chat.ToolDelta>, spoke: bool)
    requires Tracks(st, seen, sent, spoke) && DeltaOf(a).Some?
    ensures var o := ReadFrame(env, st, a);
      && Shown(o.events) == FrameShown(seen, a) && EndsNothing(o.events)
      && (Halts(a).Some? ==> Halts(a).value.Throws? && o.stop == Some(Threw(Halts(a).value.error)))
      && (Halts(a).None? ==>
            && o.stop.None? && Tracks(o.state, AfterFrame(env, seen, a), sent + FrameSent(env, a), spoke || o.events != [])
            && o.state.finish == if FinishOf(a).Some? then FinishOf(a) else st.finish)
  {
    hide Tracks, ReadDelta, AfterItems, ItemsShown, Valid, Shown, EndsNothing, FirstError, Said.AddCalls;
    var finish, d := a.frame.choices.finish, a.frame.choices.delta.value;
    var finished := if finish.Given? then st.(finish := Some(finish.reason)) else st;
    FinishDoesNotMatter(st, finished.finish, seen, sent, spoke);
    assert finished == st.(finish := finished.finish);
    DeltaTracks(env, finished, d, seen, sent, spoke);
  }

  // ---- The whole stream --------------------------------------------------------------------------------------------

  lemma FinishIs<I>(env: Env<I>, st: Chat.State, abortedAtEnd: bool, seen: Seen, sent: seq<Chat.ToolDelta>, spoke: bool)
    requires Tracks(st, seen, sent, spoke)
    ensures Chat.Listed(st) && Finish(env, st, abortedAtEnd) == EndingFrom(env, seen.keys, sent, st.finish, abortedAtEnd, spoke)
  {
    hide Knows, ChatText.AllSum, Said.CallEnds, Chat.EndCalls, Chat.Sorted, Said.Appearances;
    Chat.SortedKeeps(st.order);
    if !abortedAtEnd && st.finish.Some? {
      CallEndsAre(env, st, Chat.Sorted(st.order), seen, sent, spoke);
      var (calls, error) := Said.CallEnds(env.chat, seen.keys, sent, Chat.Sorted(Said.Appearances(sent)));
      ClosingIs<I>(st.finish.value, calls != [], st.emittedContent);
    }
  }

  lemma ClosingIs<I>(reason: string, called: bool, spoke: bool)
    ensures Closing<I>(reason, called, spoke) == LastEvent(reason, called, spoke)
  {}

  lemma {:induction false} CallEndsAre<I>(env: Env<I>, st: Chat.State, indexes: seq<nat>, seen: Seen, sent: seq<Chat.ToolDelta>, spoke: bool)
    requires Tracks(st, seen, sent, spoke) && forall i :: i in indexes ==> i in st.tools
    ensures Chat.EndCalls(env.chat, st.tools, indexes) == Said.CallEnds(env.chat, seen.keys, sent, indexes)
    decreases |indexes|
  {
    hide Chat.EndCall, Said.InputOf, Said.Position, Said.IdOf, Said.NameOf, ChatText.Sums;
    if indexes != [] {
      var i := indexes[0];
      assert ChatText.Sums(st.tools[i], ChatText.Of(sent, i));
      Said.ToolEndIs(env.chat, st.tools[i], seen.keys, i, ChatText.Of(sent, i));
      CallEndsAre(env, st, indexes[1..], seen, sent, spoke);
    }
  }

  /** The events before the ending. */
  ghost function Body<I>(env: Env<I>, st: Chat.State, arrivals: seq<Arrival>): seq<Event<I>>
    decreases |arrivals|
  {
    if arrivals == [] then []
    else
      match Halts(arrivals[0])
      case None => ReadFrame(env, st, arrivals[0]).events + Body(env, ReadFrame(env, st, arrivals[0]).state, arrivals[1..])
      case Some(Throws(_)) => ReadFrame(env, st, arrivals[0]).events
      case _ => []
  }

  /** Decoding from a state yields what the remaining frames say, and then their ending. */
  ghost predicate DecodesTo<I>(env: Env<I>, st: Chat.State, arrivals: seq<Arrival>, abortedAtEnd: bool,
                               seen: Seen, sent: seq<Chat.ToolDelta>, spoke: bool)
  {
    var body := Body(env, st, arrivals);
    var ending := EndingAfter(env, seen, sent, st.finish, arrivals, abortedAtEnd, spoke || body != []);
    && Chat.Listed(st) && Decode(env, st, arrivals, abortedAtEnd) == (body + ending.0, ending.1)
    && Shown(body) == AllShown(env, seen, arrivals) && EndsNothing(body)
  }

  lemma {:induction false} StreamIs<I>(env: Env<I>, st: Chat.State, arrivals: seq<Arrival>, abortedAtEnd: bool,
                                       seen: Seen, sent: seq<Chat.ToolDelta>, spoke: bool)
    requires Tracks(st, seen, sent, spoke)
    ensures DecodesTo(env, st, arrivals, abortedAtEnd, seen, sent, spoke)
    decreases |arrivals|
  {
    hide ReadFrame, Tracks, AfterFrame, DecodesTo, Halts, FrameSent;
    if arrivals == [] {
      EmptyStream(env, st, abortedAtEnd, seen, sent, spoke);
    } else {
      var a := arrivals[0];
      FrameTracks(env, st, a, seen, sent, spoke);
      if Halts(a).None? {
        var o := ReadFrame(env, st, a);
        StreamIs(env, o.state, arrivals[1..], abortedAtEnd, AfterFrame(env, seen, a), sent + FrameSent(env, a), spoke || o.events != []);
        StreamGoesOn(env, st, arrivals, abortedAtEnd, seen, sent, spoke);
      } else {
        StreamHalts(env, st, arrivals, abortedAtEnd, seen, sent, spoke);
      }
    }
  }

  lemma EmptyStream<I>(env: Env<I>, st: Chat.State, abortedAtEnd: bool, seen: Seen, sent: seq<Chat.ToolDelta>, spoke: bool)
    requires Tracks(st, seen, sent, spoke)
    ensures DecodesTo(env, st, [], abortedAtEnd, seen, sent, spoke)
  {
    hide Tracks, Finish, EndingFrom, Chat.Listed;
    Said.NothingShown<I>();
    FinishIs(env, st, abortedAtEnd, seen, sent, spoke);
    assert sent + AllSent(env, []) == sent;
    var ending := EndingFrom(env, seen.keys, sent, st.finish, abortedAtEnd, spoke);
    assert [] + ending.0 == ending.0;
  }

  lemma TracksListed(st: Chat.State, seen: Seen, sent: seq<Chat.ToolDelta>, spoke: bool)
    requires Tracks(st, seen, sent, spoke)
    ensures Chat.Listed(st)
  {}

  lemma StreamGoesOn<I>(env: Env<I>, st: Chat.State, arrivals: seq<Arrival>, abortedAtEnd: bool, seen: Seen, sent: seq<Chat.ToolDelta>, spoke: bool)
    requires Tracks(st, seen, sent, spoke) && arrivals != [] && Halts(arrivals[0]).None?
    requires var a, o := arrivals[0], ReadFrame(env, st, arrivals[0]);
      DecodesTo(env, o.state, arrivals[1..], abortedAtEnd, AfterFrame(env, seen, a), sent + FrameSent(env, a), spoke || o.events != [])
    ensures DecodesTo(env, st, arrivals, abortedAtEnd, seen, sent, spoke)
  {
    hide ReadFrame, Tracks, FrameShown, AfterFrame, Shown, EndsNothing, EndingAfter, Decode, FinishOf, Halts, Chat.Listed, FrameSent;
    var a, rest, o := arrivals[0], arrivals[1..], ReadFrame(env, st, arrivals[0]);
    FrameTracks(env, st, a, seen, sent, spoke);
    TracksListed(st, seen, sent, spoke);
    DecodeGoesOn(env, st, arrivals, abortedAtEnd);
    var later := Body(env, o.state, rest);
    Said.ShowsNothingJoins(o.events, later);
    EndingGoesOn(env, seen, sent, st.finish, arrivals, abortedAtEnd, spoke || o.events != [] || later != []);
    var ending := EndingAfter(env, AfterFrame(env, seen, a), sent + FrameSent(env, a), o.state.finish, rest, abortedAtEnd,
                              spoke || o.events != [] || later != []);
    assert o.events + (later + ending.0) == o.events + later + ending.0;
  }

  lemma DecodeGoesOn<I>(env: Env<I>, st: Chat.State, arrivals: seq<Arrival>, abortedAtEnd: bool)
    requires Chat.Listed(st) && arrivals != [] && ReadFrame(env, st, arrivals[0]).stop.None?
    ensures var o := ReadFrame(env, st, arrivals[0]);
      && Chat.Listed(o.state)
      && Decode(env, st, arrivals, abortedAtEnd) ==
         (o.events + Decode(env, o.state, arrivals[1..], abortedAtEnd).0, Decode(env, o.state, arrivals[1..], abortedAtEnd).1)
  {
    hide ReadFrame;
    FrameKeepsListed(env, st, arrivals[0]);
  }

  lemma EndingGoesOn<I>(env: Env<I>, seen: Seen, sent: seq<Chat.ToolDelta>, finish: Option<string>, arrivals: seq<Arrival>,
                        abortedAtEnd: bool, spoke: bool)
    requires arrivals != [] && Halts(arrivals[0]).None?
    ensures EndingAfter(env, seen, sent, finish, arrivals, abortedAtEnd, spoke) ==
            EndingAfter(env, AfterFrame(env, seen, arrivals[0]), sent + FrameSent(env, arrivals[0]),
                        if FinishOf(arrivals[0]).Some? then FinishOf(arrivals[0]) else finish, arrivals[1..], abortedAtEnd, spoke)
  {
    hide AfterFrame, FrameSent, Halts, FinishOf, EndingFrom;
    assert sent + FrameSent(env, arrivals[0]) + AllSent(env, arrivals[1..]) == sent + (FrameSent(env, arrivals[0]) + AllSent(env, arrivals[1..]));
  }

  lemma StreamHalts<I>(env: Env<I>, st: Chat.State, arrivals: seq<Arrival>, abortedAtEnd: bool, seen: Seen, sent: seq<Chat.ToolDelta>, spoke: bool)
    requires Tracks(st, seen, sent, spoke) && arrivals != [] && Halts(arrivals[0]).Some?
    ensures DecodesTo(env, st, arrivals, abortedAtEnd, seen, sent, spoke)
  {
    hide ReadFrame, Tracks, FrameShown, AfterFrame, Shown, EndsNothing, EndingFrom, FinishOf, Halts, Finish, Chat.Listed, FrameSent;
    var a, o := arrivals[0], ReadFrame(env, st, arrivals[0]);
    FrameTracks(env, st, a, seen, sent, spoke);
    TracksListed(st, seen, sent, spoke);
    Said.NothingShown<I>();
    HaltShowsNothing<I>(seen, a);
    if Halts(a) == Some(IsDone) {
      FinishIs(env, st, abortedAtEnd, seen, sent, spoke);
      assert sent + [] == sent;
      var ending := EndingFrom(env, seen.keys, sent, st.finish, abortedAtEnd, spoke);
      assert [] + ending.0 == ending.0;
    } else {
      assert [] + o.events == o.events && o.events + [] == o.events;
    }
  }

  lemma HaltShowsNothing<I>(seen: Seen, a: Arrival)
    ensures Halts(a).Some? && !Halts(a).value.Throws? ==> FrameShown<I>(seen, a) == []
  {}

  lemma StartTracks()
    ensures Tracks(Chat.START, Seen([], false), [], false)
  {
    assert Said.Appearances([]) == [];
  }

  /**
   The whole output, for every frame sequence. First come events of which the texts and
   thoughts are exactly the items of the frames, in order, with a new content index
   whenever the kind changes or tool calls came between; then exactly the ending that the
   frames call for.
   */
  lemma DecodesExactly<I>(env: Env<I>, arrivals: seq<Arrival>, abortedAtEnd: bool) returns (body: seq<Event<I>>)
    ensures Chat.Listed(Chat.START)
    ensures Shown(body) == AllShown(env, Seen([], false), arrivals) && EndsNothing(body)
    ensures var ending := Ending(env, arrivals, abortedAtEnd, body != []);
      Decode(env, Chat.START, arrivals, abortedAtEnd) == (body + ending.0, ending.1)
  {
    hide Tracks, Decode, Shown, EndsNothing, EndingAfter, Body, AllShown;
    StartTracks();
    body := Body(env, Chat.START, arrivals);
    StreamIs(env, Chat.START, arrivals, abortedAtEnd, Seen([], false), [], false);
  }
}
