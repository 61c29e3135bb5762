/**
 Decoding Mistral stream frames into canonical events. Calls are accumulated as in the Chat
 decoder; text and thinking take a new content index whenever the kind changes.
 */
module MistralStream {
  import opened Prelude
  import opened StreamTrace
  import Chat = OpenAiChat
  import ToolNames

  datatype Error =
    | BadFrame | ChoicesNotAnArray | ManyChoices | BadChoice | BadFinish | BadDelta | BadContent | BadItem
    | ToolsNotAnArray | BadToolIndex | BadFunction | BadToolArguments | InCall(error: Chat.Error)

  // ---- What the provider sends ---------------------------------------------------------------

  datatype Item = TextItem(text: string) | ThinkingItem(text: string) | MalformedItem

  datatype Content = NoContent | MalformedContent | Items(items: seq<Item>)

  /** One tool call delta; an absent or unusable string field is empty, and object arguments are printed. */
  datatype Fragment = Fragment(index: nat, id: string, name: string, arguments: string)

  datatype ToolList = NoTools | NotAList | Tools(items: seq<Result<Fragment, Error>>)

  datatype Delta = Delta(content: Content, tools: ToolList)

  datatype Reason = NoReason | MalformedReason | Given(reason: string)

  datatype Choices = NotAnArray | NoChoice | Many | Malformed | One(finish: Reason, delta: Option<Delta>)

  datatype Frame = Done | Undecodable | ProviderError(code: string) | Chunk(choices: Choices)

  datatype Arrival = Arrival(aborted: bool, frame: Frame)

  /** As for the Chat decoder, and the id of a call whose provider sends none. */
  datatype Env<!I> = Env(chat: Chat.Env<I>, fallback: nat -> string)

  // ---- Steps -----------------------------------------------------------------------------------

  datatype Stop = Returned | DoneSeen | Threw(error: Error)

  /** The state is the Chat decoder's; of its two content indexes at most one is set, that of the current content. */
  datatype Outcome<I> = Outcome(events: seq<Event<I>>, state: Chat.State, stop: Option<Stop>)

  function Prepend<I>(events: seq<Event<I>>, o: Outcome<I>): Outcome<I> {
    o.(events := events + o.events)
  }

  function Lift<I>(o: Chat.Outcome<I>): Outcome<I> {
    Outcome(o.events, o.state, None)
  }

  function ReadItem<I>(st: Chat.State, item: Item): Outcome<I> {
    match item
    case MalformedItem => Outcome([], st, Some(Threw(BadItem)))
    case TextItem("") => Outcome([], st, None)
    case ThinkingItem("") => Outcome([], st, None)
    case TextItem(text) => Lift(Chat.ReadText(st.(thinkingIndex := None), text))
    case ThinkingItem(text) => Lift(Chat.ReadThinking(st.(textIndex := None), text))
  }

  function ReadItems<I>(st: Chat.State, items: seq<Item>): Outcome<I>
    decreases |items|
  {
    if items == [] then Outcome([], st, None)
    else
      var o: Outcome<I> := ReadItem(st, items[0]);
      if o.stop.Some? then o else Prepend(o.events, ReadItems(o.state, items[1..]))
  }

  /** A call always has an id: the provider's, unless it is empty or the word null, or the fallback. */
  function FragmentDelta<I>(env: Env<I>, f: Fragment): Chat.ToolDelta {
    Chat.ToolDelta(f.index, Chat.Or(if f.id == "null" then "" else f.id, env.fallback(f.index)), f.name, f.arguments, "", None)
  }

  function ReadFragment<I>(env: Env<I>, st: Chat.State, item: Result<Fragment, Error>): Outcome<I> {
    match item
    case Err(e) => Outcome([], st, Some(Threw(e)))
    case Ok(f) => Lift(Chat.ReadTool(env.chat, st, Some(FragmentDelta(env, f))))
  }

  function ReadFragments<I>(env: Env<I>, st: Chat.State, items: seq<Result<Fragment, Error>>): Outcome<I>
    decreases |items|
  {
    if items == [] then Outcome([], st, None)
    else
      var o := ReadFragment(env, st, items[0]);
      if o.stop.Some? then o else Prepend(o.events, ReadFragments(env, o.state, items[1..]))
  }

  function NoCurrent(st: Chat.State): Chat.State {
    st.(textIndex := None, thinkingIndex := None)
  }

  function ReadContent<I>(st: Chat.State, content: Content): Outcome<I> {
    match content
    case NoContent => Outcome([], st, None)
    case MalformedContent => Outcome([], st, Some(Threw(BadContent)))
    case Items(items) => ReadItems(st, items)
  }

  function ReadDelta<I>(env: Env<I>, st: Chat.State, delta: Delta): Outcome<I> {
    var content: Outcome<I> := ReadContent(st, delta.content);
    if content.stop.Some? then content
    else match delta.tools
      case NoTools => content
      case NotAList => content.(stop := Some(Threw(ToolsNotAnArray)))
      case Tools(items) => Prepend(content.events, ReadFragments(env, NoCurrent(content.state), items))
  }

  function ReadFrame<I>(env: Env<I>, st: Chat.State, a: Arrival): Outcome<I> {
    if a.aborted then Outcome([Aborted(st.emittedContent)], st, Some(Returned))
    else match a.frame
      case Done => Outcome([], st, Some(DoneSeen))
      case Undecodable => Outcome([], st, Some(Threw(BadFrame)))
      case ProviderError(code) => Outcome([Failure(code, st.emittedContent)], st, Some(Returned))
      case Chunk(NotAnArray) => Outcome([], st, Some(Threw(ChoicesNotAnArray)))
      case Chunk(NoChoice) => Outcome([], st, None)
      case Chunk(Many) => Outcome([], st, Some(Threw(ManyChoices)))
      case Chunk(Malformed) => Outcome([], st, Some(Threw(BadChoice)))
      case Chunk(One(finish, delta)) =>
        if finish.MalformedReason? || finish == Given("") then Outcome([], st, Some(Threw(BadFinish)))
        else
          var finished := if finish.Given? then st.(finish := Some(finish.reason)) else st;
          if delta.None? then Outcome([], finished, Some(Threw(BadDelta))) else ReadDelta(env, finished, delta.value)
  }

  // ---- The end -------------------------------------------------------------------------------

  function Closing<I>(finish: string, called: bool, emittedContent: bool): Event<I> {
    if finish == "stop" then Completed(if called then ToolUse else Stop, false)
    else if finish == "length" || finish == "model_length" then Completed(if called then ToolUse else Length, true)
    else if finish == "tool_calls" then Completed(ToolUse, false)
    else Failure(finish, emittedContent)
  }

  function Finish<I>(env: Env<I>, st: Chat.State, aborted: bool): (seq<Event<I>>, Stop)
    requires Chat.Listed(st)
  {
    if aborted then ([Aborted(st.emittedContent)], Returned)
    else if st.finish.None? then ([], Returned)
    else
      Chat.SortedKeeps(st.order);
      var (calls, error) := Chat.EndCalls(env.chat, st.tools, Chat.Sorted(st.order));
      if error.Some? then (calls, Threw(InCall(error.value)))
      else (calls + [Closing(st.finish.value, calls != [], st.emittedContent)], Returned)
  }

  // ---- The whole stream ----------------------------------------------------------------------

  lemma {:induction false} FragmentsKeepListed<I>(env: Env<I>, st: Chat.State, items: seq<Result<Fragment, Error>>)
    requires Chat.Listed(st)
    ensures Chat.Listed(ReadFragments(env, st, items).state)
    decreases |items|
  {
    hide Chat.ReadTool, Chat.Listed;
    if items != [] && items[0].Ok? {
      Chat.ToolKeepsListed(env.chat, st, Some(FragmentDelta(env, items[0].value)));
      FragmentsKeepListed(env, ReadFragment(env, st, items[0]).state, items[1..]);
    }
  }

  lemma {:induction false} ItemsKeepTools<I>(st: Chat.State, items: seq<Item>)
    ensures ReadItems<I>(st, items).state.tools == st.tools && ReadItems<I>(st, items).state.order == st.order
    decreases |items|
  {
    if items != [] {
      var o: Outcome<I> := ReadItem(st, items[0]);
      assert o.state.tools == st.tools && o.state.order == st.order;
      ItemsKeepTools<I>(o.state, items[1..]);
    }
  }

  lemma FrameKeepsListed<I>(env: Env<I>, st: Chat.State, a: Arrival)
    requires Chat.Listed(st)
    ensures Chat.Listed(ReadFrame(env, st, a).state)
  {
    hide ReadItems, ReadFragments, Chat.ListedIn;
    if !a.aborted && a.frame.Chunk? && a.frame.choices.One? && a.frame.choices.delta.Some? {
      var finish, delta := a.frame.choices.finish, a.frame.choices.delta.value;
      var finished := if finish.Given? then st.(finish := Some(finish.reason)) else st;
      var content: Outcome<I> := ReadContent(finished, delta.content);
      if delta.content.Items? {
        ItemsKeepTools<I>(finished, delta.content.items);
      }
      if delta.tools.Tools? {
        FragmentsKeepListed(env, NoCurrent(content.state), delta.tools.items);
      }
    }
  }

  function Decode<I>(env: Env<I>, st: Chat.State, arrivals: seq<Arrival>, abortedAtEnd: bool): (seq<Event<I>>, Stop)
    requires Chat.Listed(st)
    decreases |arrivals|
  {
    if arrivals == [] then Finish(env, st, abortedAtEnd)
    else
      FrameKeepsListed(env, st, arrivals[0]);
      var o := ReadFrame(env, st, arrivals[0]);
      match o.stop
      case None =>
        var (events, stop) := Decode(env, o.state, arrivals[1..], abortedAtEnd);
        (o.events + events, stop)
      case Some(DoneSeen) =>
        var (events, stop) := Finish(env, o.state, abortedAtEnd);
        (o.events + events, stop)
      case Some(stop) => (o.events, stop)
  }

  // ---- The decoder's variables, updated frame by frame -------------------------------------------

  datatype Current = Current(thinking: bool, index: nat)

  class Decoder<I> {
    const env: Env<I>
    var tools: map<nat, Chat.Tool>
    var order: seq<nat>
    var nextContentIndex: nat
    var currentContent: Option<Current>
    var finishReason: Option<string>
    var emittedContent: bool

    ghost function Value(): Chat.State
      reads this
    {
      Chat.State(tools, order, finishReason, emittedContent, nextContentIndex,
                 if currentContent.Some? && !currentContent.value.thinking then Some(currentContent.value.index) else None,
                 if currentContent.Some? && currentContent.value.thinking then Some(currentContent.value.index) else None)
    }

    constructor (env: Env<I>)
      ensures this.env == env && Value() == Chat.START
    {
      this.env := env;
      tools, order, nextContentIndex, currentContent := map[], [], 0, None;
      finishReason, emittedContent := None, false;
    }

    method TakeItem(item: Item) returns (events: seq<Event<I>>, stop: Option<Stop>)
      modifies this`nextContentIndex, this`currentContent, this`emittedContent
      ensures var o: Outcome<I> := ReadItem(old(Value()), item);
        events == o.events && stop == o.stop && Value() == o.state
    {
      if item.MalformedItem? {
        return [], Some(Threw(BadItem));
      }
      if item.text == "" {
        return [], None;
      }
      var thinking := item.ThinkingItem?;
      if currentContent.None? || currentContent.value.thinking != thinking {
        currentContent := Some(Current(thinking, nextContentIndex));
        nextContentIndex := nextContentIndex + 1;
      }
      emittedContent := true;
      var index := currentContent.value.index;
      return [if thinking then ThinkingDelta(index, item.text) else TextDelta(index, item.text)], None;
    }

    method TakeItems(items: seq<Item>) returns (events: seq<Event<I>>, stop: Option<Stop>)
      modifies this`nextContentIndex, this`currentContent, this`emittedContent
      ensures var o: Outcome<I> := ReadItems(old(Value()), items);
        events == o.events && stop == o.stop && Value() == o.state
    {
      hide ReadItem;
      events, stop := [], None;
      ghost var all: Outcome<I> := ReadItems(Value(), items);
      assert Prepend([], all) == all;
      for i := 0 to |items|
        invariant stop.None? && all == Prepend(events, ReadItems(Value(), items[i..]))
      {
        assert items[i..][0] == items[i] && items[i..][1..] == items[i + 1..];
        ghost var before := events;
        var more;
        more, stop := TakeItem(items[i]);
        events := events + more;
        if stop.Some? {
          return;
        }
        PrependTwice(before, more, ReadItems(Value(), items[i + 1..]));
      }
      assert events + [] == events;
    }

    /** No call is a custom one. */
    ghost predicate Valid()
      reads this
    {
      forall i :: i in tools ==> !tools[i].custom
    }

    method TakeFragment(item: Result<Fragment, Error>) returns (events: seq<Event<I>>, stop: Option<Stop>)
      requires Valid() && forall i :: env.fallback(i) != ""
      modifies this
      ensures Valid()
      ensures var o := ReadFragment(env, old(Value()), item);
        events == o.events && stop == o.stop && Value() == o.state
    {
      hide Chat.Emit, Chat.Merge;
      if item.Err? {
        return [], Some(Threw(item.error));
      }
      var f := item.value;
      var state := Chat.FreshTool(nextContentIndex);
      if f.index in tools {
        state := tools[f.index];
      } else {
        nextContentIndex := nextContentIndex + 1;
        order := order + [f.index];
      }
      MergedIsNamed(env, state, f);
      state := FillTool(env, state, f);
      EmittedIsPlain(env, state);
      events, state := EmitTool(state);
      tools := tools[f.index := state];
      stop := None;
    }

    method TakeFragments(items: seq<Result<Fragment, Error>>) returns (events: seq<Event<I>>, stop: Option<Stop>)
      requires Valid() && forall i :: env.fallback(i) != ""
      modifies this
      ensures Valid()
      ensures var o := ReadFragments(env, old(Value()), items);
        events == o.events && stop == o.stop && Value() == o.state
    {
      hide ReadFragment, Valid;
      events, stop := [], None;
      ghost var all := ReadFragments(env, Value(), items);
      assert Prepend([], all) == all;
      for i := 0 to |items|
        invariant Valid() && stop.None? && all == Prepend(events, ReadFragments(env, Value(), items[i..]))
      {
        assert items[i..][0] == items[i] && items[i..][1..] == items[i + 1..];
        ghost var before := events;
        var more;
        more, stop := TakeFragment(items[i]);
        events := events + more;
        if stop.Some? {
          return;
        }
        PrependTwice(before, more, ReadFragments(env, Value(), items[i + 1..]));
      }
      assert events + [] == events;
    }

    method TakeDelta(delta: Delta) returns (events: seq<Event<I>>, stop: Option<Stop>)
      requires Valid() && forall i :: env.fallback(i) != ""
      modifies this
      ensures Valid()
      ensures var o := ReadDelta(env, old(Value()), delta);
        events == o.events && stop == o.stop && Value() == o.state
    {
      hide ReadItems, ReadFragments;
      events, stop := [], None;
      match delta.content {
        case NoContent =>
        case MalformedContent => return [], Some(Threw(BadContent));
        case Items(items) => events, stop := TakeItems(items);
      }
      if stop.Some? {
        return;
      }
      match delta.tools {
        case NoTools =>
        case NotAList => stop := Some(Threw(ToolsNotAnArray));
        case Tools(items) =>
          currentContent := None;
          var more;
          more, stop := TakeFragments(items);
          events := events + more;
      }
    }

    method Take(a: Arrival) returns (events: seq<Event<I>>, stop: Option<Stop>)
      requires Valid() && forall i :: env.fallback(i) != ""
      modifies this
      ensures Valid()
      ensures var o := ReadFrame(env, old(Value()), a);
        events == o.events && stop == o.stop && Value() == o.state
    {
      hide ReadDelta;
      if a.aborted {
        return [Aborted(emittedContent)], Some(Returned);
      }
      match a.frame
      case Done => return [], Some(DoneSeen);
      case Undecodable => return [], Some(Threw(BadFrame));
      case ProviderError(code) => return [Failure(code, emittedContent)], Some(Returned);
      case Chunk(NotAnArray) => return [], Some(Threw(ChoicesNotAnArray));
      case Chunk(NoChoice) => return [], None;
      case Chunk(Many) => return [], Some(Threw(ManyChoices));
      case Chunk(Malformed) => return [], Some(Threw(BadChoice));
      case Chunk(One(finish, delta)) =>
        if finish.MalformedReason? || finish == Given("") {
          return [], Some(Threw(BadFinish));
        }
        if finish.Given? {
          finishReason := Some(finish.reason);
        }
        if delta.None? {
          return [], Some(Threw(BadDelta));
        }
        events, stop := TakeDelta(delta.value);
    }

    method Close(aborted: bool) returns (events: seq<Event<I>>, stop: Stop)
      requires Chat.Listed(Value())
      ensures (events, stop) == Finish(env, Value(), aborted)
    {
      if aborted {
        return [Aborted(emittedContent)], Returned;
      }
      if finishReason.None? {
        return [], Returned;
      }
      var indexes := Chat.Sorted(order);
      Chat.SortedKeeps(order);
      var error;
      events, error := EndAll(indexes);
      if error.Some? {
        return events, Threw(InCall(error.value));
      }
      var emittedToolCall, reason := |events| > 0, finishReason.value;
      var mapped :=
        if reason == "stop" then Some(Stop)
        else if reason == "length" || reason == "model_length" then Some(Length)
        else if reason == "tool_calls" then Some(ToolUse)
        else None;
      if mapped.None? {
        return events + [Failure(reason, emittedContent)], Returned;
      }
      return events + [Completed(if emittedToolCall then ToolUse else mapped.value, mapped.value.Length?)], Returned;
    }

    method EndAll(indexes: seq<nat>) returns (events: seq<Event<I>>, error: Option<Chat.Error>)
      requires forall i :: i in indexes ==> i in tools
      ensures (events, error) == Chat.EndCalls(env.chat, tools, indexes)
    {
      hide Chat.EndCall;
      events := [];
      for k := 0 to |indexes|
        invariant Chat.EndCalls(env.chat, tools, indexes).0 == events + Chat.EndCalls(env.chat, tools, indexes[k..]).0
        invariant Chat.EndCalls(env.chat, tools, indexes).1 == Chat.EndCalls(env.chat, tools, indexes[k..]).1
      {
        assert indexes[k..][0] == indexes[k] && indexes[k..][1..] == indexes[k + 1..];
        var event := Chat.EndCall(env.chat, tools[indexes[k]]);
        if event.Err? {
          assert events + [] == events;
          return events, Some(event.error);
        }
        assert events + ([event.value] + Chat.EndCalls(env.chat, tools, indexes[k + 1..]).0) ==
               events + [event.value] + Chat.EndCalls(env.chat, tools, indexes[k + 1..]).0;
        events := events + [event.value];
      }
      assert events + [] == events;
      error := None;
    }

    /** Here a call starts as soon as it has a name, since it always has an id. */
    method EmitTool(tool: Chat.Tool) returns (events: seq<Event<I>>, state: Chat.Tool)
      requires tool.id != "" && !tool.custom
      modifies this`emittedContent
      ensures (events, state) == Chat.Emit(env.chat, tool)
      ensures emittedContent == (old(emittedContent) || (state.started && !tool.started))
    {
      events, state := [], tool;
      if !state.started && state.name != "" {
        state := state.(started := true);
        emittedContent := true;
        events := events + [CallStart(state.contentIndex, state.id, ToolNames.ReverseName(env.chat.tools, state.name))];
      }
      if state.started && |state.arguments| > state.emitted {
        events := events + [CallDelta(state.contentIndex, state.id, state.arguments[state.emitted..])];
        state := state.(emitted := |state.arguments|);
      }
      assert events == Chat.Emit(env.chat, tool).0 && state == Chat.Emit(env.chat, tool).1;
    }
  }

  method FillTool<I>(env: Env<I>, tool: Chat.Tool, f: Fragment) returns (state: Chat.Tool)
    ensures state == Chat.Merge(tool, FragmentDelta(env, f))
  {
    state := tool;
    if state.id == "" && f.id != "null" {
      state := state.(id := f.id);
    }
    if state.name == "" {
      state := state.(name := f.name);
    }
    state := state.(arguments := state.arguments + f.arguments);
    if state.id == "" {
      state := state.(id := env.fallback(f.index));
    }
  }

  /** A merged call has an id, and is custom only if it was. */
  lemma MergedIsNamed<I>(env: Env<I>, tool: Chat.Tool, f: Fragment)
    requires env.fallback(f.index) != ""
    ensures var m := Chat.Merge(tool, FragmentDelta(env, f));
      m.id != "" && m.custom == tool.custom && m.started == tool.started
  {}

  lemma EmittedIsPlain<I>(env: Env<I>, tool: Chat.Tool)
    ensures Chat.Emit(env.chat, tool).1.custom == tool.custom
  {}

  method DecodeStream<I>(env: Env<I>, arrivals: seq<Arrival>, abortedAtEnd: bool) returns (events: seq<Event<I>>, stop: Stop)
    requires forall i :: env.fallback(i) != ""
    ensures Chat.Listed(Chat.START) && (events, stop) == Decode(env, Chat.START, arrivals, abortedAtEnd)
  {
    hide ReadFrame, Finish;
    var decoder := new Decoder(env);
    events := [];
    for i := 0 to |arrivals|
      invariant fresh(decoder) && decoder.env == env && decoder.Valid() && Chat.Listed(decoder.Value())
      invariant var all, left := Decode(env, Chat.START, arrivals, abortedAtEnd),
                                 Decode(env, decoder.Value(), arrivals[i..], abortedAtEnd);
        all.0 == events + left.0 && all.1 == left.1
    {
      assert arrivals[i..][0] == arrivals[i] && arrivals[i..][1..] == arrivals[i + 1..];
      FrameKeepsListed(env, decoder.Value(), arrivals[i]);
      ghost var before := events;
      var more, end := decoder.Take(arrivals[i]);
      events := events + more;
      if end == Some(DoneSeen) {
        var last;
        last, stop := decoder.Close(abortedAtEnd);
        assert before + (more + last) == events + last;
        events := events + last;
        return;
      }
      if end.Some? {
        return events, end.value;
      }
    }
    var more;
    more, stop := decoder.Close(abortedAtEnd);
    events := events + more;
  }

  lemma PrependTwice<I>(a: seq<Event<I>>, b: seq<Event<I>>, o: Outcome<I>)
    ensures Prepend(a, Prepend(b, o)) == Prepend(a + b, o)
  {
    assert a + (b + o.events) == (a + b) + o.events;
  }
}
