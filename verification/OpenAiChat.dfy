/** Decoding Chat Completions stream frames into canonical events. */
module OpenAiChat {
  import opened Prelude
  import opened StreamTrace
  import ToolNames

  datatype Error =
    | BadFrame | ChoicesNotAnArray | ManyChoices | BadChoice | ReplayMetadataLost | ToolsNotAnArray
    | BadToolIndex | IncompleteCall | UnknownCustomTool | BadArguments

  // ---- What the provider sends ---------------------------------------------------------------

  /** One tool call delta; a string field that is absent is empty. */
  datatype ToolDelta = ToolDelta(
    index: nat, id: string, functionName: string, arguments: string, customName: string, customInput: Option<string>)

  /** The tool call deltas of a chunk; an item without a valid index is None. */
  datatype ToolList = NoTools | NotAList | Tools(items: seq<Option<ToolDelta>>)

  datatype Delta = Delta(content: string, reasoningDetails: bool, reasoning: seq<string>, tools: ToolList)

  datatype Choices = NoChoice | NotAnArray | Many | Malformed | One(finish: Option<string>, delta: Option<Delta>)

  datatype Frame = Done | Undecodable | ProviderError(code: string) | Chunk(choices: Choices)

  /** A frame, and whether the request was aborted by the time it is taken up. */
  datatype Arrival = Arrival(aborted: bool, frame: Frame)

  /** The frozen tools, the JSON object parser, and how a custom tool's text becomes its input. */
  datatype Env<!I> = Env(
    tools: seq<ToolNames.Tool>, json: string -> Option<I>, empty: I,
    inputProperty: string -> Option<string>, wrap: (string, string) -> I)

  // ---- State ---------------------------------------------------------------------------------

  /**
   A call under construction. `handover` is not in the code: it notes how much had been
   emitted when the call turned out to be a custom one.
   */
  datatype Tool = Tool(
    contentIndex: nat, id: string, name: string, arguments: string, customInput: string, custom: bool,
    started: bool, emitted: nat, handover: nat)

  datatype State = State(
    tools: map<nat, Tool>, order: seq<nat>, finish: Option<string>, emittedContent: bool, next: nat,
    textIndex: Option<nat>, thinkingIndex: Option<nat>)

  const START := State(map[], [], None, false, 0, None, None)

  datatype Stop = Returned | DoneSeen | Threw(error: Error)

  datatype Outcome<I> = Outcome(events: seq<Event<I>>, state: State, stop: Option<Stop>)

  function Prepend<I>(events: seq<Event<I>>, o: Outcome<I>): Outcome<I> {
    o.(events := events + o.events)
  }

  // ---- One tool call delta ---------------------------------------------------------------------

  function Or(first: string, second: string): string {
    if first == "" then second else first
  }

  function Text(t: Tool): string {
    if t.custom then t.customInput else t.arguments
  }

  function Merge(t: Tool, d: ToolDelta): Tool {
    t.(id := Or(t.id, d.id), name := Or(Or(t.name, d.functionName), d.customName),
       arguments := t.arguments + d.arguments,
       custom := t.custom || d.customInput.Some?,
       customInput := if d.customInput.Some? then t.customInput + d.customInput.value else t.customInput,
       handover := if !t.custom && d.customInput.Some? then t.emitted else t.handover)
  }

  function Emit<I>(env: Env<I>, t: Tool): (seq<Event<I>>, Tool) {
    var starts := !t.started && t.id != "" && t.name != "";
    var first: seq<Event<I>> :=
      if starts then [CallStart(t.contentIndex, t.id, ToolNames.ReverseName(env.tools, t.name))] else [];
    if (t.started || starts) && |Text(t)| > t.emitted then
      (first + [CallDelta(t.contentIndex, t.id, Text(t)[t.emitted..])], t.(started := true, emitted := |Text(t)|))
    else (first, t.(started := t.started || starts))
  }

  function FreshTool(contentIndex: nat): Tool {
    Tool(contentIndex, "", "", "", "", false, false, 0, 0)
  }

  function ReadTool<I>(env: Env<I>, st: State, item: Option<ToolDelta>): Outcome<I> {
    match item
    case None => Outcome([], st, Some(Threw(BadToolIndex)))
    case Some(d) =>
      var known := d.index in st.tools;
      var tool := if known then st.tools[d.index] else FreshTool(st.next);
      var (events, merged) := Emit(env, Merge(tool, d));
      Outcome(events,
              st.(tools := st.tools[d.index := merged],
                  order := if known then st.order else st.order + [d.index],
                  next := if known then st.next else st.next + 1,
                  emittedContent := st.emittedContent || (merged.started && !tool.started)),
              None)
  }

  function ReadTools<I>(env: Env<I>, st: State, items: seq<Option<ToolDelta>>): Outcome<I>
    decreases |items|
  {
    if items == [] then Outcome([], st, None)
    else
      var o := ReadTool(env, st, items[0]);
      if o.stop.Some? then o else Prepend(o.events, ReadTools(env, o.state, items[1..]))
  }

  // ---- One frame -----------------------------------------------------------------------------

  function ReadText<I>(st: State, text: string): Outcome<I> {
    if text == "" then Outcome([], st, None)
    else
      var index := if st.textIndex.Some? then st.textIndex.value else st.next;
      Outcome([TextDelta(index, text)],
              st.(textIndex := Some(index), emittedContent := true,
                  next := if st.textIndex.Some? then st.next else st.next + 1), None)
  }

  /** The first non-empty reasoning field. */
  function FirstReasoning(fields: seq<string>): string {
    if fields == [] then "" else Or(fields[0], FirstReasoning(fields[1..]))
  }

  function ReadThinking<I>(st: State, text: string): Outcome<I> {
    if text == "" then Outcome([], st, None)
    else
      var index := if st.thinkingIndex.Some? then st.thinkingIndex.value else st.next;
      Outcome([ThinkingDelta(index, text)],
              st.(thinkingIndex := Some(index), emittedContent := true,
                  next := if st.thinkingIndex.Some? then st.next else st.next + 1), None)
  }

  function ReadDelta<I>(env: Env<I>, st: State, delta: Delta): Outcome<I> {
    var text: Outcome<I> := ReadText(st, delta.content);
    if delta.reasoningDetails then text.(stop := Some(Threw(ReplayMetadataLost)))
    else
      var thinking: Outcome<I> := ReadThinking(text.state, FirstReasoning(delta.reasoning));
      var content := Prepend(text.events, thinking);
      match delta.tools
      case NoTools => content
      case NotAList => content.(stop := Some(Threw(ToolsNotAnArray)))
      case Tools(items) => Prepend(content.events, ReadTools(env, content.state, items))
  }

  function ReadFrame<I>(env: Env<I>, st: State, a: Arrival): Outcome<I> {
    if a.aborted then Outcome([Aborted(st.emittedContent)], st, Some(Returned))
    else match a.frame
      case Done => Outcome([], st, Some(DoneSeen))
      case Undecodable => Outcome([], st, Some(Threw(BadFrame)))
      case ProviderError(code) => Outcome([Failure(code, st.emittedContent)], st, Some(Returned))
      case Chunk(NoChoice) => Outcome([], st, None)
      case Chunk(NotAnArray) => Outcome([], st, Some(Threw(ChoicesNotAnArray)))
      case Chunk(Many) => Outcome([], st, Some(Threw(ManyChoices)))
      case Chunk(Malformed) => Outcome([], st, Some(Threw(BadChoice)))
      case Chunk(One(finish, delta)) =>
        var finished := if finish.Some? && finish.value != "" then st.(finish := finish) else st;
        if delta.None? then Outcome([], finished, None) else ReadDelta(env, finished, delta.value)
  }

  // ---- The end -------------------------------------------------------------------------------

  function Insert(x: nat, s: seq<nat>): seq<nat> {
    if s == [] || x <= s[0] then [x] + s else [s[0]] + Insert(x, s[1..])
  }

  function Sorted(s: seq<nat>): seq<nat> {
    if s == [] then [] else Insert(s[0], Sorted(s[1..]))
  }

  function Input<I>(env: Env<I>, t: Tool): Result<I, Error> {
    if t.custom then
      match env.inputProperty(t.name)
      case None => Err(UnknownCustomTool)
      case Some(property) => Ok(env.wrap(property, t.customInput))
    else if t.arguments == "" then Ok(env.empty)
    else match env.json(t.arguments)
      case None => Err(BadArguments)
      case Some(input) => Ok(input)
  }

  function EndCall<I>(env: Env<I>, t: Tool): Result<Event<I>, Error> {
    if !t.started then Err(IncompleteCall)
    else match Input(env, t)
      case Err(e) => Err(e)
      case Ok(input) => Ok(CallEnd(t.contentIndex, t.id, ToolNames.ReverseName(env.tools, t.name), input))
  }

  /** The ends of the calls with the given tool indexes, up to the first that is wrong. */
  function EndCalls<I>(env: Env<I>, tools: map<nat, Tool>, indexes: seq<nat>): (seq<Event<I>>, Option<Error>)
    requires forall i :: i in indexes ==> i in tools
    decreases |indexes|
  {
    if indexes == [] then ([], None)
    else match EndCall(env, tools[indexes[0]])
      case Err(e) => ([], Some(e))
      case Ok(event) =>
        var (events, error) := EndCalls(env, tools, indexes[1..]);
        ([event] + events, error)
  }

  function Closing<I>(finish: string, emittedContent: bool): Event<I> {
    if finish == "stop" || finish == "end" then Completed(Stop, false)
    else if finish == "length" then Completed(Length, true)
    else if finish == "tool_calls" || finish == "function_call" then Completed(ToolUse, false)
    else Failure("provider_finish_reason", emittedContent)
  }

  /** The tools' keys are those listed, each once. */
  ghost predicate Listed(st: State) {
    ListedIn(st.tools, st.order)
  }

  ghost predicate ListedIn(tools: map<nat, Tool>, order: seq<nat>) {
    && (forall i :: i in order <==> i in tools)
    && forall i, j :: 0 <= i < j < |order| ==> order[i] != order[j]
  }

  lemma {:induction false} InsertKeeps(x: nat, s: seq<nat>)
    ensures multiset(Insert(x, s)) == multiset(s) + multiset{x}
  {
    if s != [] && x > s[0] {
      InsertKeeps(x, s[1..]);
      assert s == [s[0]] + s[1..];
    }
  }

  lemma {:induction false} SortedKeeps(s: seq<nat>)
    ensures multiset(Sorted(s)) == multiset(s)
    ensures forall x :: x in Sorted(s) <==> x in s
  {
    if s != [] {
      SortedKeeps(s[1..]);
      InsertKeeps(s[0], Sorted(s[1..]));
      assert s == [s[0]] + s[1..];
    }
    assert forall x :: x in Sorted(s) <==> x in multiset(Sorted(s));
  }

  lemma {:induction false} InsertOrders(x: nat, s: seq<nat>)
    requires forall i, j :: 0 <= i < j < |s| ==> s[i] <= s[j]
    ensures forall i, j :: 0 <= i < j < |Insert(x, s)| ==> Insert(x, s)[i] <= Insert(x, s)[j]
  {
    if s != [] && x > s[0] {
      InsertOrders(x, s[1..]);
      InsertKeeps(x, s[1..]);
      var r := Insert(x, s[1..]);
      forall k | 0 <= k < |r| ensures s[0] <= r[k] {
        assert r[k] in multiset(r);
        if r[k] != x {
          assert r[k] in multiset(s[1..]);
        }
      }
    }
  }

  /** Calls end in ascending order of their tool index. */
  lemma {:induction false} SortedAscends(s: seq<nat>)
    ensures forall i, j :: 0 <= i < j < |Sorted(s)| ==> Sorted(s)[i] <= Sorted(s)[j]
  {
    if s != [] {
      SortedAscends(s[1..]);
      InsertOrders(s[0], Sorted(s[1..]));
    }
  }

  function Finish<I>(env: Env<I>, st: State, aborted: bool): (seq<Event<I>>, Stop)
    requires Listed(st)
  {
    if aborted then ([Aborted(st.emittedContent)], Returned)
    else if st.finish.None? then ([], Returned)
    else
      SortedKeeps(st.order);
      var (calls, error) := EndCalls(env, st.tools, Sorted(st.order));
      if error.Some? then (calls, Threw(error.value))
      else
        var finish := if calls != [] && st.finish.value == "stop" then "tool_calls" else st.finish.value;
        (calls + [Closing(finish, st.emittedContent)], Returned)
  }

  // ---- The whole stream ----------------------------------------------------------------------

  lemma ToolKeepsListed<I>(env: Env<I>, st: State, item: Option<ToolDelta>)
    requires Listed(st)
    ensures Listed(ReadTool(env, st, item).state)
  {}

  lemma {:induction false} ToolsKeepListed<I>(env: Env<I>, st: State, items: seq<Option<ToolDelta>>)
    requires Listed(st)
    ensures Listed(ReadTools(env, st, items).state)
    decreases |items|
  {
    hide ReadTool, Listed;
    if items != [] {
      ToolKeepsListed(env, st, items[0]);
      ToolsKeepListed(env, ReadTool(env, st, items[0]).state, items[1..]);
    }
  }

  lemma ContentKeepsTools<I>(st: State, text: string)
    ensures ReadText<I>(st, text).state.tools == st.tools && ReadText<I>(st, text).state.order == st.order
    ensures ReadThinking<I>(st, text).state.tools == st.tools && ReadThinking<I>(st, text).state.order == st.order
  {}

  lemma DeltaKeepsListed<I>(env: Env<I>, st: State, delta: Delta)
    requires Listed(st)
    ensures Listed(ReadDelta(env, st, delta).state)
  {
    hide ReadTools, FirstReasoning, ReadText, ReadThinking, ListedIn;
    var text: Outcome<I> := ReadText(st, delta.content);
    ContentKeepsTools<I>(st, delta.content);
    var thinking: Outcome<I> := ReadThinking(text.state, FirstReasoning(delta.reasoning));
    ContentKeepsTools<I>(text.state, FirstReasoning(delta.reasoning));
    if delta.tools.Tools? {
      ToolsKeepListed(env, thinking.state, delta.tools.items);
    }
  }

  lemma FrameKeepsListed<I>(env: Env<I>, st: State, a: Arrival)
    requires Listed(st)
    ensures Listed(ReadFrame(env, st, a).state)
  {
    hide ReadDelta, ListedIn;
    if !a.aborted && a.frame.Chunk? && a.frame.choices.One? && a.frame.choices.delta.Some? {
      var finish := a.frame.choices.finish;
      var finished := if finish.Some? && finish.value != "" then st.(finish := finish) else st;
      DeltaKeepsListed(env, finished, a.frame.choices.delta.value);
    }
  }

  function Decode<I>(env: Env<I>, st: State, arrivals: seq<Arrival>, abortedAtEnd: bool): (seq<Event<I>>, Stop)
    requires Listed(st)
    decreases |arrivals|
  {
    if arrivals == [] then Finish(env, st, abortedAtEnd)
    else
      FrameKeepsListed(env, st, arrivals[0]);
      var o := ReadFrame(env, st, arrivals[0]);
      match o.stop
      case None =>
        var (events, stop) := Decode(env, o.state, arrivals[1..], abortedAtEnd);
        (o.events + events, stop)
      case Some(DoneSeen) =>
        var (events, stop) := Finish(env, o.state, abortedAtEnd);
        (o.events + events, stop)
      case Some(stop) => (o.events, stop)
  }

  /** The decoder's variables, updated frame by frame. */
  class Decoder<I> {
    const env: Env<I>
    var tools: map<nat, Tool>
    var order: seq<nat>
    var finishReason: Option<string>
    var emittedContent: bool
    var nextContentIndex: nat
    var textContentIndex: Option<nat>
    var thinkingContentIndex: Option<nat>

    ghost function Value(): State
      reads this
    {
      State(tools, order, finishReason, emittedContent, nextContentIndex, textContentIndex, thinkingContentIndex)
    }

    constructor (env: Env<I>)
      ensures this.env == env && Value() == START
    {
      this.env := env;
      tools, order, finishReason, emittedContent := map[], [], None, false;
      nextContentIndex, textContentIndex, thinkingContentIndex := 0, None, None;
    }

    method EmitTool(tool: Tool) returns (events: seq<Event<I>>, state: Tool)
      modifies this`emittedContent
      ensures (events, state) == Emit(env, tool)
      ensures emittedContent == (old(emittedContent) || (state.started && !tool.started))
    {
      events, state := [], tool;
      if !state.started && state.id != "" && state.name != "" {
        state := state.(started := true);
        emittedContent := true;
        events := events + [CallStart(state.contentIndex, state.id, ToolNames.ReverseName(env.tools, state.name))];
      }
      var argumentsText := if state.custom then state.customInput else state.arguments;
      if state.started && |argumentsText| > state.emitted {
        events := events + [CallDelta(state.contentIndex, state.id, argumentsText[state.emitted..])];
        state := state.(emitted := |argumentsText|);
      }
      assert events == Emit(env, tool).0 && state == Emit(env, tool).1;
    }

    method ReadToolDelta(item: Option<ToolDelta>) returns (events: seq<Event<I>>, stop: Option<Stop>)
      modifies this
      ensures var o := ReadTool(env, old(Value()), item);
        events == o.events && stop == o.stop && Value() == o.state
    {
      hide Emit, Merge;
      if item.None? {
        return [], Some(Threw(BadToolIndex));
      }
      var d := item.value;
      var state := FreshTool(nextContentIndex);
      if d.index in tools {
        state := tools[d.index];
      } else {
        nextContentIndex := nextContentIndex + 1;
        order := order + [d.index];
      }
      state := FillTool(state, d);
      events, state := EmitTool(state);
      tools := tools[d.index := state];
      stop := None;
      MergeKeepsStarted(if d.index in old(tools) then old(tools)[d.index] else FreshTool(old(nextContentIndex)), d);
    }

    method ReadToolDeltas(items: seq<Option<ToolDelta>>) returns (events: seq<Event<I>>, stop: Option<Stop>)
      modifies this
      ensures var o := ReadTools(env, old(Value()), items);
        events == o.events && stop == o.stop && Value() == o.state
    {
      hide ReadTool;
      events, stop := [], None;
      ghost var all := ReadTools(env, Value(), items);
      assert Prepend([], all) == all;
      for i := 0 to |items|
        invariant stop.None? && all == Prepend(events, ReadTools(env, Value(), items[i..]))
      {
        var more;
        ghost var before := events;
        assert items[i..][0] == items[i] && items[i..][1..] == items[i + 1..];
        more, stop := ReadToolDelta(items[i]);
        events := events + more;
        if stop.Some? {
          return;
        }
        PrependTwice(before, more, ReadTools(env, Value(), items[i + 1..]));
      }
      assert events + [] == events;
    }

    method ReadDeltaFields(delta: Delta) returns (events: seq<Event<I>>, stop: Option<Stop>)
      modifies this
      ensures var o := ReadDelta(env, old(Value()), delta);
        events == o.events && stop == o.stop && Value() == o.state
    {
      hide ReadTools, FirstReasoning;
      events, stop := [], None;
      if delta.content != "" {
        if textContentIndex.None? {
          textContentIndex := Some(nextContentIndex);
          nextContentIndex := nextContentIndex + 1;
        }
        emittedContent := true;
        events := events + [TextDelta(textContentIndex.value, delta.content)];
      }
      if delta.reasoningDetails {
        return events, Some(Threw(ReplayMetadataLost));
      }
      var reasoning := FindReasoning(delta.reasoning);
      if reasoning != "" {
        if thinkingContentIndex.None? {
          thinkingContentIndex := Some(nextContentIndex);
          nextContentIndex := nextContentIndex + 1;
        }
        emittedContent := true;
        events := events + [ThinkingDelta(thinkingContentIndex.value, reasoning)];
      }
      match delta.tools
      case NoTools =>
      case NotAList => stop := Some(Threw(ToolsNotAnArray));
      case Tools(items) =>
        var more;
        more, stop := ReadToolDeltas(items);
        events := events + more;
    }

    method Take(a: Arrival) returns (events: seq<Event<I>>, stop: Option<Stop>)
      modifies this
      ensures var o := ReadFrame(env, old(Value()), a);
        events == o.events && stop == o.stop && Value() == o.state
    {
      hide ReadDelta;
      if a.aborted {
        return [Aborted(emittedContent)], Some(Returned);
      }
      match a.frame
      case Done => return [], Some(DoneSeen);
      case Undecodable => return [], Some(Threw(BadFrame));
      case ProviderError(code) => return [Failure(code, emittedContent)], Some(Returned);
      case Chunk(NoChoice) => return [], None;
      case Chunk(NotAnArray) => return [], Some(Threw(ChoicesNotAnArray));
      case Chunk(Many) => return [], Some(Threw(ManyChoices));
      case Chunk(Malformed) => return [], Some(Threw(BadChoice));
      case Chunk(One(finish, delta)) =>
        if finish.Some? && finish.value != "" {
          finishReason := finish;
        }
        if delta.None? {
          return [], None;
        }
        events, stop := ReadDeltaFields(delta.value);
    }

    method Close(aborted: bool) returns (events: seq<Event<I>>, stop: Stop)
      requires Listed(Value())
      ensures (events, stop) == Finish(env, Value(), aborted)
    {
      if aborted {
        return [Aborted(emittedContent)], Returned;
      }
      if finishReason.None? {
        return [], Returned;
      }
      var indexes := Sorted(order);
      SortedKeeps(order);
      var error;
      events, error := EndAll(indexes);
      if error.Some? {
        return events, Threw(error.value);
      }
      var reason := finishReason.value;
      if |events| > 0 && reason == "stop" {
        reason := "tool_calls";
      }
      events := events + [Closing(reason, emittedContent)];
      stop := Returned;
    }

    method EndAll(indexes: seq<nat>) returns (events: seq<Event<I>>, error: Option<Error>)
      requires forall i :: i in indexes ==> i in tools
      ensures (events, error) == EndCalls(env, tools, indexes)
    {
      hide EndCall;
      events := [];
      for k := 0 to |indexes|
        invariant EndCalls(env, tools, indexes).0 == events + EndCalls(env, tools, indexes[k..]).0
        invariant EndCalls(env, tools, indexes).1 == EndCalls(env, tools, indexes[k..]).1
      {
        assert indexes[k..][0] == indexes[k] && indexes[k..][1..] == indexes[k + 1..];
        var event := EndCall(env, tools[indexes[k]]);
        if event.Err? {
          assert events + [] == events;
          return events, Some(event.error);
        }
        assert events + ([event.value] + EndCalls(env, tools, indexes[k + 1..]).0) ==
               events + [event.value] + EndCalls(env, tools, indexes[k + 1..]).0;
        events := events + [event.value];
      }
      assert events + [] == events;
      error := None;
    }
  }

  method FillTool(tool: Tool, d: ToolDelta) returns (state: Tool)
    ensures state == Merge(tool, d)
  {
    state := tool;
    if state.id == "" && d.id != "" {
      state := state.(id := d.id);
    }
    if state.name == "" {
      state := state.(name := d.functionName);
    }
    state := state.(arguments := state.arguments + d.arguments);
    if state.name == "" {
      state := state.(name := d.customName);
    }
    if d.customInput.Some? {
      state := state.(handover := if state.custom then state.handover else state.emitted);
      state := state.(custom := true, customInput := state.customInput + d.customInput.value);
    }
  }

  lemma MergeKeepsStarted(t: Tool, d: ToolDelta)
    ensures Merge(t, d).started == t.started
  {}

  method FindReasoning(fields: seq<string>) returns (text: string)
    ensures text == FirstReasoning(fields)
  {
    for i := 0 to |fields|
      invariant FirstReasoning(fields) == FirstReasoning(fields[i..])
    {
      assert fields[i..][1..] == fields[i + 1..];
      if fields[i] != "" {
        return fields[i];
      }
    }
    return "";
  }

  lemma PrependTwice<I>(a: seq<Event<I>>, b: seq<Event<I>>, o: Outcome<I>)
    ensures Prepend(a, Prepend(b, o)) == Prepend(a + b, o)
  {}

  method DecodeStream<I>(env: Env<I>, arrivals: seq<Arrival>, abortedAtEnd: bool) returns (events: seq<Event<I>>, stop: Stop)
    ensures Listed(START) && (events, stop) == Decode(env, START, arrivals, abortedAtEnd)
  {
    hide ReadFrame, Finish;
    var decoder := new Decoder(env);
    events := [];
    for i := 0 to |arrivals|
      invariant fresh(decoder) && decoder.env == env && Listed(decoder.Value())
      invariant var all, left := Decode(env, START, arrivals, abortedAtEnd),
                                 Decode(env, decoder.Value(), arrivals[i..], abortedAtEnd);
        all.0 == events + left.0 && all.1 == left.1
    {
      assert arrivals[i..][0] == arrivals[i] && arrivals[i..][1..] == arrivals[i + 1..];
      FrameKeepsListed(env, decoder.Value(), arrivals[i]);
      ghost var before := events;
      var more, end := decoder.Take(arrivals[i]);
      events := events + more;
      if end == Some(DoneSeen) {
        var last;
        last, stop := decoder.Close(abortedAtEnd);
        assert before + (more + last) == events + last;
        events := events + last;
        return;
      }
      if end.Some? {
        return events, end.value;
      }
    }
    var more;
    more, stop := decoder.Close(abortedAtEnd);
    events := events + more;
  }
}
