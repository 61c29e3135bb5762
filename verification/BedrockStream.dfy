/** Decoding Bedrock Converse stream events into canonical events. */
module BedrockStream {
  import opened Prelude
  import opened StreamTrace
  import ToolNames

  datatype Error =
    | NotAnObject | BadRole | BadIndex | StartedTwice | BadStart | BadDelta | BadText | NotText | BadToolInput
    | NotThinking | BadReasoningText | BadSignature | BadRedaction | UnknownBlock | BadStopReason
    | InvalidJson

  // ---- What the provider sends ---------------------------------------------------------------

  /** A field that may be absent or of the wrong type. */
  datatype Field<T> = Absent | Malformed | Given(value: T)

  datatype Change =
    | Text(text: Field<string>)
    | ToolInput(input: Field<string>)
    | Reasoning(text: Field<string>, signature: Field<string>, redacted: Field<string>)
    | OtherChange

  datatype Frame =
    | NotObject
    | Exception(code: string)
    | MessageStart(assistant: bool)
    | BlockStart(index: Option<nat>, id: string, name: string)
    | BlockDelta(index: Option<nat>, change: Option<Change>)
    | BlockStop(index: Option<nat>)
    | MessageStop(reason: string)
    | Other

  datatype Arrival = Arrival(aborted: bool, frame: Frame)

  /** The frozen tools, the JSON object parser, and base64 of concatenated chunks. */
  datatype Env<!I> = Env(tools: seq<ToolNames.Tool>, json: string -> Option<I>, base64: seq<string> -> string)

  const PLACEHOLDER := "[Reasoning redacted]"

  // ---- State ---------------------------------------------------------------------------------

  datatype Active =
    | TextActive(contentIndex: nat)
    | ThinkingActive(contentIndex: nat, signature: string, redacted: bool, chunks: seq<string>)
    | ToolActive(contentIndex: nat, callId: string, wireName: string, argumentsText: string)

  datatype State = State(active: map<nat, Active>, next: nat, emittedContent: bool, emittedToolCall: bool, stopReason: Option<string>)

  const START := State(map[], 0, false, false, None)

  datatype Stop = Returned | Threw(error: Error)

  datatype Outcome<I> = Outcome(events: seq<Event<I>>, state: State, stop: Option<Stop>)

  function Fails<I>(st: State, error: Error): Outcome<I> {
    Outcome([], st, Some(Threw(error)))
  }

  function OpenTool<I>(env: Env<I>, st: State, index: nat, id: string, name: string): Outcome<I> {
    if index in st.active then Fails(st, StartedTwice)
    else if id == "" || name == "" then Fails(st, BadStart)
    else
      Outcome([CallStart(st.next, id, ToolNames.ReverseName(env.tools, name))],
              st.(active := st.active[index := ToolActive(st.next, id, name, "")], next := st.next + 1, emittedContent := true),
              None)
  }

  /** The block of a provider index, or a new one of the given kind. */
  function Locate(st: State, index: nat, fresh': Active): (State, Active) {
    if index in st.active then (st, st.active[index])
    else (st.(active := st.active[index := fresh'], next := st.next + 1), fresh')
  }

  function ReadText<I>(st: State, index: nat, text: Field<string>): Outcome<I> {
    if !text.Given? then Fails(st, BadText)
    else
      var (located, block) := Locate(st, index, TextActive(st.next));
      if !block.TextActive? then Fails(located, NotText)
      else if text.value == "" then Outcome([], located, None)
      else Outcome([TextDelta(block.contentIndex, text.value)], located.(emittedContent := true), None)
  }

  function ReadToolInput<I>(st: State, index: nat, input: Field<string>): Outcome<I> {
    if index !in st.active || !st.active[index].ToolActive? || !input.Given? then Fails(st, BadToolInput)
    else
      var block := st.active[index];
      var grown := block.(argumentsText := block.argumentsText + input.value);
      Outcome(if input.value == "" then [] else [CallDelta(block.contentIndex, block.callId, input.value)],
              st.(active := st.active[index := grown]), None)
  }

  /** The signature and the redacted content of a reasoning delta, after its text. */
  function ReadMarks<I>(st: State, index: nat, block: Active, signature: Field<string>, redacted: Field<string>): Outcome<I>
    requires block.ThinkingActive?
  {
    if signature.Malformed? then Fails(st, BadSignature)
    else
      var signed := if signature.Given? && !block.redacted then block.(signature := block.signature + signature.value) else block;
      if redacted.Absent? then Outcome([], st.(active := st.active[index := signed]), None)
      else if redacted.Malformed? || redacted.value == "" then Fails(st.(active := st.active[index := signed]), BadRedaction)
      else if signed.redacted then
        Outcome([], st.(active := st.active[index := signed.(chunks := signed.chunks + [redacted.value])]), None)
      else
        Outcome([ThinkingDelta(signed.contentIndex, PLACEHOLDER)],
                st.(active := st.active[index := signed.(redacted := true, signature := "", chunks := signed.chunks + [redacted.value])],
                    emittedContent := true), None)
  }

  function ReadReasoning<I>(st: State, index: nat, c: Change): Outcome<I>
    requires c.Reasoning?
  {
    var (located, block) := Locate(st, index, ThinkingActive(st.next, "", false, []));
    if !block.ThinkingActive? then Fails(located, NotThinking)
    else if c.text.Malformed? then Fails(located, BadReasoningText)
    else if c.text.Absent? || c.text.value == "" then ReadMarks(located, index, block, c.signature, c.redacted)
    else
      var o: Outcome<I> := ReadMarks(located.(emittedContent := true), index, block, c.signature, c.redacted);
      o.(events := [ThinkingDelta(block.contentIndex, c.text.value)] + o.events)
  }

  function ReadDelta<I>(st: State, index: nat, change: Change): Outcome<I> {
    match change
    case Text(text) => ReadText(st, index, text)
    case ToolInput(input) => ReadToolInput(st, index, input)
    case Reasoning(_, _, _) => ReadReasoning(st, index, change)
    case OtherChange => Outcome([], st, None)
  }

  /** The text that is parsed: no arguments at all stand for the empty object. */
  function Parsed(text: string): string {
    if text == "" then "{}" else text
  }

  /** What closing a block yields. */
  function Finalize<I>(env: Env<I>, block: Active): Result<seq<Event<I>>, Error> {
    match block
    case TextActive(_) => Ok([])
    case ThinkingActive(c, signature, redacted, chunks) =>
      var mark := if redacted then env.base64(chunks) else signature;
      Ok(if mark == "" then [] else [ReplayMetadata(c, mark)])
    case ToolActive(c, id, name, text) =>
      (match env.json(Parsed(text))
       case None => Err(InvalidJson)
       case Some(input) => Ok([CallEnd(c, id, ToolNames.ReverseName(env.tools, name), input)]))
  }

  function CloseBlock<I>(env: Env<I>, st: State, index: nat): Outcome<I> {
    if index !in st.active then Fails(st, UnknownBlock)
    else match Finalize(env, st.active[index])
      case Err(e) => Fails(st, e)
      case Ok(events) =>
        Outcome(events, st.(active := st.active - {index},
                            emittedToolCall := st.emittedToolCall || st.active[index].ToolActive?), None)
  }

  function ReadFrame<I>(env: Env<I>, st: State, a: Arrival): Outcome<I> {
    if a.aborted then Outcome([Aborted(st.emittedContent)], st, Some(Returned))
    else match a.frame
      case NotObject => Fails(st, NotAnObject)
      case Exception(code) => Outcome([Failure(code, st.emittedContent)], st, Some(Returned))
      case MessageStart(assistant) => if assistant then Outcome([], st, None) else Fails(st, BadRole)
      case BlockStart(index, id, name) =>
        if index.None? then Fails(st, BadIndex) else OpenTool(env, st, index.value, id, name)
      case BlockDelta(index, change) =>
        if index.None? then Fails(st, BadIndex)
        else if change.None? then Fails(st, BadDelta)
        else ReadDelta(st, index.value, change.value)
      case BlockStop(index) => if index.None? then Fails(st, BadIndex) else CloseBlock(env, st, index.value)
      case MessageStop(reason) =>
        if reason == "" then Fails(st, BadStopReason) else Outcome([], st.(stopReason := Some(reason)), None)
      case Other => Outcome([], st, None)
  }

  // ---- The end -------------------------------------------------------------------------------

  predicate IsLeast(keys: set<nat>, k: nat) {
    k in keys && forall j :: j in keys ==> k <= j
  }

  lemma {:induction false} HasLeast(keys: set<nat>)
    requires keys != {}
    ensures exists k :: IsLeast(keys, k)
    decreases |keys|
  {
    var k :| k in keys;
    var rest := keys - {k};
    if rest == {} {
      assert keys == {k};
      assert IsLeast(keys, k);
    } else {
      HasLeast(rest);
      var m :| IsLeast(rest, m);
      LeastOfTwo(keys, k, m);
    }
  }

  lemma LeastOfTwo(keys: set<nat>, k: nat, m: nat)
    requires k in keys && IsLeast(keys - {k}, m)
    ensures IsLeast(keys, if k <= m then k else m)
  {
    forall j | j in keys ensures (if k <= m then k else m) <= j {
      assert j == k || j in keys - {k};
    }
  }

  function Least(keys: set<nat>): (k: nat)
    requires keys != {}
    ensures IsLeast(keys, k)
  {
    HasLeast(keys);
    assert forall k, m :: IsLeast(keys, k) && IsLeast(keys, m) ==> k == m;
    var k :| k in keys && IsLeast(keys, k);
    k
  }

  /** The keys in ascending order. */
  function Ascending(keys: set<nat>): (s: seq<nat>)
    ensures forall k :: k in s <==> k in keys
    ensures forall i, j :: 0 <= i < j < |s| ==> s[i] < s[j]
    decreases |keys|
  {
    if keys == {} then []
    else
      var k := Least(keys);
      var rest := Ascending(keys - {k});
      assert forall i :: 0 <= i < |rest| ==> rest[i] in keys - {k};
      [k] + rest
  }

  function CloseAll<I>(env: Env<I>, st: State, indexes: seq<nat>): Outcome<I>
    decreases |indexes|
  {
    if indexes == [] then Outcome([], st, None)
    else
      var o := CloseBlock(env, st, indexes[0]);
      if o.stop.Some? then o
      else
        var rest := CloseAll(env, o.state, indexes[1..]);
        rest.(events := o.events + rest.events)
  }

  function Closing<I>(reason: string, st: State): Event<I> {
    if reason == "end_turn" || reason == "stop_sequence" then Completed(if st.emittedToolCall then ToolUse else StopReason.Stop, false)
    else if reason == "max_tokens" || reason == "model_context_window_exceeded" then
      Completed(if st.emittedToolCall then ToolUse else Length, true)
    else if reason == "tool_use" then Completed(ToolUse, false)
    else Failure(reason, st.emittedContent)
  }

  function Finish<I>(env: Env<I>, st: State, aborted: bool): (seq<Event<I>>, Stop) {
    if aborted then ([Aborted(st.emittedContent)], Returned)
    else if st.stopReason.None? then ([], Returned)
    else
      var o := CloseAll(env, st, Ascending(st.active.Keys));
      if o.stop.Some? then (o.events, o.stop.value)
      else (o.events + [Closing(st.stopReason.value, o.state)], Returned)
  }

  function Decode<I>(env: Env<I>, st: State, arrivals: seq<Arrival>, abortedAtEnd: bool): (seq<Event<I>>, Stop)
    decreases |arrivals|
  {
    if arrivals == [] then Finish(env, st, abortedAtEnd)
    else
      var o := ReadFrame(env, st, arrivals[0]);
      match o.stop
      case Some(stop) => (o.events, stop)
      case None =>
        var (events, stop) := Decode(env, o.state, arrivals[1..], abortedAtEnd);
        (o.events + events, stop)
  }

  // ---- The decoder's variables, updated event by event -------------------------------------------

  class Decoder<I> {
    const env: Env<I>
    var blocks: map<nat, Active>
    var nextContentIndex: nat
    var emittedContent: bool
    var emittedToolCall: bool
    var nativeStopReason: Option<string>

    ghost function Value(): State
      reads this
    {
      State(blocks, nextContentIndex, emittedContent, emittedToolCall, nativeStopReason)
    }

    constructor (env: Env<I>)
      ensures this.env == env && Value() == START
    {
      this.env := env;
      blocks, nextContentIndex := map[], 0;
      emittedContent, emittedToolCall, nativeStopReason := false, false, None;
    }

    method StartBlock(index: nat, id: string, name: string) returns (events: seq<Event<I>>, stop: Option<Stop>)
      modifies this
      ensures var o := OpenTool(env, old(Value()), index, id, name);
        events == o.events && stop == o.stop && Value() == o.state
    {
      if index in blocks {
        return [], Some(Threw(StartedTwice));
      }
      if id == "" || name == "" {
        return [], Some(Threw(BadStart));
      }
      var block := ToolActive(nextContentIndex, id, name, "");
      nextContentIndex := nextContentIndex + 1;
      blocks := blocks[index := block];
      emittedContent := true;
      return [CallStart(block.contentIndex, id, ToolNames.ReverseName(env.tools, name))], None;
    }

    method ChangeText(index: nat, text: Field<string>) returns (events: seq<Event<I>>, stop: Option<Stop>)
      modifies this
      ensures var o: Outcome<I> := ReadText(old(Value()), index, text);
        events == o.events && stop == o.stop && Value() == o.state
    {
      if !text.Given? {
        return [], Some(Threw(BadText));
      }
      if index !in blocks {
        blocks := blocks[index := TextActive(nextContentIndex)];
        nextContentIndex := nextContentIndex + 1;
      }
      var block := blocks[index];
      if !block.TextActive? {
        return [], Some(Threw(NotText));
      }
      if text.value != "" {
        emittedContent := true;
        return [TextDelta(block.contentIndex, text.value)], None;
      }
      return [], None;
    }

    method ChangeToolInput(index: nat, input: Field<string>) returns (events: seq<Event<I>>, stop: Option<Stop>)
      modifies this
      ensures var o: Outcome<I> := ReadToolInput(old(Value()), index, input);
        events == o.events && stop == o.stop && Value() == o.state
    {
      if index !in blocks || !blocks[index].ToolActive? || !input.Given? {
        return [], Some(Threw(BadToolInput));
      }
      var block := blocks[index];
      blocks := blocks[index := block.(argumentsText := block.argumentsText + input.value)];
      if input.value != "" {
        return [CallDelta(block.contentIndex, block.callId, input.value)], None;
      }
      return [], None;
    }

    method ChangeReasoning(index: nat, c: Change) returns (events: seq<Event<I>>, stop: Option<Stop>)
      requires c.Reasoning?
      modifies this
      ensures var o: Outcome<I> := ReadReasoning(old(Value()), index, c);
        events == o.events && stop == o.stop && Value() == o.state
    {
      events, stop := [], None;
      var block := ThinkingActive(nextContentIndex, "", false, []);
      if index in blocks {
        block := blocks[index];
      } else {
        nextContentIndex := nextContentIndex + 1;
        blocks := blocks[index := block];
      }
      if !block.ThinkingActive? {
        return [], Some(Threw(NotThinking));
      }
      if c.text.Malformed? {
        return [], Some(Threw(BadReasoningText));
      }
      if c.text.Given? && c.text.value != "" {
        emittedContent := true;
        events := [ThinkingDelta(block.contentIndex, c.text.value)];
      }
      var more;
      more, stop := ChangeMarks(index, block, c.signature, c.redacted);
      events := events + more;
    }

    method ChangeMarks(index: nat, thinking: Active, signature: Field<string>, redacted: Field<string>)
      returns (events: seq<Event<I>>, stop: Option<Stop>)
      requires thinking.ThinkingActive? && index in blocks && blocks[index] == thinking
      modifies this`blocks, this`emittedContent
      ensures var o: Outcome<I> := ReadMarks(old(Value()), index, thinking, signature, redacted);
        events == o.events && stop == o.stop && Value() == o.state
    {
      events, stop := [], None;
      var block := thinking;
      if signature.Malformed? {
        return [], Some(Threw(BadSignature));
      }
      if signature.Given? && !block.redacted {
        block := block.(signature := block.signature + signature.value);
      }
      blocks := blocks[index := block];
      if redacted.Absent? {
        return [], None;
      }
      if redacted.Malformed? || redacted.value == "" {
        return [], Some(Threw(BadRedaction));
      }
      if !block.redacted {
        block := block.(redacted := true, signature := "");
        emittedContent := true;
        events := [ThinkingDelta(block.contentIndex, PLACEHOLDER)];
      }
      block := block.(chunks := block.chunks + [redacted.value]);
      blocks := blocks[index := block];
      assert blocks == old(blocks)[index := block];
    }

    method StopBlock(index: nat) returns (events: seq<Event<I>>, stop: Option<Stop>)
      modifies this
      ensures var o := CloseBlock(env, old(Value()), index);
        events == o.events && stop == o.stop && Value() == o.state
    {
      if index !in blocks {
        return [], Some(Threw(UnknownBlock));
      }
      var finalized := Finalize(env, blocks[index]);
      if finalized.Err? {
        return [], Some(Threw(finalized.error));
      }
      if blocks[index].ToolActive? {
        emittedToolCall := true;
      }
      blocks := blocks - {index};
      return finalized.value, None;
    }

    method Take(a: Arrival) returns (events: seq<Event<I>>, stop: Option<Stop>)
      modifies this
      ensures var o := ReadFrame(env, old(Value()), a);
        events == o.events && stop == o.stop && Value() == o.state
    {
      hide ReadText, ReadToolInput, ReadReasoning, OpenTool, CloseBlock;
      if a.aborted {
        return [Aborted(emittedContent)], Some(Returned);
      }
      match a.frame
      case NotObject => return [], Some(Threw(NotAnObject));
      case Exception(code) => return [Failure(code, emittedContent)], Some(Returned);
      case MessageStart(assistant) => return [], if assistant then None else Some(Threw(BadRole));
      case BlockStart(index, id, name) =>
        if index.None? {
          return [], Some(Threw(BadIndex));
        }
        events, stop := StartBlock(index.value, id, name);
      case BlockDelta(index, change) =>
        if index.None? {
          return [], Some(Threw(BadIndex));
        }
        if change.None? {
          return [], Some(Threw(BadDelta));
        }
        match change.value {
          case Text(text) => events, stop := ChangeText(index.value, text);
          case ToolInput(input) => events, stop := ChangeToolInput(index.value, input);
          case Reasoning(_, _, _) => events, stop := ChangeReasoning(index.value, change.value);
          case OtherChange => events, stop := [], None;
        }
      case BlockStop(index) =>
        if index.None? {
          return [], Some(Threw(BadIndex));
        }
        events, stop := StopBlock(index.value);
      case MessageStop(reason) =>
        if reason == "" {
          return [], Some(Threw(BadStopReason));
        }
        nativeStopReason := Some(reason);
        return [], None;
      case Other => return [], None;
    }

    /** Closes the blocks still active, by ascending provider index. */
    method StopAll(indexes: seq<nat>) returns (events: seq<Event<I>>, stop: Option<Stop>)
      modifies this
      ensures var o := CloseAll(env, old(Value()), indexes);
        events == o.events && stop == o.stop && Value() == o.state
    {
      hide CloseBlock;
      events, stop := [], None;
      ghost var all := CloseAll(env, Value(), indexes);
      for k := 0 to |indexes|
        invariant stop.None?
        invariant var rest := CloseAll(env, Value(), indexes[k..]); all == rest.(events := events + rest.events)
      {
        ghost var before := events;
        assert indexes[k..][0] == indexes[k] && indexes[k..][1..] == indexes[k + 1..];
        var more;
        more, stop := StopBlock(indexes[k]);
        events := events + more;
        if stop.Some? {
          return;
        }
        assert before + (more + CloseAll(env, Value(), indexes[k + 1..]).events) ==
               events + CloseAll(env, Value(), indexes[k + 1..]).events;
      }
      assert events + [] == events;
    }

    method Close(aborted: bool) returns (events: seq<Event<I>>, stop: Stop)
      modifies this
      ensures (events, stop) == Finish(env, old(Value()), aborted)
    {
      hide CloseAll;
      if aborted {
        return [Aborted(emittedContent)], Returned;
      }
      if nativeStopReason.None? {
        return [], Returned;
      }
      var reason, end := nativeStopReason.value, None;
      events, end := StopAll(Ascending(blocks.Keys));
      if end.Some? {
        return events, end.value;
      }
      var mapped :=
        if reason == "end_turn" || reason == "stop_sequence" then StopReason.Stop
        else if reason == "max_tokens" || reason == "model_context_window_exceeded" then Length
        else ToolUse;
      if mapped.ToolUse? && reason != "tool_use" {
        return events + [Failure(reason, emittedContent)], Returned;
      }
      return events + [Completed(if emittedToolCall then ToolUse else mapped, mapped.Length?)], Returned;
    }
  }

  method DecodeStream<I>(env: Env<I>, arrivals: seq<Arrival>, abortedAtEnd: bool) returns (events: seq<Event<I>>, stop: Stop)
    ensures (events, stop) == Decode(env, START, arrivals, abortedAtEnd)
  {
    hide ReadFrame, Finish;
    var decoder := new Decoder(env);
    events := [];
    for i := 0 to |arrivals|
      invariant fresh(decoder) && decoder.env == env
      invariant var all, left := Decode(env, START, arrivals, abortedAtEnd),
                                 Decode(env, decoder.Value(), arrivals[i..], abortedAtEnd);
        all.0 == events + left.0 && all.1 == left.1
    {
      assert arrivals[i..][0] == arrivals[i] && arrivals[i..][1..] == arrivals[i + 1..];
      var more, end := decoder.Take(arrivals[i]);
      events := events + more;
      if end.Some? {
        return events, end.value;
      }
    }
    var more;
    more, stop := decoder.Close(abortedAtEnd);
    events := events + more;
  }
}
