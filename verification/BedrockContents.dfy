/**
 Everything the Bedrock decoder says, as a function of what the provider sends: every event
 in order, and how the stream ends. A block is what has been sent under its index since the
 index was opened.
 */
module BedrockContents {
  import opened Prelude
  import opened StreamTrace
  import opened BedrockStream
  import ToolNames

  // ---- Blocks as what has been sent -------------------------------------------------------------------

  datatype Start = AsText | AsThinking | AsCall(id: string, name: string)

  /** A block: its content index, how it was opened, and the changes sent to it. */
  datatype Open = Open(contentIndex: nat, start: Start, changes: seq<Change>)

  /** The kind of block that a change opens if there is none. */
  function StartOf(c: Change): Start {
    if c.Text? then AsText else AsThinking
  }

  /** The block open under a provider index after some frames. */
  function OpenAt(frames: seq<Frame>, index: nat): Option<Open>
    decreases |frames|, 0
  {
    if frames == [] then None
    else
      var init, last := frames[..|frames| - 1], frames[|frames| - 1];
      match last
      case BlockStart(Some(i), id, name) =>
        if i == index then Some(Open(Openings(init), AsCall(id, name), [])) else OpenAt(init, index)
      case BlockStop(Some(i)) => if i == index then None else OpenAt(init, index)
      case BlockDelta(Some(i), Some(c)) =>
        if i != index || c.OtherChange? then OpenAt(init, index)
        else
          (match OpenAt(init, index)
           case None => Some(Open(Openings(init), StartOf(c), [c]))
           case Some(open) => Some(open.(changes := open.changes + [c])))
      case _ => OpenAt(init, index)
  }

  /** How many blocks have been opened: the next content index. */
  function Openings(frames: seq<Frame>): nat
    decreases |frames|, 1
  {
    if frames == [] then 0
    else
      var init, last := frames[..|frames| - 1], frames[|frames| - 1];
      match last
      case BlockStart(Some(_), _, _) => Openings(init) + 1
      case BlockDelta(Some(i), Some(c)) => Openings(init) + if !c.OtherChange? && OpenAt(init, i).None? then 1 else 0
      case _ => Openings(init)
  }

  /** The block that a change goes to. */
  function Target(frames: seq<Frame>, index: nat, c: Change): Open {
    match OpenAt(frames, index)
    case None => Open(Openings(frames), StartOf(c), [])
    case Some(open) => open
  }

  function Inputs(cs: seq<Change>): string {
    if cs == [] then ""
    else
      var last := cs[|cs| - 1];
      Inputs(cs[..|cs| - 1]) + if last.ToolInput? && last.input.Given? then last.input.value else ""
  }

  function Signatures(cs: seq<Change>): string {
    if cs == [] then ""
    else
      var last := cs[|cs| - 1];
      Signatures(cs[..|cs| - 1]) + if last.Reasoning? && last.signature.Given? then last.signature.value else ""
  }

  /** The redacted chunks, in order. */
  function Redactions(cs: seq<Change>): seq<string> {
    if cs == [] then []
    else
      var last := cs[|cs| - 1];
      Redactions(cs[..|cs| - 1]) + if last.Reasoning? && last.redacted.Given? then [last.redacted.value] else []
  }

  // ---- One frame --------------------------------------------------------------------------------------------

  /** What the end of a block says: the mark of a thinking block, or the whole call. */
  function CloseSays<I>(env: Env<I>, open: Open): Result<seq<Event<I>>, Error> {
    match open.start
    case AsText => Ok([])
    case AsThinking =>
      var mark := if Redactions(open.changes) != [] then env.base64(Redactions(open.changes)) else Signatures(open.changes);
      Ok(if mark == "" then [] else [ReplayMetadata(open.contentIndex, mark)])
    case AsCall(id, name) =>
      var text := Inputs(open.changes);
      match env.json(if text == "" then "{}" else text)
      case None => Err(InvalidJson)
      case Some(input) => Ok([CallEnd(open.contentIndex, id, ToolNames.ReverseName(env.tools, name), input)])
  }

  predicate ReasoningOk(open: Open, c: Change)
    requires c.Reasoning?
  {
    open.start.AsThinking? && !c.text.Malformed?
  }

  predicate MarksOk(c: Change)
    requires c.Reasoning?
  {
    !c.signature.Malformed? && !c.redacted.Malformed? && c.redacted != Given("")
  }

  function ReasoningSays<I>(open: Open, c: Change): seq<Event<I>>
    requires c.Reasoning?
  {
    if !ReasoningOk(open, c) then []
    else
      (if c.text.Given? && c.text.value != "" then [ThinkingDelta(open.contentIndex, c.text.value)] else []) +
      (if MarksOk(c) && c.redacted.Given? && Redactions(open.changes) == [] then [ThinkingDelta(open.contentIndex, "[Reasoning redacted]")] else [])
  }

  function ChangeSays<I>(open: Open, c: Change): seq<Event<I>> {
    match c
    case Text(Given(text)) => if text == "" || !open.start.AsText? then [] else [TextDelta(open.contentIndex, text)]
    case ToolInput(Given(input)) =>
      if input == "" || !open.start.AsCall? then [] else [CallDelta(open.contentIndex, open.start.id, input)]
    case Reasoning(_, _, _) => ReasoningSays(open, c)
    case _ => []
  }

  datatype Halt = IsAborted | IsError(code: string) | Throws(error: Error)

  function ChangeHalts(open: Option<Open>, c: Change): Option<Error> {
    match c
    case Text(text) =>
      if !text.Given? then Some(BadText) else if open.Some? && !open.value.start.AsText? then Some(NotText) else None
    case ToolInput(input) =>
      if open.None? || !open.value.start.AsCall? || !input.Given? then Some(BadToolInput) else None
    case Reasoning(text, signature, redacted) =>
      if open.Some? && !open.value.start.AsThinking? then Some(NotThinking)
      else if text.Malformed? then Some(BadReasoningText)
      else if signature.Malformed? then Some(BadSignature)
      else if redacted.Malformed? || redacted == Given("") then Some(BadRedaction)
      else None
    case OtherChange => None
  }

  function Thrown(e: Option<Error>): Option<Halt> {
    if e.Some? then Some(Throws(e.value)) else None
  }

  /** Whether and how a frame ends the decoding, after the frames before it. */
  function Halts<I>(env: Env<I>, frames: seq<Frame>, a: Arrival): Option<Halt> {
    if a.aborted then Some(IsAborted)
    else
      match a.frame
      case NotObject => Some(Throws(NotAnObject))
      case Exception(code) => Some(IsError(code))
      case MessageStart(assistant) => if assistant then None else Some(Throws(BadRole))
      case BlockStart(None, _, _) => Some(Throws(BadIndex))
      case BlockStart(Some(i), id, name) =>
        if OpenAt(frames, i).Some? then Some(Throws(StartedTwice))
        else if id == "" || name == "" then Some(Throws(BadStart)) else None
      case BlockDelta(None, _) => Some(Throws(BadIndex))
      case BlockDelta(Some(_), None) => Some(Throws(BadDelta))
      case BlockDelta(Some(i), Some(c)) => Thrown(ChangeHalts(OpenAt(frames, i), c))
      case BlockStop(None) => Some(Throws(BadIndex))
      case BlockStop(Some(i)) =>
        if OpenAt(frames, i).None? then Some(Throws(UnknownBlock))
        else if CloseSays(env, OpenAt(frames, i).value).Err? then Some(Throws(InvalidJson)) else None
      case MessageStop(reason) => if reason == "" then Some(Throws(BadStopReason)) else None
      case Other => None
  }

  /** What a frame says, after the frames before it. */
  function FrameSays<I>(env: Env<I>, frames: seq<Frame>, a: Arrival): seq<Event<I>> {
    if a.aborted then []
    else
      match a.frame
      case BlockStart(Some(i), id, name) =>
        if Halts(env, frames, a).Some? then [] else [CallStart(Openings(frames), id, ToolNames.ReverseName(env.tools, name))]
      case BlockDelta(Some(i), Some(c)) =>
        if c.ToolInput? && OpenAt(frames, i).None? then [] else ChangeSays(Target(frames, i, c), c)
      case BlockStop(Some(i)) =>
        if OpenAt(frames, i).None? || CloseSays(env, OpenAt(frames, i).value).Err? then []
        else CloseSays(env, OpenAt(frames, i).value).value
      case _ => []
  }

  // ---- The whole stream --------------------------------------------------------------------------------------

  /** Everything said before the ending. */
  function Says<I>(env: Env<I>, frames: seq<Frame>, arrivals: seq<Arrival>): seq<Event<I>>
    decreases |arrivals|
  {
    if arrivals == [] then []
    else
      FrameSays(env, frames, arrivals[0]) +
      if Halts(env, frames, arrivals[0]).Some? then [] else Says(env, frames + [arrivals[0].frame], arrivals[1..])
  }

  function FirstHalt<I>(env: Env<I>, frames: seq<Frame>, arrivals: seq<Arrival>): Option<Halt>
    decreases |arrivals|
  {
    if arrivals == [] then None
    else if Halts(env, frames, arrivals[0]).Some? then Halts(env, frames, arrivals[0])
    else FirstHalt(env, frames + [arrivals[0].frame], arrivals[1..])
  }

  /** The frames of a stream that does not halt. */
  function FramesOf(arrivals: seq<Arrival>): seq<Frame> {
    if arrivals == [] then [] else [arrivals[0].frame] + FramesOf(arrivals[1..])
  }

  /** The last stop reason given. */
  function LastReason(frames: seq<Frame>): Option<string> {
    if frames == [] then None
    else if frames[|frames| - 1].MessageStop? then Some(frames[|frames| - 1].reason)
    else LastReason(frames[..|frames| - 1])
  }

  function IndexesOf(frames: seq<Frame>): set<nat> {
    if frames == [] then {}
    else
      IndexesOf(frames[..|frames| - 1]) +
      match frames[|frames| - 1]
      case BlockStart(Some(i), _, _) => {i}
      case BlockDelta(Some(i), _) => {i}
      case _ => {}
  }

  /** The provider indexes whose blocks are still open. */
  function StillOpen(frames: seq<Frame>): set<nat> {
    set i | i in IndexesOf(frames) && OpenAt(frames, i).Some?
  }

  /** Closing the remaining blocks, up to the first whose input is no JSON object. */
  function Closes<I>(env: Env<I>, frames: seq<Frame>, indexes: seq<nat>): (seq<Event<I>>, Option<Error>) {
    if indexes == [] then ([], None)
    else
      match OpenAt(frames, indexes[0])
      case None => ([], Some(UnknownBlock))
      case Some(open) =>
        match CloseSays(env, open)
        case Err(e) => ([], Some(e))
        case Ok(events) =>
          var (more, error) := Closes(env, frames, indexes[1..]);
          (events + more, error)
  }

  predicate Called<I>(es: seq<Event<I>>) {
    exists i :: 0 <= i < |es| && es[i].CallEnd?
  }

  /** Whether a text, a thought or a call has been passed on. */
  predicate Spoke<I>(es: seq<Event<I>>) {
    exists i :: 0 <= i < |es| && (es[i].TextDelta? || es[i].ThinkingDelta? || es[i].CallStart?)
  }

  /** The last event of a stream with a stop reason. */
  function LastEvent<I>(reason: string, called: bool, spoke: bool): Event<I> {
    match reason
    case "end_turn" => Completed(if called then ToolUse else StopReason.Stop, false)
    case "stop_sequence" => Completed(if called then ToolUse else StopReason.Stop, false)
    case "max_tokens" => Completed(if called then ToolUse else Length, true)
    case "model_context_window_exceeded" => Completed(if called then ToolUse else Length, true)
    case "tool_use" => Completed(ToolUse, false)
    case _ => Failure(reason, spoke)
  }

  /** The end of a stream whose frames have all been taken. */
  function EndingFrom<I>(env: Env<I>, frames: seq<Frame>, abortedAtEnd: bool, said: seq<Event<I>>): (seq<Event<I>>, Stop) {
    if abortedAtEnd then ([Aborted(Spoke(said))], Returned)
    else
      match LastReason(frames)
      case None => ([], Returned)
      case Some(reason) =>
        var (events, error) := Closes(env, frames, Ascending(StillOpen(frames)));
        match error
        case Some(e) => (events, Threw(e))
        case None => (events + [LastEvent(reason, Called(said + events), Spoke(said))], Returned)
  }

  function Ending<I>(env: Env<I>, frames: seq<Frame>, arrivals: seq<Arrival>, abortedAtEnd: bool, said: seq<Event<I>>): (seq<Event<I>>, Stop) {
    match FirstHalt(env, frames, arrivals)
    case Some(IsAborted) => ([Aborted(Spoke(said))], Returned)
    case Some(IsError(code)) => ([Failure(code, Spoke(said))], Returned)
    case Some(Throws(e)) => ([], Threw(e))
    case None => EndingFrom(env, frames + FramesOf(arrivals), abortedAtEnd, said)
  }

  // ---- The state that is tracked ------------------------------------------------------------------------------

  /** The decoder's record of a block is what has been sent to it. */
  predicate Records(active: Active, open: Open) {
    match open.start
    case AsText => active == TextActive(open.contentIndex)
    case AsThinking =>
      var chunks := Redactions(open.changes);
      active == ThinkingActive(open.contentIndex, if chunks == [] then Signatures(open.changes) else "", chunks != [], chunks)
    case AsCall(id, name) => active == ToolActive(open.contentIndex, id, name, Inputs(open.changes))
  }

  ghost predicate RecordsAll(active: map<nat, Active>, frames: seq<Frame>) {
    forall i: nat :: match OpenAt(frames, i)
                     case None => i !in active
                     case Some(open) => i in active && Records(active[i], open)
  }

  ghost predicate Tracks<I>(st: State, frames: seq<Frame>, said: seq<Event<I>>) {
    && RecordsAll(st.active, frames) && st.next == Openings(frames) && st.stopReason == LastReason(frames)
    && st.emittedContent == Spoke(said) && st.emittedToolCall == Called(said)
  }

  lemma OneMore(frames: seq<Frame>, f: Frame)
    ensures (frames + [f])[..|frames|] == frames && (frames + [f])[|frames|] == f
  {}

  lemma OneMoreChange(cs: seq<Change>, c: Change)
    ensures Inputs(cs + [c]) == Inputs(cs) + if c.ToolInput? && c.input.Given? then c.input.value else ""
    ensures Signatures(cs + [c]) == Signatures(cs) + if c.Reasoning? && c.signature.Given? then c.signature.value else ""
    ensures Redactions(cs + [c]) == Redactions(cs) + if c.Reasoning? && c.redacted.Given? then [c.redacted.value] else []
  {
    assert (cs + [c])[..|cs|] == cs;
  }

  lemma SpokeJoins<I>(a: seq<Event<I>>, b: seq<Event<I>>)
    ensures Spoke(a + b) == (Spoke(a) || Spoke(b)) && Called(a + b) == (Called(a) || Called(b))
  {
    forall i | 0 <= i < |a| ensures (a + b)[i] == a[i] {}
    forall i | 0 <= i < |b| ensures (a + b)[|a| + i] == b[i] {}
  }

  // ---- One frame more --------------------------------------------------------------------------------------------

  lemma OpenedCall(frames: seq<Frame>, i: nat, id: string, name: string)
    requires OpenAt(frames, i).None?
    ensures var all := frames + [BlockStart(Some(i), id, name)];
      && OpenAt(all, i) == Some(Open(Openings(frames), AsCall(id, name), [])) && Openings(all) == Openings(frames) + 1
      && LastReason(all) == LastReason(frames) && forall j: nat :: j != i ==> OpenAt(all, j) == OpenAt(frames, j)
  {
    OneMore(frames, BlockStart(Some(i), id, name));
  }

  lemma Changed(frames: seq<Frame>, i: nat, c: Change)
    requires !c.OtherChange?
    ensures var all, open := frames + [BlockDelta(Some(i), Some(c))], Target(frames, i, c);
      && OpenAt(all, i) == Some(open.(changes := open.changes + [c]))
      && Openings(all) == Openings(frames) + (if OpenAt(frames, i).None? then 1 else 0)
      && LastReason(all) == LastReason(frames) && forall j: nat :: j != i ==> OpenAt(all, j) == OpenAt(frames, j)
  {
    OneMore(frames, BlockDelta(Some(i), Some(c)));
    assert [] + [c] == [c];
  }

  lemma Closed(frames: seq<Frame>, i: nat)
    ensures var all := frames + [BlockStop(Some(i))];
      && OpenAt(all, i).None? && Openings(all) == Openings(frames) && LastReason(all) == LastReason(frames)
      && forall j: nat :: j != i ==> OpenAt(all, j) == OpenAt(frames, j)
  {
    OneMore(frames, BlockStop(Some(i)));
  }

  /** The frames that concern no block. */
  predicate Aside(f: Frame) {
    f.MessageStart? || f.Other? || f.MessageStop? || (f.BlockDelta? && f.change == Some(OtherChange))
  }

  lemma NothingOpened(frames: seq<Frame>, f: Frame)
    requires Aside(f)
    ensures var all := frames + [f];
      && Openings(all) == Openings(frames) && LastReason(all) == (if f.MessageStop? then Some(f.reason) else LastReason(frames))
      && forall j: nat :: OpenAt(all, j) == OpenAt(frames, j)
  {
    OneMore(frames, f);
  }

  /** One block changes, and the other records stay. */
  lemma RecordsStay(active: map<nat, Active>, frames: seq<Frame>, i: nat, record: Active, more: seq<Frame>, open: Open)
    requires RecordsAll(active, frames) && Records(record, open) && OpenAt(more, i) == Some(open)
    requires forall j: nat :: j != i ==> OpenAt(more, j) == OpenAt(frames, j)
    ensures RecordsAll(active[i := record], more)
  {
    hide Records, OpenAt;
  }

  lemma StartTracks<I>(env: Env<I>, st: State, frames: seq<Frame>, said: seq<Event<I>>, i: nat, id: string, name: string)
    requires Tracks(st, frames, said)
    ensures var o, f := OpenTool(env, st, i, id, name), BlockStart(Some(i), id, name);
      match Halts(env, frames, Arrival(false, f))
      case None =>
        o.stop.None? && o.events == FrameSays(env, frames, Arrival(false, f)) && Tracks(o.state, frames + [f], said + o.events)
      case Some(Throws(e)) => o.stop == Some(Threw(e)) && o.events == FrameSays(env, frames, Arrival(false, f))
      case _ => false
  {
    hide OpenAt, Openings, Spoke, Called, LastReason;
    var f := BlockStart(Some(i), id, name);
    if OpenAt(frames, i).None? && id != "" && name != "" {
      OpenedCall(frames, i, id, name);
      RecordsStay(st.active, frames, i, ToolActive(st.next, id, name, ""), frames + [f], Open(st.next, AsCall(id, name), []));
      CallSpeaks(said, OpenTool(env, st, i, id, name).events);
    }
  }

  lemma CallSpeaks<I>(said: seq<Event<I>>, es: seq<Event<I>>)
    requires |es| == 1
    ensures Spoke(said + es) == (Spoke(said) || es[0].TextDelta? || es[0].ThinkingDelta? || es[0].CallStart?)
    ensures Called(said + es) == (Called(said) || es[0].CallEnd?)
  {
    SpokeJoins(said, es);
  }

  lemma SaysNothing<I>(said: seq<Event<I>>)
    ensures said + [] == said
  {}

  /** What a change leaves of a block's record, and what it says. */
  ghost predicate ChangeTracks<I>(st: State, frames: seq<Frame>, said: seq<Event<I>>, i: nat, c: Change, o: Outcome<I>) {
    var open := Target(frames, i, c);
    && o.events == (if c.ToolInput? && OpenAt(frames, i).None? then [] else ChangeSays(open, c))
    && match ChangeHalts(OpenAt(frames, i), c)
       case None => o.stop.None? && Tracks(o.state, frames + [BlockDelta(Some(i), Some(c))], said + o.events)
       case Some(e) => o.stop == Some(Threw(e))
  }

  /** A change recorded in its block, and events that say nothing but text, thoughts and fragments. */
  lemma RecordedTracks<I>(st: State, frames: seq<Frame>, said: seq<Event<I>>, i: nat, c: Change, record: Active, es: seq<Event<I>>, st': State)
    requires Tracks(st, frames, said) && !c.OtherChange?
    requires var open := Target(frames, i, c); Records(record, open.(changes := open.changes + [c]))
    requires st' == st.(active := st.active[i := record], next := if OpenAt(frames, i).None? then st.next + 1 else st.next,
                        emittedContent := st.emittedContent || Spoke(es))
    requires !Called(es)
    ensures Tracks(st', frames + [BlockDelta(Some(i), Some(c))], said + es)
  {
    hide OpenAt, Openings, Spoke, Called, LastReason, RecordsAll, Records;
    var open := Target(frames, i, c);
    Changed(frames, i, c);
    RecordsStay(st.active, frames, i, record, frames + [BlockDelta(Some(i), Some(c))], open.(changes := open.changes + [c]));
    SpokeJoins(said, es);
  }

  lemma TextTracks<I>(st: State, frames: seq<Frame>, said: seq<Event<I>>, i: nat, text: Field<string>)
    requires Tracks(st, frames, said)
    ensures ChangeTracks(st, frames, said, i, Text(text), ReadText<I>(st, i, text))
  {
    hide OpenAt, Openings, Spoke, Called, LastReason, RecordsAll;
    var c, o := Text(text), ReadText<I>(st, i, text);
    RecordOf(st.active, frames, i);
    if ChangeHalts(OpenAt(frames, i), c).None? {
      var record := TextActive(Target(frames, i, c).contentIndex);
      TextSpeaks(o.events);
      assert OpenAt(frames, i).Some? ==> st.active[i := record] == st.active;
      RecordedTracks(st, frames, said, i, c, record, o.events, o.state);
    }
  }

  lemma TextSpeaks<I>(es: seq<Event<I>>)
    requires forall i :: 0 <= i < |es| ==> es[i].TextDelta? || es[i].ThinkingDelta?
    ensures Spoke(es) == (es != []) && !Called(es)
  {
    if es != [] {
      assert es[0].TextDelta? || es[0].ThinkingDelta?;
    }
  }

  lemma RecordOf(active: map<nat, Active>, frames: seq<Frame>, i: nat)
    requires RecordsAll(active, frames)
    ensures match OpenAt(frames, i) case None => i !in active case Some(open) => i in active && Records(active[i], open)
  {}

  lemma InputTracks<I>(st: State, frames: seq<Frame>, said: seq<Event<I>>, i: nat, input: Field<string>)
    requires Tracks(st, frames, said)
    ensures ChangeTracks(st, frames, said, i, ToolInput(input), ReadToolInput<I>(st, i, input))
  {
    hide OpenAt, Openings, Spoke, Called, LastReason, RecordsAll, Inputs, Signatures, Redactions;
    var c, o := ToolInput(input), ReadToolInput<I>(st, i, input);
    RecordOf(st.active, frames, i);
    if ChangeHalts(OpenAt(frames, i), c).None? {
      var open := Target(frames, i, c);
      Changed(frames, i, c);
      OneMoreChange(open.changes, c);
      var record := st.active[i].(argumentsText := st.active[i].argumentsText + input.value);
      RecordsStay(st.active, frames, i, record, frames + [BlockDelta(Some(i), Some(c))], open.(changes := open.changes + [c]));
      SaysNothing(said);
      if o.events != [] {
        CallSpeaks(said, o.events);
      }
    }
  }

  /** The marks of a reasoning change, on the record of its block. */
  lemma MarksTrack<I>(st: State, i: nat, block: Active, open: Open, c: Change)
    requires c.Reasoning? && open.start.AsThinking? && Records(block, open)
    ensures var o := ReadMarks<I>(st, i, block, c.signature, c.redacted);
      if MarksOk(c) then
        && o.stop.None?
        && o.events == (if c.redacted.Given? && Redactions(open.changes) == [] then [ThinkingDelta(open.contentIndex, "[Reasoning redacted]")] else [])
        && i in o.state.active && Records(o.state.active[i], open.(changes := open.changes + [c]))
        && o.state == st.(active := st.active[i := o.state.active[i]], emittedContent := st.emittedContent || o.events != [])
      else
        o.events == [] && o.stop == Some(Threw(if c.signature.Malformed? then BadSignature else BadRedaction))
  {
    hide Inputs, Signatures, Redactions;
    OneMoreChange(open.changes, c);
  }

  lemma ReasoningUnfolds<I>(st: State, i: nat, c: Change, located: State, block: Active)
    requires c.Reasoning? && (located, block) == Locate(st, i, ThinkingActive(st.next, "", false, []))
    ensures ReadReasoning<I>(st, i, c) ==
      if !block.ThinkingActive? then Fails(located, NotThinking)
      else if c.text.Malformed? then Fails(located, BadReasoningText)
      else
        var given := c.text.Given? && c.text.value != "";
        var marks := ReadMarks<I>(if given then located.(emittedContent := true) else located, i, block, c.signature, c.redacted);
        marks.(events := (if given then [ThinkingDelta(block.contentIndex, c.text.value)] else []) + marks.events)
  {
    hide ReadMarks;
    if block.ThinkingActive? {
      var marks := ReadMarks<I>(located, i, block, c.signature, c.redacted);
      assert [] + marks.events == marks.events;
    }
  }

  lemma ReasoningTracks<I>(st: State, frames: seq<Frame>, said: seq<Event<I>>, i: nat, c: Change)
    requires Tracks(st, frames, said) && c.Reasoning?
    ensures ChangeTracks(st, frames, said, i, c, ReadReasoning<I>(st, i, c))
  {
    hide OpenAt, Openings, Spoke, Called, LastReason, RecordsAll, Records, Inputs, Signatures, Redactions, ReadMarks, ReadReasoning, Locate, Tracks;
    var (located, block) := Locate(st, i, ThinkingActive(st.next, "", false, []));
    ThinkingRecord(st, frames, said, i, c);
    ReasoningUnfolds<I>(st, i, c, located, block);
    var open := Target(frames, i, c);
    if open.start.AsThinking? && !c.text.Malformed? {
      ThinkingContentIndex(block, open);
      var given := c.text.Given? && c.text.value != "";
      MarksTrack<I>(if given then located.(emittedContent := true) else located, i, block, open, c);
      if MarksOk(c) {
        ReasoningGoesOn(st, frames, said, i, c, located);
      }
    }
  }

  lemma ThinkingContentIndex(block: Active, open: Open)
    requires Records(block, open)
    ensures block.contentIndex == open.contentIndex
  {}

  lemma ReasoningGoesOn<I>(st: State, frames: seq<Frame>, said: seq<Event<I>>, i: nat, c: Change, located: State)
    requires Tracks(st, frames, said) && c.Reasoning? && MarksOk(c) && ReasoningOk(Target(frames, i, c), c)
    requires located == st.(active := located.active, next := if OpenAt(frames, i).None? then st.next + 1 else st.next)
    requires forall j: nat :: j != i ==> (j in located.active <==> j in st.active) && (j in st.active ==> located.active[j] == st.active[j])
    requires var o, open := ReadReasoning<I>(st, i, c), Target(frames, i, c);
      && o.events == ReasoningSays(open, c)
      && i in o.state.active && Records(o.state.active[i], open.(changes := open.changes + [c]))
      && o.state == located.(active := located.active[i := o.state.active[i]], emittedContent := st.emittedContent || o.events != [])
    ensures var o := ReadReasoning<I>(st, i, c); Tracks(o.state, frames + [BlockDelta(Some(i), Some(c))], said + o.events)
  {
    hide OpenAt, Openings, Spoke, Called, LastReason, RecordsAll, Records, ReadReasoning, Target, Tracks, Redactions;
    var o := ReadReasoning<I>(st, i, c);
    assert o.state.active == st.active[i := o.state.active[i]];
    TextSpeaks(o.events);
    RecordedTracks(st, frames, said, i, c, o.state.active[i], o.events, o.state);
  }

  lemma ThinkingRecord<I>(st: State, frames: seq<Frame>, said: seq<Event<I>>, i: nat, c: Change)
    requires c.Reasoning? && Tracks(st, frames, said)
    ensures var (located, block), open := Locate(st, i, ThinkingActive(st.next, "", false, [])), Target(frames, i, c);
      && Records(block, open) && i in located.active && located.active[i] == block
      && (forall j: nat :: j != i ==> (j in located.active <==> j in st.active) && (j in st.active ==> located.active[j] == st.active[j]))
      && located == st.(active := located.active, next := if OpenAt(frames, i).None? then st.next + 1 else st.next)
      && (block.ThinkingActive? <==> open.start.AsThinking?)
  {
    NoMarks();
    RecordOf(st.active, frames, i);
  }

  lemma NoMarks()
    ensures Inputs([]) == "" && Signatures([]) == "" && Redactions([]) == []
  {}

  lemma FinalizeIs<I>(env: Env<I>, active: Active, open: Open)
    requires Records(active, open)
    ensures Finalize(env, active) == CloseSays(env, open)
  {
    hide Inputs, Signatures, Redactions;
  }

  lemma CloseSpeaks<I>(env: Env<I>, open: Open, said: seq<Event<I>>)
    requires CloseSays(env, open).Ok?
    ensures var es := CloseSays(env, open).value; Spoke(said + es) == Spoke(said) && Called(said + es) == (Called(said) || open.start.AsCall?)
  {
    hide Inputs, Signatures, Redactions;
    var es := CloseSays(env, open).value;
    SpokeJoins(said, es);
    if open.start.AsCall? {
      assert es[0].CallEnd?;
    }
  }

  lemma StopTracks<I>(env: Env<I>, st: State, frames: seq<Frame>, said: seq<Event<I>>, i: nat)
    requires Tracks(st, frames, said)
    ensures var o, a := CloseBlock(env, st, i), Arrival(false, BlockStop(Some(i)));
      match Halts(env, frames, a)
      case None => o.stop.None? && o.events == FrameSays(env, frames, a) && Tracks(o.state, frames + [a.frame], said + o.events)
      case Some(Throws(e)) => o.stop == Some(Threw(e)) && o.events == FrameSays(env, frames, a)
      case _ => false
  {
    hide OpenAt, Openings, Spoke, Called, LastReason, Records, CloseSays, Finalize;
    RecordOf(st.active, frames, i);
    Closed(frames, i);
    if OpenAt(frames, i).Some? {
      var open := OpenAt(frames, i).value;
      FinalizeIs(env, st.active[i], open);
      OnlyBadInput(env, open);
      if CloseSays(env, open).Ok? {
        CloseSpeaks(env, open, said);
        KindIs(st.active[i], open);
      }
    }
  }

  lemma KindIs(active: Active, open: Open)
    requires Records(active, open)
    ensures active.ToolActive? <==> open.start.AsCall?
  {}

  lemma OnlyBadInput<I>(env: Env<I>, open: Open)
    ensures CloseSays(env, open).Err? ==> CloseSays(env, open).error == InvalidJson
  {}

  lemma AsideTracks<I>(st: State, frames: seq<Frame>, said: seq<Event<I>>, f: Frame)
    requires Tracks(st, frames, said) && Aside(f)
    ensures Tracks(if f.MessageStop? then st.(stopReason := Some(f.reason)) else st, frames + [f], said + [])
  {
    hide OpenAt, Openings, Spoke, Called, LastReason, Records;
    NothingOpened(frames, f);
    SaysNothing(said);
  }

  lemma DeltaTracks<I>(env: Env<I>, st: State, frames: seq<Frame>, said: seq<Event<I>>, i: nat, c: Change)
    requires Tracks(st, frames, said)
    ensures var o, a := ReadDelta<I>(st, i, c), Arrival(false, BlockDelta(Some(i), Some(c)));
      match Halts(env, frames, a)
      case None => o.stop.None? && o.events == FrameSays(env, frames, a) && Tracks(o.state, frames + [a.frame], said + o.events)
      case Some(Throws(e)) => o.stop == Some(Threw(e)) && o.events == FrameSays(env, frames, a)
      case _ => false
  {
    hide OpenAt, Tracks, Target, ReadText, ReadToolInput, ReadReasoning, ChangeHalts, ChangeSays;
    match c {
      case Text(text) => TextTracks(st, frames, said, i, text);
      case ToolInput(input) => InputTracks(st, frames, said, i, input);
      case Reasoning(_, _, _) => ReasoningTracks(st, frames, said, i, c);
      case OtherChange =>
        AsideTracks(st, frames, said, BlockDelta(Some(i), Some(c)));
        OtherIsFine<I>(OpenAt(frames, i), Target(frames, i, c));
    }
  }

  lemma OtherIsFine<I>(open: Option<Open>, target: Open)
    ensures ChangeHalts(open, OtherChange).None? && ChangeSays<I>(target, OtherChange) == []
  {}

  lemma FrameTracks<I>(env: Env<I>, st: State, frames: seq<Frame>, said: seq<Event<I>>, a: Arrival)
    requires Tracks(st, frames, said)
    ensures var o := ReadFrame(env, st, a);
      match Halts(env, frames, a)
      case None => o.stop.None? && o.events == FrameSays(env, frames, a) && Tracks(o.state, frames + [a.frame], said + o.events)
      case Some(IsAborted) => o.events == [Aborted(Spoke(said))] && o.stop == Some(Returned) && FrameSays(env, frames, a) == []
      case Some(IsError(code)) => o.events == [Failure(code, Spoke(said))] && o.stop == Some(Returned) && FrameSays(env, frames, a) == []
      case Some(Throws(e)) => o.stop == Some(Threw(e)) && o.events == FrameSays(env, frames, a)
  {
    hide RecordsAll, OpenTool, ReadDelta, CloseBlock, Spoke, Called, Openings, LastReason;
    if !a.aborted && a.frame.BlockStart? && a.frame.index.Some? {
      StartTracks(env, st, frames, said, a.frame.index.value, a.frame.id, a.frame.name);
    } else if !a.aborted && a.frame.BlockDelta? && a.frame.index.Some? && a.frame.change.Some? {
      DeltaTracks(env, st, frames, said, a.frame.index.value, a.frame.change.value);
    } else if !a.aborted && a.frame.BlockStop? && a.frame.index.Some? {
      StopTracks(env, st, frames, said, a.frame.index.value);
    } else if !a.aborted && Aside(a.frame) {
      AsideTracks(st, frames, said, a.frame);
    }
  }

  // ---- The end -----------------------------------------------------------------------------------------------------------

  lemma {:induction false} OpenIsIndexed(frames: seq<Frame>, i: nat)
    requires OpenAt(frames, i).Some?
    ensures i in IndexesOf(frames)
  {
    if frames != [] && OpenAt(frames[..|frames| - 1], i).Some? {
      OpenIsIndexed(frames[..|frames| - 1], i);
    }
  }

  lemma ActiveAreOpen(active: map<nat, Active>, frames: seq<Frame>)
    requires RecordsAll(active, frames)
    ensures active.Keys == StillOpen(frames)
  {
    hide OpenAt, Records;
    forall i: nat | OpenAt(frames, i).Some? ensures i in IndexesOf(frames) {
      OpenIsIndexed(frames, i);
    }
  }

  lemma {:induction false} ClosesAll<I>(env: Env<I>, st: State, frames: seq<Frame>, indexes: seq<nat>, said: seq<Event<I>>)
    requires Distinct(indexes) && st.emittedToolCall == Called(said)
    requires forall k :: k in indexes ==> k in st.active && OpenAt(frames, k).Some? && Records(st.active[k], OpenAt(frames, k).value)
    ensures var o, (events, error) := CloseAll(env, st, indexes), Closes(env, frames, indexes);
      && o.events == events && o.stop == (if error.Some? then Some(Threw(error.value)) else None)
      && o.state.emittedContent == st.emittedContent && (error.None? ==> o.state.emittedToolCall == Called(said + events))
    decreases |indexes|
  {
    hide OpenAt, Records, CloseSays, Finalize, Called;
    if indexes == [] {
      SaysNothing(said);
    } else {
      var i, rest := indexes[0], indexes[1..];
      var open := OpenAt(frames, i).value;
      FinalizeIs(env, st.active[i], open);
      if CloseSays(env, open).Ok? {
        var es := CloseSays(env, open).value;
        CloseSpeaks(env, open, said);
        KindIs(st.active[i], open);
        ClosesAll(env, CloseBlock(env, st, i).state, frames, rest, said + es);
        assert said + es + Closes(env, frames, rest).0 == said + (es + Closes(env, frames, rest).0);
      }
    }
  }

  lemma ClosingIs<I>(reason: string, st: State, called: bool, spoke: bool)
    requires st.emittedToolCall == called && st.emittedContent == spoke
    ensures Closing<I>(reason, st) == LastEvent(reason, called, spoke)
  {}

  lemma FinishIs<I>(env: Env<I>, st: State, frames: seq<Frame>, abortedAtEnd: bool, said: seq<Event<I>>)
    requires Tracks(st, frames, said)
    ensures Finish(env, st, abortedAtEnd) == EndingFrom(env, frames, abortedAtEnd, said)
  {
    hide OpenAt, Records, Spoke, Called, LastReason, Closes, CloseAll, Ascending, Closing, LastEvent;
    if !abortedAtEnd && st.stopReason.Some? {
      ActiveAreOpen(st.active, frames);
      var indexes := Ascending(StillOpen(frames));
      ClosesAll(env, st, frames, indexes, said);
      var o := CloseAll(env, st, indexes);
      var (events, error) := Closes(env, frames, indexes);
      if error.None? {
        ClosingIs<I>(st.stopReason.value, o.state, Called(said + events), Spoke(said));
      }
    }
  }

  // ---- The whole stream ----------------------------------------------------------------------------------------------------

  ghost predicate DecodesTo<I>(env: Env<I>, st: State, frames: seq<Frame>, arrivals: seq<Arrival>, abortedAtEnd: bool, said: seq<Event<I>>) {
    var says := Says(env, frames, arrivals);
    var ending := Ending(env, frames, arrivals, abortedAtEnd, said + says);
    Decode(env, st, arrivals, abortedAtEnd) == (says + ending.0, ending.1)
  }

  lemma {:induction false} StreamIs<I>(env: Env<I>, st: State, frames: seq<Frame>, arrivals: seq<Arrival>, abortedAtEnd: bool, said: seq<Event<I>>)
    requires Tracks(st, frames, said)
    ensures DecodesTo(env, st, frames, arrivals, abortedAtEnd, said)
    decreases |arrivals|
  {
    hide ReadFrame, Tracks, DecodesTo, Halts, FrameSays;
    if arrivals == [] {
      EmptyStream(env, st, frames, abortedAtEnd, said);
    } else {
      var a := arrivals[0];
      FrameTracks(env, st, frames, said, a);
      if Halts(env, frames, a).None? {
        var o := ReadFrame(env, st, a);
        StreamIs(env, o.state, frames + [a.frame], arrivals[1..], abortedAtEnd, said + o.events);
        StreamGoesOn(env, st, frames, arrivals, abortedAtEnd, said);
      } else {
        StreamHalts(env, st, frames, arrivals, abortedAtEnd, said);
      }
    }
  }

  lemma EmptyStream<I>(env: Env<I>, st: State, frames: seq<Frame>, abortedAtEnd: bool, said: seq<Event<I>>)
    requires Tracks(st, frames, said)
    ensures DecodesTo(env, st, frames, [], abortedAtEnd, said)
  {
    hide Tracks, Finish, EndingFrom;
    FinishIs(env, st, frames, abortedAtEnd, said);
    assert frames + [] == frames && said + [] == said;
    var ending := EndingFrom(env, frames, abortedAtEnd, said);
    assert [] + ending.0 == ending.0;
  }

  lemma StreamGoesOn<I>(env: Env<I>, st: State, frames: seq<Frame>, arrivals: seq<Arrival>, abortedAtEnd: bool, said: seq<Event<I>>)
    requires Tracks(st, frames, said) && arrivals != [] && Halts(env, frames, arrivals[0]).None?
    requires var a, o := arrivals[0], ReadFrame(env, st, arrivals[0]);
      DecodesTo(env, o.state, frames + [a.frame], arrivals[1..], abortedAtEnd, said + o.events)
    ensures DecodesTo(env, st, frames, arrivals, abortedAtEnd, said)
  {
    hide ReadFrame, Tracks, Halts, FrameSays, Ending;
    var a, rest, o := arrivals[0], arrivals[1..], ReadFrame(env, st, arrivals[0]);
    FrameTracks(env, st, frames, said, a);
    var later := Says(env, frames + [a.frame], rest);
    assert said + o.events + later == said + (o.events + later);
    EndingGoesOn(env, frames, arrivals, abortedAtEnd, said + o.events + later);
    var ending := Ending(env, frames + [a.frame], rest, abortedAtEnd, said + o.events + later);
    assert o.events + (later + ending.0) == o.events + later + ending.0;
  }

  lemma EndingGoesOn<I>(env: Env<I>, frames: seq<Frame>, arrivals: seq<Arrival>, abortedAtEnd: bool, said: seq<Event<I>>)
    requires arrivals != [] && Halts(env, frames, arrivals[0]).None?
    ensures Ending(env, frames, arrivals, abortedAtEnd, said) == Ending(env, frames + [arrivals[0].frame], arrivals[1..], abortedAtEnd, said)
  {
    hide Halts, EndingFrom, Spoke;
    assert frames + [arrivals[0].frame] + FramesOf(arrivals[1..]) == frames + FramesOf(arrivals);
  }

  lemma StreamHalts<I>(env: Env<I>, st: State, frames: seq<Frame>, arrivals: seq<Arrival>, abortedAtEnd: bool, said: seq<Event<I>>)
    requires Tracks(st, frames, said) && arrivals != [] && Halts(env, frames, arrivals[0]).Some?
    ensures DecodesTo(env, st, frames, arrivals, abortedAtEnd, said)
  {
    hide ReadFrame, Tracks, Halts, FrameSays, Spoke;
    var a, o := arrivals[0], ReadFrame(env, st, arrivals[0]);
    FrameTracks(env, st, frames, said, a);
    assert [] + o.events == o.events && o.events + [] == o.events && said + [] == said;
    assert FrameSays(env, frames, a) + [] == FrameSays(env, frames, a);
  }

  lemma StartTracksNothing<I>()
    ensures Tracks<I>(START, [], [])
  {}

  /** The whole output, for every event sequence: what the events say, one by one, and then exactly the ending they call for. */
  lemma DecodesExactly<I>(env: Env<I>, arrivals: seq<Arrival>, abortedAtEnd: bool)
    ensures var says := Says(env, [], arrivals);
      var ending := Ending(env, [], arrivals, abortedAtEnd, says);
      Decode(env, START, arrivals, abortedAtEnd) == (says + ending.0, ending.1)
  {
    hide Tracks, Decode, Ending, Says;
    StartTracksNothing<I>();
    StreamIs(env, START, [], arrivals, abortedAtEnd, []);
    assert [] + Says(env, [], arrivals) == Says(env, [], arrivals);
  }
}
