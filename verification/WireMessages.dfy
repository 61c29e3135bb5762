/**
 Rendering a prepared history as the message list of Anthropic Messages and Bedrock: each
 run of tool results becomes one user message.
 */
module WireMessages {
  import opened Prelude
  import opened History

  datatype Block<B, J> =
    | Content(value: B)
    | ToolUse(id: string, name: string, input: J)
    | ToolResult(id: string, content: seq<B>, isError: bool)

  datatype Wire<B, J> = Wire(user: bool, blocks: seq<Block<B, J>>)

  /**
   How an adapter renders content of the message at a position, for users and tools and for
   assistants; it may refuse. And how it renders a call's input.
   */
  datatype Renderer<!C, B, !J> = Renderer(
    basic: (nat, seq<C>) -> Option<seq<B>>, assistant: (nat, seq<C>) -> Option<seq<B>>, input: J -> J)

  function ContentBlocks<B, J>(values: seq<B>): seq<Block<B, J>> {
    seq(|values|, i requires 0 <= i < |values| => Content(values[i]))
  }

  function UseBlocks<C, B, J>(r: Renderer<C, B, J>, calls: seq<PreparedCall<J>>): seq<Block<B, J>> {
    seq(|calls|, i requires 0 <= i < |calls| => ToolUse(calls[i].id, calls[i].name, r.input(calls[i].input)))
  }

  /** What one message contributes; an assistant message that renders to nothing is refused. */
  function MessageBlocks<C, B, J>(r: Renderer<C, B, J>, at: nat, m: Prepared<C, J>): Option<seq<Block<B, J>>> {
    match m
    case PreparedUser(content) =>
      (match r.basic(at, content)
       case None => None
       case Some(values) => Some(ContentBlocks(values)))
    case PreparedAssistant(content, calls) =>
      (match r.assistant(at, content)
       case None => None
       case Some(values) =>
         var blocks := ContentBlocks(values) + UseBlocks(r, calls);
         if blocks == [] then None else Some(blocks))
    case PreparedTool(id, _, _, _, content, isError) =>
      (match r.basic(at, content)
       case None => None
       case Some(values) => Some([ToolResult(id, values, isError)]))
  }

  /** The end of the run of tool results that starts at a position. */
  function RunEnd<C, J>(ps: seq<Prepared<C, J>>, at: nat): (end: nat)
    requires at <= |ps|
    ensures at <= end <= |ps|
    decreases |ps| - at
  {
    if at < |ps| && ps[at].PreparedTool? then RunEnd(ps, at + 1) else at
  }

  /** The blocks of the messages from one position to another. */
  function Blocks<C, B, J>(r: Renderer<C, B, J>, ps: seq<Prepared<C, J>>, from: nat, to: nat): Option<seq<Block<B, J>>>
    requires from <= to <= |ps|
    decreases |ps| - from
  {
    if from == to then Some([])
    else match MessageBlocks(r, from, ps[from])
      case None => None
      case Some(first) => Before(first, Blocks(r, ps, from + 1, to))
  }

  function Before<T>(first: seq<T>, rest: Option<seq<T>>): Option<seq<T>> {
    if rest.None? then None else Some(first + rest.value)
  }

  function EncodeFrom<C, B, J>(r: Renderer<C, B, J>, ps: seq<Prepared<C, J>>, at: nat): Option<seq<Wire<B, J>>>
    requires at <= |ps|
    decreases |ps| - at
  {
    if at == |ps| then Some([])
    else
      var end := if ps[at].PreparedTool? then RunEnd(ps, at + 1) else at + 1;
      match Blocks(r, ps, at, end)
      case None => None
      case Some(blocks) => Before([Wire(!ps[at].PreparedAssistant?, blocks)], EncodeFrom(r, ps, end))
  }

  lemma BeforeTwice<T>(a: seq<T>, b: seq<T>, rest: Option<seq<T>>)
    ensures Before(a, Before(b, rest)) == Before(a + b, rest)
    ensures Before([], rest) == rest
  {
    if rest.Some? {
      assert a + (b + rest.value) == (a + b) + rest.value && [] + rest.value == rest.value;
    }
  }

  lemma OneMessage<C, B, J>(r: Renderer<C, B, J>, ps: seq<Prepared<C, J>>, at: nat)
    requires at < |ps|
    ensures Blocks(r, ps, at, at + 1) == MessageBlocks(r, at, ps[at])
  {
    hide MessageBlocks;
    var first := MessageBlocks(r, at, ps[at]);
    if first.Some? {
      assert first.value + [] == first.value;
    }
  }

  method EncodeMessages<C, B, J>(r: Renderer<C, B, J>, ps: seq<Prepared<C, J>>) returns (result: Option<seq<Wire<B, J>>>)
    ensures result == EncodeFrom(r, ps, 0)
  {
    hide MessageBlocks, RunEnd;
    var messages: seq<Wire<B, J>> := [];
    var index := 0;
    BeforeTwice<Wire<B, J>>([], [], EncodeFrom(r, ps, 0));
    while index < |ps|
      invariant index <= |ps|
      invariant EncodeFrom(r, ps, 0) == Before(messages, EncodeFrom(r, ps, index))
    {
      var message, end := ps[index], index + 1;
      var blocks: seq<Block<B, J>>;
      if message.PreparedTool? {
        var results := EncodeResults(r, ps, index);
        if results.0.None? {
          return None;
        }
        blocks, end := results.0.value, results.1;
      } else {
        OneMessage(r, ps, index);
        var rendered := MessageBlocks(r, index, message);
        if rendered.None? {
          return None;
        }
        blocks := rendered.value;
      }
      var wire := Wire(!message.PreparedAssistant?, blocks);
      BeforeTwice(messages, [wire], EncodeFrom(r, ps, end));
      messages := messages + [wire];
      index := end;
    }
    assert messages + [] == messages;
    return Some(messages);
  }

  /** The results of a run, and where it ends. */
  method EncodeResults<C, B, J>(r: Renderer<C, B, J>, ps: seq<Prepared<C, J>>, index: nat)
    returns (result: (Option<seq<Block<B, J>>>, nat))
    requires index < |ps| && ps[index].PreparedTool?
    ensures result.0 == Blocks(r, ps, index, RunEnd(ps, index + 1))
    ensures result.0.Some? ==> result.1 == RunEnd(ps, index + 1)
  {
    var results: seq<Block<B, J>> := [];
    var resultIndex := index;
    ghost var end := RunEnd(ps, index);
    BeforeTwice<Block<B, J>>([], [], Blocks(r, ps, index, end));
    while resultIndex < |ps| && ps[resultIndex].PreparedTool?
      invariant index <= resultIndex <= end <= |ps| && RunEnd(ps, resultIndex) == end
      invariant Blocks(r, ps, index, end) == Before(results, Blocks(r, ps, resultIndex, end))
      decreases |ps| - resultIndex
    {
      var result := ps[resultIndex];
      var content := r.basic(resultIndex, result.content);
      if content.None? {
        return (None, 0);
      }
      var block: Block<B, J> := ToolResult(result.id, content.value, result.isError);
      BeforeTwice(results, [block], Blocks(r, ps, resultIndex + 1, end));
      results := results + [block];
      resultIndex := resultIndex + 1;
    }
    assert results + [] == results;
    return (Some(results), resultIndex);
  }

  // ---- Bedrock's cache point -------------------------------------------------------------------

  /** The last user message gets one more block. */
  function AddCachePoint<B, J>(ws: seq<Wire<B, J>>, point: B): seq<Wire<B, J>> {
    if ws == [] then []
    else
      var last := |ws| - 1;
      if ws[last].user then ws[last := Wire(true, ws[last].blocks + [Content(point)])]
      else AddCachePoint(ws[..last], point) + [ws[last]]
  }
}
