/**
 When the argument fragments of the Chat decoder spell the text that is parsed, said of
 what the provider sends.
 */
module OpenAiChatText {
  import opened Prelude
  import opened StreamTrace
  import opened OpenAiChat
  import opened OpenAiChatProofs

  // ---- What the provider sends -----------------------------------------------------------------

  /** The tool call deltas of a list, up to the first item without an index. */
  function ValidItems(items: seq<Option<ToolDelta>>): seq<ToolDelta> {
    if items == [] || items[0].None? then [] else [items[0].value] + ValidItems(items[1..])
  }

  function FrameItems(a: Arrival): seq<Option<ToolDelta>> {
    if !a.aborted && a.frame.Chunk? && a.frame.choices.One? && a.frame.choices.delta.Some? then
      var delta := a.frame.choices.delta.value;
      if !delta.reasoningDetails && delta.tools.Tools? then delta.tools.items else []
    else []
  }

  /** The decoder takes up no frame after this one. */
  predicate FrameEnds(a: Arrival) {
    || a.aborted || !a.frame.Chunk? || a.frame.choices.NotAnArray? || a.frame.choices.Many? || a.frame.choices.Malformed?
    || (a.frame.choices.One? && a.frame.choices.delta.Some? &&
        (a.frame.choices.delta.value.reasoningDetails || a.frame.choices.delta.value.tools.NotAList?))
    || |ValidItems(FrameItems(a))| < |FrameItems(a)|
  }

  /** All tool call deltas the decoder takes from a stream, in order. */
  function Sent(arrivals: seq<Arrival>): seq<ToolDelta> {
    if arrivals == [] then []
    else ValidItems(FrameItems(arrivals[0])) + if FrameEnds(arrivals[0]) then [] else Sent(arrivals[1..])
  }

  /** Those of one tool index. */
  function Of(ds: seq<ToolDelta>, i: nat): seq<ToolDelta> {
    if ds == [] then []
    else
      var last := ds[|ds| - 1];
      Of(ds[..|ds| - 1], i) + if last.index == i then [last] else []
  }

  function Arguments(ds: seq<ToolDelta>): string {
    if ds == [] then "" else Arguments(ds[..|ds| - 1]) + ds[|ds| - 1].arguments
  }

  function CustomText(ds: seq<ToolDelta>): string {
    if ds == [] then ""
    else
      var last := ds[|ds| - 1].customInput;
      CustomText(ds[..|ds| - 1]) + if last.Some? then last.value else ""
  }

  /** The first delta with custom input, or the number of deltas. */
  function FirstCustom(ds: seq<ToolDelta>): (n: nat)
    ensures n <= |ds|
  {
    if ds == [] then 0
    else
      var n := FirstCustom(ds[..|ds| - 1]);
      if n < |ds| - 1 || ds[|ds| - 1].customInput.Some? then n else |ds|
  }

  /** An id and a name have been sent. */
  predicate Named(ds: seq<ToolDelta>) {
    HasId(ds) && HasName(ds)
  }

  predicate HasId(ds: seq<ToolDelta>) {
    ds != [] && (HasId(ds[..|ds| - 1]) || ds[|ds| - 1].id != "")
  }

  predicate HasName(ds: seq<ToolDelta>) {
    ds != [] && (HasName(ds[..|ds| - 1]) || ds[|ds| - 1].functionName != "" || ds[|ds| - 1].customName != "")
  }

  predicate TurnsCustom(ds: seq<ToolDelta>) {
    FirstCustom(ds) < |ds|
  }

  /** The text a call's input is parsed from. */
  function ParsedText(ds: seq<ToolDelta>): string {
    if TurnsCustom(ds) then CustomText(ds) else Arguments(ds)
  }

  /**
   If the call had been named when its first custom input came, the function arguments sent
   until then are how its custom text begins.
   */
  predicate HandsOver(ds: seq<ToolDelta>) {
    var before := ds[..FirstCustom(ds)];
    TurnsCustom(ds) && Named(before) ==> Arguments(before) <= CustomText(ds)
  }

  // ---- What a tool has accumulated ----------------------------------------------------------------

  /** The accumulated tool is what the deltas of its index add up to. */
  ghost predicate Sums(t: Tool, ds: seq<ToolDelta>) {
    var before := ds[..FirstCustom(ds)];
    && t.arguments == Arguments(ds) && t.customInput == CustomText(ds) && t.custom == TurnsCustom(ds)
    && (t.id != "" <==> HasId(ds)) && (t.name != "" <==> HasName(ds)) && (t.started <==> Named(ds))
    && t.handover == if TurnsCustom(ds) && Named(before) then |Arguments(before)| else 0
  }

  lemma OneMoreDelta(ds: seq<ToolDelta>, d: ToolDelta)
    ensures var all := ds + [d];
      && Arguments(all) == Arguments(ds) + d.arguments
      && CustomText(all) == CustomText(ds) + (if d.customInput.Some? then d.customInput.value else "")
      && (HasId(all) <==> HasId(ds) || d.id != "")
      && (HasName(all) <==> HasName(ds) || d.functionName != "" || d.customName != "")
      && (TurnsCustom(all) <==> TurnsCustom(ds) || d.customInput.Some?)
      && (TurnsCustom(all) ==> all[..FirstCustom(all)] == ds[..FirstCustom(ds)])
  {
    var all := ds + [d];
    assert all[..|ds|] == ds && ds[..|ds|] == ds;
    if TurnsCustom(all) {
      assert FirstCustom(all) == FirstCustom(ds) && all[..FirstCustom(ds)] == ds[..FirstCustom(ds)];
    }
  }

  /** Until a call turns custom, a started one has emitted all its arguments, and another none. */
  lemma EmittedBeforeCustom(t: Tool, ds: seq<ToolDelta>)
    requires ToolOk(t) && Sums(t, ds) && !t.custom
    ensures t.emitted == (if Named(ds) then |Arguments(ds)| else 0) && ds[..FirstCustom(ds)] == ds
  {
    hide Named, Arguments;
    assert ds[..|ds|] == ds;
  }

  /** The state of an accumulated tool but for its emission. */
  ghost predicate SumsUnstarted(t: Tool, ds: seq<ToolDelta>) {
    Sums(t.(started := Named(ds)), ds)
  }

  lemma MergeSums(t: Tool, ds: seq<ToolDelta>, d: ToolDelta)
    requires ToolOk(t) && Sums(t, ds)
    ensures SumsUnstarted(Merge(t, d), ds + [d])
  {
    hide Arguments, CustomText, HasId, HasName, FirstCustom, ToolOk;
    OneMoreDelta(ds, d);
    if !t.custom {
      EmittedBeforeCustom(t, ds);
    }
  }

  lemma EmitSums<I>(env: Env<I>, t: Tool, ds: seq<ToolDelta>)
    requires SumsUnstarted(t, ds) && (t.started ==> t.id != "" && t.name != "")
    ensures Sums(Emit(env, t).1, ds)
  {
    hide Arguments, CustomText, HasId, HasName, FirstCustom, TurnsCustom;
  }

  lemma MergeAndEmitSums<I>(env: Env<I>, t: Tool, ds: seq<ToolDelta>, d: ToolDelta)
    requires ToolOk(t) && Sums(t, ds)
    ensures ToolOk(Emit(env, Merge(t, d)).1) && Sums(Emit(env, Merge(t, d)).1, ds + [d])
  {
    hide Sums, SumsUnstarted, Emit, Merge, Follow, Emitted;
    var blocks := if t.started then map[t.contentIndex := OpenBlock(env, t)] else map[];
    CallStep(env, t, d, blocks);
    MergeKeepsEmitted(t, d);
    MergeKeepsName(t, d);
    MergeSums(t, ds, d);
    EmitSums(env, Merge(t, d), ds + [d]);
  }

  lemma MergeKeepsName(t: Tool, d: ToolDelta)
    ensures Merge(t, d).started == t.started
    ensures (t.id != "" ==> Merge(t, d).id != "") && (t.name != "" ==> Merge(t, d).name != "")
  {}

  /** Every tool adds up its own deltas, and there is one for each index sent. */
  ghost predicate AllSum(tools: map<nat, Tool>, sent: seq<ToolDelta>) {
    forall i: nat :: if i in tools then ToolOk(tools[i]) && Sums(tools[i], Of(sent, i)) else Of(sent, i) == []
  }

  lemma OfOne(sent: seq<ToolDelta>, d: ToolDelta, i: nat)
    ensures Of(sent + [d], i) == if d.index == i then Of(sent, i) + [d] else Of(sent, i)
  {
    assert (sent + [d])[..|sent|] == sent;
  }

  lemma ToolSums<I>(env: Env<I>, st: State, sent: seq<ToolDelta>, d: ToolDelta)
    requires AllSum(st.tools, sent)
    ensures AllSum(ReadTool(env, st, Some(d)).state.tools, sent + [d])
  {
    hide Sums, ToolOk, Emit, Merge;
    var tool := if d.index in st.tools then st.tools[d.index] else FreshTool(st.next);
    FreshSums(st.next);
    MergeAndEmitSums(env, tool, Of(sent, d.index), d);
    var tools := ReadTool(env, st, Some(d)).state.tools;
    forall i: nat
      ensures if i in tools then ToolOk(tools[i]) && Sums(tools[i], Of(sent + [d], i)) else Of(sent + [d], i) == []
    {
      OfOne(sent, d, i);
    }
  }

  lemma FreshSums(contentIndex: nat)
    ensures ToolOk(FreshTool(contentIndex)) && Sums(FreshTool(contentIndex), [])
  {}

  lemma {:induction false} ItemsSum<I>(env: Env<I>, st: State, sent: seq<ToolDelta>, items: seq<Option<ToolDelta>>)
    requires AllSum(st.tools, sent)
    ensures AllSum(ReadTools(env, st, items).state.tools, sent + ValidItems(items))
    ensures ReadTools(env, st, items).stop.Some? <==> |ValidItems(items)| < |items|
    decreases |items|
  {
    hide AllSum, Emit, Merge;
    if items == [] || items[0].None? {
      assert sent + [] == sent;
    } else {
      var d := items[0].value;
      ToolSums(env, st, sent, d);
      ItemsSum(env, ReadTool(env, st, items[0]).state, sent + [d], items[1..]);
      assert sent + [d] + ValidItems(items[1..]) == sent + ([d] + ValidItems(items[1..]));
    }
  }

  lemma FrameSums<I>(env: Env<I>, st: State, sent: seq<ToolDelta>, a: Arrival)
    requires AllSum(st.tools, sent)
    ensures AllSum(ReadFrame(env, st, a).state.tools, sent + ValidItems(FrameItems(a)))
    ensures ReadFrame(env, st, a).stop.Some? <==> FrameEnds(a)
  {
    hide ReadTools, FirstReasoning, AllSum, ReadText, ReadThinking;
    assert sent + [] == sent && ValidItems([]) == [];
    if !a.aborted && a.frame.Chunk? && a.frame.choices.One? && a.frame.choices.delta.Some? {
      var finish, delta := a.frame.choices.finish, a.frame.choices.delta.value;
      var finished := if finish.Some? && finish.value != "" then st.(finish := finish) else st;
      var text: Outcome<I> := ReadText(finished, delta.content);
      ContentKeepsTools<I>(finished, delta.content);
      ContentGoesOn<I>(finished, delta.content);
      var thinking: Outcome<I> := ReadThinking(text.state, FirstReasoning(delta.reasoning));
      ContentKeepsTools<I>(text.state, FirstReasoning(delta.reasoning));
      ContentGoesOn<I>(text.state, FirstReasoning(delta.reasoning));
      if delta.tools.Tools? {
        ItemsSum(env, thinking.state, sent, delta.tools.items);
      }
    }
  }

  lemma ContentGoesOn<I>(st: State, text: string)
    ensures ReadText<I>(st, text).stop.None? && ReadThinking<I>(st, text).stop.None?
  {}

  lemma {:induction false} StreamSums<I>(env: Env<I>, st: State, sent: seq<ToolDelta>, arrivals: seq<Arrival>)
    requires AllSum(st.tools, sent)
    ensures AllSum(Final(env, st, arrivals).tools, sent + Sent(arrivals))
    decreases |arrivals|
  {
    hide AllSum, ReadFrame, FrameEnds, FrameItems;
    if arrivals == [] {
      assert sent + [] == sent;
    } else {
      var ds, next := ValidItems(FrameItems(arrivals[0])), ReadFrame(env, st, arrivals[0]).state;
      FrameSums(env, st, sent, arrivals[0]);
      if FrameEnds(arrivals[0]) {
        assert ds + [] == ds;
      } else {
        StreamSums(env, next, sent + ds, arrivals[1..]);
        assert sent + ds + Sent(arrivals[1..]) == sent + (ds + Sent(arrivals[1..]));
      }
    }
  }

  // ---- The fragments of ended calls -----------------------------------------------------------------

  lemma {:induction false} ArgumentsGrow(ds: seq<ToolDelta>, n: nat)
    requires n <= |ds|
    ensures Arguments(ds[..n]) <= Arguments(ds)
    decreases |ds|
  {
    if n == |ds| {
      assert ds[..n] == ds;
    } else {
      ArgumentsGrow(ds[..|ds| - 1], n);
      assert ds[..|ds| - 1][..n] == ds[..n];
    }
  }

  /** For one call: its fragments spell the parsed text exactly if it hands over. */
  lemma SpellsExactlyIfHandedOver(t: Tool, ds: seq<ToolDelta>)
    requires ToolOk(t) && t.started && Sums(t, ds)
    ensures Text(t) == ParsedText(ds) && (Emitted(t) == Text(t) <==> HandsOver(ds))
  {
    hide Emitted, Named;
    var before := ds[..FirstCustom(ds)];
    FragmentsSpellText(t);
    ArgumentsGrow(ds, FirstCustom(ds));
    if TurnsCustom(ds) && Named(before) {
      assert t.arguments[..t.handover] == Arguments(before);
    } else {
      assert t.customInput[..0] == t.arguments[..0];
    }
  }

  /** The ended call is that of a tool index, and its input is parsed from what that index sent. */
  ghost predicate CallOf<I>(env: Env<I>, arrivals: seq<Arrival>, c: nat, b: Block<I>, i: nat)
    requires b.EndedCall?
  {
    var tools, ds := Final(env, START, arrivals).tools, Of(Sent(arrivals), i);
    && i in tools && tools[i].contentIndex == c && b.callId == tools[i].id
    && Text(tools[i]) == ParsedText(ds) && Input(env, tools[i]) == Ok(b.input)
  }

  /**
   For every stream and every call that ends: the call is that of some tool index, its input
   is parsed from the text that index sent, and its fragments spell exactly that text if and
   only if the index hands over. Only a call that turns custom after it was named can fail to.
   */
  lemma FragmentsSpellExactly<I>(env: Env<I>, arrivals: seq<Arrival>, aborted: bool)
    ensures Listed(START)
    ensures var track := Follow(Track(map[], false), Decode(env, START, arrivals, aborted).0);
      track.Some? &&
      forall c :: c in track.value.blocks && track.value.blocks[c].EndedCall? ==>
                    exists i :: && CallOf(env, arrivals, c, track.value.blocks[c], i)
                                && (track.value.blocks[c].text == ParsedText(Of(Sent(arrivals), i)) <==>
                                    HandsOver(Of(Sent(arrivals), i)))
  {
    hide Decode, Follow, EndedFrom, CallOf, HandsOver, ParsedText, Sent, AllSum;
    ChatTrace(env, arrivals, aborted);
    NothingSums();
    StreamSums(env, START, [], arrivals);
    assert [] + Sent(arrivals) == Sent(arrivals);
    var tools, blocks := Final(env, START, arrivals).tools, Follow(Track(map[], false), Decode(env, START, arrivals, aborted).0).value.blocks;
    forall c | c in blocks && blocks[c].EndedCall?
      ensures exists i :: && CallOf(env, arrivals, c, blocks[c], i)
                          && (blocks[c].text == ParsedText(Of(Sent(arrivals), i)) <==> HandsOver(Of(Sent(arrivals), i)))
    {
      var i := EndedCallIsExplained(env, arrivals, c, blocks[c]);
    }
  }

  lemma NothingSums()
    ensures AllSum(START.tools, [])
  {}

  lemma EndedCallIsExplained<I>(env: Env<I>, arrivals: seq<Arrival>, c: nat, b: Block<I>) returns (i: nat)
    requires b.EndedCall? && EndedFrom(env, Final(env, START, arrivals).tools, c, b)
    requires AllSum(Final(env, START, arrivals).tools, Sent(arrivals))
    ensures CallOf(env, arrivals, c, b, i)
    ensures b.text == ParsedText(Of(Sent(arrivals), i)) <==> HandsOver(Of(Sent(arrivals), i))
  {
    hide HandsOver, ParsedText, Sums, Sent, Emitted, ToolOk, Text;
    var tools := Final(env, START, arrivals).tools;
    i :| i in tools && tools[i].contentIndex == c && tools[i].started && ToolOk(tools[i]) &&
         b.callId == tools[i].id && Input(env, tools[i]) == Ok(b.input) && b.text == Emitted(tools[i]);
    SpellsExactlyIfHandedOver(tools[i], Of(Sent(arrivals), i));
  }

  // ---- Streams that do not mix ------------------------------------------------------------------

  /** No tool index mixes function and custom input: those in `customs` send only custom input, the others none. */
  ghost predicate Unmixed(ds: seq<ToolDelta>, customs: set<nat>) {
    forall d :: d in ds ==> (d.arguments != "" ==> d.index !in customs) && (d.customInput.Some? ==> d.index in customs)
  }

  lemma {:induction false} UnmixedHandsOver(ds: seq<ToolDelta>, i: nat, customs: set<nat>)
    requires Unmixed(ds, customs)
    ensures i !in customs ==> !TurnsCustom(Of(ds, i))
    ensures i in customs ==> Arguments(Of(ds, i)) == ""
    decreases |ds|
  {
    if ds != [] {
      var init, last := ds[..|ds| - 1], ds[|ds| - 1];
      assert ds == init + [last] && last in ds;
      UnmixedHandsOver(init, i, customs);
      OfOne(init, last, i);
      var of := Of(init, i);
      assert (of + [last])[..|of|] == of;
    }
  }

  /**
   When no tool index mixes the two, the fragments of every ended call spell exactly the text
   its input is parsed from: its own tool's text, by that tool's own rule.
   */
  lemma FragmentsSpellInput<I>(env: Env<I>, arrivals: seq<Arrival>, aborted: bool, customs: set<nat>)
    requires Unmixed(Sent(arrivals), customs)
    ensures Listed(START)
    ensures var track := Follow(Track(map[], false), Decode(env, START, arrivals, aborted).0);
      track.Some? &&
      forall c :: c in track.value.blocks && track.value.blocks[c].EndedCall? ==>
                    exists i :: CallOf(env, arrivals, c, track.value.blocks[c], i) &&
                                track.value.blocks[c].text == ParsedText(Of(Sent(arrivals), i))
  {
    hide Decode, Follow, CallOf, ParsedText, Sent, Unmixed, HandsOver;
    FragmentsSpellExactly(env, arrivals, aborted);
    var blocks := Follow(Track(map[], false), Decode(env, START, arrivals, aborted).0).value.blocks;
    forall c | c in blocks && blocks[c].EndedCall?
      ensures exists i :: CallOf(env, arrivals, c, blocks[c], i) && blocks[c].text == ParsedText(Of(Sent(arrivals), i))
    {
      var i :| && CallOf(env, arrivals, c, blocks[c], i)
               && (blocks[c].text == ParsedText(Of(Sent(arrivals), i)) <==> HandsOver(Of(Sent(arrivals), i)));
      UnmixedHandsOver(Sent(arrivals), i, customs);
      NothingToHandOver(Of(Sent(arrivals), i));
    }
  }

  lemma NothingToHandOver(ds: seq<ToolDelta>)
    requires !TurnsCustom(ds) || Arguments(ds) == ""
    ensures HandsOver(ds)
  {
    ArgumentsGrow(ds, FirstCustom(ds));
  }
}
