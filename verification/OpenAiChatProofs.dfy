/** Every trace of the Chat decoder is well formed, and its argument fragments spell the parsed text. */
module OpenAiChatProofs {
  import opened Prelude
  import opened StreamTrace
  import opened OpenAiChat
  import ToolNames

  // ---- One call ------------------------------------------------------------------------------

  /** The argument text emitted so far: function characters up to the handover, custom characters after it. */
  function Emitted(t: Tool): string {
    if !t.custom then Slice(t.arguments, t.emitted)
    else if t.handover < t.emitted <= |t.customInput| then
      Slice(t.arguments, t.handover) + t.customInput[t.handover..t.emitted]
    else Slice(t.arguments, t.handover)
  }

  /** How far the emitted text can be. */
  predicate Counts(t: Tool) {
    if !t.custom then t.handover == 0 && t.emitted <= |t.arguments|
    else t.handover <= t.emitted && t.handover <= |t.arguments| && (t.emitted == t.handover || t.emitted <= |t.customInput|)
  }

  function OpenBlock<I>(env: Env<I>, t: Tool): Block<I> {
    OpenCall(t.id, ToolNames.ReverseName(env.tools, t.name), Emitted(t))
  }

  /** The block a call has built, if it has started. */
  predicate BlockOf<I(==)>(env: Env<I>, t: Tool, blocks: map<nat, Block<I>>) {
    if t.started then t.contentIndex in blocks && blocks[t.contentIndex] == OpenBlock(env, t)
    else t.contentIndex !in blocks
  }

  predicate ToolOk(t: Tool) {
    Counts(t) && if t.started then t.id != "" && t.name != "" && t.emitted >= |Text(t)| else t.emitted == 0
  }

  lemma MergeKeepsEmitted(t: Tool, d: ToolDelta)
    requires ToolOk(t)
    ensures var m := Merge(t, d);
      && Counts(m) && Emitted(m) == Emitted(t) && m.emitted == t.emitted && m.started == t.started
      && m.contentIndex == t.contentIndex && (t.started ==> m.id == t.id && m.name == t.name)
  {}

  /** Emitting the rest of the text brings the emitted text up to date. */
  lemma EmissionCatchesUp(t: Tool)
    requires Counts(t) && |Text(t)| > t.emitted
    ensures var e := t.(started := true, emitted := |Text(t)|);
      Counts(e) && Emitted(e) == Emitted(t) + Text(t)[t.emitted..]
  {}

  lemma EmitStep<I>(env: Env<I>, t: Tool, blocks: map<nat, Block<I>>)
    requires Counts(t) && BlockOf(env, t, blocks) && if t.started then t.id != "" && t.name != "" else t.emitted == 0
    ensures var (events, e) := Emit(env, t);
      && ToolOk(e) && e.contentIndex == t.contentIndex && (t.started ==> e.started)
      && Follow(Track(blocks, false), events) ==
         Some(Track(if e.started then blocks[t.contentIndex := OpenBlock(env, e)] else blocks, false))
  {
    hide Counts, Emitted, Follow;
    var c, starts := t.contentIndex, !t.started && t.id != "" && t.name != "";
    var first: seq<Event<I>> := if starts then [CallStart(c, t.id, ToolNames.ReverseName(env.tools, t.name))] else [];
    var mid := if starts then blocks[c := OpenBlock(env, t)] else blocks;
    FollowOne(Track(blocks, false), CallStart(c, t.id, ToolNames.ReverseName(env.tools, t.name)));
    if starts {
      NothingEmitted(t);
    }
    assert Follow(Track(blocks, false), first) == Some(Track(mid, false));
    SameCounts(t);
    if t.started || starts {
      if |Text(t)| > t.emitted {
        var delta: Event<I> := CallDelta(c, t.id, Text(t)[t.emitted..]);
        FollowJoins(Track(blocks, false), first, [delta]);
        FollowOne(Track(mid, false), delta);
        EmissionCatchesUp(t);
        var e := Emit(env, t).1;
        assert mid[c := OpenBlock(env, e)] == blocks[c := OpenBlock(env, e)];
      } else {
        assert mid == blocks[c := OpenBlock(env, t)];
      }
    }
  }

  lemma NothingEmitted(t: Tool)
    requires Counts(t) && t.emitted == 0
    ensures Emitted(t) == ""
  {}

  lemma SameCounts(t: Tool)
    requires Counts(t)
    ensures Counts(t.(started := true)) && Emitted(t.(started := true)) == Emitted(t)
  {}

  lemma CallStep<I>(env: Env<I>, t: Tool, d: ToolDelta, blocks: map<nat, Block<I>>)
    requires ToolOk(t) && BlockOf(env, t, blocks)
    ensures var (events, e) := Emit(env, Merge(t, d));
      && ToolOk(e) && e.contentIndex == t.contentIndex && (t.started ==> e.started)
      && Follow(Track(blocks, false), events) ==
         Some(Track(if e.started then blocks[t.contentIndex := OpenBlock(env, e)] else blocks, false))
  {
    hide Emit, Merge, Counts, Follow, Emitted;
    MergeKeepsEmitted(t, d);
    EmitStep(env, Merge(t, d), blocks);
  }

  // ---- The decoder's state and the trace so far ------------------------------------------------

  /** The blocks the trace has built are exactly the decoder's. */
  ghost predicate Inv<I>(env: Env<I>, st: State, blocks: map<nat, Block<I>>) {
    && Listed(st)
    && (forall c :: c in blocks ==> c < st.next && !blocks[c].EndedCall?)
    && (st.textIndex.Some? ==> st.textIndex.value in blocks && blocks[st.textIndex.value].TextBlock?)
    && (st.thinkingIndex.Some? ==> st.thinkingIndex.value in blocks && blocks[st.thinkingIndex.value].ThinkingBlock?)
    && ToolsInv(env, st.tools, st.next, blocks)
  }

  ghost predicate ToolsInv<I>(env: Env<I>, tools: map<nat, Tool>, next: nat, blocks: map<nat, Block<I>>) {
    && (forall i :: i in tools ==> tools[i].contentIndex < next && ToolOk(tools[i]) && BlockOf(env, tools[i], blocks))
    && (forall i, j :: i in tools && j in tools && i != j ==> tools[i].contentIndex != tools[j].contentIndex)
    && (forall c :: c in blocks && blocks[c].OpenCall? ==> exists i :: i in tools && tools[i].contentIndex == c)
  }

  lemma ContentKeepsToolsInv<I>(env: Env<I>, tools: map<nat, Tool>, next: nat, next': nat, blocks: map<nat, Block<I>>, c: nat, b: Block<I>)
    requires ToolsInv(env, tools, next, blocks) && next <= next' && !b.OpenCall?
    requires c >= next || (c in blocks && !blocks[c].OpenCall?)
    ensures ToolsInv(env, tools, next', blocks[c := b])
  {}

  /** The events fit the trace so far, and the state after them still describes it. */
  ghost predicate Steps<I>(env: Env<I>, blocks: map<nat, Block<I>>, o: Outcome<I>) {
    var track := Follow(Track(blocks, false), o.events);
    track.Some? && !track.value.ended && Inv(env, o.state, track.value.blocks)
  }

  /** The blocks after some events. */
  function BlocksAfter<I>(blocks: map<nat, Block<I>>, events: seq<Event<I>>): map<nat, Block<I>>
    requires Follow(Track(blocks, false), events).Some?
  {
    Follow(Track(blocks, false), events).value.blocks
  }

  lemma TextStep<I>(env: Env<I>, st: State, blocks: map<nat, Block<I>>, text: string)
    requires Inv(env, st, blocks)
    ensures Steps(env, blocks, ReadText(st, text))
  {
    hide ToolsInv, Follow, ListedIn;
    var o: Outcome<I> := ReadText(st, text);
    if text == "" {
      FollowOne(Track(blocks, false), Aborted(false));
      assert Follow(Track(blocks, false), o.events) == Some(Track(blocks, false));
    } else {
      var c := o.state.textIndex.value;
      FollowOne(Track(blocks, false), TextDelta(c, text));
      ContentKeepsToolsInv(env, st.tools, st.next, o.state.next, blocks, c, TextBlock);
      var after := blocks[c := TextBlock];
      assert Follow(Track(blocks, false), o.events) == Some(Track(after, false)) && Inv(env, o.state, after);
    }
  }

  lemma ThinkingStep<I>(env: Env<I>, st: State, blocks: map<nat, Block<I>>, text: string)
    requires Inv(env, st, blocks)
    ensures Steps(env, blocks, ReadThinking(st, text))
  {
    hide ToolsInv, Follow, ListedIn;
    var o: Outcome<I> := ReadThinking(st, text);
    if text == "" {
      FollowOne(Track(blocks, false), Aborted(false));
      assert Follow(Track(blocks, false), o.events) == Some(Track(blocks, false));
    } else {
      var c := o.state.thinkingIndex.value;
      FollowOne(Track(blocks, false), ThinkingDelta(c, text));
      ContentKeepsToolsInv(env, st.tools, st.next, o.state.next, blocks, c, ThinkingBlock);
      var after := blocks[c := ThinkingBlock];
      assert Follow(Track(blocks, false), o.events) == Some(Track(after, false)) && Inv(env, o.state, after);
    }
  }

  /** One call changes; the others and their blocks stay. */
  lemma ToolsInvStep<I>(env: Env<I>, tools: map<nat, Tool>, next: nat, next': nat, blocks: map<nat, Block<I>>, index: nat, t: Tool, e: Tool)
    requires ToolsInv(env, tools, next, blocks) && next <= next'
    requires t.contentIndex == e.contentIndex < next' && ToolOk(e) && (t.started ==> e.started)
    requires if index in tools then t == tools[index] else t.contentIndex == next && !t.started
    requires index !in tools ==> next !in blocks
    ensures ToolsInv(env, tools[index := e], next', if e.started then blocks[t.contentIndex := OpenBlock(env, e)] else blocks)
  {
    hide ToolOk, Emitted;
    var c, tools' := t.contentIndex, tools[index := e];
    var after := if e.started then blocks[c := OpenBlock(env, e)] else blocks;
    forall i | i in tools && i != index ensures tools[i].contentIndex != c && BlockOf(env, tools[i], after) {
      assert BlockOf(env, tools[i], blocks);
    }
    assert BlockOf(env, e, after) by {
      if !e.started && index in tools {
        assert BlockOf(env, tools[index], blocks);
      }
    }
    forall k | k in after && after[k].OpenCall? ensures exists i :: i in tools' && tools'[i].contentIndex == k {
      if k == c {
        assert index in tools' && tools'[index].contentIndex == k;
      } else {
        var i :| i in tools && tools[i].contentIndex == k;
        assert i in tools' && tools'[i].contentIndex == k;
      }
    }
  }

  // ---- Frames --------------------------------------------------------------------------------

  lemma StepsJoin<I>(env: Env<I>, blocks: map<nat, Block<I>>, events: seq<Event<I>>, mid: map<nat, Block<I>>, o: Outcome<I>)
    requires Follow(Track(blocks, false), events) == Some(Track(mid, false)) && Steps(env, mid, o)
    ensures Steps(env, blocks, Prepend(events, o))
  {
    hide Inv, Follow;
    var after := BlocksAfter(mid, o.events);
    FollowJoins(Track(blocks, false), events, o.events);
    assert Follow(Track(blocks, false), Prepend(events, o).events) == Some(Track(after, false));
  }

  lemma NothingSteps<I>(env: Env<I>, st: State, blocks: map<nat, Block<I>>, stop: Option<Stop>)
    requires Inv(env, st, blocks)
    ensures Steps(env, blocks, Outcome([], st, stop))
  {}

  lemma StopDoesNotMatter<I>(env: Env<I>, blocks: map<nat, Block<I>>, o: Outcome<I>, stop: Option<Stop>)
    requires Steps(env, blocks, o)
    ensures Steps(env, blocks, o.(stop := stop))
  {}

  lemma ToolInv<I>(env: Env<I>, tools: map<nat, Tool>, next: nat, blocks: map<nat, Block<I>>, index: nat)
    requires ToolsInv(env, tools, next, blocks) && index in tools
    ensures ToolOk(tools[index]) && BlockOf(env, tools[index], blocks) && tools[index].contentIndex < next
  {}

  lemma FreshIsOk<I>(env: Env<I>, next: nat, blocks: map<nat, Block<I>>)
    requires next !in blocks
    ensures ToolOk(FreshTool(next)) && BlockOf(env, FreshTool(next), blocks)
  {}

  lemma ToolStep<I>(env: Env<I>, st: State, blocks: map<nat, Block<I>>, item: Option<ToolDelta>)
    requires Inv(env, st, blocks)
    ensures Steps(env, blocks, ReadTool(env, st, item))
  {
    hide ToolsInv, Follow, ListedIn, Emit, Merge, ToolOk, BlockOf, Emitted;
    if item.None? {
      NothingSteps(env, st, blocks, Some(Threw(BadToolIndex)));
    } else {
      var d, o := item.value, ReadTool(env, st, item);
      var known := d.index in st.tools;
      var tool := if known then st.tools[d.index] else FreshTool(st.next);
      if known {
        ToolInv(env, st.tools, st.next, blocks, d.index);
      } else {
        FreshIsOk(env, st.next, blocks);
      }
      CallStep(env, tool, d, blocks);
      var e := Emit(env, Merge(tool, d)).1;
      var after := if e.started then blocks[tool.contentIndex := OpenBlock(env, e)] else blocks;
      ToolsInvStep(env, st.tools, st.next, o.state.next, blocks, d.index, tool, e);
      ToolKeepsListed(env, st, item);
      KindsStay(env, st, blocks, tool, OpenBlock(env, e), after);
      assert Inv(env, o.state, after);
    }
  }

  /** A call's block never takes the place of a text or thinking block. */
  lemma KindsStay<I>(env: Env<I>, st: State, blocks: map<nat, Block<I>>, tool: Tool, b: Block<I>, after: map<nat, Block<I>>)
    requires Inv(env, st, blocks) && tool.contentIndex <= st.next && BlockOf(env, tool, blocks)
    requires b.OpenCall? && (after == blocks || after == blocks[tool.contentIndex := b])
    ensures forall c :: c in after ==> (c < st.next || c == tool.contentIndex) && !after[c].EndedCall?
    ensures st.textIndex.Some? ==> st.textIndex.value in after && after[st.textIndex.value].TextBlock?
    ensures st.thinkingIndex.Some? ==> st.thinkingIndex.value in after && after[st.thinkingIndex.value].ThinkingBlock?
  {}

  lemma {:induction false} ToolsStep<I>(env: Env<I>, st: State, blocks: map<nat, Block<I>>, items: seq<Option<ToolDelta>>)
    requires Inv(env, st, blocks)
    ensures Steps(env, blocks, ReadTools(env, st, items))
    decreases |items|
  {
    hide Inv, Follow, ReadTool;
    if items == [] {
      NothingSteps(env, st, blocks, None);
    } else {
      ToolStep(env, st, blocks, items[0]);
      var o := ReadTool(env, st, items[0]);
      if o.stop.None? {
        var mid := BlocksAfter(blocks, o.events);
        ToolsStep(env, o.state, mid, items[1..]);
        StepsJoin(env, blocks, o.events, mid, ReadTools(env, o.state, items[1..]));
      }
    }
  }

  lemma DeltaStep<I>(env: Env<I>, st: State, blocks: map<nat, Block<I>>, delta: Delta)
    requires Inv(env, st, blocks)
    ensures Steps(env, blocks, ReadDelta(env, st, delta))
  {
    hide Inv, Follow, ReadText, ReadThinking, ReadTools, FirstReasoning;
    var text: Outcome<I> := ReadText(st, delta.content);
    TextStep(env, st, blocks, delta.content);
    StopDoesNotMatter(env, blocks, text, Some(Threw(ReplayMetadataLost)));
    var mid := BlocksAfter(blocks, text.events);
    var reasoning := FirstReasoning(delta.reasoning);
    var thinking: Outcome<I> := ReadThinking(text.state, reasoning);
    ThinkingStep(env, text.state, mid, reasoning);
    StepsJoin(env, blocks, text.events, mid, thinking);
    var content := Prepend(text.events, thinking);
    StopDoesNotMatter(env, blocks, content, Some(Threw(ToolsNotAnArray)));
    if delta.tools.Tools? {
      var last := BlocksAfter(blocks, content.events);
      ToolsStep(env, content.state, last, delta.tools.items);
      StepsJoin(env, blocks, content.events, last, ReadTools(env, content.state, delta.tools.items));
    }
  }

  lemma FinishDoesNotMatter<I>(env: Env<I>, st: State, blocks: map<nat, Block<I>>, finish: Option<string>)
    requires Inv(env, st, blocks)
    ensures Inv(env, st.(finish := finish), blocks)
  {}

  lemma FrameStep<I>(env: Env<I>, st: State, blocks: map<nat, Block<I>>, a: Arrival)
    requires Inv(env, st, blocks)
    ensures var o := ReadFrame(env, st, a);
      if o.stop == Some(Returned) then Follow(Track(blocks, false), o.events).Some? else Steps(env, blocks, o)
  {
    hide Inv, Follow, ReadDelta;
    var o := ReadFrame(env, st, a);
    FollowOne(Track(blocks, false), Aborted(st.emittedContent));
    if !a.aborted && a.frame.ProviderError? {
      FollowOne(Track(blocks, false), Failure(a.frame.code, st.emittedContent));
    }
    NothingSteps(env, st, blocks, o.stop);
    if !a.aborted && a.frame.Chunk? && a.frame.choices.One? {
      var finish, delta := a.frame.choices.finish, a.frame.choices.delta;
      var finished := if finish.Some? && finish.value != "" then st.(finish := finish) else st;
      FinishDoesNotMatter(env, st, blocks, finish);
      NothingSteps(env, finished, blocks, None);
      if delta.Some? {
        DeltaStep(env, finished, blocks, delta.value);
        DeltaNeverReturns(env, finished, delta.value);
      }
    }
  }

  lemma {:induction false} ToolsNeverReturn<I>(env: Env<I>, st: State, items: seq<Option<ToolDelta>>)
    ensures ReadTools(env, st, items).stop != Some(Returned)
    decreases |items|
  {
    hide Emit, Merge;
    if items != [] && items[0].Some? {
      ToolsNeverReturn(env, ReadTool(env, st, items[0]).state, items[1..]);
    }
  }

  lemma DeltaNeverReturns<I>(env: Env<I>, st: State, delta: Delta)
    ensures ReadDelta(env, st, delta).stop != Some(Returned)
  {
    hide ReadTools;
    var text: Outcome<I> := ReadText(st, delta.content);
    var thinking: Outcome<I> := ReadThinking(text.state, FirstReasoning(delta.reasoning));
    if delta.tools.Tools? {
      ToolsNeverReturn(env, thinking.state, delta.tools.items);
    }
  }

  // ---- The ends of the calls -------------------------------------------------------------------

  /** An ended call's input is what its tool's text means, and its fragments are what that tool emitted. */
  ghost predicate EndedFrom<I>(env: Env<I>, tools: map<nat, Tool>, c: nat, b: Block<I>) {
    b.EndedCall? ==>
      exists i :: i in tools && tools[i].contentIndex == c && tools[i].started && ToolOk(tools[i]) &&
                  b.callId == tools[i].id && Input(env, tools[i]) == Ok(b.input) && b.text == Emitted(tools[i])
  }

  ghost predicate AllEndedFrom<I>(env: Env<I>, tools: map<nat, Tool>, blocks: map<nat, Block<I>>) {
    forall c :: c in blocks ==> EndedFrom(env, tools, c, blocks[c])
  }

  /** The calls still to be ended. */
  ghost predicate Remaining<I>(env: Env<I>, tools: map<nat, Tool>, indexes: seq<nat>, blocks: map<nat, Block<I>>) {
    && (forall i :: i in indexes ==> i in tools && ToolOk(tools[i]) && BlockOf(env, tools[i], blocks))
    && (forall j, k :: 0 <= j < k < |indexes| && indexes[j] in tools && indexes[k] in tools ==>
                         tools[indexes[j]].contentIndex != tools[indexes[k]].contentIndex)
    && (forall c :: c in blocks && blocks[c].OpenCall? ==>
                      exists i :: i in indexes && i in tools && tools[i].contentIndex == c)
  }

  lemma RemainingStep<I>(env: Env<I>, tools: map<nat, Tool>, indexes: seq<nat>, blocks: map<nat, Block<I>>, input: I)
    requires indexes != [] && Remaining(env, tools, indexes, blocks) && AllEndedFrom(env, tools, blocks)
    requires tools[indexes[0]].started && Input(env, tools[indexes[0]]) == Ok(input)
    ensures var t := tools[indexes[0]];
      var after := blocks[t.contentIndex := EndedCall(t.id, ToolNames.ReverseName(env.tools, t.name), Emitted(t), input)];
      Remaining(env, tools, indexes[1..], after) && AllEndedFrom(env, tools, after)
  {}

  lemma NoneRemaining<I>(env: Env<I>, tools: map<nat, Tool>, blocks: map<nat, Block<I>>)
    requires Remaining(env, tools, [], blocks)
    ensures NoOpenCall(blocks)
  {}

  lemma RemainingHead<I>(env: Env<I>, tools: map<nat, Tool>, indexes: seq<nat>, blocks: map<nat, Block<I>>)
    requires Remaining(env, tools, indexes, blocks)
    ensures forall i :: i in indexes ==> i in tools
    ensures indexes != [] ==> BlockOf(env, tools[indexes[0]], blocks)
  {}

  /** The events end calls that the tools explain; if they are complete, they end all. */
  ghost predicate EndsFit<I>(env: Env<I>, tools: map<nat, Tool>, blocks: map<nat, Block<I>>, events: seq<Event<I>>, complete: bool) {
    var track := Follow(Track(blocks, false), events);
    && track.Some? && !track.value.ended && AllEndedFrom(env, tools, track.value.blocks)
    && (complete ==> NoOpenCall(track.value.blocks))
  }

  lemma {:induction false} EndsStep<I>(env: Env<I>, tools: map<nat, Tool>, indexes: seq<nat>, blocks: map<nat, Block<I>>)
    requires Remaining(env, tools, indexes, blocks) && AllEndedFrom(env, tools, blocks)
    requires forall i :: i in indexes ==> i in tools
    ensures EndsFit(env, tools, blocks, EndCalls(env, tools, indexes).0, EndCalls(env, tools, indexes).1.None?)
    decreases |indexes|
  {
    hide Remaining, AllEndedFrom, Follow, NoOpenCall, Input;
    FollowOne(Track(blocks, false), Aborted(false));
    if indexes == [] {
      NoneRemaining(env, tools, blocks);
    } else {
      RemainingHead(env, tools, indexes, blocks);
      assert indexes[0] in indexes && forall i :: i in indexes[1..] ==> i in indexes;
      var t := tools[indexes[0]];
      var event := EndCall(env, t);
      if event.Err? {
        assert EndCalls(env, tools, indexes).0 == [];
      } else {
        var input := Input(env, t).value;
        var after := blocks[t.contentIndex := EndedCall(t.id, ToolNames.ReverseName(env.tools, t.name), Emitted(t), input)];
        RemainingStep(env, tools, indexes, blocks, input);
        FollowOne(Track(blocks, false), event.value);
        EndsStep(env, tools, indexes[1..], after);
        FollowJoins(Track(blocks, false), [event.value], EndCalls(env, tools, indexes[1..]).0);
      }
    }
  }

  lemma AllRemain<I>(env: Env<I>, st: State, blocks: map<nat, Block<I>>)
    requires Inv(env, st, blocks)
    ensures Remaining(env, st.tools, Sorted(st.order), blocks) && AllEndedFrom(env, st.tools, blocks)
  {
    hide ToolOk, BlockOf;
    SortedKeeps(st.order);
    var s := Sorted(st.order);
    forall j, k | 0 <= j < k < |s| ensures s[j] != s[k] {
      PermutationStaysDistinct(st.order, s, j, k);
    }
  }

  // ---- The whole stream ------------------------------------------------------------------------

  /** The state in which the calls are ended: that after the last frame, or before the end marker. */
  function Final<I>(env: Env<I>, st: State, arrivals: seq<Arrival>): State
    decreases |arrivals|
  {
    if arrivals == [] then st
    else
      var o := ReadFrame(env, st, arrivals[0]);
      if o.stop.Some? then o.state else Final(env, o.state, arrivals[1..])
  }

  /** The events fit, and every ended call is explained by the tools. */
  ghost predicate Explained<I>(env: Env<I>, tools: map<nat, Tool>, blocks: map<nat, Block<I>>, events: seq<Event<I>>) {
    Follow(Track(blocks, false), events).Some? &&
    AllEndedFrom(env, tools, Follow(Track(blocks, false), events).value.blocks)
  }

  lemma ClosingFits<I>(env: Env<I>, tools: map<nat, Tool>, blocks: map<nat, Block<I>>, calls: seq<Event<I>>, last: Event<I>)
    requires EndsFit(env, tools, blocks, calls, true) && (last.Completed? || last.Failure?)
    ensures Explained(env, tools, blocks, calls + [last])
  {
    hide Follow, AllEndedFrom;
    FollowJoins(Track(blocks, false), calls, [last]);
    FollowOne(Follow(Track(blocks, false), calls).value, last);
  }

  lemma AbortFits<I>(env: Env<I>, tools: map<nat, Tool>, blocks: map<nat, Block<I>>, partial: bool)
    requires AllEndedFrom(env, tools, blocks)
    ensures Explained(env, tools, blocks, []) && Explained(env, tools, blocks, [Aborted(partial)])
    ensures forall code :: Explained(env, tools, blocks, [Failure(code, partial)])
  {
    hide Follow, AllEndedFrom;
    FollowOne(Track(blocks, false), Aborted(partial));
    forall code ensures Explained(env, tools, blocks, [Failure(code, partial)]) {
      FollowOne(Track(blocks, false), Failure(code, partial));
    }
  }

  lemma FinishStep<I>(env: Env<I>, st: State, blocks: map<nat, Block<I>>, aborted: bool)
    requires Inv(env, st, blocks) && Listed(st)
    ensures Explained(env, st.tools, blocks, Finish(env, st, aborted).0)
  {
    hide Inv, Explained, EndsFit, Remaining, AllEndedFrom, EndCalls, Sorted, Listed;
    AllRemain(env, st, blocks);
    AbortFits(env, st.tools, blocks, st.emittedContent);
    if !aborted && st.finish.Some? {
      SortedKeeps(st.order);
      ListedTools(st);
      EndsStep(env, st.tools, Sorted(st.order), blocks);
      var (calls, error) := EndCalls(env, st.tools, Sorted(st.order));
      if error.None? {
        var finish := if calls != [] && st.finish.value == "stop" then "tool_calls" else st.finish.value;
        ClosingFits(env, st.tools, blocks, calls, Closing(finish, st.emittedContent));
      } else {
        EndsAreExplained(env, st.tools, blocks, calls);
      }
    }
  }

  lemma ListedTools(st: State)
    requires Listed(st)
    ensures forall i :: i in st.order ==> i in st.tools
  {}

  lemma EndsAreExplained<I>(env: Env<I>, tools: map<nat, Tool>, blocks: map<nat, Block<I>>, calls: seq<Event<I>>)
    requires EndsFit(env, tools, blocks, calls, false)
    ensures Explained(env, tools, blocks, calls)
  {}

  lemma ExplainedJoins<I>(env: Env<I>, tools: map<nat, Tool>, blocks: map<nat, Block<I>>, first: seq<Event<I>>,
                          mid: map<nat, Block<I>>, rest: seq<Event<I>>)
    requires Follow(Track(blocks, false), first) == Some(Track(mid, false)) && Explained(env, tools, mid, rest)
    ensures Explained(env, tools, blocks, first + rest)
  {
    hide Follow, AllEndedFrom;
    FollowJoins(Track(blocks, false), first, rest);
  }

  /** Before the end no call has ended. */
  lemma NothingEnded<I>(env: Env<I>, st: State, blocks: map<nat, Block<I>>)
    requires Inv(env, st, blocks)
    ensures AllEndedFrom(env, st.tools, blocks)
  {}

  lemma EndingFrame<I>(env: Env<I>, st: State, blocks: map<nat, Block<I>>, a: Arrival)
    requires Inv(env, st, blocks) && ReadFrame(env, st, a).stop == Some(Returned)
    ensures Explained(env, ReadFrame(env, st, a).state.tools, blocks, ReadFrame(env, st, a).events)
  {
    hide Inv, Follow, ReadDelta, AllEndedFrom;
    NothingEnded(env, st, blocks);
    FollowOne(Track(blocks, false), Aborted(st.emittedContent));
    if !a.aborted {
      if a.frame.ProviderError? {
        FollowOne(Track(blocks, false), Failure(a.frame.code, st.emittedContent));
      } else if a.frame.Chunk? && a.frame.choices.One? && a.frame.choices.delta.Some? {
        var finish := a.frame.choices.finish;
        DeltaNeverReturns(env, if finish.Some? && finish.value != "" then st.(finish := finish) else st,
                          a.frame.choices.delta.value);
      }
    }
  }

  lemma {:induction false} DecodeSteps<I>(env: Env<I>, st: State, blocks: map<nat, Block<I>>, arrivals: seq<Arrival>, aborted: bool)
    requires Inv(env, st, blocks) && Listed(st)
    ensures Explained(env, Final(env, st, arrivals).tools, blocks, Decode(env, st, arrivals, aborted).0)
    decreases |arrivals|
  {
    hide Inv, Follow, ReadFrame, Finish, Explained, AllEndedFrom, Listed;
    if arrivals == [] {
      FinishStep(env, st, blocks, aborted);
    } else {
      FrameStep(env, st, blocks, arrivals[0]);
      FrameKeepsListed(env, st, arrivals[0]);
      var o := ReadFrame(env, st, arrivals[0]);
      if o.stop == Some(Returned) {
        EndingFrame(env, st, blocks, arrivals[0]);
      } else {
        var mid := BlocksAfter(blocks, o.events);
        if o.stop.None? {
          DecodeSteps(env, o.state, mid, arrivals[1..], aborted);
          ExplainedJoins(env, Final(env, st, arrivals).tools, blocks, o.events, mid, Decode(env, o.state, arrivals[1..], aborted).0);
        } else if o.stop == Some(DoneSeen) {
          FinishStep(env, o.state, mid, aborted);
          ExplainedJoins(env, o.state.tools, blocks, o.events, mid, Finish(env, o.state, aborted).0);
        } else {
          NothingEnded(env, o.state, mid);
          JustExplained(env, o.state.tools, blocks, o.events, mid);
        }
      }
    }
  }

  lemma JustExplained<I>(env: Env<I>, tools: map<nat, Tool>, blocks: map<nat, Block<I>>, events: seq<Event<I>>, mid: map<nat, Block<I>>)
    requires Follow(Track(blocks, false), events) == Some(Track(mid, false)) && AllEndedFrom(env, tools, mid)
    ensures Explained(env, tools, blocks, events)
  {}

  lemma StartInv<I>(env: Env<I>)
    ensures Inv(env, START, map[])
  {}

  /**
   For every sequence of frames the trace is well formed; and every call that ends has the
   id of one accumulated tool, the input that tool's text means, and the fragments that
   tool emitted.
   */
  lemma ChatTrace<I>(env: Env<I>, arrivals: seq<Arrival>, aborted: bool)
    ensures Listed(START) && WellFormed(Decode(env, START, arrivals, aborted).0)
    ensures Explained(env, Final(env, START, arrivals).tools, map[], Decode(env, START, arrivals, aborted).0)
  {
    hide Inv, Decode, AllEndedFrom, Follow;
    StartInv(env);
    StartListed();
    DecodeSteps(env, START, map[], arrivals, aborted);
  }

  lemma StartListed()
    ensures Listed(START)
  {}

  // ---- When the fragments spell the parsed text --------------------------------------------------

  /**
   Exactly when the fragments of a started call spell the text its input is parsed from:
   unless it turned custom after function characters had been emitted, and those are not
   how the custom text begins.
   */
  lemma FragmentsSpellText(t: Tool)
    requires ToolOk(t) && t.started
    ensures Emitted(t) == Text(t) <==>
            (t.custom ==> t.handover <= |t.customInput| && t.customInput[..t.handover] == t.arguments[..t.handover])
  {
    if t.custom {
      if t.handover < t.emitted && t.handover <= |t.customInput| {
        assert t.customInput == t.customInput[..t.handover] + t.customInput[t.handover..];
        assert (t.arguments[..t.handover] + t.customInput[t.handover..])[..t.handover] == t.arguments[..t.handover];
      } else if t.handover == |t.customInput| {
        assert t.customInput[..t.handover] == t.customInput;
      }
    }
  }

  // ---- Mixing the two ----------------------------------------------------------------------------

  const FUNCTION_PART := ToolDelta(0, "a", "f", "{}", "", None)
  const CUSTOM_PART := ToolDelta(0, "", "", "", "", Some("x"))

  /** One chunk in which one tool index sends function arguments and then custom input, and the end. */
  const MIXED_CHUNK := Arrival(false, Chunk(One(Some("stop"), Some(
    Delta("", false, [], Tools([Some(FUNCTION_PART), Some(CUSTOM_PART)]))))))

  const AFTER_FUNCTION_PART := Tool(0, "a", "f", "{}", "", false, true, 2, 0)
  const AFTER_CUSTOM_PART := Tool(0, "a", "f", "{}", "x", true, true, 2, 2)

  /** The state in which the chunk has left the decoder, for each of the two. */
  function MixedState(t: Tool): State {
    State(map[0 := t], [0], Some("stop"), true, 1, None, None)
  }

  /** Custom tools whose input is their text. */
  function TextEnv(): Env<string> {
    Env([], (s: string) => None, "", (s: string) => Some("input"), (property: string, s: string) => s)
  }

  lemma FunctionPartRead()
    ensures ReadTool(TextEnv(), START.(finish := Some("stop")), Some(FUNCTION_PART)) ==
            Outcome([CallStart(0, "a", "f"), CallDelta(0, "a", "{}")], MixedState(AFTER_FUNCTION_PART), None)
  {}

  lemma CustomPartRead()
    ensures ReadTool(TextEnv(), MixedState(AFTER_FUNCTION_PART), Some(CUSTOM_PART)) ==
            Outcome([], MixedState(AFTER_CUSTOM_PART), None)
  {
    assert Merge(AFTER_FUNCTION_PART, CUSTOM_PART) == AFTER_CUSTOM_PART;
    assert Emit(TextEnv(), AFTER_CUSTOM_PART) == ([], AFTER_CUSTOM_PART);
    assert MixedState(AFTER_FUNCTION_PART).tools[0 := AFTER_CUSTOM_PART] == MixedState(AFTER_CUSTOM_PART).tools;
  }

  lemma MixedPartsRead()
    ensures ReadTools(TextEnv(), START.(finish := Some("stop")), [Some(FUNCTION_PART), Some(CUSTOM_PART)]) ==
            Outcome([CallStart(0, "a", "f"), CallDelta(0, "a", "{}")], MixedState(AFTER_CUSTOM_PART), None)
  {
    hide ReadTool, MixedState, TextEnv;
    FunctionPartRead();
    CustomPartRead();
    var env, items := TextEnv(), [Some(FUNCTION_PART), Some(CUSTOM_PART)];
    assert items[1..] == [Some(CUSTOM_PART)] && items[1..][1..] == [];
    assert ReadTools(env, MixedState(AFTER_FUNCTION_PART), items[1..]) == Outcome([], MixedState(AFTER_CUSTOM_PART), None);
  }

  lemma MixedEnd()
    ensures Listed(MixedState(AFTER_CUSTOM_PART))
    ensures Finish(TextEnv(), MixedState(AFTER_CUSTOM_PART), false).0 ==
            [CallEnd(0, "a", "f", "x"), Completed(ToolUse, false)]
  {}

  /** Without the assumption the property fails: the fragments spell "{}", and the input is parsed from "x". */
  lemma MixedInputBreaksFragments()
    ensures Listed(START)
    ensures Decode(TextEnv(), START, [MIXED_CHUNK], false).0 ==
            [CallStart(0, "a", "f"), CallDelta(0, "a", "{}"), CallEnd(0, "a", "f", "x"), Completed(ToolUse, false)]
  {
    hide ReadTools, Finish, Listed, TextEnv, MixedState;
    StartListed();
    MixedPartsRead();
    MixedEnd();
    var env, events := TextEnv(), [CallStart(0, "a", "f"), CallDelta(0, "a", "{}")];
    FrameKeepsListed(env, START, MIXED_CHUNK);
    assert FirstReasoning([]) == "" && [] + ([] + events) == events;
    assert ReadFrame(env, START, MIXED_CHUNK) == Outcome(events, MixedState(AFTER_CUSTOM_PART), None);
    assert [MIXED_CHUNK][1..] == [];
  }
}
