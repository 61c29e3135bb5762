/** Every trace of the Bedrock decoder is well formed, and its argument fragments spell the parsed text. */
module BedrockStreamProofs {
  import opened Prelude
  import opened StreamTrace
  import opened BedrockStream
  import ToolNames

  // ---- The decoder's state and the trace so far ------------------------------------------------

  /** What an active block has put into the trace. */
  predicate Fits<I(==)>(env: Env<I>, b: Active, blocks: map<nat, Block<I>>) {
    var c := b.contentIndex;
    match b
    case TextActive(_) => c !in blocks || blocks[c].TextBlock?
    case ThinkingActive(_, _, _, _) => c !in blocks || blocks[c].ThinkingBlock?
    case ToolActive(_, id, name, text) =>
      c in blocks && blocks[c] == OpenCall(id, ToolNames.ReverseName(env.tools, name), text)
  }

  /** Ended calls have the input their fragments spell. */
  ghost predicate Spelled<I>(env: Env<I>, b: Block<I>) {
    b.EndedCall? ==> env.json(Parsed(b.text)) == Some(b.input)
  }

  ghost predicate Inv<I>(env: Env<I>, active: map<nat, Active>, next: nat, blocks: map<nat, Block<I>>) {
    && (forall c :: c in blocks ==> c < next && Spelled(env, blocks[c]))
    && (forall i :: i in active ==> active[i].contentIndex < next && Fits(env, active[i], blocks))
    && (forall i, j :: i in active && j in active && i != j ==> active[i].contentIndex != active[j].contentIndex)
    && (forall c :: c in blocks && blocks[c].OpenCall? ==>
                      exists i :: i in active && active[i].ToolActive? && active[i].contentIndex == c)
  }

  /** The events fit the trace so far, and the state after them still describes it. */
  ghost predicate Steps<I>(env: Env<I>, blocks: map<nat, Block<I>>, o: Outcome<I>) {
    var track := Follow(Track(blocks, false), o.events);
    track.Some? && !track.value.ended && Inv(env, o.state.active, o.state.next, track.value.blocks)
  }

  lemma NothingSteps<I>(env: Env<I>, blocks: map<nat, Block<I>>, o: Outcome<I>)
    requires Inv(env, o.state.active, o.state.next, blocks) && o.events == []
    ensures Steps(env, blocks, o)
  {}

  lemma OneSteps<I>(env: Env<I>, blocks: map<nat, Block<I>>, o: Outcome<I>, e: Event<I>, after: map<nat, Block<I>>)
    requires Accept(Track(blocks, false), e) == Some(Track(after, false)) && Inv(env, o.state.active, o.state.next, after)
    requires o.events == [e]
    ensures Steps(env, blocks, o)
  {}

  lemma StepsJoin<I>(env: Env<I>, blocks: map<nat, Block<I>>, events: seq<Event<I>>, mid: map<nat, Block<I>>, o: Outcome<I>)
    requires Follow(Track(blocks, false), events) == Some(Track(mid, false)) && Steps(env, mid, o)
    ensures Steps(env, blocks, o.(events := events + o.events))
  {
    hide Inv, Follow;
    FollowJoins(Track(blocks, false), events, o.events);
  }

  // ---- One block changes, or goes ----------------------------------------------------------------

  /** One active block changes or is added; the trace changes at its index only. */
  lemma InvChange<I>(env: Env<I>, active: map<nat, Active>, next: nat, next': nat, blocks: map<nat, Block<I>>,
                     after: map<nat, Block<I>>, index: nat, b: Active)
    requires Inv(env, active, next, blocks) && next <= next' && b.contentIndex < next'
    requires if index in active then active[index].contentIndex == b.contentIndex else b.contentIndex == next
    requires Fits(env, b, after)
    requires after == blocks || (b.contentIndex in after && after == blocks[b.contentIndex := after[b.contentIndex]])
    requires b.contentIndex in after ==> (after[b.contentIndex].OpenCall? ==> b.ToolActive?) && Spelled(env, after[b.contentIndex])
    ensures Inv(env, active[index := b], next', after)
  {
    hide Spelled;
    var c, active' := b.contentIndex, active[index := b];
    forall i | i in active && i != index ensures active[i].contentIndex != c && Fits(env, active[i], after) {
      assert Fits(env, active[i], blocks);
    }
    forall k | k in after ensures k < next' && Spelled(env, after[k]) {
    }
    forall k | k in after && after[k].OpenCall?
      ensures exists i :: i in active' && active'[i].ToolActive? && active'[i].contentIndex == k
    {
      if k == c {
        assert index in active' && active'[index].contentIndex == k;
      } else {
        var i :| i in active && active[i].ToolActive? && active[i].contentIndex == k;
        assert i in active' && active'[i].contentIndex == k;
      }
    }
  }

  /** One active block goes; if the trace changes, then at its index only, and not to an open call. */
  lemma InvRemove<I>(env: Env<I>, active: map<nat, Active>, next: nat, blocks: map<nat, Block<I>>, after: map<nat, Block<I>>, index: nat)
    requires Inv(env, active, next, blocks) && index in active
    requires var c := active[index].contentIndex;
      && (after == blocks || (c in after && after == blocks[c := after[c]]))
      && (c in after ==> !after[c].OpenCall? && Spelled(env, after[c]))
    ensures Inv(env, active - {index}, next, after)
  {
    hide Spelled;
    var c, active' := active[index].contentIndex, active - {index};
    forall i | i in active' ensures active'[i].contentIndex < next && Fits(env, active'[i], after) {
      assert i in active && i != index && Fits(env, active[i], blocks);
    }
    forall k | k in after && after[k].OpenCall?
      ensures exists i :: i in active' && active'[i].ToolActive? && active'[i].contentIndex == k
    {
      var i :| i in active && active[i].ToolActive? && active[i].contentIndex == k;
      assert i in active' && active'[i].contentIndex == k;
    }
  }

  lemma ActiveFits<I>(env: Env<I>, active: map<nat, Active>, next: nat, blocks: map<nat, Block<I>>, index: nat)
    requires Inv(env, active, next, blocks)
    ensures next !in blocks
    ensures index in active ==> active[index].contentIndex < next && Fits(env, active[index], blocks)
    ensures forall c :: c in blocks ==> Spelled(env, blocks[c])
  {}

  // ---- Each event ----------------------------------------------------------------------------

  lemma OpenStep<I>(env: Env<I>, st: State, blocks: map<nat, Block<I>>, index: nat, id: string, name: string)
    requires Inv(env, st.active, st.next, blocks)
    ensures Steps(env, blocks, OpenTool(env, st, index, id, name))
  {
    hide Inv, Steps;
    var o := OpenTool(env, st, index, id, name);
    ActiveFits(env, st.active, st.next, blocks, index);
    if o.stop.Some? {
      NothingSteps(env, blocks, o);
    } else {
      var b := ToolActive(st.next, id, name, "");
      var after := blocks[st.next := OpenCall(id, ToolNames.ReverseName(env.tools, name), "")];
      InvChange(env, st.active, st.next, st.next + 1, blocks, after, index, b);
      OneSteps(env, blocks, o, o.events[0], after);
    }
  }

  /** Looking a block up, or adding an empty text or thinking block, leaves the trace alone. */
  lemma LocateStep<I>(env: Env<I>, st: State, blocks: map<nat, Block<I>>, index: nat, b: Active)
    requires Inv(env, st.active, st.next, blocks) && b.contentIndex == st.next && !b.ToolActive?
    ensures var (located, block) := Locate(st, index, b);
      && Inv(env, located.active, located.next, blocks) && index in located.active && located.active[index] == block
      && Fits(env, block, blocks) && located.emittedContent == st.emittedContent && block.contentIndex < located.next
  {
    hide Inv;
    ActiveFits(env, st.active, st.next, blocks, index);
    if index !in st.active {
      InvChange(env, st.active, st.next, st.next + 1, blocks, blocks, index, b);
    }
  }

  lemma TextStep<I>(env: Env<I>, st: State, blocks: map<nat, Block<I>>, index: nat, text: Field<string>)
    requires Inv(env, st.active, st.next, blocks)
    ensures Steps(env, blocks, ReadText(st, index, text))
  {
    hide Inv, Steps, Locate;
    var o: Outcome<I> := ReadText(st, index, text);
    LocateStep(env, st, blocks, index, TextActive(st.next));
    if o.events == [] {
      NothingSteps(env, blocks, o);
    } else {
      var (located, block) := Locate(st, index, TextActive(st.next));
      var after := blocks[block.contentIndex := TextBlock];
      InvChange(env, located.active, located.next, located.next, blocks, after, index, block);
      assert located.active[index := block] == located.active;
      OneSteps(env, blocks, o, o.events[0], after);
    }
  }

  lemma ToolInputStep<I>(env: Env<I>, st: State, blocks: map<nat, Block<I>>, index: nat, input: Field<string>)
    requires Inv(env, st.active, st.next, blocks)
    ensures Steps(env, blocks, ReadToolInput(st, index, input))
  {
    hide Inv, Steps;
    var o: Outcome<I> := ReadToolInput(st, index, input);
    ActiveFits(env, st.active, st.next, blocks, index);
    if o.stop.Some? {
      NothingSteps(env, blocks, o);
    } else {
      var block := st.active[index];
      var grown := block.(argumentsText := block.argumentsText + input.value);
      var after := blocks[block.contentIndex := OpenCall(block.callId, ToolNames.ReverseName(env.tools, block.wireName), grown.argumentsText)];
      InvChange(env, st.active, st.next, st.next, blocks, after, index, grown);
      if input.value == "" {
        assert grown.argumentsText == block.argumentsText && after == blocks;
        NothingSteps(env, blocks, o);
      } else {
        OneSteps(env, blocks, o, o.events[0], after);
      }
    }
  }

  lemma MarksStep<I>(env: Env<I>, st: State, blocks: map<nat, Block<I>>, index: nat, block: Active, signature: Field<string>, redacted: Field<string>)
    requires Inv(env, st.active, st.next, blocks) && block.ThinkingActive?
    requires index in st.active && st.active[index].contentIndex == block.contentIndex && Fits(env, block, blocks)
    ensures Steps(env, blocks, ReadMarks(st, index, block, signature, redacted))
  {
    hide Inv, Steps;
    var o: Outcome<I> := ReadMarks(st, index, block, signature, redacted);
    ActiveFits(env, st.active, st.next, blocks, index);
    if signature.Malformed? {
      NothingSteps(env, blocks, o);
    } else {
      var changed := o.state.active[index];
      var after := if o.events == [] then blocks else blocks[block.contentIndex := ThinkingBlock];
      InvChange(env, st.active, st.next, st.next, blocks, after, index, changed);
      if o.events == [] {
        NothingSteps(env, blocks, o);
      } else {
        OneSteps(env, blocks, o, o.events[0], after);
      }
    }
  }

  lemma ReasoningStep<I>(env: Env<I>, st: State, blocks: map<nat, Block<I>>, index: nat, c: Change)
    requires Inv(env, st.active, st.next, blocks) && c.Reasoning?
    ensures Steps(env, blocks, ReadReasoning(st, index, c))
  {
    hide Inv, Locate, ReadMarks, Follow, Steps;
    LocateStep(env, st, blocks, index, ThinkingActive(st.next, "", false, []));
    var (located, block) := Locate(st, index, ThinkingActive(st.next, "", false, []));
    var o: Outcome<I> := ReadReasoning(st, index, c);
    if !block.ThinkingActive? || c.text.Malformed? {
      NothingSteps(env, blocks, o);
    } else if c.text.Absent? || c.text.value == "" {
      MarksStep(env, located, blocks, index, block, c.signature, c.redacted);
    } else {
      var after, e := blocks[block.contentIndex := ThinkingBlock], ThinkingDelta(block.contentIndex, c.text.value);
      ActiveFits(env, located.active, located.next, blocks, index);
      InvChange(env, located.active, located.next, located.next, blocks, after, index, block);
      assert located.active[index := block] == located.active;
      MarksStep(env, located.(emittedContent := true), after, index, block, c.signature, c.redacted);
      FollowOne(Track(blocks, false), e);
      StepsJoin(env, blocks, [e], after, ReadMarks(located.(emittedContent := true), index, block, c.signature, c.redacted));
    }
  }

  lemma CloseStep<I>(env: Env<I>, st: State, blocks: map<nat, Block<I>>, index: nat)
    requires Inv(env, st.active, st.next, blocks)
    ensures Steps(env, blocks, CloseBlock(env, st, index))
  {
    hide Inv, Steps;
    var o := CloseBlock(env, st, index);
    ActiveFits(env, st.active, st.next, blocks, index);
    if o.stop.Some? {
      NothingSteps(env, blocks, o);
    } else {
      var b := st.active[index];
      if o.events == [] {
        InvRemove(env, st.active, st.next, blocks, blocks, index);
        NothingSteps(env, blocks, o);
      } else {
        var e := o.events[0];
        var after := Accept(Track(blocks, false), e).value.blocks;
        InvRemove(env, st.active, st.next, blocks, after, index);
        OneSteps(env, blocks, o, e, after);
      }
    }
  }

  lemma FrameStep<I>(env: Env<I>, st: State, blocks: map<nat, Block<I>>, a: Arrival)
    requires Inv(env, st.active, st.next, blocks)
    ensures ReadFrame(env, st, a).stop != Some(Returned) ==> Steps(env, blocks, ReadFrame(env, st, a))
  {
    hide Inv, Steps, ReadText, ReadToolInput, ReadReasoning, OpenTool, CloseBlock;
    var o := ReadFrame(env, st, a);
    if !a.aborted {
      match a.frame
      case BlockStart(Some(index), id, name) => OpenStep(env, st, blocks, index, id, name);
      case BlockDelta(Some(index), Some(Text(text))) => TextStep(env, st, blocks, index, text);
      case BlockDelta(Some(index), Some(ToolInput(input))) => ToolInputStep(env, st, blocks, index, input);
      case BlockDelta(Some(index), Some(Reasoning(t, s, r))) => ReasoningStep(env, st, blocks, index, Reasoning(t, s, r));
      case BlockStop(Some(index)) => CloseStep(env, st, blocks, index);
      case Exception(_) =>
      case _ => NothingSteps(env, blocks, o);
    }
  }

  // ---- The whole stream ------------------------------------------------------------------------

  /** The events fit, and every ended call has the input its fragments spell. */
  ghost predicate WellSpelled<I>(env: Env<I>, blocks: map<nat, Block<I>>, events: seq<Event<I>>) {
    var track := Follow(Track(blocks, false), events);
    track.Some? && forall c :: c in track.value.blocks ==> Spelled(env, track.value.blocks[c])
  }

  lemma {:induction false} CloseAllSteps<I>(env: Env<I>, st: State, blocks: map<nat, Block<I>>, indexes: seq<nat>)
    requires Inv(env, st.active, st.next, blocks)
    ensures Steps(env, blocks, CloseAll(env, st, indexes))
    ensures CloseAll(env, st, indexes).stop.None? ==>
              CloseAll(env, st, indexes).state.active.Keys == st.active.Keys - (set i | i in indexes)
    decreases |indexes|
  {
    hide Inv, CloseBlock, Follow;
    if indexes == [] {
      NothingSteps(env, blocks, CloseAll(env, st, indexes));
    } else {
      CloseStep(env, st, blocks, indexes[0]);
      var o := CloseBlock(env, st, indexes[0]);
      if o.stop.None? {
        var mid := Follow(Track(blocks, false), o.events).value.blocks;
        CloseAllSteps(env, o.state, mid, indexes[1..]);
        StepsJoin(env, blocks, o.events, mid, CloseAll(env, o.state, indexes[1..]));
        ClosedIsGone(env, st, indexes[0]);
        assert indexes == [indexes[0]] + indexes[1..];
      }
    }
  }

  lemma ClosedIsGone<I>(env: Env<I>, st: State, index: nat)
    requires CloseBlock(env, st, index).stop.None?
    ensures CloseBlock(env, st, index).state.active.Keys == st.active.Keys - {index}
  {}

  lemma NothingActive<I>(env: Env<I>, next: nat, blocks: map<nat, Block<I>>)
    requires Inv(env, map[], next, blocks)
    ensures NoOpenCall(blocks)
  {}

  lemma StepsAreSpelled<I>(env: Env<I>, blocks: map<nat, Block<I>>, o: Outcome<I>)
    requires Steps(env, blocks, o)
    ensures WellSpelled(env, blocks, o.events)
  {}

  lemma EndIsSpelled<I>(env: Env<I>, blocks: map<nat, Block<I>>, e: Event<I>)
    requires e.Aborted? || e.Failure? || (e.Completed? && NoOpenCall(blocks))
    requires forall c :: c in blocks ==> Spelled(env, blocks[c])
    ensures WellSpelled(env, blocks, [e])
  {}

  lemma SpelledJoin<I>(env: Env<I>, blocks: map<nat, Block<I>>, events: seq<Event<I>>, mid: map<nat, Block<I>>, rest: seq<Event<I>>)
    requires Follow(Track(blocks, false), events) == Some(Track(mid, false)) && WellSpelled(env, mid, rest)
    ensures WellSpelled(env, blocks, events + rest)
  {
    hide Spelled, Follow;
    FollowJoins(Track(blocks, false), events, rest);
  }

  lemma FinishStep<I>(env: Env<I>, st: State, blocks: map<nat, Block<I>>, aborted: bool)
    requires Inv(env, st.active, st.next, blocks)
    ensures WellSpelled(env, blocks, Finish(env, st, aborted).0)
  {
    hide Inv, Spelled, Follow, WellSpelled, CloseAll;
    ActiveFits(env, st.active, st.next, blocks, 0);
    if aborted {
      EndIsSpelled(env, blocks, Aborted(st.emittedContent));
    } else if st.stopReason.None? {
      NothingSteps(env, blocks, Outcome([], st, None));
      StepsAreSpelled(env, blocks, Outcome([], st, None));
    } else {
      var indexes := Ascending(st.active.Keys);
      CloseAllSteps(env, st, blocks, indexes);
      var o := CloseAll(env, st, indexes);
      StepsAreSpelled(env, blocks, o);
      if o.stop.None? {
        var mid := Follow(Track(blocks, false), o.events).value.blocks;
        assert o.state.active == map[];
        NothingActive(env, o.state.next, mid);
        ActiveFits(env, o.state.active, o.state.next, mid, 0);
        EndIsSpelled(env, mid, Closing(st.stopReason.value, o.state));
        SpelledJoin(env, blocks, o.events, mid, [Closing(st.stopReason.value, o.state)]);
      }
    }
  }

  lemma {:induction false} DecodeSteps<I>(env: Env<I>, st: State, blocks: map<nat, Block<I>>, arrivals: seq<Arrival>, aborted: bool)
    requires Inv(env, st.active, st.next, blocks)
    ensures WellSpelled(env, blocks, Decode(env, st, arrivals, aborted).0)
    decreases |arrivals|
  {
    hide Inv, Follow, ReadFrame, Finish, WellSpelled, Spelled;
    if arrivals == [] {
      FinishStep(env, st, blocks, aborted);
    } else {
      var o := ReadFrame(env, st, arrivals[0]);
      FrameStep(env, st, blocks, arrivals[0]);
      if o.stop == Some(Returned) {
        ReturningFrame(env, st, arrivals[0]);
        ActiveFits(env, st.active, st.next, blocks, 0);
        EndIsSpelled(env, blocks, o.events[0]);
        assert o.events == [o.events[0]];
      } else {
        StepsAreSpelled(env, blocks, o);
        if o.stop.None? {
          var mid := Follow(Track(blocks, false), o.events).value.blocks;
          DecodeSteps(env, o.state, mid, arrivals[1..], aborted);
          SpelledJoin(env, blocks, o.events, mid, Decode(env, o.state, arrivals[1..], aborted).0);
        }
      }
    }
  }

  /** Only an abort or a provider failure ends the stream before its end. */
  lemma ReturningFrame<I>(env: Env<I>, st: State, a: Arrival)
    requires ReadFrame(env, st, a).stop == Some(Returned)
    ensures |ReadFrame(env, st, a).events| == 1
    ensures ReadFrame(env, st, a).events[0].Aborted? || ReadFrame(env, st, a).events[0].Failure?
  {}

  /**
   For every sequence of events the trace is well formed, and every call that ends has the
   input its fragments spell; no assumption on the provider is needed.
   */
  lemma BedrockTrace<I>(env: Env<I>, arrivals: seq<Arrival>, aborted: bool)
    ensures WellFormed(Decode(env, START, arrivals, aborted).0)
    ensures WellSpelled(env, map[], Decode(env, START, arrivals, aborted).0)
  {
    hide Decode;
    StartInv(env);
    DecodeSteps(env, START, map[], arrivals, aborted);
  }

  lemma StartInv<I>(env: Env<I>)
    ensures Inv(env, START.active, START.next, map[])
  {}
}
