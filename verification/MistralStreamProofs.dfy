/** Every trace of the Mistral decoder is well formed, and its argument fragments spell the parsed text. */
module MistralStreamProofs {
  import opened Prelude
  import opened StreamTrace
  import opened MistralStream
  import Chat = OpenAiChat
  import opened OpenAiChatProofs

  type Blocks<I> = map<nat, Block<I>>

  /** The Chat decoder's relation between state and trace, for this decoder's outcomes. */
  ghost predicate Fits<I>(env: Env<I>, blocks: Blocks<I>, o: Outcome<I>) {
    Steps(env.chat, blocks, Chat.Outcome(o.events, o.state, None))
  }

  lemma FitsJoin<I>(env: Env<I>, blocks: Blocks<I>, first: Outcome<I>, rest: Outcome<I>)
    requires Fits(env, blocks, first) && Fits(env, BlocksAfter(blocks, first.events), rest)
    ensures Fits(env, blocks, Prepend(first.events, rest))
  {
    hide Inv, Follow;
    StepsJoin(env.chat, blocks, first.events, BlocksAfter(blocks, first.events), Chat.Outcome(rest.events, rest.state, None));
  }

  lemma NothingFits<I>(env: Env<I>, blocks: Blocks<I>, o: Outcome<I>)
    requires Inv(env.chat, o.state, blocks) && o.events == []
    ensures Fits(env, blocks, o)
  {
    NothingSteps(env.chat, o.state, blocks, None);
  }

  /** Forgetting the current content leaves the relation intact: its index is never used again. */
  lemma ForgettingKeepsInv<I>(env: Env<I>, st: Chat.State, blocks: Blocks<I>)
    requires Inv(env.chat, st, blocks)
    ensures Inv(env.chat, st.(textIndex := None), blocks) && Inv(env.chat, st.(thinkingIndex := None), blocks)
    ensures Inv(env.chat, NoCurrent(st), blocks)
  {
    hide ToolsInv, Chat.ListedIn;
  }

  lemma ItemFits<I>(env: Env<I>, st: Chat.State, blocks: Blocks<I>, item: Item)
    requires Inv(env.chat, st, blocks)
    ensures Fits(env, blocks, ReadItem(st, item))
  {
    hide Inv, Follow, Chat.ReadText, Chat.ReadThinking, Steps;
    ForgettingKeepsInv(env, st, blocks);
    if item.MalformedItem? || item.text == "" {
      NothingFits(env, blocks, ReadItem(st, item));
    } else if item.TextItem? {
      TextStep(env.chat, st.(thinkingIndex := None), blocks, item.text);
      StopDoesNotMatter(env.chat, blocks, Chat.ReadText(st.(thinkingIndex := None), item.text), None);
    } else {
      ThinkingStep(env.chat, st.(textIndex := None), blocks, item.text);
      StopDoesNotMatter(env.chat, blocks, Chat.ReadThinking(st.(textIndex := None), item.text), None);
    }
  }

  lemma {:induction false} ItemsFit<I>(env: Env<I>, st: Chat.State, blocks: Blocks<I>, items: seq<Item>)
    requires Inv(env.chat, st, blocks)
    ensures Fits(env, blocks, ReadItems(st, items))
    decreases |items|
  {
    hide Inv, Follow, ReadItem;
    if items == [] {
      NothingFits(env, blocks, ReadItems(st, items));
    } else {
      var o: Outcome<I> := ReadItem(st, items[0]);
      ItemFits(env, st, blocks, items[0]);
      if o.stop.None? {
        ItemsFit(env, o.state, BlocksAfter(blocks, o.events), items[1..]);
        FitsJoin(env, blocks, o, ReadItems(o.state, items[1..]));
      }
    }
  }

  lemma {:induction false} FragmentsFit<I>(env: Env<I>, st: Chat.State, blocks: Blocks<I>, items: seq<Result<Fragment, Error>>)
    requires Inv(env.chat, st, blocks)
    ensures Fits(env, blocks, ReadFragments(env, st, items))
    decreases |items|
  {
    hide Inv, Follow, Chat.ReadTool;
    if items == [] || items[0].Err? {
      NothingFits(env, blocks, ReadFragments(env, st, items));
    } else {
      var item := Some(FragmentDelta(env, items[0].value));
      ToolStep(env.chat, st, blocks, item);
      StopDoesNotMatter(env.chat, blocks, Chat.ReadTool(env.chat, st, item), None);
      var o := ReadFragment(env, st, items[0]);
      FragmentsFit(env, o.state, BlocksAfter(blocks, o.events), items[1..]);
      FitsJoin(env, blocks, o, ReadFragments(env, o.state, items[1..]));
    }
  }

  lemma DeltaFits<I>(env: Env<I>, st: Chat.State, blocks: Blocks<I>, delta: Delta)
    requires Inv(env.chat, st, blocks)
    ensures Fits(env, blocks, ReadDelta(env, st, delta))
  {
    hide Inv, Follow, ReadItems, ReadFragments;
    var content: Outcome<I> := ReadContent(st, delta.content);
    if delta.content.Items? {
      ItemsFit(env, st, blocks, delta.content.items);
    } else {
      NothingFits(env, blocks, content);
    }
    if content.stop.None? && delta.tools.Tools? {
      var mid := BlocksAfter(blocks, content.events);
      ForgettingKeepsInv(env, content.state, mid);
      FragmentsFit(env, NoCurrent(content.state), mid, delta.tools.items);
      FitsJoin(env, blocks, content, ReadFragments(env, NoCurrent(content.state), delta.tools.items));
    }
  }

  lemma FrameFits<I>(env: Env<I>, st: Chat.State, blocks: Blocks<I>, a: Arrival)
    requires Inv(env.chat, st, blocks)
    ensures ReadFrame(env, st, a).stop != Some(Returned) ==> Fits(env, blocks, ReadFrame(env, st, a))
    ensures ReadFrame(env, st, a).stop == Some(Returned) ==>
              ReadFrame(env, st, a).events == [Aborted(st.emittedContent)] ||
              exists code :: ReadFrame(env, st, a).events == [Failure(code, st.emittedContent)]
  {
    hide Inv, Follow, ReadDelta, Fits;
    var o := ReadFrame(env, st, a);
    NothingFits(env, blocks, Outcome([], st, o.stop));
    if !a.aborted && a.frame.Chunk? && a.frame.choices.One? {
      var finish, delta := a.frame.choices.finish, a.frame.choices.delta;
      if !finish.MalformedReason? && finish != Given("") {
        var finished := if finish.Given? then st.(finish := Some(finish.reason)) else st;
        if finish.Given? {
          FinishDoesNotMatter(env.chat, st, blocks, Some(finish.reason));
        }
        NothingFits(env, blocks, Outcome([], finished, o.stop));
        if delta.Some? {
          DeltaFits(env, finished, blocks, delta.value);
          DeltaNeverReturns(env, finished, delta.value);
        }
      }
    }
  }

  lemma {:induction false} ItemsNeverReturn<I>(st: Chat.State, items: seq<Item>)
    ensures ReadItems<I>(st, items).stop != Some(Returned)
    decreases |items|
  {
    if items != [] {
      ItemsNeverReturn<I>(ReadItem<I>(st, items[0]).state, items[1..]);
    }
  }

  lemma {:induction false} FragmentsNeverReturn<I>(env: Env<I>, st: Chat.State, items: seq<Result<Fragment, Error>>)
    ensures ReadFragments(env, st, items).stop != Some(Returned)
    decreases |items|
  {
    hide Chat.ReadTool;
    if items != [] {
      FragmentsNeverReturn(env, ReadFragment(env, st, items[0]).state, items[1..]);
    }
  }

  lemma DeltaNeverReturns<I>(env: Env<I>, st: Chat.State, delta: Delta)
    ensures ReadDelta(env, st, delta).stop != Some(Returned)
  {
    hide ReadItems, ReadFragments;
    if delta.content.Items? {
      ItemsNeverReturn<I>(st, delta.content.items);
    }
    if delta.tools.Tools? {
      FragmentsNeverReturn(env, NoCurrent(ReadContent<I>(st, delta.content).state), delta.tools.items);
    }
  }

  // ---- The whole stream ------------------------------------------------------------------------

  /** The state in which the calls are ended. */
  function Final<I>(env: Env<I>, st: Chat.State, arrivals: seq<Arrival>): Chat.State
    decreases |arrivals|
  {
    if arrivals == [] then st
    else
      var o := ReadFrame(env, st, arrivals[0]);
      if o.stop.Some? then o.state else Final(env, o.state, arrivals[1..])
  }

  lemma FinishFits<I>(env: Env<I>, st: Chat.State, blocks: Blocks<I>, aborted: bool)
    requires Inv(env.chat, st, blocks) && Chat.Listed(st)
    ensures Explained(env.chat, st.tools, blocks, Finish(env, st, aborted).0)
  {
    hide Inv, Explained, EndsFit, Remaining, AllEndedFrom, Chat.EndCalls, Chat.Sorted, Chat.Listed;
    AllRemain(env.chat, st, blocks);
    AbortFits(env.chat, st.tools, blocks, st.emittedContent);
    if !aborted && st.finish.Some? {
      Chat.SortedKeeps(st.order);
      ListedTools(st);
      EndsStep(env.chat, st.tools, Chat.Sorted(st.order), blocks);
      var (calls, error) := Chat.EndCalls(env.chat, st.tools, Chat.Sorted(st.order));
      if error.None? {
        ClosingFits(env.chat, st.tools, blocks, calls, Closing(st.finish.value, calls != [], st.emittedContent));
      } else {
        EndsAreExplained(env.chat, st.tools, blocks, calls);
      }
    }
  }

  lemma {:induction false} DecodeFits<I>(env: Env<I>, st: Chat.State, blocks: Blocks<I>, arrivals: seq<Arrival>, aborted: bool)
    requires Inv(env.chat, st, blocks) && Chat.Listed(st)
    ensures Explained(env.chat, Final(env, st, arrivals).tools, blocks, Decode(env, st, arrivals, aborted).0)
    decreases |arrivals|
  {
    hide Inv, Follow, ReadFrame, Finish, Explained, AllEndedFrom, Chat.Listed;
    if arrivals == [] {
      FinishFits(env, st, blocks, aborted);
    } else {
      var o := ReadFrame(env, st, arrivals[0]);
      FrameFits(env, st, blocks, arrivals[0]);
      FrameKeepsListed(env, st, arrivals[0]);
      if o.stop == Some(Returned) {
        ReturnKeepsState(env, st, arrivals[0]);
        NothingEnded(env.chat, st, blocks);
        AbortFits(env.chat, st.tools, blocks, st.emittedContent);
      } else {
        var mid := BlocksAfter(blocks, o.events);
        if o.stop.None? {
          DecodeFits(env, o.state, mid, arrivals[1..], aborted);
          ExplainedJoins(env.chat, Final(env, st, arrivals).tools, blocks, o.events, mid, Decode(env, o.state, arrivals[1..], aborted).0);
        } else if o.stop == Some(DoneSeen) {
          FinishFits(env, o.state, mid, aborted);
          ExplainedJoins(env.chat, o.state.tools, blocks, o.events, mid, Finish(env, o.state, aborted).0);
        } else {
          NothingEnded(env.chat, o.state, mid);
          JustExplained(env.chat, o.state.tools, blocks, o.events, mid);
        }
      }
    }
  }

  lemma ReturnKeepsState<I>(env: Env<I>, st: Chat.State, a: Arrival)
    requires ReadFrame(env, st, a).stop == Some(Returned)
    ensures ReadFrame(env, st, a).state == st
  {
    hide ReadDelta;
    if !a.aborted && a.frame.Chunk? && a.frame.choices.One? && a.frame.choices.delta.Some? {
      var finish := a.frame.choices.finish;
      DeltaNeverReturns(env, if finish.Given? then st.(finish := Some(finish.reason)) else st, a.frame.choices.delta.value);
    }
  }

  // ---- No call is custom -----------------------------------------------------------------------

  ghost predicate Plain(tools: map<nat, Chat.Tool>) {
    forall i :: i in tools ==> !tools[i].custom
  }

  lemma {:induction false} FragmentsStayPlain<I>(env: Env<I>, st: Chat.State, items: seq<Result<Fragment, Error>>)
    requires Plain(st.tools)
    ensures Plain(ReadFragments(env, st, items).state.tools)
    decreases |items|
  {
    if items != [] && items[0].Ok? {
      FragmentsStayPlain(env, ReadFragment(env, st, items[0]).state, items[1..]);
    }
  }

  lemma FrameStaysPlain<I>(env: Env<I>, st: Chat.State, a: Arrival)
    requires Plain(st.tools)
    ensures Plain(ReadFrame(env, st, a).state.tools)
  {
    hide ReadItems, ReadFragments, Plain;
    if !a.aborted && a.frame.Chunk? && a.frame.choices.One? && a.frame.choices.delta.Some? {
      var finish, delta := a.frame.choices.finish, a.frame.choices.delta.value;
      var finished := if finish.Given? then st.(finish := Some(finish.reason)) else st;
      if delta.content.Items? {
        ItemsKeepTools<I>(finished, delta.content.items);
      }
      if delta.tools.Tools? {
        FragmentsStayPlain(env, NoCurrent(ReadContent<I>(finished, delta.content).state), delta.tools.items);
      }
    }
  }

  lemma {:induction false} StreamStaysPlain<I>(env: Env<I>, st: Chat.State, arrivals: seq<Arrival>)
    requires Plain(st.tools)
    ensures Plain(Final(env, st, arrivals).tools)
    decreases |arrivals|
  {
    hide ReadFrame, Plain;
    if arrivals != [] {
      FrameStaysPlain(env, st, arrivals[0]);
      StreamStaysPlain(env, ReadFrame(env, st, arrivals[0]).state, arrivals[1..]);
    }
  }

  /** An ended call's input is what its fragments spell: nothing at all stands for the empty object. */
  ghost predicate Spelled<I>(env: Env<I>, b: Block<I>) {
    b.EndedCall? ==> (b.text == "" && b.input == env.chat.empty) || env.chat.json(b.text) == Some(b.input)
  }

  lemma PlainInput<I>(env: Chat.Env<I>, t: Chat.Tool, input: I)
    requires !t.custom && Chat.Input(env, t) == Ok(input)
    ensures (t.arguments == "" && input == env.empty) || env.json(t.arguments) == Some(input)
  {}

  lemma PlainCallIsSpelled<I>(env: Env<I>, tools: map<nat, Chat.Tool>, c: nat, b: Block<I>)
    requires Plain(tools) && EndedFrom(env.chat, tools, c, b)
    ensures Spelled(env, b)
  {
    hide Emitted;
    if b.EndedCall? {
      var i :| i in tools && tools[i].contentIndex == c && tools[i].started && ToolOk(tools[i]) &&
               Chat.Input(env.chat, tools[i]) == Ok(b.input) && b.text == Emitted(tools[i]);
      FragmentsSpellText(tools[i]);
      PlainInput(env.chat, tools[i], b.input);
    }
  }

  /**
   For every sequence of frames the trace is well formed, and every call that ends has the
   input its fragments spell; no assumption on the provider is needed.
   */
  lemma MistralTrace<I>(env: Env<I>, arrivals: seq<Arrival>, aborted: bool)
    ensures Chat.Listed(Chat.START) && WellFormed(Decode(env, Chat.START, arrivals, aborted).0)
    ensures var blocks := Follow(Track(map[], false), Decode(env, Chat.START, arrivals, aborted).0).value.blocks;
      forall c :: c in blocks ==> Spelled(env, blocks[c])
  {
    hide Inv, Decode, EndedFrom, Follow, Spelled, Plain;
    StartInv(env.chat);
    StartListed();
    NothingPlain();
    DecodeFits(env, Chat.START, map[], arrivals, aborted);
    StreamStaysPlain(env, Chat.START, arrivals);
    var blocks := Follow(Track(map[], false), Decode(env, Chat.START, arrivals, aborted).0).value.blocks;
    forall c | c in blocks ensures Spelled(env, blocks[c]) {
      PlainCallIsSpelled(env, Final(env, Chat.START, arrivals).tools, c, blocks[c]);
    }
  }

  lemma NothingPlain()
    ensures Plain(map[])
  {}
}
