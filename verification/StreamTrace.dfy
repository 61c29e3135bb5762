/**
 Traces of canonical stream events: which are well formed, what that says event by event,
 and the normalizer that closes every stream with exactly one terminal event.
 */
module StreamTrace {
  import opened Prelude

  datatype StopReason = Stop | Length | ToolUse

  datatype Event<I> =
    | TextDelta(index: nat, text: string)
    | ThinkingDelta(index: nat, text: string)
    | ReplayMetadata(index: nat, signature: string)
    | CallStart(index: nat, callId: string, name: string)
    | CallDelta(index: nat, callId: string, text: string)
    | CallEnd(index: nat, callId: string, name: string, input: I)
    | Completed(reason: StopReason, partial: bool)
    | Failure(code: string, partial: bool)
    | Aborted(partial: bool)

  predicate Terminal<I>(e: Event<I>) {
    e.Completed? || e.Failure? || e.Aborted?
  }

  // ---- Well-formed traces --------------------------------------------------------------------

  /** What the events of one content index have built so far. */
  datatype Block<I> =
    | TextBlock
    | ThinkingBlock
    | OpenCall(callId: string, name: string, text: string)
    | EndedCall(callId: string, name: string, text: string, input: I)

  datatype Track<I> = Track(blocks: map<nat, Block<I>>, ended: bool)

  predicate NoOpenCall<I>(blocks: map<nat, Block<I>>) {
    forall c :: c in blocks ==> !blocks[c].OpenCall?
  }

  /**
   The next event: an index belongs to one block of one kind; a call keeps its id and name
   and ends once; nothing follows a terminal event; completion leaves no call open.
   */
  function Accept<I>(t: Track<I>, e: Event<I>): Option<Track<I>> {
    if t.ended then None
    else match e
      case TextDelta(c, _) =>
        if c !in t.blocks || t.blocks[c].TextBlock? then Some(Track(t.blocks[c := TextBlock], false)) else None
      case ThinkingDelta(c, _) =>
        if c !in t.blocks || t.blocks[c].ThinkingBlock? then Some(Track(t.blocks[c := ThinkingBlock], false)) else None
      case ReplayMetadata(c, _) =>
        if c !in t.blocks || t.blocks[c].ThinkingBlock? then Some(Track(t.blocks[c := ThinkingBlock], false)) else None
      case CallStart(c, id, name) =>
        if c in t.blocks then None else Some(Track(t.blocks[c := OpenCall(id, name, "")], false))
      case CallDelta(c, id, text) =>
        if c in t.blocks && t.blocks[c].OpenCall? && t.blocks[c].callId == id then
          Some(Track(t.blocks[c := OpenCall(id, t.blocks[c].name, t.blocks[c].text + text)], false))
        else None
      case CallEnd(c, id, name, input) =>
        if c in t.blocks && t.blocks[c].OpenCall? && t.blocks[c].callId == id && t.blocks[c].name == name then
          Some(Track(t.blocks[c := EndedCall(id, name, t.blocks[c].text, input)], false))
        else None
      case Completed(_, _) => if NoOpenCall(t.blocks) then Some(Track(t.blocks, true)) else None
      case Failure(_, _) => Some(Track(t.blocks, true))
      case Aborted(_) => Some(Track(t.blocks, true))
  }

  function Follow<I>(t: Track<I>, es: seq<Event<I>>): Option<Track<I>>
    decreases |es|
  {
    if es == [] then Some(t)
    else match Accept(t, es[0])
      case None => None
      case Some(next) => Follow(next, es[1..])
  }

  lemma {:induction false} FollowJoins<I>(t: Track<I>, a: seq<Event<I>>, b: seq<Event<I>>)
    ensures Follow(t, a + b) == (match Follow(t, a) case None => None case Some(mid) => Follow(mid, b))
    decreases |a|
  {
    hide Accept;
    if a == [] {
      assert a + b == b;
    } else {
      assert (a + b)[1..] == a[1..] + b;
      if Accept(t, a[0]).Some? {
        FollowJoins(Accept(t, a[0]).value, a[1..], b);
      }
    }
  }

  lemma FollowOne<I>(t: Track<I>, e: Event<I>)
    ensures Follow(t, [e]) == Accept(t, e) && Follow(t, []) == Some(t)
  {}

  ghost predicate WellFormed<I>(es: seq<Event<I>>) {
    Follow(Track(map[], false), es).Some?
  }

  // ---- What a well-formed trace looks like -----------------------------------------------------

  predicate OnIndex<I>(e: Event<I>, c: nat) {
    !Terminal(e) && e.index == c
  }

  /** The events of one content index, in order. */
  function At<I>(es: seq<Event<I>>, c: nat): seq<Event<I>>
    decreases |es|
  {
    if es == [] then []
    else
      var last := es[|es| - 1];
      At(es[..|es| - 1], c) + if OnIndex(last, c) then [last] else []
  }

  /** The text of a call's fragments. */
  function Fragments<I>(es: seq<Event<I>>): string {
    if es == [] then ""
    else Fragments(es[..|es| - 1]) + if es[|es| - 1].CallDelta? then es[|es| - 1].text else ""
  }

  predicate AllFragments<I>(es: seq<Event<I>>, c: nat, id: string) {
    forall i :: 0 <= i < |es| ==> es[i].CallDelta? && es[i].index == c && es[i].callId == id
  }

  /** A start, then fragments that spell a text. */
  predicate IsOpenCall<I(==)>(es: seq<Event<I>>, c: nat, id: string, name: string, text: string) {
    |es| > 0 && es[0] == CallStart(c, id, name) && AllFragments(es[1..], c, id) && Fragments(es[1..]) == text
  }

  /** What the events of one index are, given the block they have built. */
  predicate Builds<I(==)>(es: seq<Event<I>>, c: nat, blocks: map<nat, Block<I>>) {
    if c !in blocks then es == []
    else match blocks[c]
      case TextBlock => es != [] && forall i :: 0 <= i < |es| ==> es[i].TextDelta?
      case ThinkingBlock => es != [] && forall i :: 0 <= i < |es| ==> es[i].ThinkingDelta? || es[i].ReplayMetadata?
      case OpenCall(id, name, text) => IsOpenCall(es, c, id, name, text)
      case EndedCall(id, name, text, input) =>
        |es| > 0 && es[|es| - 1] == CallEnd(c, id, name, input) && IsOpenCall(es[..|es| - 1], c, id, name, text)
  }

  lemma CallGrows<I>(es: seq<Event<I>>, c: nat, id: string, name: string, text: string, more: string)
    requires IsOpenCall(es, c, id, name, text)
    ensures IsOpenCall(es + [CallDelta(c, id, more)], c, id, name, text + more)
  {
    hide Fragments;
    var last: Event<I> := CallDelta(c, id, more);
    assert (es + [last])[1..] == es[1..] + [last];
    FragmentsGrow(es[1..], last);
  }

  lemma FragmentsGrow<I>(es: seq<Event<I>>, last: Event<I>)
    requires last.CallDelta?
    ensures Fragments(es + [last]) == Fragments(es) + last.text
  {}

  lemma BuildsStep<I>(es: seq<Event<I>>, c: nat, t: Track<I>, e: Event<I>)
    requires Builds(es, c, t.blocks) && OnIndex(e, c) && Accept(t, e).Some?
    ensures Builds(es + [e], c, Accept(t, e).value.blocks)
  {
    hide IsOpenCall;
    match e
    case CallStart(_, id, name) =>
      JustStarted<I>(c, id, name);
      assert es + [e] == [e];
    case CallDelta(_, id, more) =>
      CallGrows(es, c, id, t.blocks[c].name, t.blocks[c].text, more);
    case CallEnd(_, _, _, _) =>
      assert (es + [e])[..|es|] == es;
    case _ =>
  }

  lemma JustStarted<I>(c: nat, id: string, name: string)
    ensures IsOpenCall<I>([CallStart(c, id, name)], c, id, name, "")
  {}

  /**
   In a well-formed trace the events of each content index are the deltas of one text
   block, or those of one thinking block, or one call: a start, fragments under the same
   id that spell the call's text, and at most one end under the same id and name.
   */
  lemma {:induction false} EachIndexIsOneBlock<I>(es: seq<Event<I>>, c: nat)
    requires Follow(Track(map[], false), es).Some?
    ensures Builds(At(es, c), c, Follow(Track(map[], false), es).value.blocks)
    decreases |es|
  {
    hide Accept, Builds;
    var start: Track<I> := Track(map[], false);
    if es == [] {
      NothingBuilt<I>(c);
    } else {
      var init, last := es[..|es| - 1], es[|es| - 1];
      assert es == init + [last];
      FollowJoins(start, init, [last]);
      EachIndexIsOneBlock(init, c);
      var mid := Follow(start, init).value;
      FollowOne(mid, last);
      if OnIndex(last, c) {
        BuildsStep(At(init, c), c, mid, last);
      } else {
        OtherIndex(At(init, c), c, mid, last);
        assert At(init, c) + [] == At(init, c);
      }
    }
  }

  lemma NothingBuilt<I>(c: nat)
    ensures Builds<I>([], c, map[])
  {}

  lemma OtherIndex<I>(es: seq<Event<I>>, c: nat, t: Track<I>, e: Event<I>)
    requires Builds(es, c, t.blocks) && !OnIndex(e, c) && Accept(t, e).Some?
    ensures Builds(es, c, Accept(t, e).value.blocks)
  {}

  /** After completion every call has its end. */
  lemma CompletionEndsCalls<I>(es: seq<Event<I>>, e: Event<I>, c: nat)
    requires e.Completed? && Follow(Track(map[], false), es + [e]).Some?
    requires At(es, c) != [] && At(es, c)[0].CallStart?
    ensures var calls := At(es, c);
      calls[|calls| - 1].CallEnd? && forall i :: 0 < i < |calls| - 1 ==> calls[i].CallDelta?
  {
    var start: Track<I> := Track(map[], false);
    hide Follow;
    FollowJoins(start, es, [e]);
    var mid := Follow(start, es).value;
    FollowOne(mid, e);
    EachIndexIsOneBlock(es, c);
    var calls := At(es, c);
    assert mid.blocks[c].EndedCall?;
    forall i | 0 < i < |calls| - 1 ensures calls[i].CallDelta? {
      assert calls[..|calls| - 1][1..][i - 1] == calls[i];
    }
  }

  // ---- What is shown -------------------------------------------------------------------------------

  predicate Speaks<I>(e: Event<I>) {
    e.TextDelta? || e.ThinkingDelta? || e.ReplayMetadata?
  }

  /** The events that carry text, thinking or its marks, in order. */
  function Shown<I>(es: seq<Event<I>>): seq<Event<I>> {
    if es == [] then [] else (if Speaks(es[0]) then [es[0]] else []) + Shown(es[1..])
  }

  lemma {:induction false} ShownJoins<I>(a: seq<Event<I>>, b: seq<Event<I>>)
    ensures Shown(a + b) == Shown(a) + Shown(b)
    decreases |a|
  {
    hide Speaks, Shown;
    if a == [] {
      assert a + b == b;
      ShownNothing<I>();
    } else {
      var first: seq<Event<I>> := if Speaks(a[0]) then [a[0]] else [];
      assert (a + b)[1..] == a[1..] + b && (a + b)[0] == a[0];
      ShownJoins(a[1..], b);
      ShownUnfolds(a);
      ShownUnfolds(a + b);
      assert first + (Shown(a[1..]) + Shown(b)) == first + Shown(a[1..]) + Shown(b);
    }
  }

  lemma ShownNothing<I>()
    ensures Shown<I>([]) == []
  {}

  lemma ShownUnfolds<I>(es: seq<Event<I>>)
    requires es != []
    ensures Shown(es) == (if Speaks(es[0]) then [es[0]] else []) + Shown(es[1..])
  {}

  /** The text of a stream, and its thinking. */
  function SaidText<I>(es: seq<Event<I>>): string {
    if es == [] then "" else (if es[0].TextDelta? then es[0].text else "") + SaidText(es[1..])
  }

  function ThoughtText<I>(es: seq<Event<I>>): string {
    if es == [] then "" else (if es[0].ThinkingDelta? then es[0].text else "") + ThoughtText(es[1..])
  }

  lemma {:induction false} SaidIsShown<I>(es: seq<Event<I>>)
    ensures SaidText(es) == SaidText(Shown(es)) && ThoughtText(es) == ThoughtText(Shown(es))
    decreases |es|
  {
    if es != [] {
      SaidIsShown(es[1..]);
      if Speaks(es[0]) {
        assert ([es[0]] + Shown(es[1..]))[1..] == Shown(es[1..]);
      } else {
        assert [] + Shown(es[1..]) == Shown(es[1..]);
      }
    }
  }

  lemma {:induction false} SaidTextJoins<I>(a: seq<Event<I>>, b: seq<Event<I>>)
    ensures SaidText(a + b) == SaidText(a) + SaidText(b)
    decreases |a|
  {
    if a == [] {
      assert a + b == b;
    } else {
      assert (a + b)[1..] == a[1..] + b;
      SaidTextJoins(a[1..], b);
    }
  }

  lemma {:induction false} ThoughtTextJoins<I>(a: seq<Event<I>>, b: seq<Event<I>>)
    ensures ThoughtText(a + b) == ThoughtText(a) + ThoughtText(b)
    decreases |a|
  {
    if a == [] {
      assert a + b == b;
    } else {
      assert (a + b)[1..] == a[1..] + b;
      ThoughtTextJoins(a[1..], b);
    }
  }

  lemma SaidJoins<I>(a: seq<Event<I>>, b: seq<Event<I>>)
    ensures SaidText(a + b) == SaidText(a) + SaidText(b) && ThoughtText(a + b) == ThoughtText(a) + ThoughtText(b)
  {
    SaidTextJoins(a, b);
    ThoughtTextJoins(a, b);
  }

  /** Neither the end of a call nor of the stream. */
  predicate EndsNothing<I>(es: seq<Event<I>>) {
    forall i :: 0 <= i < |es| ==> !es[i].CallEnd? && !Terminal(es[i])
  }

  // ---- The normalizer --------------------------------------------------------------------------

  function FailureTerminal<I>(aborted: bool, code: string, partial: bool): Event<I> {
    if aborted then Aborted(partial) else Failure(code, partial)
  }

  /**
   What is passed on of a provider stream that yields `es` and then ends or throws; events
   that do not parse throw too. `emitted` says that content was passed on before.
   */
  function Normalized<I>(es: seq<Event<I>>, threw: bool, aborted: bool, parses: Event<I> -> bool, emitted: bool): seq<Event<I>>
    decreases |es|
  {
    if es == [] then
      [FailureTerminal(aborted, if threw then "provider_stream_failure" else "provider_stream_truncated", emitted)]
    else if !parses(es[0]) then [FailureTerminal(aborted, "provider_stream_failure", emitted)]
    else if Terminal(es[0]) then [es[0]]
    else [es[0]] + Normalized(es[1..], threw, aborted, parses, true)
  }

  method NormalizeModelStream<I>(es: seq<Event<I>>, threw: bool, aborted: bool, parses: Event<I> -> bool)
    returns (out: seq<Event<I>>)
    ensures out == Normalized(es, threw, aborted, parses, false)
  {
    var emittedContent := false;
    out := [];
    for i := 0 to |es|
      invariant Normalized(es, threw, aborted, parses, false) == out + Normalized(es[i..], threw, aborted, parses, emittedContent)
    {
      if !parses(es[i]) {
        return out + [FailureTerminal(aborted, "provider_stream_failure", emittedContent)];
      }
      ghost var rest := Normalized(es[i + 1..], threw, aborted, parses, true);
      assert es[i..][1..] == es[i + 1..];
      if Terminal(es[i]) {
        return out + [es[i]];
      }
      assert out + ([es[i]] + rest) == out + [es[i]] + rest;
      out := out + [es[i]];
      emittedContent := true;
    }
    out := out + [FailureTerminal(aborted, if threw then "provider_stream_failure" else "provider_stream_truncated", emittedContent)];
  }

  predicate OneTerminalLast<I>(out: seq<Event<I>>) {
    |out| > 0 && Terminal(out[|out| - 1]) && forall i :: 0 <= i < |out| - 1 ==> !Terminal(out[i])
  }

  /**
   Whatever the provider stream does, exactly one terminal event is passed on, last;
   everything before it is a prefix of the stream, and parses.
   */
  lemma {:induction false} ExactlyOneTerminal<I>(es: seq<Event<I>>, threw: bool, aborted: bool, parses: Event<I> -> bool, emitted: bool)
    ensures var out := Normalized(es, threw, aborted, parses, emitted);
      && OneTerminalLast(out)
      && out[..|out| - 1] <= es
      && (forall i :: 0 <= i < |out| - 1 ==> parses(out[i]))
    decreases |es|
  {
    hide Terminal;
    FailuresAreTerminal<I>(aborted);
    var out := Normalized(es, threw, aborted, parses, emitted);
    if es != [] && parses(es[0]) && !Terminal(es[0]) {
      var rest := Normalized(es[1..], threw, aborted, parses, true);
      ExactlyOneTerminal(es[1..], threw, aborted, parses, true);
      assert out[..|out| - 1] == [es[0]] + rest[..|rest| - 1];
      assert es == [es[0]] + es[1..];
    }
  }

  /** The stream's own terminal event is passed on when it and all before it parse. */
  lemma {:induction false} OwnTerminalIsKept<I>(
      es: seq<Event<I>>, threw: bool, aborted: bool, parses: Event<I> -> bool, emitted: bool, i: nat)
    requires i < |es| && Terminal(es[i]) && forall j :: 0 <= j <= i ==> parses(es[j]) && (j < i ==> !Terminal(es[j]))
    ensures Normalized(es, threw, aborted, parses, emitted) == es[..i + 1]
    decreases i
  {
    hide Terminal;
    if i > 0 {
      assert forall j :: 0 <= j <= i - 1 ==> es[1..][j] == es[j + 1];
      OwnTerminalIsKept(es[1..], threw, aborted, parses, true, i - 1);
      assert es[..i + 1] == [es[0]] + es[1..][..i];
    }
  }

  lemma FailuresAreTerminal<I>(aborted: bool)
    ensures forall code, p :: Terminal(FailureTerminal<I>(aborted, code, p))
  {}

  /** Closing a stream keeps its trace well formed. */
  lemma {:induction false} NormalizingKeepsTrace<I>(t: Track<I>, es: seq<Event<I>>, threw: bool, aborted: bool, parses: Event<I> -> bool, emitted: bool)
    requires !t.ended && Follow(t, es).Some?
    ensures Follow(t, Normalized(es, threw, aborted, parses, emitted)).Some?
    decreases |es|
  {
    if es == [] || !parses(es[0]) {
      var code := if es == [] && !threw then "provider_stream_truncated" else "provider_stream_failure";
      FollowOne(t, FailureTerminal(aborted, code, emitted));
    } else if Terminal(es[0]) {
      FollowOne(t, es[0]);
    } else {
      var next, rest := Accept(t, es[0]).value, Normalized(es[1..], threw, aborted, parses, true);
      NormalizingKeepsTrace(next, es[1..], threw, aborted, parses, true);
      assert ([es[0]] + rest)[1..] == rest;
    }
  }

  /** How many events are passed on before something ends the stream. */
  function PassedOn<I>(es: seq<Event<I>>, parses: Event<I> -> bool): (n: nat)
    ensures n <= |es| && (forall i :: 0 <= i < n ==> parses(es[i]) && !Terminal(es[i]))
    ensures n < |es| ==> !parses(es[n]) || Terminal(es[n])
    decreases |es|
  {
    if es == [] || !parses(es[0]) || Terminal(es[0]) then 0 else 1 + PassedOn(es[1..], parses)
  }

  /** What ends the stream after n events. */
  function LastPassed<I>(es: seq<Event<I>>, n: nat, threw: bool, aborted: bool, parses: Event<I> -> bool, partial: bool): Event<I>
    requires n <= |es|
  {
    if n < |es| && parses(es[n]) then es[n]
    else if aborted then Aborted(partial)
    else if n < |es| || threw then Failure("provider_stream_failure", partial)
    else Failure("provider_stream_truncated", partial)
  }

  lemma StreamStops<I>(es: seq<Event<I>>, threw: bool, aborted: bool, parses: Event<I> -> bool, emitted: bool)
    requires PassedOn(es, parses) == 0
    ensures Normalized(es, threw, aborted, parses, emitted) == [LastPassed(es, 0, threw, aborted, parses, emitted)]
  {
    hide Terminal;
  }

  /**
   What is passed on, exactly: the events before the first that is terminal or does not
   parse; then that terminal event, or in its place an abort if the request is aborted, or
   a failure that tells a stream that threw from one that just ended. It says whether
   anything was passed on before it.
   */
  lemma {:induction false} NormalizedExactly<I>(es: seq<Event<I>>, threw: bool, aborted: bool, parses: Event<I> -> bool, emitted: bool)
    ensures var n := PassedOn(es, parses);
      Normalized(es, threw, aborted, parses, emitted) == es[..n] + [LastPassed(es, n, threw, aborted, parses, emitted || n > 0)]
    decreases |es|
  {
    hide Terminal, LastPassed;
    var n := PassedOn(es, parses);
    if n == 0 {
      StreamStops(es, threw, aborted, parses, emitted);
    } else {
      NormalizedExactly(es[1..], threw, aborted, parses, true);
      LastIsLater(es, n, threw, aborted, parses);
      assert es[..n] == [es[0]] + es[1..][..n - 1];
    }
  }

  lemma LastIsLater<I>(es: seq<Event<I>>, n: nat, threw: bool, aborted: bool, parses: Event<I> -> bool)
    requires 0 < n <= |es|
    ensures LastPassed(es, n, threw, aborted, parses, true) == LastPassed(es[1..], n - 1, threw, aborted, parses, true)
  {}
}
