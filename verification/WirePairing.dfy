/** The message list sent out is well paired, and nothing is lost or reordered on the way. */
module WirePairing {
  import opened Prelude
  import opened History
  import opened HistoryProofs
  import opened HistoryTheorems
  import opened WireMessages
  import ToolCallIds

  // ---- Nothing is lost or reordered --------------------------------------------------------

  /** The blocks of a message list in order, each with its message's role. */
  function Flatten<B, J>(ws: seq<Wire<B, J>>): seq<(bool, Block<B, J>)> {
    if ws == [] then [] else Tagged(ws[0].user, ws[0].blocks) + Flatten(ws[1..])
  }

  function Tagged<B, J>(user: bool, blocks: seq<Block<B, J>>): seq<(bool, Block<B, J>)> {
    seq(|blocks|, i requires 0 <= i < |blocks| => (user, blocks[i]))
  }

  /** The blocks of a prepared history, one message after the other, without any grouping. */
  function Ungrouped<C, B, J>(r: Renderer<C, B, J>, ps: seq<Prepared<C, J>>, from: nat, to: nat): Option<seq<(bool, Block<B, J>)>>
    requires from <= to <= |ps|
    decreases |ps| - from
  {
    if from == to then Some([])
    else match MessageBlocks(r, from, ps[from])
      case None => None
      case Some(first) =>
        WireMessages.Before(Tagged(!ps[from].PreparedAssistant?, first), Ungrouped(r, ps, from + 1, to))
  }

  lemma {:induction false} RunIsTools<C, J>(ps: seq<Prepared<C, J>>, at: nat)
    requires at <= |ps|
    ensures var end := RunEnd(ps, at);
      && (forall i :: at <= i < end ==> ps[i].PreparedTool?)
      && (end < |ps| ==> !ps[end].PreparedTool?)
    decreases |ps| - at
  {
    if at < |ps| && ps[at].PreparedTool? {
      RunIsTools(ps, at + 1);
    }
  }

  lemma {:induction false} UngroupedSplits<C, B, J>(r: Renderer<C, B, J>, ps: seq<Prepared<C, J>>, from: nat, mid: nat, to: nat)
    requires from <= mid <= to <= |ps|
    ensures Ungrouped(r, ps, from, to) ==
            match Ungrouped(r, ps, from, mid)
            case None => None
            case Some(first) => WireMessages.Before(first, Ungrouped(r, ps, mid, to))
    decreases |ps| - from
  {
    hide MessageBlocks;
    if from == mid {
      WireMessages.BeforeTwice<(bool, Block<B, J>)>([], [], Ungrouped(r, ps, mid, to));
    } else {
      UngroupedSplits(r, ps, from + 1, mid, to);
      var first := MessageBlocks(r, from, ps[from]);
      if first.Some? && Ungrouped(r, ps, from + 1, mid).Some? {
        WireMessages.BeforeTwice(Tagged(!ps[from].PreparedAssistant?, first.value),
                                 Ungrouped(r, ps, from + 1, mid).value, Ungrouped(r, ps, mid, to));
      }
    }
  }

  /** Messages of one role, taken together. */
  lemma {:induction false} SameRole<C, B, J>(r: Renderer<C, B, J>, ps: seq<Prepared<C, J>>, from: nat, to: nat, user: bool)
    requires from <= to <= |ps| && forall i :: from <= i < to ==> ps[i].PreparedAssistant? == !user
    ensures Ungrouped(r, ps, from, to).Some? <==> Blocks(r, ps, from, to).Some?
    ensures Blocks(r, ps, from, to).Some? ==>
              Ungrouped(r, ps, from, to).value == Tagged(user, Blocks(r, ps, from, to).value)
    decreases |ps| - from
  {
    hide MessageBlocks;
    if from < to {
      SameRole(r, ps, from + 1, to, user);
    }
  }

  /**
   Encoding fails exactly when some message cannot be rendered; otherwise the blocks of the
   message list are those of the history's messages, in their order and under their roles.
   */
  lemma {:induction false} NothingIsLost<C, B, J>(r: Renderer<C, B, J>, ps: seq<Prepared<C, J>>, at: nat)
    requires at <= |ps|
    ensures EncodeFrom(r, ps, at).Some? <==> Ungrouped(r, ps, at, |ps|).Some?
    ensures EncodeFrom(r, ps, at).Some? ==> Flatten(EncodeFrom(r, ps, at).value) == Ungrouped(r, ps, at, |ps|).value
    decreases |ps| - at
  {
    hide MessageBlocks, RunEnd, Blocks, Ungrouped;
    if at == |ps| {
      NothingUngrouped(r, ps);
    } else {
      var user := !ps[at].PreparedAssistant?;
      var end := if ps[at].PreparedTool? then RunEnd(ps, at + 1) else at + 1;
      if ps[at].PreparedTool? {
        RunIsTools(ps, at + 1);
      }
      SameRole(r, ps, at, end, user);
      UngroupedSplits(r, ps, at, end, |ps|);
      NothingIsLost(r, ps, end);
    }
  }

  lemma NothingUngrouped<C, B, J>(r: Renderer<C, B, J>, ps: seq<Prepared<C, J>>)
    ensures Ungrouped(r, ps, |ps|, |ps|) == Some([])
  {}

  // ---- Pairing -------------------------------------------------------------------------------

  /** The ids of the calls in a list of blocks. */
  function Uses<B, J>(blocks: seq<Block<B, J>>): seq<string> {
    if blocks == [] then []
    else (if blocks[0].ToolUse? then [blocks[0].id] else []) + Uses(blocks[1..])
  }

  /** The ids of the results in a list of blocks. */
  function Results<B, J>(blocks: seq<Block<B, J>>): seq<string> {
    if blocks == [] then []
    else (if blocks[0].ToolResult? then [blocks[0].id] else []) + Results(blocks[1..])
  }

  /**
   Each assistant message with calls is followed at once by one user message whose results
   answer exactly those calls, and there are no other results.
   */
  predicate PairedOnWire<B, J>(ws: seq<Wire<B, J>>)
    decreases |ws|
  {
    ws == [] ||
    (&& Results(ws[0].blocks) == []
     && if Uses(ws[0].blocks) == [] then PairedOnWire(ws[1..])
        else
          && !ws[0].user && |ws| >= 2 && ws[1].user && Uses(ws[1].blocks) == []
          && multiset(Results(ws[1].blocks)) == multiset(Uses(ws[0].blocks))
          && PairedOnWire(ws[2..]))
  }

  lemma {:induction false} UsesJoin<B, J>(a: seq<Block<B, J>>, b: seq<Block<B, J>>)
    ensures Uses(a + b) == Uses(a) + Uses(b) && Results(a + b) == Results(a) + Results(b)
  {
    if a == [] {
      assert a + b == b;
    } else {
      assert (a + b)[1..] == a[1..] + b;
      UsesJoin(a[1..], b);
    }
  }

  lemma {:induction false} ContentHasNone<B, J>(values: seq<B>)
    ensures var blocks: seq<Block<B, J>> := ContentBlocks(values); Uses(blocks) == [] && Results(blocks) == []
  {
    if values != [] {
      var blocks: seq<Block<B, J>> := ContentBlocks(values);
      ContentHasNone<B, J>(values[1..]);
      assert blocks[1..] == ContentBlocks<B, J>(values[1..]);
    }
  }

  function PreparedIds<J>(calls: seq<PreparedCall<J>>): seq<string> {
    seq(|calls|, i requires 0 <= i < |calls| => calls[i].id)
  }

  lemma {:induction false} CallsAreUses<C, B, J>(r: Renderer<C, B, J>, calls: seq<PreparedCall<J>>)
    ensures Uses(UseBlocks(r, calls)) == PreparedIds(calls) && Results(UseBlocks(r, calls)) == []
  {
    if calls != [] {
      CallsAreUses(r, calls[1..]);
      assert UseBlocks(r, calls)[1..] == UseBlocks(r, calls[1..]);
      assert PreparedIds(calls) == [calls[0].id] + PreparedIds(calls[1..]);
    }
  }

  /** What a single message's blocks call and answer. */
  lemma MessageUses<C, B, J>(r: Renderer<C, B, J>, at: nat, m: Prepared<C, J>)
    requires MessageBlocks(r, at, m).Some?
    ensures var blocks := MessageBlocks(r, at, m).value;
      && Uses(blocks) == (match WireEntry(m) case Ask(calls) => calls case _ => [])
      && Results(blocks) == (match WireEntry(m) case Answer(id) => [id] case _ => [])
  {
    match m
    case PreparedUser(content) =>
      ContentHasNone<B, J>(r.basic(at, content).value);
    case PreparedAssistant(content, calls) =>
      ContentHasNone<B, J>(r.assistant(at, content).value);
      CallsAreUses(r, calls);
      UsesJoin(ContentBlocks(r.assistant(at, content).value), UseBlocks(r, calls));
    case PreparedTool(_, _, _, _, _, _) =>
  }

  /** A run of results answers what its messages answer. */
  lemma {:induction false} RunAnswers<C, B, J>(r: Renderer<C, B, J>, ps: seq<Prepared<C, J>>, from: nat, to: nat)
    requires from <= to <= |ps| && Blocks(r, ps, from, to).Some?
    requires AllAnswers(WireEntries(ps)[from..to])
    ensures Results(Blocks(r, ps, from, to).value) == Answered(WireEntries(ps)[from..to])
    ensures Uses(Blocks(r, ps, from, to).value) == []
    decreases |ps| - from
  {
    hide MessageBlocks;
    if from < to {
      var run := WireEntries(ps)[from..to];
      assert run[1..] == WireEntries(ps)[from + 1..to] && run[0] == WireEntry(ps[from]);
      assert forall i :: 0 <= i < |run| - 1 ==> run[1..][i] == run[i + 1];
      RunAnswers(r, ps, from + 1, to);
      MessageUses(r, from, ps[from]);
      UsesJoin(MessageBlocks(r, from, ps[from]).value, Blocks(r, ps, from + 1, to).value);
    }
  }

  lemma {:induction false} RunEndIs<C, J>(ps: seq<Prepared<C, J>>, from: nat, to: nat)
    requires from <= to <= |ps| && AllAnswers(WireEntries(ps)[from..to])
    requires to == |ps| || !WireEntries(ps)[to].Answer?
    ensures RunEnd(ps, from) == to
    decreases |ps| - from
  {
    var es := WireEntries(ps);
    if from < to {
      assert es[from..to][0] == WireEntry(ps[from]);
      assert es[from..to][1..] == es[from + 1..to];
      RunEndIs(ps, from + 1, to);
    } else if to < |ps| {
      assert es[to] == WireEntry(ps[to]);
    }
  }

  /** A well-paired history renders to a well-paired message list. */
  lemma {:induction false} EncodingKeepsPairs<C, B, J>(r: Renderer<C, B, J>, ps: seq<Prepared<C, J>>, at: nat)
    requires at <= |ps| && Turns(WireEntries(ps)[at..]) && EncodeFrom(r, ps, at).Some?
    ensures PairedOnWire(EncodeFrom(r, ps, at).value)
    decreases |ps| - at
  {
    hide MessageBlocks, EncodeFrom, WireEntry, Uses, Results, PairedOnWire;
    if at == |ps| {
      NothingToPair(r, ps);
    } else {
      var es, m := WireEntries(ps), ps[at];
      assert es[at..][0] == WireEntry(m) && es[at..][1..] == es[at + 1..];
      KindOfEntry(m);
      FirstWire(r, ps, at);
      MessageUses(r, at, m);
      var wire := Wire(!m.PreparedAssistant?, MessageBlocks(r, at, m).value);
      match es[at]
      case Talk =>
        EncodingKeepsPairs(r, ps, at + 1);
        PairedAfterTalk(wire, EncodeFrom(r, ps, at + 1).value);
      case Ask(calls) =>
        if calls == [] {
          assert es[at..][1..1] == [];
          EncodingKeepsPairs(r, ps, at + 1);
          PairedAfterTalk(wire, EncodeFrom(r, ps, at + 1).value);
        } else {
          AnswersFollow(r, ps, at, calls);
          EncodingKeepsPairs(r, ps, at + 1 + |calls|);
          PairedAfterCalls(wire, EncodeFrom(r, ps, at + 1).value);
        }
    }
  }

  lemma NothingToPair<C, B, J>(r: Renderer<C, B, J>, ps: seq<Prepared<C, J>>)
    ensures EncodeFrom(r, ps, |ps|) == Some([]) && PairedOnWire(EncodeFrom(r, ps, |ps|).value)
  {}

  lemma FirstWire<C, B, J>(r: Renderer<C, B, J>, ps: seq<Prepared<C, J>>, at: nat)
    requires at < |ps| && !ps[at].PreparedTool? && EncodeFrom(r, ps, at).Some?
    ensures MessageBlocks(r, at, ps[at]).Some? && EncodeFrom(r, ps, at + 1).Some?
    ensures EncodeFrom(r, ps, at).value ==
            [Wire(!ps[at].PreparedAssistant?, MessageBlocks(r, at, ps[at]).value)] + EncodeFrom(r, ps, at + 1).value
  {
    hide MessageBlocks, Blocks;
    OneMessage(r, ps, at);
  }

  lemma PairedAfterTalk<B, J>(wire: Wire<B, J>, rest: seq<Wire<B, J>>)
    requires Uses(wire.blocks) == [] && Results(wire.blocks) == [] && PairedOnWire(rest)
    ensures PairedOnWire([wire] + rest)
  {
    hide Uses, Results;
    assert ([wire] + rest)[1..] == rest;
  }

  lemma PairedAfterCalls<B, J>(wire: Wire<B, J>, rest: seq<Wire<B, J>>)
    requires Uses(wire.blocks) != [] && Results(wire.blocks) == [] && !wire.user
    requires rest != [] && rest[0].user && Uses(rest[0].blocks) == [] && PairedOnWire(rest[1..])
    requires multiset(Results(rest[0].blocks)) == multiset(Uses(wire.blocks))
    ensures PairedOnWire([wire] + rest)
  {
    hide Uses, Results;
    assert ([wire] + rest)[2..] == rest[1..];
  }

  lemma KindOfEntry<C, J>(m: Prepared<C, J>)
    ensures WireEntry(m).Answer? <==> m.PreparedTool?
    ensures WireEntry(m).Ask? <==> m.PreparedAssistant?
  {}

  /** After calls comes one user message with exactly their results. */
  lemma AnswersFollow<C, B, J>(r: Renderer<C, B, J>, ps: seq<Prepared<C, J>>, at: nat, calls: seq<string>)
    requires at < |ps| && calls != [] && WireEntries(ps)[at] == Ask(calls) && Turns(WireEntries(ps)[at..])
    requires EncodeFrom(r, ps, at + 1).Some?
    ensures at + 1 + |calls| <= |ps| && Turns(WireEntries(ps)[at + 1 + |calls|..])
    ensures var ws := EncodeFrom(r, ps, at + 1).value;
      && ws != [] && ws[0].user && Uses(ws[0].blocks) == [] && multiset(Results(ws[0].blocks)) == multiset(calls)
      && EncodeFrom(r, ps, at + 1 + |calls|) == Some(ws[1..])
  {
    hide MessageBlocks, RunEnd, Blocks, WireEntry, Uses, Results, Answered, AllAnswers;
    var es, n := WireEntries(ps), |calls|;
    var run := es[at + 1..at + 1 + n];
    assert es[at..][0] == Ask(calls) && es[at..][1..n + 1] == run && es[at..][n + 1..] == es[at + 1 + n..];
    FirstIsTool(ps, at + 1, at + 1 + n);
    NotAnAnswer(es, at + 1 + n);
    RunEndIs(ps, at + 1, at + 1 + n);
    RunEndSkips(ps, at + 1);
    RunAnswers(r, ps, at + 1, at + 1 + n);
    assert EncodeFrom(r, ps, at + 1).value[1..] == EncodeFrom(r, ps, at + 1 + n).value;
  }

  lemma FirstIsTool<C, J>(ps: seq<Prepared<C, J>>, from: nat, to: nat)
    requires from < to <= |ps| && AllAnswers(WireEntries(ps)[from..to])
    ensures ps[from].PreparedTool?
  {
    assert WireEntries(ps)[from..to][0] == WireEntry(ps[from]);
  }

  lemma NotAnAnswer<T>(es: seq<Entry<T>>, at: nat)
    requires at <= |es| && Turns(es[at..])
    ensures at == |es| || !es[at].Answer?
  {}

  lemma RunEndSkips<C, J>(ps: seq<Prepared<C, J>>, at: nat)
    requires at < |ps| && ps[at].PreparedTool?
    ensures RunEnd(ps, at) == RunEnd(ps, at + 1)
  {}

  /** All calls of a message list, in order. */
  function AllUses<B, J>(ws: seq<Wire<B, J>>): seq<string> {
    if ws == [] then [] else Uses(ws[0].blocks) + AllUses(ws[1..])
  }

  /**
   The two stages together: when preparation and encoding succeed, every assistant message
   with calls is followed at once by one user message whose results answer exactly those
   calls; no two calls of the whole list share an id, so each is answered once.
   */
  lemma PreparedAndEncoded<C, B, J>(s: Settings<C, J>, r: Renderer<C, B, J>, ms: seq<Message<C, J>>)
    requires ToolCallIds.DigestOk(s.rule) && Prepare(s, ms).Ok?
    requires EncodeFrom(r, Prepare(s, ms).value, 0).Some?
    ensures var ws := EncodeFrom(r, Prepare(s, ms).value, 0).value;
      && PairedOnWire(ws) && Distinct(AllUses(ws))
      && (forall id :: id in AllUses(ws) ==> ToolCallIds.Matches(s.rule, id))
  {
    hide Turns, PairedOnWire, EncodeFrom, Distinct, AllTranslated, Prepare, ToolCallIds.DigestOk;
    var out := Prepare(s, ms).value;
    PreparedHistory(s, ms);
    var ids :| WellPrepared(s, ids, ms, out);
    assert WireEntries(out)[0..] == WireEntries(out);
    EncodingKeepsPairs(r, out, 0);
    EncodedUses(r, out, 0);
    assert out[0..] == out;
    WireIdsAreRenamed(s, ids, ms, out);
    forall id | id in WireIds(out) ensures ToolCallIds.Matches(s.rule, id) {
      var i :| 0 <= i < |WireIds(out)| && WireIds(out)[i] == id;
      assert CallIds(ms)[i] in ids;
    }
  }

  lemma {:induction false} EncodedUses<C, B, J>(r: Renderer<C, B, J>, ps: seq<Prepared<C, J>>, at: nat)
    requires at <= |ps| && EncodeFrom(r, ps, at).Some?
    ensures AllUses(EncodeFrom(r, ps, at).value) == WireIds(ps[at..])
    decreases |ps| - at
  {
    hide MessageBlocks, RunEnd, Blocks, WireEntry, Uses;
    if at < |ps| {
      var end := if ps[at].PreparedTool? then RunEnd(ps, at + 1) else at + 1;
      var ws := EncodeFrom(r, ps, at).value;
      assert ws[1..] == EncodeFrom(r, ps, end).value;
      EncodedUses(r, ps, end);
      if ps[at].PreparedTool? {
        RunIsTools(ps, at + 1);
        RunUsesNothing(r, ps, at, end);
        ToolsHaveNoIds(ps, at, end);
      } else {
        OneMessage(r, ps, at);
        MessageUses(r, at, ps[at]);
        assert ps[at..][0] == ps[at] && ps[at..][1..] == ps[at + 1..];
      }
    }
  }

  lemma RunUsesNothing<C, B, J>(r: Renderer<C, B, J>, ps: seq<Prepared<C, J>>, from: nat, to: nat)
    requires from <= to <= |ps| && Blocks(r, ps, from, to).Some? && forall i :: from <= i < to ==> ps[i].PreparedTool?
    ensures Uses(Blocks(r, ps, from, to).value) == []
  {
    var run := WireEntries(ps)[from..to];
    forall i | 0 <= i < |run| ensures run[i].Answer? {
      assert run[i] == WireEntry(ps[from + i]);
    }
    RunAnswers(r, ps, from, to);
  }

  lemma {:induction false} ToolsHaveNoIds<C, J>(ps: seq<Prepared<C, J>>, from: nat, to: nat)
    requires from <= to <= |ps| && forall i :: from <= i < to ==> ps[i].PreparedTool?
    ensures WireIds(ps[from..]) == WireIds(ps[to..])
    decreases |ps| - from
  {
    if from < to {
      assert ps[from..][0] == ps[from] && ps[from..][1..] == ps[from + 1..];
      ToolsHaveNoIds(ps, from + 1, to);
    }
  }

  /** Bedrock's cache point changes neither calls nor results, so pairing survives it. */
  lemma CachePointKeepsPairs<B, J>(ws: seq<Wire<B, J>>, point: B)
    requires PairedOnWire(ws)
    ensures PairedOnWire(AddCachePoint(ws, point)) && AllUses(AddCachePoint(ws, point)) == AllUses(ws)
  {
    CachePointOnlyAdds(ws, point);
    SamePairs(ws, AddCachePoint(ws, point));
  }

  /** The same roles, calls and results, message by message. */
  predicate Alike<B, J>(a: seq<Wire<B, J>>, b: seq<Wire<B, J>>) {
    |a| == |b| && forall k :: 0 <= k < |a| ==> AlikeAt(a[k], b[k])
  }

  predicate AlikeAt<B, J>(a: Wire<B, J>, b: Wire<B, J>) {
    a.user == b.user && Uses(a.blocks) == Uses(b.blocks) && Results(a.blocks) == Results(b.blocks)
  }

  lemma {:induction false} CachePointOnlyAdds<B, J>(ws: seq<Wire<B, J>>, point: B)
    ensures Alike(ws, AddCachePoint(ws, point))
    decreases |ws|
  {
    if ws != [] {
      var last := |ws| - 1;
      if ws[last].user {
        UsesJoin(ws[last].blocks, [Content(point)]);
      } else {
        CachePointOnlyAdds(ws[..last], point);
      }
    }
  }

  lemma {:induction false} SamePairs<B, J>(a: seq<Wire<B, J>>, b: seq<Wire<B, J>>)
    requires Alike(a, b)
    ensures PairedOnWire(a) ==> PairedOnWire(b)
    ensures AllUses(a) == AllUses(b)
    decreases |a|
  {
    hide Uses, Results;
    if a != [] {
      assert AlikeAt(a[0], b[0]);
      SamePairs(a[1..], b[1..]);
      if |a| >= 2 {
        assert AlikeAt(a[1], b[1]);
        SamePairs(a[2..], b[2..]);
      }
    }
  }
}
