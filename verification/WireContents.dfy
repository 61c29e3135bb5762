/** What each message of a history contributes to the message list, spelled out, and how the list is grouped. */
module WireContents {
  import opened Prelude
  import opened History
  import opened WireMessages
  import opened WirePairing

  // ---- What a message contributes ------------------------------------------------------------

  /** The adapter refuses a message's content, or nothing at all is left of an assistant message. */
  ghost predicate Refused<C, B, J>(r: Renderer<C, B, J>, at: nat, m: Prepared<C, J>) {
    match m
    case PreparedUser(content) => r.basic(at, content).None?
    case PreparedAssistant(content, calls) => r.assistant(at, content).None? || (r.assistant(at, content) == Some([]) && calls == [])
    case PreparedTool(_, _, _, _, content, _) => r.basic(at, content).None?
  }

  /** The blocks of one message, each under the role it goes out with. */
  ghost function Part<C, B, J>(r: Renderer<C, B, J>, at: nat, m: Prepared<C, J>): seq<(bool, Block<B, J>)>
    requires !Refused(r, at, m)
  {
    match m
    case PreparedUser(content) =>
      var values := r.basic(at, content).value;
      seq(|values|, i requires 0 <= i < |values| => (true, Content(values[i])))
    case PreparedAssistant(content, calls) =>
      var values := r.assistant(at, content).value;
      seq(|values|, i requires 0 <= i < |values| => (false, Content(values[i]))) +
      seq(|calls|, i requires 0 <= i < |calls| => (false, ToolUse(calls[i].id, calls[i].name, r.input(calls[i].input))))
    case PreparedTool(id, _, _, _, content, isError) => [(true, ToolResult(id, r.basic(at, content).value, isError))]
  }

  ghost predicate Renders<C, B, J>(r: Renderer<C, B, J>, ps: seq<Prepared<C, J>>, from: nat) {
    forall i: nat :: from <= i < |ps| ==> !Refused(r, i, ps[i])
  }

  /** One part after the other. */
  ghost function Parts<C, B, J>(r: Renderer<C, B, J>, ps: seq<Prepared<C, J>>, from: nat): seq<(bool, Block<B, J>)>
    requires from <= |ps| && Renders(r, ps, from)
    decreases |ps| - from
  {
    if from == |ps| then [] else Part(r, from, ps[from]) + Parts(r, ps, from + 1)
  }

  lemma MessageIsPart<C, B, J>(r: Renderer<C, B, J>, at: nat, m: Prepared<C, J>)
    ensures MessageBlocks(r, at, m).None? <==> Refused(r, at, m)
    ensures !Refused(r, at, m) ==> Tagged(!m.PreparedAssistant?, MessageBlocks(r, at, m).value) == Part(r, at, m)
  {}

  lemma {:induction false} UngroupedIsParts<C, B, J>(r: Renderer<C, B, J>, ps: seq<Prepared<C, J>>, from: nat)
    requires from <= |ps|
    ensures Ungrouped(r, ps, from, |ps|).Some? <==> Renders(r, ps, from)
    ensures Renders(r, ps, from) ==> Ungrouped(r, ps, from, |ps|).value == Parts(r, ps, from)
    decreases |ps| - from
  {
    hide MessageBlocks, Refused, Part;
    if from < |ps| {
      MessageIsPart(r, from, ps[from]);
      UngroupedIsParts(r, ps, from + 1);
    }
  }

  /**
   Encoding fails exactly when some message is refused. Otherwise the blocks sent, in order
   and with their roles, are those of each message in turn: a user's content, an assistant's
   content and then its calls, a tool's result.
   */
  lemma SentExactly<C, B, J>(r: Renderer<C, B, J>, ps: seq<Prepared<C, J>>)
    ensures EncodeFrom(r, ps, 0).Some? <==> forall i: nat :: i < |ps| ==> !Refused(r, i, ps[i])
    ensures EncodeFrom(r, ps, 0).Some? ==> Renders(r, ps, 0) && Flatten(EncodeFrom(r, ps, 0).value) == Parts(r, ps, 0)
  {
    hide EncodeFrom, Ungrouped, Refused;
    NothingIsLost(r, ps, 0);
    UngroupedIsParts(r, ps, 0);
  }

  // ---- How the list is grouped ------------------------------------------------------------------

  /** A result that follows another one joins its message; every other message is one of its own. */
  predicate Joins<C, J>(ps: seq<Prepared<C, J>>, i: nat) {
    0 < i < |ps| && ps[i].PreparedTool? && ps[i - 1].PreparedTool?
  }

  /** The messages from a position on that do not join the one before, in order. */
  function Heads<C, J>(ps: seq<Prepared<C, J>>, from: nat): seq<nat>
    requires from <= |ps|
    decreases |ps| - from
  {
    if from == |ps| then [] else (if Joins(ps, from) then [] else [from]) + Heads(ps, from + 1)
  }

  lemma {:induction false} RunHasNoHeads<C, J>(ps: seq<Prepared<C, J>>, from: nat, to: nat)
    requires 0 < from <= to <= |ps| && ps[from - 1].PreparedTool? && forall i :: from <= i < to ==> ps[i].PreparedTool?
    ensures Heads(ps, from) == Heads(ps, to)
    decreases |ps| - from
  {
    if from < to {
      RunHasNoHeads(ps, from + 1, to);
    }
  }

  /** The blocks of a head and of the results that join it. */
  ghost function GroupFrom<C, B, J>(r: Renderer<C, B, J>, ps: seq<Prepared<C, J>>, at: nat): seq<(bool, Block<B, J>)>
    requires at < |ps| && Renders(r, ps, at)
    decreases |ps| - at
  {
    Part(r, at, ps[at]) + if Joins(ps, at + 1) then GroupFrom(r, ps, at + 1) else []
  }

  lemma {:induction false} BlocksAreGroup<C, B, J>(r: Renderer<C, B, J>, ps: seq<Prepared<C, J>>, at: nat, end: nat)
    requires at < end <= |ps| && Renders(r, ps, at) && Blocks(r, ps, at, end).Some?
    requires if ps[at].PreparedTool? then end == RunEnd(ps, at + 1) else end == at + 1
    ensures Tagged(!ps[at].PreparedAssistant?, Blocks(r, ps, at, end).value) == GroupFrom(r, ps, at)
    decreases |ps| - at
  {
    hide MessageBlocks, Refused, Part, RunEnd;
    MessageIsPart(r, at, ps[at]);
    var role, first := !ps[at].PreparedAssistant?, MessageBlocks(r, at, ps[at]).value;
    RunEndUnfolds(ps, at + 1);
    if Joins(ps, at + 1) {
      BlocksAreGroup(r, ps, at + 1, end);
      TaggedJoins(role, first, Blocks(r, ps, at + 1, end).value);
    } else {
      assert end == at + 1;
      OneMessage(r, ps, at);
    }
  }

  lemma RunEndUnfolds<C, J>(ps: seq<Prepared<C, J>>, at: nat)
    requires at <= |ps|
    ensures RunEnd(ps, at) == if at < |ps| && ps[at].PreparedTool? then RunEnd(ps, at + 1) else at
  {}

  lemma TaggedJoins<B, J>(user: bool, a: seq<Block<B, J>>, b: seq<Block<B, J>>)
    ensures Tagged(user, a + b) == Tagged(user, a) + Tagged(user, b)
  {}

  /** Message k of the list is the k-th head with the results that join it, under one role. */
  ghost predicate Grouped<C, B, J>(r: Renderer<C, B, J>, ps: seq<Prepared<C, J>>, from: nat, ws: seq<Wire<B, J>>)
    requires from <= |ps| && Renders(r, ps, from)
  {
    var heads := Heads(ps, from);
    && |ws| == |heads|
    && forall k :: 0 <= k < |ws| ==> from <= heads[k] < |ps| && Tagged(ws[k].user, ws[k].blocks) == GroupFrom(r, ps, heads[k])
                                     && (ws[k].user <==> !ps[heads[k]].PreparedAssistant?)
  }

  /** The list has one message for each head: runs of results go together, and nothing else does. */
  lemma {:induction false} GroupedExactly<C, B, J>(r: Renderer<C, B, J>, ps: seq<Prepared<C, J>>, at: nat)
    requires at <= |ps| && Renders(r, ps, at) && EncodeFrom(r, ps, at).Some? && !Joins(ps, at)
    ensures Grouped(r, ps, at, EncodeFrom(r, ps, at).value)
    decreases |ps| - at
  {
    hide MessageBlocks, Refused, Part, RunEnd, Blocks, GroupFrom;
    if at < |ps| {
      var end := if ps[at].PreparedTool? then RunEnd(ps, at + 1) else at + 1;
      if ps[at].PreparedTool? {
        RunIsTools(ps, at + 1);
        RunHasNoHeads(ps, at + 1, end);
      }
      GroupedExactly(r, ps, end);
      BlocksAreGroup(r, ps, at, end);
      var ws, rest := EncodeFrom(r, ps, at).value, EncodeFrom(r, ps, end).value;
      assert ws == [ws[0]] + rest && Heads(ps, at) == [at] + Heads(ps, end);
    }
  }

  // ---- The cache point -----------------------------------------------------------------------------

  /** The cache point is one more block at the end of the last user message; nothing else changes. */
  lemma {:induction false} CachePointExactly<B, J>(ws: seq<Wire<B, J>>, point: B, k: nat)
    requires k <= |ws| && (forall i :: k < i < |ws| ==> !ws[i].user)
    requires k < |ws| ==> ws[k].user
    requires k == |ws| ==> forall i :: 0 <= i < |ws| ==> !ws[i].user
    ensures AddCachePoint(ws, point) == if k == |ws| then ws else ws[k := Wire(true, ws[k].blocks + [Content(point)])]
  {
    if ws != [] && k != |ws| - 1 {
      var last := |ws| - 1;
      CachePointExactly(ws[..last], point, if k == |ws| then last else k);
      assert ws == ws[..last] + [ws[last]];
    }
  }
}
