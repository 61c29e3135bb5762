/** What a prepared message contains, spelled out, and what each refusal means. */
module HistoryContents {
  import opened Prelude
  import opened History
  import opened HistoryProofs
  import opened HistoryTheorems
  import ToolCallIds

  // ---- Content ------------------------------------------------------------------------------------------

  /** Item by item what `f` makes of the content, in order. */
  ghost predicate Mapped<C>(f: C -> Option<C>, content: seq<C>, items: seq<C>) {
    |items| == |content| && forall i :: 0 <= i < |content| ==> f(content[i]) == Some(items[i])
  }

  lemma {:induction false} MapContentIs<C>(f: C -> Option<C>, content: seq<C>)
    ensures match MapContent(f, content)
            case Some(items) => Mapped(f, content, items)
            case None => exists i :: 0 <= i < |content| && f(content[i]).None?
  {
    if content != [] {
      MapContentIs(f, content[1..]);
      if f(content[0]).Some? && MapContent(f, content[1..]).None? {
        var i :| 0 <= i < |content[1..]| && f(content[1..][i]).None?;
        assert f(content[i + 1]).None?;
      }
    }
  }

  /** What is sent of one message, given the wire ids of the calls. */
  ghost predicate Sends<C, J>(s: Settings<C, J>, ids: map<string, string>, m: Message<C, J>, out: Prepared<C, J>) {
    match m
    case User(content) => out.PreparedUser? && Mapped(s.basic, content, out.content)
    case Assistant(content, calls) =>
      && out.PreparedAssistant? && Mapped(s.kept, content, out.content) && |out.calls| == |calls|
      && forall i :: 0 <= i < |calls| ==>
           var call, sent := calls[i], out.calls[i];
           && call.id in ids && sent.id == ids[call.id] && sent.canonicalId == call.id
           && s.visible(call.name) == Some(sent.name) && sent.canonicalName == call.name && sent.input == call.input
    case Tool(id, name, content, isError) =>
      && out.PreparedTool? && Mapped(s.basic, content, out.content)
      && id in ids && out.id == ids[id] && out.canonicalId == id
      && s.visible(name) == Some(out.name) && out.canonicalName == name && out.isError == isError
  }

  lemma TranslatedSends<C, J>(s: Settings<C, J>, ids: map<string, string>, m: Message<C, J>, out: Prepared<C, J>)
    requires Translated(s, ids, m, out)
    ensures Sends(s, ids, m, out)
  {
    hide MapContent, Blank;
    match m
    case User(content) => MapContentIs(s.basic, content);
    case Assistant(content, calls) => MapContentIs(s.kept, content);
    case Tool(_, _, content, _) => MapContentIs(s.basic, content);
  }

  /**
   What is sent of an accepted history, message by message: the sanitized content in order,
   each call with its wire id, the provider's name of its tool and its own input, and each
   result with the wire id of its call and its own error flag.
   */
  lemma SentExactly<C, J>(s: Settings<C, J>, ms: seq<Message<C, J>>) returns (ids: map<string, string>)
    requires ToolCallIds.DigestOk(s.rule) && Prepare(s, ms).Ok?
    ensures Injective(ids) && AllMatch(s.rule, ids)
    ensures var out := Prepare(s, ms).value; |out| == |ms| && forall i :: 0 <= i < |ms| ==> Sends(s, ids, ms[i], out[i])
  {
    hide Prepare, Turns, Distinct, ToolCallIds.DigestOk, Injective, AllMatch, Translated, Sends;
    PreparedHistory(s, ms);
    var out := Prepare(s, ms).value;
    ids :| WellPrepared(s, ids, ms, out);
    forall i | 0 <= i < |ms| ensures Sends(s, ids, ms[i], out[i]) {
      TranslatedSends(s, ids, ms[i], out[i]);
    }
  }

  // ---- Refusals ---------------------------------------------------------------------------------------------

  /** The white space that is trimmed, by code point. */
  lemma SpaceExactly(c: char)
    ensures IsSpace(c) <==>
            c as int in {9, 10, 11, 12, 13, 32, 160, 5760, 8192, 8193, 8194, 8195, 8196, 8197, 8198, 8199, 8200, 8201, 8202,
                         8232, 8233, 8239, 8287, 12288, 65279}
  {}

  ghost predicate SomeCall<C, J>(m: Message<C, J>, bad: Call<J> -> bool) {
    m.Assistant? && exists i :: 0 <= i < |m.calls| && bad(m.calls[i])
  }

  /** What is wrong with a message that is refused for a reason. */
  ghost predicate Justified<C, J>(s: Settings<C, J>, p: Progress, m: Message<C, J>, e: Error) {
    match e
    case EmptyContent => m.content == [] && (m.Assistant? ==> m.calls == [])
    case OpenCalls => !m.Tool? && p.pending != map[]
    case BadContent => exists i :: 0 <= i < |m.content| && (if m.Assistant? then s.kept else s.basic)(m.content[i]).None?
    case BlankId => (m.Tool? && Blank(m.id)) || SomeCall(m, (c: Call<J>) => Blank(c.id))
    case BlankName => (m.Tool? && Blank(m.name)) || SomeCall(m, (c: Call<J>) => Blank(c.name))
    case BadInput => SomeCall(m, (c: Call<J>) => !s.valid(c.input))
    case DuplicateId =>
      m.Assistant? && exists i :: 0 <= i < |m.calls| && (m.calls[i].id in p.ids || exists j :: 0 <= j < i && m.calls[j].id == m.calls[i].id)
    case TooManyCollisions => m.Assistant? && m.calls != []
    case BadToolName => (m.Tool? && s.visible(m.name).None?) || SomeCall(m, (c: Call<J>) => s.visible(c.name).None?)
    case UnmatchedResult => m.Tool? && (m.id !in p.pending || m.id !in p.ids)
    case WrongName => m.Tool? && m.id in p.pending && p.pending[m.id] != m.name
    case Unresolved => false
  }

  ghost predicate CallsJustify<C, J>(s: Settings<C, J>, p: Progress, calls: seq<Call<J>>, e: Error) {
    Justified(s, p, Message<C, J>.Assistant([], calls), e) && !e.EmptyContent? && !e.OpenCalls? && !e.BadContent?
  }

  lemma OneCallJustifies<C, J>(s: Settings<C, J>, p: Progress, calls: seq<Call<J>>)
    requires calls != [] && PrepareCall(s, p, calls[0]).Err?
    ensures CallsJustify(s, p, calls, PrepareCall(s, p, calls[0]).error)
  {
    hide Blank, ToolCallIds.Normalized;
  }

  lemma LaterCallJustifies<C, J>(s: Settings<C, J>, p: Progress, next: Progress, calls: seq<Call<J>>, e: Error)
    requires calls != [] && next.ids.Keys == p.ids.Keys + {calls[0].id} && CallsJustify(s, next, calls[1..], e)
    ensures CallsJustify(s, p, calls, e)
  {
    hide Blank;
    var rest := calls[1..];
    if e.DuplicateId? {
      var i :| 0 <= i < |rest| && (rest[i].id in next.ids || exists j :: 0 <= j < i && rest[j].id == rest[i].id);
      assert calls[i + 1] == rest[i];
      if j :| 0 <= j < i && rest[j].id == rest[i].id {
        assert calls[j + 1].id == calls[i + 1].id;
      }
    } else {
      forall i | 0 <= i < |rest| ensures calls[i + 1] == rest[i] {}
    }
  }

  lemma {:induction false} CallsAreJustified<C, J>(s: Settings<C, J>, p: Progress, calls: seq<Call<J>>)
    ensures PrepareCalls(s, p, calls).Err? ==> CallsJustify(s, p, calls, PrepareCalls(s, p, calls).error)
    decreases |calls|
  {
    hide CallsJustify, Blank, ToolCallIds.Normalized;
    if calls != [] {
      if PrepareCall(s, p, calls[0]).Err? {
        OneCallJustifies(s, p, calls);
      } else {
        var next := PrepareCall(s, p, calls[0]).value.1;
        CallsAreJustified(s, next, calls[1..]);
        if PrepareCalls(s, next, calls[1..]).Err? {
          LaterCallJustifies(s, p, next, calls, PrepareCalls(s, next, calls[1..]).error);
        }
      }
    }
  }

  lemma CallsJustifyMessage<C, J>(s: Settings<C, J>, p: Progress, m: Message<C, J>, e: Error)
    requires m.Assistant? && CallsJustify(s, p, m.calls, e)
    ensures Justified(s, p, m, e)
  {
    hide Blank;
  }

  /**
   A refused message is refused for what it says. Emptiness is found first, then calls left
   open by the messages before.
   */
  lemma RefusalIsJustified<C, J>(s: Settings<C, J>, p: Progress, m: Message<C, J>)
    ensures PrepareMessage(s, p, m).Err? ==> Justified(s, p, m, PrepareMessage(s, p, m).error)
    ensures m.content == [] && (m.Assistant? ==> m.calls == []) ==> PrepareMessage(s, p, m) == Err(EmptyContent)
    ensures !(m.content == [] && (m.Assistant? ==> m.calls == [])) && !m.Tool? && p.pending != map[] ==>
              PrepareMessage(s, p, m) == Err(OpenCalls)
  {
    hide Blank, MapContent, PrepareCalls, Justified;
    MapContentIs(s.basic, m.content);
    MapContentIs(s.kept, m.content);
    if PrepareMessage(s, p, m).Err? {
      if m.Assistant? && !LacksContent(m) && p.pending == map[] && MapContent(s.kept, m.content).Some? {
        CallsAreJustified(s, p, m.calls);
        CallsJustifyMessage(s, p, m, PrepareCalls(s, p, m.calls).error);
      } else {
        PlainRefusal(s, p, m);
      }
    }
  }

  lemma PlainRefusal<C, J>(s: Settings<C, J>, p: Progress, m: Message<C, J>)
    requires PrepareMessage(s, p, m).Err?
    requires m.Assistant? ==> LacksContent(m) || p.pending != map[] || MapContent(s.kept, m.content).None?
    requires MapContent(s.basic, m.content).None? ==> exists i :: 0 <= i < |m.content| && s.basic(m.content[i]).None?
    requires MapContent(s.kept, m.content).None? ==> exists i :: 0 <= i < |m.content| && s.kept(m.content[i]).None?
    ensures Justified(s, p, m, PrepareMessage(s, p, m).error)
  {
    hide Blank, MapContent, PrepareCalls;
  }

  /** The whole history is refused for its first refused message, or for calls left open at the end. */
  lemma {:induction false} FirstRefusalCounts<C, J>(s: Settings<C, J>, p: Progress, ms: seq<Message<C, J>>)
    ensures PrepareFrom(s, p, ms).Err? ==>
              exists i, q: Progress :: 0 <= i < |ms| && PrepareFrom(s, p, ms[..i]).Ok? && PrepareFrom(s, p, ms[..i]).value.1 == q
                                       && PrepareMessage(s, q, ms[i]) == Err(PrepareFrom(s, p, ms).error)
    decreases |ms|
  {
    hide PrepareMessage;
    if PrepareFrom(s, p, ms).Err? {
      if PrepareMessage(s, p, ms[0]).Err? {
        assert ms[..0] == [] && PrepareFrom(s, p, ms[..0]).value.1 == p;
      } else {
        var next := PrepareMessage(s, p, ms[0]).value.1;
        FirstRefusalCounts(s, next, ms[1..]);
        var i, q: Progress :| 0 <= i < |ms[1..]| && PrepareFrom(s, next, ms[1..][..i]).Ok? && PrepareFrom(s, next, ms[1..][..i]).value.1 == q
                              && PrepareMessage(s, q, ms[1..][i]) == Err(PrepareFrom(s, next, ms[1..]).error);
        assert ms[..i + 1][0] == ms[0] && ms[..i + 1][1..] == ms[1..][..i];
        assert PrepareFrom(s, p, ms[..i + 1]).Ok? && PrepareFrom(s, p, ms[..i + 1]).value.1 == q;
      }
    }
  }
}
