/** Preparing a request's history: call and result pairing, and the wire ids of tool calls. */
module History {
  import opened Prelude
  import ToolCallIds

  datatype Call<J> = Call(id: string, name: string, input: J)

  datatype Message<C, J> =
    | User(content: seq<C>)
    | Assistant(content: seq<C>, calls: seq<Call<J>>)
    | Tool(id: string, name: string, content: seq<C>, isError: bool)

  datatype PreparedCall<J> = PreparedCall(id: string, canonicalId: string, name: string, canonicalName: string, input: J)

  datatype Prepared<C, J> =
    | PreparedUser(content: seq<C>)
    | PreparedAssistant(content: seq<C>, calls: seq<PreparedCall<J>>)
    | PreparedTool(id: string, canonicalId: string, name: string, canonicalName: string, content: seq<C>, isError: bool)

  datatype Error =
    | EmptyContent | OpenCalls | BadContent | BlankId | BlankName | BadInput | DuplicateId
    | TooManyCollisions | BadToolName | UnmatchedResult | WrongName | Unresolved

  /**
   What preparation takes from elsewhere: the id rule, the provider's name for a tool,
   the checks and sanitizers of content, and the check of a call's input.
   */
  datatype Settings<!C, !J> = Settings(
    rule: ToolCallIds.Rule, visible: string -> Option<string>,
    basic: C -> Option<C>, kept: C -> Option<C>, valid: J -> bool)

  /** The wire ids given out, by call id; the names of calls without a result; the wire ids in use. */
  datatype Progress = Progress(ids: map<string, string>, pending: map<string, string>, occupied: set<string>)

  const START := Progress(map[], map[], {})

  predicate IsSpace(c: char) {
    || '\t' <= c <= '\r' || c == ' ' || c == '\U{A0}' || c == '\U{1680}' || '\U{2000}' <= c <= '\U{200A}'
    || c == '\U{2028}' || c == '\U{2029}' || c == '\U{202F}' || c == '\U{205F}' || c == '\U{3000}' || c == '\U{FEFF}'
  }

  predicate Blank(s: string) {
    forall i :: 0 <= i < |s| ==> IsSpace(s[i])
  }

  function MapContent<C>(f: C -> Option<C>, content: seq<C>): Option<seq<C>> {
    if content == [] then Some([])
    else match f(content[0])
      case None => None
      case Some(item) =>
        match MapContent(f, content[1..])
        case None => None
        case Some(items) => Some([item] + items)
  }

  // ---- One call ----------------------------------------------------------------------------

  predicate ValidCall<C, J>(s: Settings<C, J>, call: Call<J>) {
    !Blank(call.id) && !Blank(call.name) && s.valid(call.input) && s.visible(call.name).Some?
  }

  /** A call as it is sent, under given wire ids. */
  function TranslateCall<C, J>(s: Settings<C, J>, ids: map<string, string>, call: Call<J>): PreparedCall<J>
    requires call.id in ids && s.visible(call.name).Some?
  {
    PreparedCall(ids[call.id], call.id, s.visible(call.name).value, call.name, call.input)
  }

  function PrepareCall<C, J>(s: Settings<C, J>, p: Progress, call: Call<J>): Result<(PreparedCall<J>, Progress), Error> {
    if Blank(call.id) then Err(BlankId)
    else if Blank(call.name) then Err(BlankName)
    else if !s.valid(call.input) then Err(BadInput)
    else if call.id in p.ids then Err(DuplicateId)
    else match ToolCallIds.Normalized(s.rule, call.id, p.occupied)
      case None => Err(TooManyCollisions)
      case Some(id) =>
        if s.visible(call.name).None? then Err(BadToolName)
        else
          var next := Progress(p.ids[call.id := id], p.pending[call.id := call.name], p.occupied + {id});
          Ok((TranslateCall(s, next.ids, call), next))
  }

  function PrepareCalls<C, J>(s: Settings<C, J>, p: Progress, calls: seq<Call<J>>): Result<(seq<PreparedCall<J>>, Progress), Error>
    decreases |calls|
  {
    if calls == [] then Ok(([], p))
    else match PrepareCall(s, p, calls[0])
      case Err(e) => Err(e)
      case Ok((call, next)) => Before([call], PrepareCalls(s, next, calls[1..]))
  }

  function Before<T>(first: seq<T>, rest: Result<(seq<T>, Progress), Error>): Result<(seq<T>, Progress), Error> {
    if rest.Err? then rest else Ok((first + rest.value.0, rest.value.1))
  }

  // ---- One message ---------------------------------------------------------------------------

  predicate LacksContent<C, J>(m: Message<C, J>) {
    m.content == [] && (!m.Assistant? || m.calls == [])
  }

  function PrepareMessage<C, J>(s: Settings<C, J>, p: Progress, m: Message<C, J>): Result<(Prepared<C, J>, Progress), Error> {
    if LacksContent(m) then Err(EmptyContent)
    else match m
      case User(content) =>
        if p.pending != map[] then Err(OpenCalls)
        else (match MapContent(s.basic, content)
              case None => Err(BadContent)
              case Some(items) => Ok((PreparedUser(items), p)))
      case Assistant(content, calls) =>
        if p.pending != map[] then Err(OpenCalls)
        else (match MapContent(s.kept, content)
              case None => Err(BadContent)
              case Some(items) =>
                match PrepareCalls(s, p, calls)
                case Err(e) => Err(e)
                case Ok((prepared, next)) => Ok((PreparedAssistant(items, prepared), next)))
      case Tool(id, name, content, isError) =>
        if Blank(id) then Err(BlankId)
        else if Blank(name) then Err(BlankName)
        else if id !in p.pending then Err(UnmatchedResult)
        else if p.pending[id] != name then Err(WrongName)
        else if id !in p.ids then Err(UnmatchedResult)
        else if s.visible(name).None? then Err(BadToolName)
        else (match MapContent(s.basic, content)
              case None => Err(BadContent)
              case Some(items) =>
                Ok((PreparedTool(p.ids[id], id, s.visible(name).value, name, items, isError),
                    p.(pending := p.pending - {id}))))
  }

  function PrepareFrom<C, J>(s: Settings<C, J>, p: Progress, ms: seq<Message<C, J>>): Result<(seq<Prepared<C, J>>, Progress), Error>
    decreases |ms|
  {
    if ms == [] then Ok(([], p))
    else match PrepareMessage(s, p, ms[0])
      case Err(e) => Err(e)
      case Ok((prepared, next)) => Before([prepared], PrepareFrom(s, next, ms[1..]))
  }

  /** The whole history. */
  function Prepare<C, J>(s: Settings<C, J>, ms: seq<Message<C, J>>): Result<seq<Prepared<C, J>>, Error> {
    match PrepareFrom(s, START, ms)
    case Err(e) => Err(e)
    case Ok((prepared, end)) => if end.pending != map[] then Err(Unresolved) else Ok(prepared)
  }

  // ---- The loops -------------------------------------------------------------------------------

  /** The three tables the loops update. */
  class Tables {
    var callIds: map<string, string>
    var pending: map<string, string>
    var occupied: set<string>

    ghost function Value(): Progress
      reads this
    {
      Progress(callIds, pending, occupied)
    }

    constructor ()
      ensures Value() == START
    {
      callIds, pending, occupied := map[], map[], {};
    }

    method AddCall<C, J>(s: Settings<C, J>, call: Call<J>) returns (r: Result<PreparedCall<J>, Error>)
      modifies this
      ensures var spec := PrepareCall(s, old(Value()), call);
        if spec.Err? then r == Err(spec.error) else r == Ok(spec.value.0) && Value() == spec.value.1
    {
      hide Blank, ToolCallIds.Normalized;
      if Blank(call.id) {
        return Err(BlankId);
      }
      if Blank(call.name) {
        return Err(BlankName);
      }
      if !s.valid(call.input) {
        return Err(BadInput);
      }
      if call.id in callIds {
        return Err(DuplicateId);
      }
      var normalized := ToolCallIds.NormalizedToolCallId(s.rule, call.id, occupied);
      if normalized.None? {
        return Err(TooManyCollisions);
      }
      callIds := callIds[call.id := normalized.value];
      occupied := occupied + {normalized.value};
      pending := pending[call.id := call.name];
      var visible := s.visible(call.name);
      if visible.None? {
        return Err(BadToolName);
      }
      return Ok(PreparedCall(normalized.value, call.id, visible.value, call.name, call.input));
    }

    method AddCalls<C, J>(s: Settings<C, J>, calls: seq<Call<J>>) returns (r: Result<seq<PreparedCall<J>>, Error>)
      modifies this
      ensures var spec := PrepareCalls(s, old(Value()), calls);
        if spec.Err? then r == Err(spec.error) else r == Ok(spec.value.0) && Value() == spec.value.1
    {
      hide PrepareCall;
      var prepared: seq<PreparedCall<J>> := [];
      ghost var spec := PrepareCalls(s, Value(), calls);
      BeforeNothing(spec);
      for i := 0 to |calls|
        invariant spec == Before(prepared, PrepareCalls(s, Value(), calls[i..]))
      {
        assert calls[i..][0] == calls[i] && calls[i..][1..] == calls[i + 1..];
        var call := AddCall(s, calls[i]);
        if call.Err? {
          return Err(call.error);
        }
        BeforeTwice(prepared, [call.value], PrepareCalls(s, Value(), calls[i + 1..]));
        prepared := prepared + [call.value];
      }
      assert prepared + [] == prepared;
      return Ok(prepared);
    }

    method AddMessage<C, J>(s: Settings<C, J>, m: Message<C, J>) returns (r: Result<Prepared<C, J>, Error>)
      modifies this
      ensures var spec := PrepareMessage(s, old(Value()), m);
        if spec.Err? then r == Err(spec.error) else r == Ok(spec.value.0) && Value() == spec.value.1
    {
      hide Blank, MapContent, PrepareCalls;
      if |m.content| == 0 && (!m.Assistant? || |m.calls| == 0) {
        return Err(EmptyContent);
      }
      match m
      case User(content) =>
        if |pending| > 0 {
          return Err(OpenCalls);
        }
        var items := MapContent(s.basic, content);
        return if items.None? then Err(BadContent) else Ok(PreparedUser(items.value));
      case Assistant(content, calls) =>
        if |pending| > 0 {
          return Err(OpenCalls);
        }
        var items := MapContent(s.kept, content);
        if items.None? {
          return Err(BadContent);
        }
        var prepared := AddCalls(s, calls);
        return if prepared.Err? then Err(prepared.error) else Ok(PreparedAssistant(items.value, prepared.value));
      case Tool(id, name, content, isError) =>
        if Blank(id) {
          return Err(BlankId);
        }
        if Blank(name) {
          return Err(BlankName);
        }
        if id !in pending {
          return Err(UnmatchedResult);
        }
        if pending[id] != name {
          return Err(WrongName);
        }
        if id !in callIds {
          return Err(UnmatchedResult);
        }
        pending := pending - {id};
        var visible, items := s.visible(name), MapContent(s.basic, content);
        if visible.None? {
          return Err(BadToolName);
        }
        return if items.None? then Err(BadContent)
               else Ok(PreparedTool(callIds[id], id, visible.value, name, items.value, isError));
    }
  }

  lemma BeforeNothing<T>(rest: Result<(seq<T>, Progress), Error>)
    ensures Before([], rest) == rest
  {
    if rest.Ok? {
      assert [] + rest.value.0 == rest.value.0;
    }
  }

  lemma BeforeTwice<T>(a: seq<T>, b: seq<T>, rest: Result<(seq<T>, Progress), Error>)
    ensures Before(a, Before(b, rest)) == Before(a + b, rest)
  {
    if rest.Ok? {
      assert a + (b + rest.value.0) == (a + b) + rest.value.0;
    }
  }

  method PrepareHistory<C, J>(s: Settings<C, J>, ms: seq<Message<C, J>>) returns (r: Result<seq<Prepared<C, J>>, Error>)
    ensures r == Prepare(s, ms)
  {
    hide PrepareMessage;
    var tables := new Tables();
    var output: seq<Prepared<C, J>> := [];
    BeforeNothing(PrepareFrom(s, START, ms));
    for i := 0 to |ms|
      invariant fresh(tables)
      invariant PrepareFrom(s, START, ms) == Before(output, PrepareFrom(s, tables.Value(), ms[i..]))
    {
      assert ms[i..][0] == ms[i] && ms[i..][1..] == ms[i + 1..];
      var message := tables.AddMessage(s, ms[i]);
      if message.Err? {
        return Err(message.error);
      }
      BeforeTwice(output, [message.value], PrepareFrom(s, tables.Value(), ms[i + 1..]));
      output := output + [message.value];
    }
    assert output + [] == output;
    return if |tables.pending| > 0 then Err(Unresolved) else Ok(output);
  }
}
