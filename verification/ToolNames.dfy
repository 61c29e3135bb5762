/** Tool names: how a dialect renders them, the frozen roster, and the way back. */
module ToolNames {
  import opened Prelude

  /** Which characters a provider allows in a tool name, and how many. */
  datatype NameRule = NameRule(allowed: char -> bool, maxLength: nat)

  /** A dialect's name overrides and its name rule. */
  datatype Dialect = Dialect(overrides: map<string, string>, rule: Option<NameRule>)

  datatype Tool = Tool(canonicalName: string, name: string)

  datatype Error = DeclaredTwice(name: string) | EmptyName(name: string) | SameProviderName(first: string, second: string)

  /** Every run of disallowed characters becomes one underscore; `inRun` says that a run is going on. */
  function Sanitize(allowed: char -> bool, s: string, inRun: bool): string {
    if s == "" then ""
    else if allowed(s[0]) then [s[0]] + Sanitize(allowed, s[1..], false)
    else (if inRun then "" else "_") + Sanitize(allowed, s[1..], true)
  }

  /** The provider's name for a tool, unless nothing is left of it. */
  function Render(d: Dialect, canonical: string): Option<string> {
    var requested := if canonical in d.overrides then d.overrides[canonical] else canonical;
    match d.rule
    case None => Some(requested)
    case Some(rule) =>
      var name := Slice(Sanitize(rule.allowed, requested, false), rule.maxLength);
      if name == "" then None else Some(name)
  }

  /** What a rendered name promises: no more characters than allowed, and only allowed ones or underscores. */
  lemma RenderedNameObeysRule(d: Dialect, canonical: string)
    requires d.rule.Some? && Render(d, canonical).Some?
    ensures var name := Render(d, canonical).value;
      && 0 < |name| <= d.rule.value.maxLength
      && forall i :: 0 <= i < |name| ==> name[i] == '_' || d.rule.value.allowed(name[i])
  {
    var requested := if canonical in d.overrides then d.overrides[canonical] else canonical;
    SanitizedIsAllowed(d.rule.value.allowed, requested, false);
  }

  lemma {:induction false} SanitizedIsAllowed(allowed: char -> bool, s: string, inRun: bool)
    ensures forall i :: 0 <= i < |Sanitize(allowed, s, inRun)| ==>
                          Sanitize(allowed, s, inRun)[i] == '_' || allowed(Sanitize(allowed, s, inRun)[i])
  {
    if s != "" {
      SanitizedIsAllowed(allowed, s[1..], !allowed(s[0]));
    }
  }

  /** Allowed names are kept. */
  lemma {:induction false} SanitizeKeeps(allowed: char -> bool, s: string, inRun: bool)
    requires forall i :: 0 <= i < |s| ==> allowed(s[i])
    ensures Sanitize(allowed, s, inRun) == s
  {
    if s != "" {
      SanitizeKeeps(allowed, s[1..], false);
    }
  }

  lemma {:induction false} RunIsSwallowed(allowed: char -> bool, run: string, rest: string)
    requires forall i :: 0 <= i < |run| ==> !allowed(run[i])
    requires rest != "" ==> allowed(rest[0])
    ensures Sanitize(allowed, run + rest, true) == Sanitize(allowed, rest, false)
  {
    if run == "" {
      assert run + rest == rest;
    } else {
      assert (run + rest)[1..] == run[1..] + rest;
      RunIsSwallowed(allowed, run[1..], rest);
    }
  }

  /** Each longest run of other characters becomes one underscore, and what is allowed around it stays. */
  lemma {:induction false} SanitizeExactly(allowed: char -> bool, kept: string, run: string, rest: string)
    requires (forall i :: 0 <= i < |kept| ==> allowed(kept[i])) && run != "" && (forall i :: 0 <= i < |run| ==> !allowed(run[i]))
    requires rest != "" ==> allowed(rest[0])
    ensures Sanitize(allowed, kept + run + rest, false) == kept + "_" + Sanitize(allowed, rest, false)
    decreases |kept|
  {
    var s := kept + run + rest;
    if kept == "" {
      assert s[0] == run[0] && s[1..] == run[1..] + rest;
      RunIsSwallowed(allowed, run[1..], rest);
    } else {
      assert s[0] == kept[0] && s[1..] == kept[1..] + run + rest;
      SanitizeExactly(allowed, kept[1..], run, rest);
    }
  }

  /** The requested name is the override or the canonical name; with a rule it is sanitized, then cut, and must not be empty. */
  lemma RenderExactly(d: Dialect, canonical: string)
    ensures var requested := if canonical in d.overrides then d.overrides[canonical] else canonical;
      match d.rule
      case None => Render(d, canonical) == Some(requested)
      case Some(rule) =>
        var clean := Sanitize(rule.allowed, requested, false);
        if requested == "" || rule.maxLength == 0 then Render(d, canonical).None?
        else Render(d, canonical) == Some(if |clean| <= rule.maxLength then clean else clean[..rule.maxLength])
  {
    var requested := if canonical in d.overrides then d.overrides[canonical] else canonical;
    if d.rule.Some? && requested != "" {
      SomethingIsLeft(d.rule.value.allowed, requested);
    }
  }

  lemma SomethingIsLeft(allowed: char -> bool, s: string)
    requires s != ""
    ensures Sanitize(allowed, s, false) != ""
  {}

  // ---- The frozen roster -------------------------------------------------------------------

  /** The tools as the provider sees them: one per declaration, in order. */
  ghost predicate Rendered(d: Dialect, names: seq<string>, tools: seq<Tool>) {
    && |tools| == |names|
    && forall i :: 0 <= i < |names| ==> tools[i].canonicalName == names[i] && Render(d, names[i]) == Some(tools[i].name)
  }

  /** No two tools share a canonical name or a provider name. */
  ghost predicate OneToOne(tools: seq<Tool>) {
    forall i, j :: 0 <= i < j < |tools| ==>
                     tools[i].canonicalName != tools[j].canonicalName && tools[i].name != tools[j].name
  }

  ghost predicate Freezable(d: Dialect, names: seq<string>) {
    exists tools: seq<Tool> :: Rendered(d, names, tools) && OneToOne(tools)
  }

  lemma NamelessIsFatal(d: Dialect, names: seq<string>, i: nat)
    requires i < |names| && Render(d, names[i]).None?
    ensures !Freezable(d, names)
  {}

  /** A table from one of the names to the tools rendered so far. */
  ghost predicate Indexes(table: map<string, Tool>, tools: seq<Tool>, key: Tool -> string) {
    && (forall k :: 0 <= k < |tools| ==> key(tools[k]) in table)
    && forall n :: n in table ==> exists k :: 0 <= k < |tools| && table[n] == tools[k] && key(tools[k]) == n
  }

  lemma IndexAdds(table: map<string, Tool>, tools: seq<Tool>, key: Tool -> string, tool: Tool)
    requires Indexes(table, tools, key)
    requires key(tool) !in table
    ensures Indexes(table[key(tool) := tool], tools + [tool], key)
  {
    var table', tools' := table[key(tool) := tool], tools + [tool];
    forall n | n in table'
      ensures exists k :: 0 <= k < |tools'| && table'[n] == tools'[k] && key(tools'[k]) == n
    {
      if n == key(tool) {
        assert tools'[|tools|] == tool;
      } else {
        var k :| 0 <= k < |tools| && table[n] == tools[k] && key(tools[k]) == n;
        assert tools'[k] == tools[k];
      }
    }
  }

  lemma Indexed(table: map<string, Tool>, tools: seq<Tool>, key: Tool -> string)
    requires Indexes(table, tools, key)
    ensures forall k :: 0 <= k < |tools| ==> key(tools[k]) in table
  {}

  function CanonicalName(tool: Tool): string {
    tool.canonicalName
  }

  function ProviderName(tool: Tool): string {
    tool.name
  }

  lemma CanonicalNameClash(d: Dialect, names: seq<string>, i: nat, table: map<string, Tool>, tools: seq<Tool>)
    requires i < |names| && Rendered(d, names[..i], tools) && Indexes(table, tools, CanonicalName) && names[i] in table
    ensures !Freezable(d, names)
  {}

  lemma ProviderNameClash(d: Dialect, names: seq<string>, i: nat, table: map<string, Tool>, tools: seq<Tool>, name: string)
    requires i < |names| && Rendered(d, names[..i], tools) && Indexes(table, tools, ProviderName) && name in table
    requires Render(d, names[i]) == Some(name)
    ensures !Freezable(d, names)
  {}

  lemma RosterGrows(d: Dialect, names: seq<string>, i: nat, byCanonicalName: map<string, Tool>,
                    byProviderName: map<string, Tool>, tools: seq<Tool>, tool: Tool)
    requires i < |names| && Rendered(d, names[..i], tools) && OneToOne(tools)
    requires Indexes(byCanonicalName, tools, CanonicalName) && Indexes(byProviderName, tools, ProviderName)
    requires tool.canonicalName == names[i] && Render(d, names[i]) == Some(tool.name)
    requires tool.canonicalName !in byCanonicalName && tool.name !in byProviderName
    ensures Rendered(d, names[..i + 1], tools + [tool]) && OneToOne(tools + [tool])
    ensures Indexes(byCanonicalName[tool.canonicalName := tool], tools + [tool], CanonicalName)
    ensures Indexes(byProviderName[tool.name := tool], tools + [tool], ProviderName)
  {
    hide Render, Indexes;
    Indexed(byCanonicalName, tools, CanonicalName);
    Indexed(byProviderName, tools, ProviderName);
    IndexAdds(byCanonicalName, tools, CanonicalName, tool);
    IndexAdds(byProviderName, tools, ProviderName, tool);
    assert names[..i + 1] == names[..i] + [names[i]];
    forall k | 0 <= k < |tools| ensures tools[k].canonicalName != tool.canonicalName && tools[k].name != tool.name {
      assert CanonicalName(tools[k]) in byCanonicalName && ProviderName(tools[k]) in byProviderName;
    }
  }

  /** Renders the declared tools; fails exactly when two share a name, on either side, or one has no name. */
  method FreezeRoster(d: Dialect, names: seq<string>) returns (r: Result<seq<Tool>, Error>)
    ensures r.Ok? ==> Rendered(d, names, r.value) && OneToOne(r.value)
    ensures r.Ok? <==> Freezable(d, names)
    ensures r.Err? ==> Blames(d, names, r.error)
  {
    var rendered: seq<Tool> := [];
    var byProviderName: map<string, Tool> := map[];
    var byCanonicalName: map<string, Tool> := map[];
    assert Indexes(byProviderName, rendered, ProviderName) && Indexes(byCanonicalName, rendered, CanonicalName);
    assert Rendered(d, names[..0], rendered) && OneToOne(rendered);
    hide Render, Freezable, Indexes, Rendered, OneToOne, Blames;
    for i := 0 to |names|
      invariant Rendered(d, names[..i], rendered) && OneToOne(rendered)
      invariant Indexes(byProviderName, rendered, ProviderName) && Indexes(byCanonicalName, rendered, CanonicalName)
    {
      var canonical := names[i];
      if canonical in byCanonicalName {
        CanonicalNameClash(d, names, i, byCanonicalName, rendered);
        BlamesTwice(d, names, i, byCanonicalName, rendered);
        return Err(DeclaredTwice(canonical));
      }
      var name := Render(d, canonical);
      if name.None? {
        NamelessIsFatal(d, names, i);
        BlamesNameless(d, names, i);
        return Err(EmptyName(canonical));
      }
      if name.value in byProviderName {
        ProviderNameClash(d, names, i, byProviderName, rendered, name.value);
        BlamesClash(d, names, i, byProviderName, rendered, name.value);
        return Err(SameProviderName(byProviderName[name.value].canonicalName, canonical));
      }
      var visible := Tool(canonical, name.value);
      RosterGrows(d, names, i, byCanonicalName, byProviderName, rendered, visible);
      rendered := rendered + [visible];
      byProviderName := byProviderName[visible.name := visible];
      byCanonicalName := byCanonicalName[canonical := visible];
    }
    assert names[..|names|] == names;
    RenderedIsFreezable(d, names, rendered);
    return Ok(rendered);
  }

  /** What a refusal says of the declarations. */
  ghost predicate Blames(d: Dialect, names: seq<string>, e: Error) {
    match e
    case DeclaredTwice(name) => exists i, j :: 0 <= i < j < |names| && names[i] == names[j] == name
    case EmptyName(name) => name in names && Render(d, name).None?
    case SameProviderName(first, second) =>
      && (exists i, j :: 0 <= i < j < |names| && names[i] == first && names[j] == second)
      && Render(d, first).Some? && Render(d, first) == Render(d, second)
  }

  lemma BlamesTwice(d: Dialect, names: seq<string>, i: nat, table: map<string, Tool>, tools: seq<Tool>)
    requires i < |names| && Rendered(d, names[..i], tools) && Indexes(table, tools, CanonicalName) && names[i] in table
    ensures Blames(d, names, DeclaredTwice(names[i]))
  {
    var k :| 0 <= k < |tools| && table[names[i]] == tools[k] && CanonicalName(tools[k]) == names[i];
    assert names[k] == names[..i][k] == names[i];
  }

  lemma BlamesNameless(d: Dialect, names: seq<string>, i: nat)
    requires i < |names| && Render(d, names[i]).None?
    ensures Blames(d, names, EmptyName(names[i]))
  {}

  lemma BlamesClash(d: Dialect, names: seq<string>, i: nat, table: map<string, Tool>, tools: seq<Tool>, name: string)
    requires i < |names| && Rendered(d, names[..i], tools) && Indexes(table, tools, ProviderName) && name in table
    requires Render(d, names[i]) == Some(name)
    ensures Blames(d, names, SameProviderName(table[name].canonicalName, names[i]))
  {
    var k :| 0 <= k < |tools| && table[name] == tools[k] && ProviderName(tools[k]) == name;
    assert names[k] == names[..i][k] == table[name].canonicalName;
  }

  lemma RenderedIsFreezable(d: Dialect, names: seq<string>, tools: seq<Tool>)
    requires Rendered(d, names, tools) && OneToOne(tools)
    ensures Freezable(d, names)
  {}

  // ---- The way to the provider and back ------------------------------------------------------

  function FindCanonical(tools: seq<Tool>, canonical: string): Option<Tool> {
    if tools == [] then None
    else if tools[0].canonicalName == canonical then Some(tools[0])
    else FindCanonical(tools[1..], canonical)
  }

  /** The name a call in the history is sent under: the roster's, or a fresh rendering for a tool no longer declared. */
  function VisibleName(d: Dialect, tools: seq<Tool>, canonical: string): Option<string> {
    match FindCanonical(tools, canonical)
    case Some(tool) => Some(tool.name)
    case None => Render(d, canonical)
  }

  /** The decoders' lookup: the first tool with the provider's name, or that name itself. */
  function ReverseName(tools: seq<Tool>, name: string): string {
    if tools == [] then name
    else if tools[0].name == name then tools[0].canonicalName
    else ReverseName(tools[1..], name)
  }

  predicate Declared(tools: seq<Tool>, canonical: string) {
    exists i :: 0 <= i < |tools| && tools[i].canonicalName == canonical
  }

  predicate Taken(tools: seq<Tool>, name: string) {
    exists i :: 0 <= i < |tools| && tools[i].name == name
  }

  lemma {:induction false} FindFinds(tools: seq<Tool>, canonical: string)
    ensures FindCanonical(tools, canonical).Some? <==> Declared(tools, canonical)
    ensures FindCanonical(tools, canonical).Some? ==>
              FindCanonical(tools, canonical).value in tools &&
              FindCanonical(tools, canonical).value.canonicalName == canonical
  {
    if tools != [] {
      FindFinds(tools[1..], canonical);
      if tools[0].canonicalName != canonical && Declared(tools, canonical) {
        var i :| 0 <= i < |tools| && tools[i].canonicalName == canonical;
        assert tools[1..][i - 1].canonicalName == canonical;
      }
    }
  }

  lemma {:induction false} ReverseFinds(tools: seq<Tool>, name: string)
    ensures !Taken(tools, name) ==> ReverseName(tools, name) == name
    ensures Taken(tools, name) ==>
              exists i :: 0 <= i < |tools| && tools[i].name == name && ReverseName(tools, name) == tools[i].canonicalName
  {
    if tools != [] {
      var rest := tools[1..];
      ReverseFinds(rest, name);
      if tools[0].name != name {
        if Taken(tools, name) {
          var i :| 0 <= i < |tools| && tools[i].name == name;
          assert rest[i - 1].name == name;
          var j :| 0 <= j < |rest| && rest[j].name == name && ReverseName(rest, name) == rest[j].canonicalName;
          assert tools[j + 1].name == name;
        }
      }
    }
  }

  /**
   The round trip, exactly: a name sent to the provider comes back as the canonical name
   if and only if the tool is declared, or its rendering is its own name and no declared
   tool goes by that name.
   */
  lemma ReverseUndoesVisible(d: Dialect, tools: seq<Tool>, canonical: string)
    requires OneToOne(tools) && VisibleName(d, tools, canonical).Some?
    ensures var name := VisibleName(d, tools, canonical).value;
      ReverseName(tools, name) == canonical <==>
      Declared(tools, canonical) || (!Taken(tools, name) && name == canonical)
  {
    var name := VisibleName(d, tools, canonical).value;
    FindFinds(tools, canonical);
    ReverseFinds(tools, name);
    if Declared(tools, canonical) {
      var tool := FindCanonical(tools, canonical).value;
      var k :| 0 <= k < |tools| && tools[k] == tool;
      assert Taken(tools, name);
      var i :| 0 <= i < |tools| && tools[i].name == name && ReverseName(tools, name) == tools[i].canonicalName;
      assert i == k;
    }
  }

  /** A call to a tool that is no longer declared can go out under another tool's name, and be read back as that tool. */
  lemma UndeclaredToolTakesAnotherName()
    ensures exists d: Dialect, tools: seq<Tool>, canonical: string ::
              && Rendered(d, ["a_"], tools) && OneToOne(tools) && !Declared(tools, canonical)
              && VisibleName(d, tools, canonical) == Some("a_") && ReverseName(tools, "a_") != canonical
  {
    var allowed := (c: char) => 'a' <= c <= 'z' || c == '_';
    var d, tools := Dialect(map[], Some(NameRule(allowed, 64))), [Tool("a_", "a_")];
    assert "a_"[1..] == "_" && "a."[1..] == "." && "_"[1..] == "" && "."[1..] == "";
    assert Sanitize(allowed, "_", false) == "_" && Sanitize(allowed, ".", false) == "_";
    assert Sanitize(allowed, "a_", false) == "a_" && Sanitize(allowed, "a.", false) == "a_";
    assert Rendered(d, ["a_"], tools);
    FindFinds(tools, "a.");
    assert VisibleName(d, tools, "a.") == Some("a_") && ReverseName(tools, "a_") != "a.";
  }
}
