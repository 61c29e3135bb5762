/** What each kind of line means, with the limits in numbers. */
module SseLines {
  import opened Prelude
  import opened Sse
  import opened SseProofs

  /** What a field with a value does to the pending event; fields other than the two do nothing. */
  function FieldMeans(st: State, name: string, value: string): Outcome {
    match name
    case "event" =>
      if Bytes(value) > 256 then Outcome([], st, Some(NameLimit)) else Outcome([], State(Some(value), st.text, st.lines), None)
    case "data" =>
      if st.lines >= 1024 then Outcome([], st, Some(DataLineLimit))
      else if Bytes(st.text + value) > 4 * 1024 * 1024 then Outcome([], st, Some(FrameLimit))
      else Outcome([], State(st.event, st.text + value + "\n", st.lines + 1), None)
    case _ => Outcome([], st, None)
  }

  /** One space after the colon does not belong to the value, any further one does. */
  function WithoutSpace(value: string): string {
    if value != "" && value[0] == ' ' then value[1..] else value
  }

  /** Sizes are those of UTF-8: one byte up to 127, two up to 2047, three up to 65535, and four above. */
  lemma SizeExactly(s: string, c: char)
    ensures Bytes("") == 0
    ensures Bytes(s + [c]) == Bytes(s) + if c as int <= 127 then 1 else if c as int <= 2047 then 2 else if c as int <= 65535 then 3 else 4
  {
    BytesAppend(s, [c]);
    assert Bytes([c]) == Width(c);
  }

  predicate WithinLine(line: string) {
    Bytes(line) <= 1024 * 1024
  }

  lemma LineTooLong(st: State, raw: string)
    requires !WithinLine(raw)
    ensures Line(st, raw) == Outcome([], st, Some(LineLimit))
  {}

  /** A carriage return before the line feed does not belong to the line. */
  lemma CarriageReturnIsCut(st: State, line: string)
    requires WithinLine(line + "\r") && (line == "" || line[|line| - 1] != '\r')
    ensures Line(st, line + "\r") == Line(st, line)
  {
    hide Field, Value, Interpret;
    BytesAppend(line, "\r");
    assert TrimCr(line + "\r") == line == TrimCr(line);
  }

  /** A blank line dispatches the pending event if it has data lines, without the last line feed, and starts a new one. */
  lemma BlankLine(st: State)
    ensures Line(st, "") == Outcome(if st.text == "" then [] else [Frame(st.event, st.text[..|st.text| - 1])], State(None, "", 0), None)
  {}

  lemma CommentLine(st: State, text: string)
    requires WithinLine(":" + text)
    ensures Line(st, ":" + text) == Outcome([], st, None)
  {}

  /** A line with a colon is a field with a value; with none it is a field whose value is empty. */
  lemma FieldLine(st: State, name: string, value: string)
    requires name != "" && ':' !in name
    requires value != "" ==> value[|value| - 1] != '\r'
    ensures WithinLine(name + ":" + value) ==> Line(st, name + ":" + value) == FieldMeans(st, name, WithoutSpace(value))
    ensures WithinLine(name) && name[|name| - 1] != '\r' ==> Line(st, name) == FieldMeans(st, name, "")
  {
    hide Bytes, IndexOf, Field, Value;
    NamedField(name, value);
    var line := name + ":" + value;
    assert line[0] == name[0] && line != "" && TrimCr(line) == line;
    assert name[0] in name;
    InterpretMeans(st, name, WithoutSpace(value));
    InterpretMeans(st, name, "");
  }

  lemma NamedField(name: string, value: string)
    requires ':' !in name
    ensures Field(name + ":" + value) == name && Value(name + ":" + value) == WithoutSpace(value)
    ensures Field(name) == name && Value(name) == ""
  {
    hide IndexOf;
    var line := name + ":" + value;
    assert line == name + (":" + value);
    IndexOfAppend(name, ":" + value, ':');
    assert IndexOf(":" + value, ':') == 0 by { ColonFirst(value); }
    IndexOfAppend(name, "", ':');
    assert name + "" == name && line[|name| + 1..] == value;
    assert value != "" ==> line[|name| + 1] == value[0] && line[|name| + 2..] == value[1..];
    NoColon(name);
  }

  lemma ColonFirst(value: string)
    ensures IndexOf(":" + value, ':') == 0
  {}

  lemma {:induction false} NoColon(s: string)
    requires ':' !in s
    ensures IndexOf(s, ':') == |s|
  {
    if s != "" {
      NoColon(s[1..]);
    }
  }

  lemma InterpretMeans(st: State, name: string, value: string)
    ensures Interpret(st, name, value) == FieldMeans(st, name, value)
  {
    hide Bytes;
  }

  /** Every line is of one of these kinds. */
  lemma LinesAreOfAKind(raw: string)
    ensures var line := TrimCr(raw);
      || line == "" || line[0] == ':'
      || (':' !in line) || exists name: string, value: string :: name != "" && ':' !in name && line == name + ":" + value
  {
    var line := TrimCr(raw);
    if line != "" && line[0] != ':' && ':' in line {
      var n := IndexOf(line, ':');
      ColonInside(line);
      assert line == line[..n] + ":" + line[n + 1..];
    }
  }

  lemma {:induction false} ColonInside(line: string)
    requires ':' in line
    ensures IndexOf(line, ':') < |line|
  {
    if line[0] != ':' {
      ColonInside(line[1..]);
    }
  }

  /** What a chunk does: the total and the pending line are limited before its lines are looked at. */
  lemma OneChunk(st: State, buffer: string, total: nat, chunk: Chunk, tail: string)
    ensures var text := buffer + chunk.text;
      var (frames, error) := Decode(st, buffer, total, [chunk], tail);
      if total + chunk.size > 16 * 1024 * 1024 then frames == [] && error == Some(TotalLimit)
      else if '\n' !in text && !WithinLine(text) then frames == [] && error == Some(PendingLimit)
      else Drain(st, text).frames <= frames && (Drain(st, text).error.Some? ==> error == Drain(st, text).error)
  {
    hide Drain, Rest, Bytes;
    assert [chunk][1..] == [];
  }
}
