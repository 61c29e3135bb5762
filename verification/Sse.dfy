/**
 Server-sent events: what a text means line by line, after section 9.2.6 of the WHATWG HTML
 standard with limits, and the incremental decoder that keeps a line buffer between chunks.
 */
module Sse {
  import opened Prelude

  const MAX_TOTAL: nat := 0x100_0000
  const MAX_LINE: nat := 0x10_0000
  const MAX_NAME: nat := 256
  const MAX_DATA_LINES: nat := 1024
  const MAX_FRAME_DATA: nat := 0x40_0000

  datatype Error = TotalLimit | PendingLimit | LineLimit | NameLimit | DataLineLimit | FrameLimit

  datatype Frame = Frame(event: Option<string>, data: string)

  // ---- Text --------------------------------------------------------------------------------

  /** The number of bytes of a character in UTF-8. */
  function Width(c: char): (n: nat)
    ensures 1 <= n <= 4
  {
    if c as int < 0x80 then 1 else if c as int < 0x800 then 2 else if c as int < 0x1_0000 then 3 else 4
  }

  function Bytes(s: string): nat {
    if s == "" then 0 else Width(s[0]) + Bytes(s[1..])
  }

  /** The first position of a character, or the length of the text. */
  function IndexOf(s: string, c: char): (n: nat)
    ensures n <= |s| && c !in s[..n] && (n < |s| ==> s[n] == c)
  {
    if s == "" || s[0] == c then 0 else 1 + IndexOf(s[1..], c)
  }

  function TrimCr(line: string): string {
    if line != "" && line[|line| - 1] == '\r' then line[..|line| - 1] else line
  }

  /** The lines of a text that a line feed ends. */
  function Lines(s: string): seq<string>
    decreases |s|
  {
    var n := IndexOf(s, '\n');
    if n == |s| then [] else [s[..n]] + Lines(s[n + 1..])
  }

  /** What follows the last line feed. */
  function Rest(s: string): string
    decreases |s|
  {
    var n := IndexOf(s, '\n');
    if n == |s| then s else Rest(s[n + 1..])
  }

  // ---- One line ----------------------------------------------------------------------------

  /**
   The event type and the data buffer of the standard, in which every data line is
   followed by a line feed, and the number of those lines.
   */
  datatype State = State(event: Option<string>, text: string, lines: nat)

  const EMPTY := State(None, "", 0)

  datatype Outcome = Outcome(frames: seq<Frame>, state: State, error: Option<Error>)

  function Field(line: string): string {
    line[..IndexOf(line, ':')]
  }

  function Value(line: string): string {
    var n := IndexOf(line, ':');
    if n == |line| then ""
    else if n + 1 < |line| && line[n + 1] == ' ' then line[n + 2..]
    else line[n + 1..]
  }

  /** A blank line dispatches the buffered event, without the last line feed. */
  function Dispatch(st: State): seq<Frame> {
    if st.text == "" then [] else [Frame(st.event, st.text[..|st.text| - 1])]
  }

  function Interpret(st: State, field: string, value: string): (o: Outcome)
    ensures o.frames == []
  {
    if field == "event" then
      if Bytes(value) > MAX_NAME then Outcome([], st, Some(NameLimit))
      else Outcome([], st.(event := Some(value)), None)
    else if field == "data" then
      if st.lines >= MAX_DATA_LINES then Outcome([], st, Some(DataLineLimit))
      else if Bytes(st.text + value) > MAX_FRAME_DATA then Outcome([], st, Some(FrameLimit))
      else Outcome([], st.(text := st.text + value + "\n", lines := st.lines + 1), None)
    else Outcome([], st, None)
  }

  function Line(st: State, raw: string): Outcome {
    var line := TrimCr(raw);
    if Bytes(raw) > MAX_LINE then Outcome([], st, Some(LineLimit))
    else if line == "" then Outcome(Dispatch(st), EMPTY, None)
    else if line[0] == ':' then Outcome([], st, None)
    else Interpret(st, Field(line), Value(line))
  }

  function RunLines(st: State, lines: seq<string>): Outcome
    decreases |lines|
  {
    if lines == [] then Outcome([], st, None)
    else
      var o := Line(st, lines[0]);
      if o.error.Some? then o
      else
        var r := RunLines(o.state, lines[1..]);
        r.(frames := o.frames + r.frames)
  }

  /** What a buffer's complete lines do. */
  function Drain(st: State, buffer: string): Outcome {
    RunLines(st, Lines(buffer))
  }

  lemma DrainUnfold(st: State, buffer: string)
    ensures var n := IndexOf(buffer, '\n');
      if n == |buffer| then Drain(st, buffer) == Outcome([], st, None) && Rest(buffer) == buffer
      else
        var o, r := Line(st, buffer[..n]), Drain(Line(st, buffer[..n]).state, buffer[n + 1..]);
        && Drain(st, buffer) == (if o.error.Some? then o else r.(frames := o.frames + r.frames))
        && Rest(buffer) == Rest(buffer[n + 1..])
  {}

  /** A whole text, line by line; its end terminates the last line and dispatches the last event. */
  function Reference(text: string): Outcome {
    Drain(EMPTY, text + "\n\n")
  }

  // ---- Chunk by chunk ------------------------------------------------------------------------

  /** A chunk's number of bytes and the text the streaming text decoder returns for it. */
  datatype Chunk = Chunk(size: nat, text: string)

  /** Decoding the remaining chunks; `tail` is what the text decoder returns at the end of input. */
  function Decode(st: State, buffer: string, total: nat, chunks: seq<Chunk>, tail: string): (seq<Frame>, Option<Error>)
    decreases |chunks|
  {
    if chunks == [] then
      var r := Drain(st, buffer + tail + "\n\n");
      (r.frames, r.error)
    else
      var text := buffer + chunks[0].text;
      if total + chunks[0].size > MAX_TOTAL then ([], Some(TotalLimit))
      else if '\n' !in text && Bytes(text) > MAX_LINE then ([], Some(PendingLimit))
      else
        var r := Drain(st, text);
        if r.error.Some? then (r.frames, r.error)
        else
          var (frames, error) := Decode(r.state, Rest(text), total + chunks[0].size, chunks[1..], tail);
          (r.frames + frames, error)
  }

  // ---- The decoder's own state ---------------------------------------------------------------

  /** The standard's data buffer for a list of data lines. */
  function Text(data: seq<string>): string {
    if data == [] then "" else Text(data[..|data| - 1]) + data[|data| - 1] + "\n"
  }

  function Join(data: seq<string>): string
    requires data != []
  {
    if |data| == 1 then data[0] else Join(data[..|data| - 1]) + "\n" + data[|data| - 1]
  }

  lemma {:induction false} TextIsJoin(data: seq<string>)
    requires data != []
    ensures Text(data) == Join(data) + "\n"
  {
    var init, last := data[..|data| - 1], data[|data| - 1];
    if |data| == 1 {
      assert Text(init) + last == last;
    } else {
      TextIsJoin(init);
    }
  }

  lemma {:induction false} BytesAppend(a: string, b: string)
    ensures Bytes(a + b) == Bytes(a) + Bytes(b)
  {
    if a == "" {
      assert a + b == b;
    } else {
      assert (a + b)[1..] == a[1..] + b;
      BytesAppend(a[1..], b);
    }
  }

  /** The running count of data bytes is what the joined data with one more line would take. */
  lemma CountIsJoinedLength(data: seq<string>, dataBytes: nat, value: string)
    requires dataBytes == if data == [] then 0 else Bytes(Join(data))
    ensures Bytes(Text(data) + value) == dataBytes + Bytes(value) + if data == [] then 0 else 1
    ensures Join(data + [value]) == Text(data) + value
    ensures Text(data + [value]) == Text(data) + value + "\n"
  {
    assert (data + [value])[..|data|] == data;
    BytesAppend(Text(data), value);
    if data == [] {
      assert Text(data) + value == value;
    } else {
      TextIsJoin(data);
      BytesAppend(Join(data), "\n");
      assert Bytes("\n") == 1;
    }
  }

  class Decoder {
    var buffer: string
    var eventName: Option<string>
    var data: seq<string>
    var dataBytes: nat
    var totalBytes: nat

    ghost predicate Valid()
      reads this
    {
      dataBytes == if data == [] then 0 else Bytes(Join(data))
    }

    ghost function Pending(): State
      reads this
    {
      State(eventName, Text(data), |data|)
    }

    constructor ()
      ensures Valid() && Pending() == EMPTY && buffer == "" && totalBytes == 0
    {
      buffer, eventName, data, dataBytes, totalBytes := "", None, [], 0, 0;
    }

    method ProcessField(field: string, value: string) returns (error: Option<Error>)
      requires Valid()
      modifies this`eventName, this`data, this`dataBytes
      ensures var o := Interpret(old(Pending()), field, value);
        error == o.error && (error.None? ==> Valid() && Pending() == o.state)
    {
      hide Text, Join, Bytes;
      if field == "event" {
        if Bytes(value) > MAX_NAME {
          return Some(NameLimit);
        }
        eventName := Some(value);
      } else if field == "data" {
        if |data| >= MAX_DATA_LINES {
          return Some(DataLineLimit);
        }
        CountIsJoinedLength(data, dataBytes, value);
        dataBytes := dataBytes + Bytes(value) + if |data| == 0 then 0 else 1;
        if dataBytes > MAX_FRAME_DATA {
          return Some(FrameLimit);
        }
        data := data + [value];
      }
      return None;
    }

    method ProcessLine(raw: string) returns (frames: seq<Frame>, error: Option<Error>)
      requires Valid()
      modifies this`eventName, this`data, this`dataBytes
      ensures var o := Line(old(Pending()), raw);
        frames == o.frames && error == o.error && (error.None? ==> Valid() && Pending() == o.state)
    {
      hide Interpret;
      var line := raw;
      if Bytes(line) > MAX_LINE {
        return [], Some(LineLimit);
      }
      if |line| > 0 && line[|line| - 1] == '\r' {
        line := line[..|line| - 1];
      }
      if line == "" {
        frames := [];
        if |data| > 0 {
          TextIsJoin(data);
          assert (Join(data) + "\n")[..|Join(data)|] == Join(data);
          frames := [Frame(eventName, Join(data))];
        }
        eventName, data, dataBytes := None, [], 0;
        return frames, None;
      } else if line[0] != ':' {
        var colon := IndexOf(line, ':');
        var field := if colon == |line| then line else line[..colon];
        var value := if colon == |line| then "" else line[colon + 1..];
        if value != "" && value[0] == ' ' {
          value := value[1..];
        }
        assert field == Field(line) && value == Value(line);
        error := ProcessField(field, value);
        return [], error;
      }
      return [], None;
    }

    /** Processes every complete line in the buffer, up to the first that breaks a limit. */
    method DrainLines() returns (frames: seq<Frame>, error: Option<Error>)
      requires Valid()
      modifies this`buffer, this`eventName, this`data, this`dataBytes
      ensures var o := Drain(old(Pending()), old(buffer));
        frames == o.frames && error == o.error &&
        (error.None? ==> Valid() && Pending() == o.state && buffer == Rest(old(buffer)))
    {
      hide Line, Text, Join, Bytes, Drain, Rest;
      frames, error := [], None;
      ghost var st, all := Pending(), buffer;
      var newline := IndexOf(buffer, '\n');
      while newline < |buffer|
        invariant Valid() && newline == IndexOf(buffer, '\n') && error.None?
        invariant Drain(st, all) == Drain(Pending(), buffer).(frames := frames + Drain(Pending(), buffer).frames)
        invariant Rest(buffer) == Rest(all)
        decreases |buffer|
      {
        DrainUnfold(Pending(), buffer);
        var line := buffer[..newline];
        buffer := buffer[newline + 1..];
        var more;
        more, error := ProcessLine(line);
        frames := frames + more;
        if error.Some? {
          return;
        }
        newline := IndexOf(buffer, '\n');
      }
      DrainUnfold(Pending(), buffer);
    }

    method Receive(chunk: Chunk) returns (frames: seq<Frame>, error: Option<Error>)
      requires Valid()
      modifies this
      ensures var text, st := old(buffer) + chunk.text, old(Pending());
        if old(totalBytes) + chunk.size > MAX_TOTAL then frames == [] && error == Some(TotalLimit)
        else if '\n' !in text && Bytes(text) > MAX_LINE then frames == [] && error == Some(PendingLimit)
        else
          && frames == Drain(st, text).frames && error == Drain(st, text).error
          && (error.None? ==>
                && Valid() && Pending() == Drain(st, text).state && buffer == Rest(text)
                && totalBytes == old(totalBytes) + chunk.size)
    {
      hide Drain, Rest, Text, Bytes, Join;
      totalBytes := totalBytes + chunk.size;
      if totalBytes > MAX_TOTAL {
        return [], Some(TotalLimit);
      }
      buffer := buffer + chunk.text;
      if '\n' !in buffer && Bytes(buffer) > MAX_LINE {
        return [], Some(PendingLimit);
      }
      frames, error := DrainLines();
    }
  }

  /** The whole stream. */
  method DecodeStream(chunks: seq<Chunk>, tail: string) returns (frames: seq<Frame>, error: Option<Error>)
    ensures (frames, error) == Decode(EMPTY, "", 0, chunks, tail)
  {
    hide Drain, Rest, Text, Bytes, Join;
    var decoder := new Decoder();
    frames := [];
    for i := 0 to |chunks|
      invariant fresh(decoder) && decoder.Valid()
      invariant var all, left := Decode(EMPTY, "", 0, chunks, tail),
                                Decode(decoder.Pending(), decoder.buffer, decoder.totalBytes, chunks[i..], tail);
        all.0 == frames + left.0 && all.1 == left.1
    {
      var more;
      assert chunks[i..][1..] == chunks[i + 1..];
      more, error := decoder.Receive(chunks[i]);
      frames := frames + more;
      if error.Some? {
        return;
      }
    }
    decoder.buffer := decoder.buffer + tail + "\n\n";
    var last;
    last, error := decoder.DrainLines();
    frames := frames + last;
  }
}
