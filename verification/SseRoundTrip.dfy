/** Printing events and decoding the text returns them, up to carriage returns at line ends. */
module SseRoundTrip {
  import opened Prelude
  import opened Sse
  import opened SseProofs

  // ---- Printing ----------------------------------------------------------------------------

  /** The lines of an event's data. */
  function DataLines(data: string): seq<string> {
    Lines(data) + [Rest(data)]
  }

  function PrintData(lines: seq<string>): string {
    if lines == [] then "" else "data: " + lines[0] + "\n" + PrintData(lines[1..])
  }

  function PrintName(event: Option<string>): string {
    match event
    case None => ""
    case Some(name) => "event: " + name + "\n"
  }

  function Print(f: Frame): string {
    PrintName(f.event) + PrintData(DataLines(f.data)) + "\n"
  }

  function PrintAll(frames: seq<Frame>): string {
    if frames == [] then "" else Print(frames[0]) + PrintAll(frames[1..])
  }

  function TrimAll(lines: seq<string>): (trimmed: seq<string>)
    ensures |trimmed| == |lines|
  {
    seq(|lines|, i requires 0 <= i < |lines| => TrimCr(lines[i]))
  }

  /** What is left of an event: each line loses one carriage return at its end. */
  function Trim(f: Frame): Frame {
    Frame(if f.event.Some? then Some(TrimCr(f.event.value)) else None, Join(TrimAll(DataLines(f.data))))
  }

  function TrimFrames(frames: seq<Frame>): seq<Frame> {
    if frames == [] then [] else [Trim(frames[0])] + TrimFrames(frames[1..])
  }

  predicate EndsInCr(line: string) {
    line != "" && line[|line| - 1] == '\r'
  }

  /** No line of the event ends in a carriage return. */
  predicate CrFree(f: Frame) {
    && (f.event.Some? ==> !EndsInCr(f.event.value))
    && forall i :: 0 <= i < |DataLines(f.data)| ==> !EndsInCr(DataLines(f.data)[i])
  }

  /** The event keeps to the decoder's limits, and its name is one line. */
  predicate Fits(f: Frame) {
    && (f.event.Some? ==> '\n' !in f.event.value && Bytes(f.event.value) <= MAX_NAME)
    && |DataLines(f.data)| <= MAX_DATA_LINES
    && Bytes(f.data) <= MAX_FRAME_DATA
    && forall i :: 0 <= i < |DataLines(f.data)| ==> Bytes(DataLines(f.data)[i]) + 6 <= MAX_LINE
  }

  // ---- Lines of a text ---------------------------------------------------------------------

  lemma {:induction false} LinesAreLines(s: string)
    ensures forall i :: 0 <= i < |Lines(s)| ==> '\n' !in Lines(s)[i]
    ensures '\n' !in Rest(s)
    decreases |s|
  {
    var n := IndexOf(s, '\n');
    if n < |s| {
      LinesAreLines(s[n + 1..]);
    }
  }

  lemma {:induction false} TextPrepend(line: string, lines: seq<string>)
    ensures Text([line] + lines) == line + "\n" + Text(lines)
    decreases |lines|
  {
    var all := [line] + lines;
    if lines == [] {
      assert all[..0] == [];
    } else {
      var n := |lines| - 1;
      assert all[..n + 1] == [line] + lines[..n];
      TextPrepend(line, lines[..n]);
      assert line + "\n" + Text(lines[..n]) + lines[n] + "\n" == line + "\n" + (Text(lines[..n]) + lines[n] + "\n");
    }
  }

  lemma {:induction false} LinesMakeText(s: string)
    ensures Text(Lines(s)) + Rest(s) == s
    decreases |s|
  {
    hide IndexOf, Text, Lines, Rest;
    var n := IndexOf(s, '\n');
    LinesUnfold(s);
    if n == |s| {
      EmptyText();
      assert "" + s == s;
    } else {
      var line, more := s[..n], s[n + 1..];
      TextPrepend(line, Lines(more));
      LinesMakeText(more);
      assert s == line + "\n" + more == line + "\n" + (Text(Lines(more)) + Rest(more));
    }
  }

  lemma LinesUnfold(s: string)
    ensures var n := IndexOf(s, '\n');
      if n == |s| then Lines(s) == [] && Rest(s) == s
      else Lines(s) == [s[..n]] + Lines(s[n + 1..]) && Rest(s) == Rest(s[n + 1..])
  {
    hide IndexOf;
  }

  lemma DataLinesMakeText(s: string)
    ensures Text(DataLines(s)) == s + "\n" && Join(DataLines(s)) == s
  {
    hide Lines, Rest, Join;
    LinesMakeText(s);
    assert DataLines(s)[..|Lines(s)|] == Lines(s);
    TextIsJoin(DataLines(s));
    assert (s + "\n")[..|s|] == (Join(DataLines(s)) + "\n")[..|s|];
  }

  // ---- Decoding what was printed -----------------------------------------------------------

  lemma DrainLine(st: State, line: string, rest: string)
    requires '\n' !in line && Line(st, line).error.None?
    ensures Drain(st, line + "\n" + rest) == Prepend(Line(st, line).frames, Drain(Line(st, line).state, rest))
  {
    hide Drain, Line, IndexOf;
    var all := line + "\n" + rest;
    assert all == line + ("\n" + rest);
    IndexOfAppend(line, "\n" + rest, '\n');
    FirstPosition("\n" + rest, '\n');
    assert all[..|line|] == line && all[|line| + 1..] == rest;
    DrainUnfold(st, all);
  }


  lemma DataLineAdds(st: State, value: string)
    requires st.lines < MAX_DATA_LINES && Bytes(st.text) + Bytes(value) <= MAX_FRAME_DATA
    requires Bytes(value) + 6 <= MAX_LINE
    ensures Line(st, "data: " + value) ==
              Outcome([], State(st.event, st.text + TrimCr(value) + "\n", st.lines + 1), None)
    ensures Bytes(st.text + TrimCr(value) + "\n") <= Bytes(st.text) + Bytes(value) + 1
  {
    hide Bytes, IndexOf, Field, Value, TrimCr;
    var line, v := "data: " + value, TrimCr(value);
    TrimKeepsPrefix("data: ", value);
    assert "data: " + v == "data" + ": " + v && ("data: " + v)[0] == 'd';
    FieldOf("data", v);
    PrefixWidth("data: ", value);
    TrimShortens(value);
    BytesAppend(st.text, v);
    BytesAppend(st.text + v, "\n");
    assert Bytes("\n") == 1 by { OneCharacter('\n'); }
  }

  lemma TrimKeepsPrefix(prefix: string, value: string)
    requires prefix == "data: " || prefix == "event: "
    ensures TrimCr(prefix + value) == prefix + TrimCr(value)
  {}

  lemma OneCharacter(c: char)
    ensures Bytes([c]) == Width(c)
  {}

  lemma PrefixWidth(prefix: string, value: string)
    requires prefix == "data: " || prefix == "event: "
    ensures Bytes(prefix + value) == |prefix| + Bytes(value)
  {
    BytesAppend(prefix, value);
    AsciiWidth(prefix);
  }

  lemma {:induction false} AsciiWidth(s: string)
    requires forall i :: 0 <= i < |s| ==> Width(s[i]) == 1
    ensures Bytes(s) == |s|
  {
    if s != "" {
      AsciiWidth(s[1..]);
    }
  }

  lemma TrimShortens(value: string)
    ensures Bytes(TrimCr(value)) <= Bytes(value)
  {
    hide Bytes;
    if EndsInCr(value) {
      assert value == TrimCr(value) + "\r";
      BytesAppend(TrimCr(value), "\r");
    }
  }

  lemma FieldOf(field: string, value: string)
    requires ':' !in field
    ensures var line := field + ": " + value; Field(line) == field && Value(line) == value
  {
    hide IndexOf;
    var line := field + ": " + value;
    assert line == field + (": " + value);
    IndexOfAppend(field, ": " + value, ':');
    FirstPosition(": " + value, ':');
    assert line[|field| + 2..] == value;
  }

  lemma FirstPosition(s: string, c: char)
    requires s != "" && s[0] == c
    ensures IndexOf(s, c) == 0
  {}

  /** The bytes of data lines, each with its line feed. */
  function DataSize(lines: seq<string>): nat {
    if lines == [] then 0 else Bytes(lines[0]) + 1 + DataSize(lines[1..])
  }

  lemma {:induction false} SizeOfText(lines: seq<string>, rest: string)
    ensures DataSize(lines + [rest]) == Bytes(Text(lines) + rest) + 1
  {
    hide Bytes, Text;
    if lines == [] {
      assert Text(lines) + rest == rest by { assert Text([]) == "" by { EmptyText(); } }
      assert [] + [rest] == [rest] && [rest][1..] == [];
    } else {
      assert [lines[0]] + lines[1..] == lines;
      TextPrepend(lines[0], lines[1..]);
      assert (lines + [rest])[1..] == lines[1..] + [rest];
      SizeOfText(lines[1..], rest);
      var tail := Text(lines[1..]) + rest;
      assert Text(lines) + rest == lines[0] + ("\n" + tail);
      BytesAppend(lines[0], "\n" + tail);
      BytesAppend("\n", tail);
      OneCharacter('\n');
    }
  }

  lemma EmptyText()
    ensures Text([]) == ""
  {}

  /** Printed data lines add their trimmed values to the data buffer. */
  lemma {:induction false} DataDecodes(st: State, lines: seq<string>, rest: string)
    requires st.lines + |lines| <= MAX_DATA_LINES && Bytes(st.text) + DataSize(lines) <= MAX_FRAME_DATA + 1
    requires forall i :: 0 <= i < |lines| ==> Bytes(lines[i]) + 6 <= MAX_LINE && '\n' !in lines[i]
    ensures Drain(st, PrintData(lines) + rest) ==
              Drain(State(st.event, st.text + Text(TrimAll(lines)), st.lines + |lines|), rest)
    decreases |lines|
  {
    hide Drain, Bytes, Line, PrintData, Text, TrimAll;
    PrintDataUnfold(lines);
    TrimAllUnfold(lines);
    if lines == [] {
      EmptyText();
      assert "" + rest == rest && st.text + "" == st.text;
    } else {
      var line, v, more := "data: " + lines[0], TrimCr(lines[0]), PrintData(lines[1..]) + rest;
      DataLineAdds(st, lines[0]);
      assert line + "\n" + PrintData(lines[1..]) + rest == line + "\n" + more;
      DrainLine(st, line, more);
      var next := State(st.event, st.text + v + "\n", st.lines + 1);
      PrependTwice([], [], Drain(next, more));
      DataDecodes(next, lines[1..], rest);
      TextPrepend(v, TrimAll(lines[1..]));
      assert next.text + Text(TrimAll(lines[1..])) == st.text + (v + "\n" + Text(TrimAll(lines[1..])));
    }
  }

  lemma PrintDataUnfold(lines: seq<string>)
    ensures PrintData(lines) == if lines == [] then "" else "data: " + lines[0] + "\n" + PrintData(lines[1..])
  {}

  lemma TrimAllUnfold(lines: seq<string>)
    ensures TrimAll(lines) == if lines == [] then [] else [TrimCr(lines[0])] + TrimAll(lines[1..])
  {}

  lemma NameDecodes(event: Option<string>, rest: string)
    requires event.Some? ==> '\n' !in event.value && Bytes(event.value) <= MAX_NAME
    ensures Drain(EMPTY, PrintName(event) + rest) ==
              Drain(State(if event.Some? then Some(TrimCr(event.value)) else None, "", 0), rest)
  {
    hide Drain, Bytes, IndexOf, Field, Value, TrimCr;
    if event.Some? {
      var name := event.value;
      var line, v := "event: " + name, TrimCr(name);
      TrimKeepsPrefix("event: ", name);
      assert "event: " + v == "event" + ": " + v && ("event: " + v)[0] == 'e';
      assert ("event" + ": " + v)[0] == 'e';
      FieldOf("event", v);
      PrefixWidth("event: ", name);
      TrimShortens(name);
      assert PrintName(event) + rest == line + "\n" + rest;
      DrainLine(EMPTY, line, rest);
      PrependTwice([], [], Drain(State(Some(v), "", 0), rest));
    } else {
      assert PrintName(event) + rest == rest;
    }
  }

  lemma FrameDecodes(f: Frame, rest: string)
    requires Fits(f)
    ensures Drain(EMPTY, Print(f) + rest) == Prepend([Trim(f)], Drain(EMPTY, rest))
  {
    hide Drain, Bytes, Text, Join, TrimAll, Lines, Rest, PrintData, PrintName;
    var lines, blank := DataLines(f.data), "\n" + rest;
    assert Print(f) + rest == PrintName(f.event) + (PrintData(lines) + blank);
    NameDecodes(f.event, PrintData(lines) + blank);
    LinesAreLines(f.data);
    LinesMakeText(f.data);
    SizeOfText(Lines(f.data), Rest(f.data));
    var st := State(if f.event.Some? then Some(TrimCr(f.event.value)) else None, "", 0);
    assert Bytes("") == 0 by { NoBytes(); }
    DataDecodes(st, lines, blank);
    var text := Text(TrimAll(lines));
    assert st.text + text == text;
    TextIsJoin(TrimAll(lines));
    var full := State(st.event, text, |lines|);
    BlankDispatches(full, rest);
    assert text[..|text| - 1] == Join(TrimAll(lines));
  }

  lemma NoBytes()
    ensures Bytes("") == 0
  {}

  lemma BlankDispatches(st: State, rest: string)
    ensures Drain(st, "\n" + rest) == Prepend(Dispatch(st), Drain(EMPTY, rest))
  {}

  /** Printing events and decoding the text returns the trimmed events, and no error. */
  lemma {:induction false} PrintedFramesDecode(frames: seq<Frame>, rest: string)
    requires forall i :: 0 <= i < |frames| ==> Fits(frames[i])
    ensures Drain(EMPTY, PrintAll(frames) + rest) == Prepend(TrimFrames(frames), Drain(EMPTY, rest))
    decreases |frames|
  {
    hide Drain, Fits, Print, Trim;
    if frames == [] {
      assert "" + rest == rest;
      PrependTwice([], [], Drain(EMPTY, rest));
    } else {
      var more := PrintAll(frames[1..]) + rest;
      assert PrintAll(frames) + rest == Print(frames[0]) + more;
      FrameDecodes(frames[0], more);
      PrintedFramesDecode(frames[1..], rest);
      PrependTwice([Trim(frames[0])], TrimFrames(frames[1..]), Drain(EMPTY, rest));
    }
  }

  // ---- When nothing is lost ------------------------------------------------------------------

  lemma {:induction false} TrimmedTextIsShorter(lines: seq<string>)
    ensures |Text(TrimAll(lines))| <= |Text(lines)|
    ensures |Text(TrimAll(lines))| == |Text(lines)| ==> TrimAll(lines) == lines
    decreases |lines|
  {
    if lines != [] {
      var n := |lines| - 1;
      assert TrimAll(lines)[..n] == TrimAll(lines[..n]);
      TrimmedTextIsShorter(lines[..n]);
      assert lines == lines[..n] + [lines[n]] && TrimAll(lines) == TrimAll(lines[..n]) + [TrimCr(lines[n])];
    }
  }

  lemma TrimKeepsExactlyCrFree(f: Frame)
    ensures Trim(f) == f <==> CrFree(f)
  {
    hide Text, Join, Lines, Rest;
    var lines := DataLines(f.data);
    DataLinesMakeText(f.data);
    TextIsJoin(TrimAll(lines));
    TrimmedTextIsShorter(lines);
    TrimAllKeepsExactlyCrFree(lines);
  }

  lemma TrimAllKeepsExactlyCrFree(lines: seq<string>)
    ensures TrimAll(lines) == lines <==> forall i :: 0 <= i < |lines| ==> !EndsInCr(lines[i])
  {}

  lemma {:induction false} TrimFramesKeepsExactlyCrFree(frames: seq<Frame>)
    ensures TrimFrames(frames) == frames <==> forall i :: 0 <= i < |frames| ==> CrFree(frames[i])
    decreases |frames|
  {
    hide Trim, CrFree;
    if frames != [] {
      var rest := frames[1..];
      assert frames == [frames[0]] + rest;
      TrimFramesKeepsExactlyCrFree(rest);
      TrimKeepsExactlyCrFree(frames[0]);
      if TrimFrames(frames) == frames {
        assert TrimFrames(rest) == TrimFrames(frames)[1..] == rest;
        forall i | 0 <= i < |frames| ensures CrFree(frames[i]) {
          if i > 0 {
            assert frames[i] == rest[i - 1];
          }
        }
      } else if forall i :: 0 <= i < |frames| ==> CrFree(frames[i]) {
        forall i | 0 <= i < |rest| ensures CrFree(rest[i]) {
          assert rest[i] == frames[i + 1];
        }
      }
    }
  }

  /**
   The round trip, for every way of cutting the printed text into chunks: decoding
   succeeds, and it returns the printed events exactly when no line of theirs ends in a
   carriage return.
   */
  lemma DecodeUndoesPrint(frames: seq<Frame>, chunks: seq<Chunk>, tail: string)
    requires forall i :: 0 <= i < |frames| ==> Fits(frames[i])
    requires Sizes(chunks) <= MAX_TOTAL && Concat(chunks) + tail == PrintAll(frames)
    ensures Decode(EMPTY, "", 0, chunks, tail).1.None?
    ensures Decode(EMPTY, "", 0, chunks, tail).0 == frames <==> forall i :: 0 <= i < |frames| ==> CrFree(frames[i])
  {
    hide Drain, Fits, CrFree, Decode, PrintAll;
    ChunkingDoesNotMatter(chunks, tail);
    PrintedFramesDecode(frames, "\n\n");
    NothingAtTheEnd();
    assert TrimFrames(frames) + [] == TrimFrames(frames);
    TrimFramesKeepsExactlyCrFree(frames);
  }

  lemma NothingAtTheEnd()
    ensures Drain(EMPTY, "\n\n") == Outcome([], EMPTY, None)
  {}
}
