/** Chunk boundaries do not matter to the event decoder, and printed events come back. */
module SseProofs {
  import opened Prelude
  import opened Sse

  // ---- Chunking ----------------------------------------------------------------------------

  lemma {:induction false} IndexOfAppend(a: string, b: string, c: char)
    ensures IndexOf(a + b, c) == if c in a then IndexOf(a, c) else |a| + IndexOf(b, c)
    ensures c in a <==> IndexOf(a, c) < |a|
  {
    if a == "" {
      assert a + b == b;
    } else if a[0] != c {
      assert (a + b)[1..] == a[1..] + b;
      IndexOfAppend(a[1..], b, c);
    }
  }

  function Prepend(frames: seq<Frame>, o: Outcome): Outcome {
    o.(frames := frames + o.frames)
  }

  lemma PrependTwice(x: seq<Frame>, y: seq<Frame>, o: Outcome)
    ensures Prepend([], o) == o && Prepend(x, Prepend(y, o)) == Prepend(x + y, o)
  {}

  /** Draining more text continues where draining the first part stopped. */
  lemma {:induction false} DrainAppend(st: State, a: string, b: string)
    ensures '\n' !in Rest(a)
    ensures Drain(st, a).error.Some? ==> Drain(st, a + b) == Drain(st, a)
    ensures Drain(st, a).error.None? ==>
              Drain(st, a + b) == Prepend(Drain(st, a).frames, Drain(Drain(st, a).state, Rest(a) + b))
    decreases |a|
  {
    hide Drain, Rest, Line, IndexOf;
    var n := IndexOf(a, '\n');
    IndexOfAppend(a, b, '\n');
    DrainUnfold(st, a);
    if n == |a| {
      PrependTwice([], [], Drain(st, a + b));
    } else {
      DrainUnfold(st, a + b);
      var o, rest := Line(st, a[..n]), a[n + 1..];
      assert (a + b)[..n] == a[..n] && (a + b)[n + 1..] == rest + b;
      DrainAppend(o.state, rest, b);
      PrependTwice(o.frames, Drain(o.state, rest).frames, Drain(Drain(o.state, rest).state, Rest(rest) + b));
    }
  }

  /** A pending line that is already too long is too long as a line, whatever ends it. */
  lemma LongLineFails(st: State, text: string, more: string)
    requires '\n' !in text && Bytes(text) > MAX_LINE && '\n' in more
    ensures Drain(st, text + more) == Outcome([], st, Some(LineLimit))
  {
    hide Drain, Bytes, IndexOf;
    var n := IndexOf(more, '\n');
    IndexOfAppend(text, more, '\n');
    IndexOfAppend(more, "", '\n');
    DrainUnfold(st, text + more);
    assert (text + more)[..|text| + n] == text + more[..n];
    BytesAppend(text, more[..n]);
  }

  function Concat(chunks: seq<Chunk>): string {
    if chunks == [] then "" else chunks[0].text + Concat(chunks[1..])
  }

  function Sizes(chunks: seq<Chunk>): nat {
    if chunks == [] then 0 else chunks[0].size + Sizes(chunks[1..])
  }

  /** The same end, except that a too long line may be reported before it is complete. */
  predicate SameEnd(chunked: Option<Error>, whole: Option<Error>) {
    chunked == whole || (chunked == Some(PendingLimit) && whole == Some(LineLimit))
  }

  /** How the whole text ends from a given point. */
  function Whole(st: State, buffer: string, chunks: seq<Chunk>, tail: string): Outcome {
    Drain(st, buffer + Concat(chunks) + tail + "\n\n")
  }

  /**
   For every chunking, the decoder yields a prefix of the events of the whole text; unless
   the total byte limit stops it, it yields all of them and ends in the same way.
   */
  lemma {:induction false} ChunksContinue(st: State, buffer: string, total: nat, chunks: seq<Chunk>, tail: string)
    requires '\n' !in buffer
    ensures var (frames, end), whole := Decode(st, buffer, total, chunks, tail), Whole(st, buffer, chunks, tail);
      && frames <= whole.frames
      && (end != Some(TotalLimit) ==> frames == whole.frames && SameEnd(end, whole.error))
      && (total + Sizes(chunks) <= MAX_TOTAL ==> end != Some(TotalLimit))
    decreases |chunks|
  {
    hide Drain, Rest, Bytes;
    if chunks == [] {
      assert buffer + Concat(chunks) + tail == buffer + tail;
      NoTotalLimit(st, buffer + tail + "\n\n");
    } else {
      var text, more := buffer + chunks[0].text, Concat(chunks[1..]) + tail + "\n\n";
      assert buffer + Concat(chunks) + tail + "\n\n" == text + more;
      if '\n' !in text && Bytes(text) > MAX_LINE {
        LongLineFails(st, text, more);
      } else {
        DrainAppend(st, text, more);
        NoTotalLimit(st, text);
        var o := Drain(st, text);
        if o.error.None? {
          assert Rest(text) + more == Rest(text) + Concat(chunks[1..]) + tail + "\n\n";
          ChunksContinue(o.state, Rest(text), total + chunks[0].size, chunks[1..], tail);
        }
      }
    }
  }

  lemma {:induction false} NoTotalLimit(st: State, text: string)
    ensures Drain(st, text).error !in [Some(TotalLimit), Some(PendingLimit)]
    decreases |text|
  {
    hide Drain, IndexOf;
    var n := IndexOf(text, '\n');
    DrainUnfold(st, text);
    if n < |text| && Line(st, text[..n]).error.None? {
      NoTotalLimit(Line(st, text[..n]).state, text[n + 1..]);
    }
  }

  /** For every chunking within the total limit: success, the events, and the kind of failure are those of the reference. */
  lemma ChunkingDoesNotMatter(chunks: seq<Chunk>, tail: string)
    requires Sizes(chunks) <= MAX_TOTAL
    ensures var (frames, end), whole := Decode(EMPTY, "", 0, chunks, tail), Reference(Concat(chunks) + tail);
      frames == whole.frames && (end.None? <==> whole.error.None?) && SameEnd(end, whole.error)
  {
    hide Drain;
    ChunksContinue(EMPTY, "", 0, chunks, tail);
    assert "" + Concat(chunks) + tail + "\n\n" == Concat(chunks) + tail + "\n\n";
  }

  lemma {:induction false} TotalLimitIsKept(st: State, buffer: string, total: nat, chunks: seq<Chunk>, tail: string)
    requires total <= MAX_TOTAL && Decode(st, buffer, total, chunks, tail).1.None?
    ensures total + Sizes(chunks) <= MAX_TOTAL
    decreases |chunks|
  {
    hide Drain, Rest, Bytes;
    if chunks != [] {
      var text := buffer + chunks[0].text;
      TotalLimitIsKept(Drain(st, text).state, Rest(text), total + chunks[0].size, chunks[1..], tail);
    }
  }

  /** For every stream: decoding succeeds if and only if the bytes keep to the total limit and the reference succeeds. */
  lemma SucceedsExactly(chunks: seq<Chunk>, tail: string)
    ensures Decode(EMPTY, "", 0, chunks, tail).1.None? <==>
            Sizes(chunks) <= 16 * 1024 * 1024 && Reference(Concat(chunks) + tail).error.None?
  {
    hide Decode, Reference;
    if Sizes(chunks) <= MAX_TOTAL {
      ChunkingDoesNotMatter(chunks, tail);
    }
    if Decode(EMPTY, "", 0, chunks, tail).1.None? {
      TotalLimitIsKept(EMPTY, "", 0, chunks, tail);
    }
  }
}
