/** What a caller sees of each decoder: its events passed through the normalizer. */
module ClosedStreams {
  import opened StreamTrace
  import Chat = OpenAiChat
  import ChatProofs = OpenAiChatProofs
  import Mistral = MistralStream
  import MistralProofs = MistralStreamProofs
  import Bedrock = BedrockStream
  import BedrockProofs = BedrockStreamProofs

  /** Every call that was started has been ended, once, after its fragments. */
  ghost predicate CallsEnd<I>(es: seq<Event<I>>) {
    forall c: nat :: var calls := At(es, c);
      calls != [] && calls[0].CallStart? ==>
        calls[|calls| - 1].CallEnd? && forall i :: 0 < i < |calls| - 1 ==> calls[i].CallDelta?
  }

  /** A well-formed trace with exactly one terminal event, last; on completion no call is left open. */
  ghost predicate Closed<I>(out: seq<Event<I>>) {
    && WellFormed(out) && OneTerminalLast(out)
    && (out[|out| - 1].Completed? ==> CallsEnd(out[..|out| - 1]))
  }

  /** What is passed on of `es`: closed, and but for the terminal event the stream's own events. */
  ghost predicate ClosedFrom<I>(es: seq<Event<I>>, out: seq<Event<I>>) {
    Closed(out) && out[..|out| - 1] <= es
  }

  lemma NormalizingCloses<I>(es: seq<Event<I>>, threw: bool, aborted: bool, parses: Event<I> -> bool)
    requires WellFormed(es)
    ensures ClosedFrom(es, Normalized(es, threw, aborted, parses, false))
  {
    hide Normalized, Follow, At;
    var out := Normalized(es, threw, aborted, parses, false);
    NormalizingKeepsTrace(Track(map[], false), es, threw, aborted, parses, false);
    ExactlyOneTerminal(es, threw, aborted, parses, false);
    var init, last := out[..|out| - 1], out[|out| - 1];
    assert out == init + [last];
    if last.Completed? {
      forall c: nat | At(init, c) != [] && At(init, c)[0].CallStart?
        ensures var calls := At(init, c);
          calls[|calls| - 1].CallEnd? && forall i :: 0 < i < |calls| - 1 ==> calls[i].CallDelta?
      {
        CompletionEndsCalls(init, last, c);
      }
    }
  }

  /** For every frame sequence, however it ends, what is passed on of the Chat decoder is closed. */
  lemma ChatIsClosed<I>(env: Chat.Env<I>, arrivals: seq<Chat.Arrival>, atEnd: bool, aborted: bool, parses: Event<I> -> bool)
    ensures Chat.Listed(Chat.START)
    ensures var (es, stop) := Chat.Decode(env, Chat.START, arrivals, atEnd);
      ClosedFrom(es, Normalized(es, stop.Threw?, aborted, parses, false))
  {
    hide ClosedFrom, WellFormed;
    ChatProofs.ChatTrace(env, arrivals, atEnd);
    var (es, stop) := Chat.Decode(env, Chat.START, arrivals, atEnd);
    NormalizingCloses(es, stop.Threw?, aborted, parses);
  }

  /** The same of the Mistral decoder. */
  lemma MistralIsClosed<I>(env: Mistral.Env<I>, arrivals: seq<Mistral.Arrival>, atEnd: bool, aborted: bool, parses: Event<I> -> bool)
    ensures Chat.Listed(Chat.START)
    ensures var (es, stop) := Mistral.Decode(env, Chat.START, arrivals, atEnd);
      ClosedFrom(es, Normalized(es, stop.Threw?, aborted, parses, false))
  {
    hide ClosedFrom, WellFormed;
    MistralProofs.MistralTrace(env, arrivals, atEnd);
    var (es, stop) := Mistral.Decode(env, Chat.START, arrivals, atEnd);
    NormalizingCloses(es, stop.Threw?, aborted, parses);
  }

  /** The same of the Bedrock decoder. */
  lemma BedrockIsClosed<I>(env: Bedrock.Env<I>, arrivals: seq<Bedrock.Arrival>, atEnd: bool, aborted: bool, parses: Event<I> -> bool)
    ensures var (es, stop) := Bedrock.Decode(env, Bedrock.START, arrivals, atEnd);
      ClosedFrom(es, Normalized(es, stop.Threw?, aborted, parses, false))
  {
    hide ClosedFrom, WellFormed;
    BedrockProofs.BedrockTrace(env, arrivals, atEnd);
    var (es, stop) := Bedrock.Decode(env, Bedrock.START, arrivals, atEnd);
    NormalizingCloses(es, stop.Threw?, aborted, parses);
  }
}
