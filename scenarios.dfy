/**
  Concrete runs of the engine: a first exchange on a fresh chat, a follow-up
  on a chat that already has a context, a reply cut off before its completion
  record, and a reply without a context.
*/
module Scenarios {
  import opened Wrappers
  import opened Text
  import opened ChatModel
  import opened Engine

  /** A decoded non-final record carrying `text`. */
  function FragmentLine(text: string, id: Uuid, now: Date): StreamLine {
    StreamLine(Some(OllamaResponse(ModelName, "", text, false, None, None, None, None, None, None, None)), id, now)
  }

  /** A decoded completion record carrying `context`. */
  function CompletionLine(context: Option<seq<int>>, id: Uuid, now: Date): StreamLine {
    StreamLine(Some(OllamaResponse(ModelName, "", "", true, Some("stop"), context, None, None, None, None, None)), id, now)
  }

  /** "Hello" on a fresh chat, answered "Hi" + " there" and completed with
      context [7, 8, 9]: the request carries the empty context, the answer
      reads "Hi there", the context becomes [7, 8, 9] and the chat joins the
      list. */
  lemma FirstExchange(c: Chat, allChat: seq<Chat>, ids: seq<Uuid>, now: Date)
    requires |ids| == 4
    ensures var s := ChatState("Hello", "", [], [], [], None, allChat, c);
      var reply := [FragmentLine("Hi", ids[2], now), FragmentLine(" there", ids[3], now),
                    CompletionLine(Some([7, 8, 9]), ids[3], now)];
      && RequestFor(s) == Some(GenerateRequest("llama3", "Hello", []))
      && InBounds(Submit(s, ids[0], ids[1]), reply)
      && var r := ApplyStream(Submit(s, ids[0], ids[1]), reply);
      && |r.history| == 2
      && r.history[0].text == "Hello" && r.history[0].isUser
      && r.history[1].text == "Hi there" && !r.history[1].isUser
      && r.context == [7, 8, 9]
      && r.current == ""
      && r.allChat == allChat + [c]
  {
    var s := ChatState("Hello", "", [], [], [], None, allChat, c);
    TrimKeepsUnpadded("Hello");
    var fs := [FragmentLine("Hi", ids[2], now), FragmentLine(" there", ids[3], now)];
    var last := CompletionLine(Some([7, 8, 9]), ids[3], now);
    assert !AllBlank(s.input) by {
      assert !IsWhitespaceOrNewline(s.input[0]);
    }
    assert NoCompletion(fs);
    assert Fragments(fs) == "Hi" + Fragments(fs[1..]);
    assert Fragments(fs[1..]) == " there" + Fragments([]);
    ExchangeHistory(s, ids[0], ids[1], fs, last);
    ExchangeCompletion(s, ids[0], ids[1], fs, last);
    assert fs + [last] == [FragmentLine("Hi", ids[2], now), FragmentLine(" there", ids[3], now), last];
  }

  /** A follow-up "How are you?" on a chat whose context is [7, 8, 9],
      completed with [7, 8, 9, 10]: the request carries [7, 8, 9], the
      context becomes [7, 8, 9, 10] and the chat list is left alone. */
  lemma FollowUpExchange(c: Chat, allChat: seq<Chat>, history: seq<ChatMessage>,
                         ids: seq<Uuid>, now: Date)
    requires |ids| == 3
    ensures var s := ChatState("How are you?", "", history, history, [7, 8, 9], None, allChat, c);
      var reply := [FragmentLine("Fine", ids[2], now), CompletionLine(Some([7, 8, 9, 10]), ids[2], now)];
      && RequestFor(s) == Some(GenerateRequest("llama3", "How are you?", [7, 8, 9]))
      && InBounds(Submit(s, ids[0], ids[1]), reply)
      && var r := ApplyStream(Submit(s, ids[0], ids[1]), reply);
      && |r.history| == |history| + 2
      && r.history[..|history|] == history
      && r.history[|history| + 1].text == "Fine"
      && r.context == [7, 8, 9, 10]
      && r.allChat == allChat
  {
    var s := ChatState("How are you?", "", history, history, [7, 8, 9], None, allChat, c);
    TrimKeepsUnpadded("How are you?");
    var fs := [FragmentLine("Fine", ids[2], now)];
    var last := CompletionLine(Some([7, 8, 9, 10]), ids[2], now);
    assert !AllBlank(s.input) by {
      assert !IsWhitespaceOrNewline(s.input[0]);
    }
    assert Fragments(fs) == "Fine" + Fragments([]);
    ExchangeHistory(s, ids[0], ids[1], fs, last);
    ExchangeCompletion(s, ids[0], ids[1], fs, last);
    assert fs + [last] == [FragmentLine("Fine", ids[2], now), last];
  }

  /** A reply cut off after the fragment "Par": the open entry shows "Par",
      the context is untouched, and the accumulator keeps "Par". */
  lemma InterruptedReply(s: ChatState, ids: seq<Uuid>, now: Date)
    requires |ids| == 3 && s.current == "" && s.input == "Hi"
    ensures var s1 := ApplyStream(Submit(s, ids[0], ids[1]), [FragmentLine("Par", ids[2], now)]);
      && |s1.history| == |s.history| + 2
      && s1.history[|s.history| + 1].text == "Par"
      && s1.context == s.context
      && s1.allChat == s.allChat
      && s1.current == "Par"
  {
    assert !AllBlank(s.input) by {
      assert !IsWhitespaceOrNewline(s.input[0]);
    }
    var l := FragmentLine("Par", ids[2], now);
    assert NoCompletion([l]);
    assert Fragments([l]) == "Par" + Fragments([]);
    InterruptedExchange(s, ids[0], ids[1], [l]);
  }

  /** Adding to the chat list is not idempotent: a completion record without
      a context leaves the context empty, so the next completion adds the
      same chat a second time. */
  lemma RepeatedRegistration(s: ChatState, ids: seq<Uuid>, now: Date)
    requires s.context == [] && |ids| == 1
    ensures var reply := [CompletionLine(None, ids[0], now), CompletionLine(None, ids[0], now)];
      && InBounds(s, reply)
      && ApplyStream(s, reply).allChat == s.allChat + [s.chat, s.chat]
  {
    var l := CompletionLine(None, ids[0], now);
    var s1 := ApplyLine(s, l);
    assert s1.context == [];
    assert ApplyStream(s, [l, l]) == ApplyStream(s1, [l]);
    assert ApplyStream(s1, [l]) == ApplyLine(s1, l);
  }
}
