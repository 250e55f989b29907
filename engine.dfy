/**
  The conversation-update engine of the chat view as a function of its state:
  what a submit does, what each line of the streamed reply does, and what a
  whole stream does. The class in `ChatViews` is proved to follow these
  functions; the lemmas here state what the functions guarantee.
*/
module Engine {
  import opened Wrappers
  import opened Text
  import opened ChatModel

  /** The model every generation request names. */
  const ModelName: string := "llama3"

  /** The topic a freshly created chat gets. */
  const NewChatTopic: string := "New Chat"

  /** What a generation request carries: model, prompt and continuation context. */
  datatype GenerateRequest = GenerateRequest(model: string, prompt: string, context: seq<int>)

  /** One line read from the reply stream: its decoding (`None` when the line
      did not decode), and the fresh identifier and current date the
      environment supplies while the line is handled. */
  datatype StreamLine = StreamLine(parsed: Option<OllamaResponse>, freshId: Uuid, now: Date)

  /** Everything the engine reads or writes: the input field, the running
      accumulator, the displayed history, the open chat's messages, context and
      update date, the chat list, and the open chat itself. */
  datatype ChatState = ChatState(
    input: string,
    current: string,
    history: seq<ChatMessage>,
    messages: seq<ChatMessage>,
    context: seq<int>,
    updateAt: Option<Date>,
    allChat: seq<Chat>,
    chat: Chat)

  /** A decoded record that carries a text fragment. */
  predicate IsFragment(l: StreamLine) {
    l.parsed.Some? && !l.parsed.value.done
  }

  /** A decoded record that marks the end of the reply. */
  predicate IsCompletion(l: StreamLine) {
    l.parsed.Some? && l.parsed.value.done
  }

  predicate NoFragment(ls: seq<StreamLine>) {
    forall i | 0 <= i < |ls| :: !IsFragment(ls[i])
  }

  predicate NoCompletion(ls: seq<StreamLine>) {
    forall i | 0 <= i < |ls| :: !IsCompletion(ls[i])
  }

  /** A fragment replaces the last history entry, which must exist. */
  predicate InBounds(s: ChatState, ls: seq<StreamLine>) {
    |s.history| > 0 || NoFragment(ls)
  }

  /** The fragments of the decoded, non-final records of `ls`, concatenated in order. */
  function Fragments(ls: seq<StreamLine>): string {
    if ls == [] then ""
    else (if IsFragment(ls[0]) then ls[0].parsed.value.response else "") + Fragments(ls[1..])
  }

  /** The lines of `ls` that decoded, in order. */
  function Decoded(ls: seq<StreamLine>): seq<StreamLine> {
    if ls == [] then []
    else (if ls[0].parsed.Some? then [ls[0]] else []) + Decoded(ls[1..])
  }

  /** The submit step: a blank input is ignored; otherwise the trimmed text
      becomes a user entry carrying the chat's context, an assistant entry
      holding the accumulator follows it, and the input field is cleared. */
  function Submit(s: ChatState, userId: Uuid, assistantId: Uuid): ChatState {
    var text := Trim(s.input);
    if text == [] then s
    else
      s.(input := "",
         history := s.history + [ChatMessage(userId, text, true, Some(s.context)),
                                 ChatMessage(assistantId, s.current, false, Some([]))])
  }

  /** The request a submit sends, if any. */
  function RequestFor(s: ChatState): Option<GenerateRequest> {
    var text := Trim(s.input);
    if text == [] then None else Some(GenerateRequest(ModelName, text, s.context))
  }

  /** The handling of one stream line. */
  function ApplyLine(s: ChatState, l: StreamLine): ChatState
    requires IsFragment(l) ==> |s.history| > 0
  {
    match l.parsed
    case None => s
    case Some(record) =>
      if record.done then Complete(s, record.context, l.now)
      else Extend(s, record.response, l.freshId)
  }

  /** A non-final record: the fragment is appended to the accumulator, and
      the last history entry is replaced by a new assistant entry showing it. */
  function Extend(s: ChatState, fragment: string, id: Uuid): ChatState
    requires |s.history| > 0
  {
    var acc := s.current + fragment;
    var h := s.history[|s.history| - 1 := ChatMessage(id, acc, false, Some([]))];
    s.(current := acc, history := h, messages := h)
  }

  /** A completion record. */
  function Complete(s: ChatState, context: Option<seq<int>>, now: Date): ChatState {
    s.(current := "",
       allChat := if s.context == [] then s.allChat + [s.chat] else s.allChat,
       context := context.GetOr([]),
       updateAt := Some(now))
  }

  /** The handling of a whole stream, line by line, in arrival order. */
  function ApplyStream(s: ChatState, ls: seq<StreamLine>): ChatState
    requires InBounds(s, ls)
    decreases |ls|
  {
    if ls == [] then s else ApplyStream(ApplyLine(s, ls[0]), ls[1..])
  }

  // ---------------------------------------------------------------------------
  // The submit step

  /** Input that is blank after trimming changes nothing and sends nothing. */
  lemma SubmitBlankIsIgnored(s: ChatState, userId: Uuid, assistantId: Uuid)
    requires AllBlank(s.input)
    ensures Submit(s, userId, assistantId) == s
    ensures RequestFor(s) == None
  {
    TrimEmptyIffBlank(s.input);
  }

  /** Any other input grows the history by exactly two entries and keeps the
      earlier ones; the request carries the trimmed text and the context. */
  lemma SubmitAppendsExchange(s: ChatState, userId: Uuid, assistantId: Uuid)
    requires !AllBlank(s.input)
    ensures var r := Submit(s, userId, assistantId);
      && |r.history| == |s.history| + 2
      && r.history[..|s.history|] == s.history
      && r.history[|s.history|] == ChatMessage(userId, Trim(s.input), true, Some(s.context))
      && r.history[|s.history| + 1] == ChatMessage(assistantId, s.current, false, Some([]))
      && r.input == ""
      && r == s.(input := r.input, history := r.history)
    ensures Trim(s.input) != []
    ensures RequestFor(s) == Some(GenerateRequest(ModelName, Trim(s.input), s.context))
  {
    TrimEmptyIffBlank(s.input);
  }

  // ---------------------------------------------------------------------------
  // One line

  /** A line that did not decode changes nothing. */
  lemma UndecodedLineIsSkipped(s: ChatState, l: StreamLine)
    requires l.parsed.None?
    ensures ApplyLine(s, l) == s
  {
  }

  /** A fragment extends the accumulator and replaces only the last history
      entry, with a fresh assistant entry holding the accumulator; the chat's
      messages become the history. */
  lemma FragmentStep(s: ChatState, l: StreamLine)
    requires IsFragment(l) && |s.history| > 0
    ensures var r := ApplyLine(s, l);
      && r.current == s.current + l.parsed.value.response
      && |r.history| == |s.history|
      && r.history[..|s.history| - 1] == s.history[..|s.history| - 1]
      && r.history[|r.history| - 1] == ChatMessage(l.freshId, r.current, false, Some([]))
      && r.messages == r.history
      && r == s.(current := r.current, history := r.history, messages := r.messages)
  {
  }

  /** A completion record clears the accumulator, replaces the context with
      the record's (or the empty one), stamps the update date, leaves the
      history alone, and adds the chat to the list exactly when its context
      was empty before. */
  lemma CompletionStep(s: ChatState, l: StreamLine)
    requires IsCompletion(l)
    ensures var r := ApplyLine(s, l);
      && r.current == ""
      && r.context == (if l.parsed.value.context.Some? then l.parsed.value.context.value else [])
      && r.updateAt == Some(l.now)
      && (r.allChat == s.allChat + [s.chat] <==> s.context == [])
      && (s.context != [] ==> r.allChat == s.allChat)
      && r == s.(current := r.current, context := r.context, updateAt := r.updateAt, allChat := r.allChat)
  {
  }

  // ---------------------------------------------------------------------------
  // Whole streams

  /** No line changes the length of the history, any entry but the last, the
      input field or which chat is open. */
  lemma {:induction false} StreamKeepsEarlierEntries(s: ChatState, ls: seq<StreamLine>)
    requires InBounds(s, ls)
    ensures var r := ApplyStream(s, ls);
      && |r.history| == |s.history|
      && (|s.history| > 0 ==> r.history[..|s.history| - 1] == s.history[..|s.history| - 1])
      && r.input == s.input
      && r.chat == s.chat
    decreases |ls|
  {
    if ls != [] {
      StreamKeepsEarlierEntries(ApplyLine(s, ls[0]), ls[1..]);
    }
  }

  /** Handling one more line after a stream is handling the longer stream. */
  lemma {:induction false} ApplyStreamSnoc(s: ChatState, ls: seq<StreamLine>, l: StreamLine)
    requires InBounds(s, ls + [l])
    ensures InBounds(s, ls)
    ensures IsFragment(l) ==> |s.history| > 0
    ensures |ApplyStream(s, ls).history| == |s.history|
    ensures ApplyStream(s, ls + [l]) == ApplyLine(ApplyStream(s, ls), l)
    decreases |ls|
  {
    assert InBounds(s, ls) by {
      if |s.history| == 0 {
        forall i | 0 <= i < |ls| ensures !IsFragment(ls[i]) {
          assert ls[i] == (ls + [l])[i];
        }
      }
    }
    assert (ls + [l])[|ls|] == l;
    StreamKeepsEarlierEntries(s, ls);
    if ls != [] {
      assert (ls + [l])[1..] == ls[1..] + [l];
      ApplyStreamSnoc(ApplyLine(s, ls[0]), ls[1..], l);
    }
  }

  /** `ls[1..]` keeps the line-kind facts of `ls`. */
  lemma TailKinds(ls: seq<StreamLine>)
    requires ls != []
    ensures NoCompletion(ls) ==> NoCompletion(ls[1..])
    ensures NoFragment(ls) <==> !IsFragment(ls[0]) && NoFragment(ls[1..])
  {
    assert forall i | 0 <= i < |ls[1..]| :: ls[1..][i] == ls[i + 1];
    if !IsFragment(ls[0]) && NoFragment(ls[1..]) {
      forall i | 0 <= i < |ls| ensures !IsFragment(ls[i]) {
        if i > 0 {
          assert ls[i] == ls[1..][i - 1];
        }
      }
    }
  }

  /** A run of lines without a completion record appends every fragment to
      the accumulator, in order, and leaves context, update date and chat list
      alone. */
  lemma {:induction false} FragmentsAccumulate(s: ChatState, ls: seq<StreamLine>)
    requires InBounds(s, ls) && NoCompletion(ls)
    ensures ApplyStream(s, ls).current == s.current + Fragments(ls)
    ensures ApplyStream(s, ls).context == s.context
    ensures ApplyStream(s, ls).updateAt == s.updateAt
    ensures ApplyStream(s, ls).allChat == s.allChat
    decreases |ls|
  {
    if ls != [] {
      TailKinds(ls);
      var s' := ApplyLine(s, ls[0]);
      assert ApplyStream(s, ls) == ApplyStream(s', ls[1..]);
      assert s'.current == s.current + (if IsFragment(ls[0]) then ls[0].parsed.value.response else "");
      assert s'.context == s.context && s'.updateAt == s.updateAt && s'.allChat == s.allChat;
      FragmentsAccumulate(s', ls[1..]);
    }
  }

  /** Once a fragment has arrived, the last history entry is an assistant
      entry showing the accumulator, and the chat's messages equal the
      history. */
  lemma {:induction false} LastEntryShowsAccumulator(s: ChatState, ls: seq<StreamLine>)
    requires InBounds(s, ls) && NoCompletion(ls) && !NoFragment(ls)
    ensures |ApplyStream(s, ls).history| > 0
    ensures ApplyStream(s, ls).history[|ApplyStream(s, ls).history| - 1].text == ApplyStream(s, ls).current
    ensures !ApplyStream(s, ls).history[|ApplyStream(s, ls).history| - 1].isUser
    ensures ApplyStream(s, ls).messages == ApplyStream(s, ls).history
    decreases |ls|
  {
    TailKinds(ls);
    var s' := ApplyLine(s, ls[0]);
    if NoFragment(ls[1..]) {
      SilentStreamIsNoOp(s', ls[1..]);
    } else {
      LastEntryShowsAccumulator(s', ls[1..]);
    }
  }

  /** A stream with neither fragments nor completion records, that is one
      whose lines all failed to decode, changes nothing. */
  lemma {:induction false} SilentStreamIsNoOp(s: ChatState, ls: seq<StreamLine>)
    requires NoCompletion(ls) && NoFragment(ls)
    ensures ApplyStream(s, ls) == s
    decreases |ls|
  {
    if ls != [] {
      TailKinds(ls);
      SilentStreamIsNoOp(ApplyLine(s, ls[0]), ls[1..]);
    }
  }

  /** Lines that did not decode may be dropped from a stream without changing
      what it does. */
  lemma {:induction false} UndecodedLinesIrrelevant(s: ChatState, ls: seq<StreamLine>)
    requires InBounds(s, ls)
    ensures InBounds(s, Decoded(ls))
    ensures ApplyStream(s, ls) == ApplyStream(s, Decoded(ls))
    decreases |ls|
  {
    if ls != [] {
      var s' := ApplyLine(s, ls[0]);
      assert InBounds(s', ls[1..]) by {
        if |s'.history| == 0 {
          forall i | 0 <= i < |ls[1..]| ensures !IsFragment(ls[1..][i]) {
            assert ls[1..][i] == ls[i + 1];
          }
        }
      }
      UndecodedLinesIrrelevant(s', ls[1..]);
      DecodedInBounds(s, ls);
      if ls[0].parsed.Some? {
        assert Decoded(ls) == [ls[0]] + Decoded(ls[1..]);
        assert Decoded(ls)[1..] == Decoded(ls[1..]);
      } else {
        assert Decoded(ls) == Decoded(ls[1..]);
      }
    }
  }

  /** Every line of `Decoded(ls)` is a line of `ls`. */
  lemma {:induction false} DecodedSubset(ls: seq<StreamLine>)
    ensures forall l | l in Decoded(ls) :: l in ls
    decreases |ls|
  {
    if ls != [] {
      DecodedSubset(ls[1..]);
      forall l | l in Decoded(ls[1..]) ensures l in ls {
        assert l in ls[1..];
      }
    }
  }

  lemma DecodedInBounds(s: ChatState, ls: seq<StreamLine>)
    requires InBounds(s, ls)
    ensures InBounds(s, Decoded(ls))
  {
    DecodedSubset(ls);
    if |s.history| == 0 {
      forall i | 0 <= i < |Decoded(ls)| ensures !IsFragment(Decoded(ls)[i]) {
        var l := Decoded(ls)[i];
        assert l in ls;
        var j :| 0 <= j < |ls| && ls[j] == l;
      }
    }
  }

  /** The chat list only ever grows, and only by the open chat. */
  lemma {:induction false} AllChatGrowsOnlyByChat(s: ChatState, ls: seq<StreamLine>)
    requires InBounds(s, ls)
    ensures var r := ApplyStream(s, ls);
      && |r.allChat| >= |s.allChat|
      && r.allChat[..|s.allChat|] == s.allChat
      && (forall i | |s.allChat| <= i < |r.allChat| :: r.allChat[i] == s.chat)
    decreases |ls|
  {
    if ls != [] {
      var s' := ApplyLine(s, ls[0]);
      AllChatGrowsOnlyByChat(s', ls[1..]);
    }
  }

  /** A whole exchange, as it shows in the history: a non-blank submit, then
      a reply whose records are fragments until one completion record closes
      it. Earlier entries stay; the user entry holds the trimmed text and the
      chat's context at submit time; the assistant entry holds the accumulator
      as it was at submit time followed by every fragment; the chat's messages
      equal the history exactly when some fragment arrived. */
  lemma ExchangeHistory(s: ChatState, userId: Uuid, assistantId: Uuid,
                        reply: seq<StreamLine>, last: StreamLine)
    requires !AllBlank(s.input)
    requires NoCompletion(reply) && IsCompletion(last)
    ensures InBounds(Submit(s, userId, assistantId), reply + [last])
    ensures var r := ApplyStream(Submit(s, userId, assistantId), reply + [last]);
      && |r.history| == |s.history| + 2
      && r.history[..|s.history|] == s.history
      && r.history[|s.history|] == ChatMessage(userId, Trim(s.input), true, Some(s.context))
      && r.history[|s.history| + 1].text == s.current + Fragments(reply)
      && !r.history[|s.history| + 1].isUser
      && r.messages == (if NoFragment(reply) then s.messages else r.history)
  {
    var m := ExchangeBeforeCompletion(s, userId, assistantId, reply, last);
    CompletionStep(m, last);
  }

  /** A whole exchange, as it shows in the rest of the state: the accumulator
      is cleared, the context replaced by the completion record's, the update
      date stamped, and the chat added to the list exactly when its context
      was empty at submit time. */
  lemma ExchangeCompletion(s: ChatState, userId: Uuid, assistantId: Uuid,
                           reply: seq<StreamLine>, last: StreamLine)
    requires !AllBlank(s.input)
    requires NoCompletion(reply) && IsCompletion(last)
    ensures InBounds(Submit(s, userId, assistantId), reply + [last])
    ensures var r := ApplyStream(Submit(s, userId, assistantId), reply + [last]);
      && r.current == ""
      && r.context == last.parsed.value.context.GetOr([])
      && r.updateAt == Some(last.now)
      && r.allChat == (if s.context == [] then s.allChat + [s.chat] else s.allChat)
      && r.input == ""
      && r.chat == s.chat
  {
    var m := ExchangeBeforeCompletion(s, userId, assistantId, reply, last);
    CompletionStep(m, last);
  }

  /** The two exchange lemmas' common part: the state reached just before the
      completion record. */
  lemma ExchangeBeforeCompletion(s: ChatState, userId: Uuid, assistantId: Uuid,
                                 reply: seq<StreamLine>, last: StreamLine)
    returns (m: ChatState)
    requires !AllBlank(s.input)
    requires NoCompletion(reply) && IsCompletion(last)
    ensures InBounds(Submit(s, userId, assistantId), reply + [last])
    ensures InBounds(Submit(s, userId, assistantId), reply)
    ensures m == ApplyStream(Submit(s, userId, assistantId), reply)
    ensures ApplyStream(Submit(s, userId, assistantId), reply + [last]) == ApplyLine(m, last)
    ensures |m.history| == |s.history| + 2
    ensures m.history[..|s.history|] == s.history
    ensures m.history[|s.history|] == ChatMessage(userId, Trim(s.input), true, Some(s.context))
    ensures m.history[|s.history| + 1].text == s.current + Fragments(reply)
    ensures !m.history[|s.history| + 1].isUser
    ensures m.messages == (if NoFragment(reply) then s.messages else m.history)
    ensures m.context == s.context && m.allChat == s.allChat
    ensures m.input == "" && m.chat == s.chat
  {
    var s1 := Submit(s, userId, assistantId);
    SubmitAppendsExchange(s, userId, assistantId);
    assert InBounds(s1, reply + [last]);
    ApplyStreamSnoc(s1, reply, last);
    m := ApplyStream(s1, reply);
    MidExchange(s, s1, m, reply);
  }

  /** An exchange whose reply ends before any completion record (the
      transport closed): the new assistant entry keeps the partial text, the
      context and chat list are untouched, and the accumulator is not
      cleared. Its partial text is therefore where the next exchange's
      assistant entry starts. */
  lemma InterruptedExchange(s: ChatState, userId: Uuid, assistantId: Uuid, reply: seq<StreamLine>)
    requires !AllBlank(s.input)
    requires NoCompletion(reply)
    ensures InBounds(Submit(s, userId, assistantId), reply)
    ensures var r := ApplyStream(Submit(s, userId, assistantId), reply);
      && |r.history| == |s.history| + 2
      && r.history[|s.history| + 1].text == s.current + Fragments(reply)
      && r.current == s.current + Fragments(reply)
      && r.context == s.context
      && r.allChat == s.allChat
      && r.updateAt == s.updateAt
  {
    var s1 := Submit(s, userId, assistantId);
    SubmitAppendsExchange(s, userId, assistantId);
    MidExchange(s, s1, ApplyStream(s1, reply), reply);
    FragmentsAccumulate(s1, reply);
  }

  /** The state of an exchange after its fragments and before its completion record. */
  lemma MidExchange(s: ChatState, s1: ChatState, m: ChatState, reply: seq<StreamLine>)
    requires |s1.history| == |s.history| + 2
    requires s1.history[..|s.history|] == s.history
    requires s1.history[|s.history| + 1].text == s1.current && !s1.history[|s.history| + 1].isUser
    requires s1.messages == s.messages
    requires NoCompletion(reply)
    requires m == ApplyStream(s1, reply)
    ensures |m.history| == |s.history| + 2
    ensures m.history[..|s.history|] == s.history
    ensures m.history[|s.history|] == s1.history[|s.history|]
    ensures m.history[|s.history| + 1].text == s1.current + Fragments(reply)
    ensures !m.history[|s.history| + 1].isUser
    ensures m.messages == (if NoFragment(reply) then s.messages else m.history)
    ensures m.context == s1.context && m.allChat == s1.allChat
    ensures m.input == s1.input && m.chat == s1.chat
  {
    var n := |s.history|;
    StreamKeepsEarlierEntries(s1, reply);
    assert m.history[..n + 1] == s1.history[..n + 1];
    assert m.history[..n] == s.history by {
      assert m.history[..n + 1][..n] == s1.history[..n + 1][..n];
    }
    assert m.history[n] == s1.history[n] by {
      assert m.history[..n + 1][n] == s1.history[..n + 1][n];
    }
    FragmentsAccumulate(s1, reply);
    if NoFragment(reply) {
      SilentStreamIsNoOp(s1, reply);
    } else {
      LastEntryShowsAccumulator(s1, reply);
    }
  }
}
