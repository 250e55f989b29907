/**
  The chat view's engine as an object: its state fields, the "New Chat"
  reset, the submit step, the handling of each reply line, and the loop over
  a reply stream. Each method is proved to follow the functions of `Engine`.
*/
module ChatViews {
  import opened Wrappers
  import opened ChatModel
  import opened Engine

  class ChatView {
    /** The chat list shared with the sidebar. */
    var allChat: seq<Chat>
    /** The open chat. */
    var chat: Chat
    var inputField: string
    /** The running accumulator of the reply being streamed. */
    var currentResponse: string
    /** The displayed history; synced into `chat.messages` by fragments. */
    var chatHistory: seq<ChatMessage>

    /** The engine's state as a value. */
    function State(): ChatState
      reads this, chat
    {
      ChatState(inputField, currentResponse, chatHistory, chat.messages, chat.context,
                chat.updateAt, allChat, chat)
    }

    /** Opening a chat: the history starts as the chat's messages, the input
        field and the accumulator start empty. */
    constructor (chat: Chat, allChat: seq<Chat>)
      ensures this.chat == chat && this.allChat == allChat
      ensures chatHistory == chat.messages
      ensures inputField == "" && currentResponse == ""
    {
      this.chat := chat;
      this.allChat := allChat;
      this.chatHistory := chat.messages;
      this.inputField := "";
      this.currentResponse := "";
    }

    /** "New Chat": a fresh chat with the placeholder topic, no messages and
        no context is opened, and the history becomes empty. The chat list,
        the input field and the accumulator are left as they were. */
    method NewChat(id: Uuid)
      modifies this
      ensures fresh(chat)
      ensures chat.id == id && chat.topic == NewChatTopic
      ensures chat.messages == [] && chat.context == []
      ensures chat.createAt == None && chat.updateAt == None
      ensures chatHistory == []
      ensures allChat == old(allChat) && inputField == old(inputField)
      ensures currentResponse == old(currentResponse)
    {
      chat := new Chat(id, NewChatTopic, [], None, None, []);
      chatHistory := chat.messages;
    }

    /** The submit step, up to the request it sends (None: nothing is sent). */
    method SubmitInput(userId: Uuid, assistantId: Uuid) returns (request: Option<GenerateRequest>)
      modifies this
      ensures chat == old(chat)
      ensures State() == Submit(old(State()), userId, assistantId)
      ensures request == RequestFor(old(State()))
    {
      ghost var before := State();
      var trimmedMessage := Text.Trim(inputField);
      if trimmedMessage == [] {
        assert Submit(before, userId, assistantId) == before;
        return None;
      }
      chatHistory := chatHistory + [ChatMessage(userId, trimmedMessage, true, Some(chat.context))];
      inputField := "";
      chatHistory := chatHistory + [ChatMessage(assistantId, currentResponse, false, Some([]))];
      request := Some(GenerateRequest(ModelName, trimmedMessage, chat.context));
      assert State() == before.(input := "", history := chatHistory);
    }

    /** One pass of the reply loop. */
    method HandleLine(line: StreamLine)
      requires IsFragment(line) ==> |chatHistory| > 0
      modifies this, chat
      ensures chat == old(chat)
      ensures chat.topic == old(chat.topic) && chat.createAt == old(chat.createAt)
      ensures State() == ApplyLine(old(State()), line)
    {
      match line.parsed {
        case None =>
        case Some(response) =>
          if response.done {
            currentResponse := "";
            if chat.context == [] {
              allChat := allChat + [chat];
            }
            chat.context := response.context.GetOr([]);
            chat.updateAt := Some(line.now);
          } else {
            currentResponse := currentResponse + response.response;
            chatHistory := chatHistory[|chatHistory| - 1 := ChatMessage(line.freshId, currentResponse, false, Some([]))];
            chat.messages := chatHistory;
          }
      }
    }

    /** The reply loop: every line, in arrival order; it does not stop at a
        completion record. */
    method ReceiveStream(lines: seq<StreamLine>)
      requires InBounds(State(), lines)
      modifies this, chat
      ensures chat == old(chat)
      ensures chat.topic == old(chat.topic) && chat.createAt == old(chat.createAt)
      ensures State() == ApplyStream(old(State()), lines)
    {
      ghost var start := State();
      var i := 0;
      while i < |lines|
        invariant 0 <= i <= |lines|
        invariant chat == old(chat)
        invariant chat.topic == old(chat.topic) && chat.createAt == old(chat.createAt)
        invariant InBounds(start, lines[..i])
        invariant |chatHistory| == |start.history|
        invariant State() == ApplyStream(start, lines[..i])
      {
        assert lines[..i + 1] == lines[..i] + [lines[i]];
        ApplyStreamSnoc(start, lines[..i], lines[i]);
        HandleLine(lines[i]);
        i := i + 1;
      }
      assert lines[..i] == lines;
    }

    /** `sendMessage`: the submit step, then, when a request was sent, its
        reply stream. */
    method SendMessage(userId: Uuid, assistantId: Uuid, reply: seq<StreamLine>)
      returns (request: Option<GenerateRequest>)
      modifies this, chat
      ensures chat == old(chat)
      ensures chat.topic == old(chat.topic) && chat.createAt == old(chat.createAt)
      ensures request == RequestFor(old(State()))
      ensures request.Some? ==> InBounds(Submit(old(State()), userId, assistantId), reply)
      ensures State() == if request.None? then old(State())
                         else ApplyStream(Submit(old(State()), userId, assistantId), reply)
    {
      request := SubmitInput(userId, assistantId);
      if request.Some? {
        ReceiveStream(reply);
      }
    }
  }
}
