/**
  The values and objects a chat is made of: the messages shown in the history,
  the conversation object that owns them, and one decoded record of the
  generation server's response stream.
*/
module ChatModel {
  import opened Wrappers

  /** Stands for a `UUID()` value: opaque, supplied by the environment. */
  datatype Uuid = Uuid(value: nat)

  /** Stands for a `Date()` value: opaque, supplied by the environment. */
  datatype Date = Date(value: int)

  /** One entry of a conversation. `context` is a snapshot of the chat's
      continuation context when the entry was made (the user's entries carry
      it; assistant entries carry an empty one). */
  datatype ChatMessage = ChatMessage(id: Uuid, text: string, isUser: bool, context: Option<seq<int>>)

  /** One decoded line of the streamed reply. The timing and counter fields
      are carried along and never consulted. */
  datatype OllamaResponse = OllamaResponse(
    model: string,
    createdAt: string,
    response: string,
    done: bool,
    doneReason: Option<string>,
    context: Option<seq<int>>,
    totalDuration: Option<int>,
    loadDuration: Option<int>,
    promptEvalDuration: Option<int>,
    evalCount: Option<int>,
    evalDuration: Option<int>)

  /** A conversation. It is a reference: the chat list and the open chat view
      may hold the same object, and an update through one is seen by the other. */
  class Chat {
    const id: Uuid
    var topic: string
    var messages: seq<ChatMessage>
    var createAt: Option<Date>
    var updateAt: Option<Date>
    var context: seq<int>

    constructor (id: Uuid, topic: string, messages: seq<ChatMessage>,
                 createAt: Option<Date>, updateAt: Option<Date>, context: seq<int>)
      ensures this.id == id && this.topic == topic && this.messages == messages
      ensures this.createAt == createAt && this.updateAt == updateAt && this.context == context
    {
      this.id := id;
      this.topic := topic;
      this.messages := messages;
      this.createAt := createAt;
      this.updateAt := updateAt;
      this.context := context;
    }
  }
}
