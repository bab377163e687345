/**
 * `chat-message.ts`: the message shown in the chat window. Timestamps are instants in
 * milliseconds; attached files are represented by their names.
 */
module ChatMessages {

  datatype Sender = You | Role

  datatype ChatMessage = ChatMessage(sender: Sender, message: string, timestamp: int, files: seq<string>)
}
