/** The chat records of src/lib/types.ts: messages with an optional thumbs
    feedback, and threads of messages. Times are milliseconds since the
    epoch, as `Date.now()` returns them. */
module Types {
  import opened Options

  datatype Role = User | Assistant

  datatype Feedback = Up | Down

  datatype Message = Message(id: string, role: Role, content: string, createdAt: int, feedback: Option<Feedback>)

  datatype Thread = Thread(id: string, title: string, createdAt: int, messages: seq<Message>)
}
