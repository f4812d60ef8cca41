/** The records the core passes around. Only the fields the modelled code
    reads are kept; the ORM schemas that define them are not modelled. */
module Domain {
  import opened Common

  /** A stored chat message (`ChatMessage`, selected from the chat table). */
  datatype ChatMessage = ChatMessage(id: string, content: string, authorId: string, authorName: string, createdAt: int)

  /** A stored todo (`Todo`). */
  datatype Todo = Todo(id: string, title: string, description: Option<string>, completed: bool)

  /** The authenticated user and session of a request. */
  datatype User = User(id: string, name: string, email: string)
  datatype Session = Session(id: string, userId: string)

  /** The request context: `user` and `session` are `null` when the caller is
      not signed in. */
  datatype Context = Context(user: Option<User>, session: Option<Session>)

  /** The context a protected procedure runs with: both present. */
  datatype AuthedContext = AuthedContext(user: User, session: Session)

  /** The errors a procedure call ends with. */
  datatype ProcedureError = Unauthorized | BadRequest | Internal(message: string)
}
