/** The `sendMessage` mutation: a protected procedure whose input is a
    message text of 1 to 2000 characters. It inserts the message with the
    caller as author and publishes the stored record on the chat bus when
    the insert returned one; the record (or `undefined`) is the result. */
module ChatMutations {
  import opened Common
  import opened Domain
  import opened TrpcInit
  import opened ChatEvents
  import opened ChatSubscription
  import opened Fanout

  /** The values handed to `createChatMessage`. */
  datatype NewChatMessage = NewChatMessage(content: string, authorId: string, authorName: string)

  /** `z.string().min(1).max(2000)` */
  predicate ValidContent(content: string) {
    1 <= |content| <= 2000
  }

  /** What the procedure asks the database to insert, or why it stops first:
      the protected guard runs before the input is checked, so a caller who
      is not signed in is refused whatever the input. */
  function SendRequest(ctx: Context, content: string): (r: Result<NewChatMessage, ProcedureError>)
    ensures r.Ok? <==> ctx.user.Some? && ctx.session.Some? && ValidContent(content)
    ensures (ctx.user.None? || ctx.session.None?) ==> r == Err(Unauthorized)
    ensures ctx.user.Some? && ctx.session.Some? && !ValidContent(content) ==> r == Err(BadRequest)
    ensures r.Ok? ==> r.value.content == content
    ensures r.Ok? ==> r.value.authorId == ctx.user.value.id && r.value.authorName == ctx.user.value.name
  {
    match Protect(ctx)
    case Err(e) => Err(e)
    case Ok(authed) =>
      if !ValidContent(content) then Err(BadRequest)
      else Ok(NewChatMessage(content, authed.user.id, authed.user.name))
  }

  /** The mutation against the bus and the open connections. `insert` is
      `createChatMessage`: the stored record, `None` for `undefined`, or the
      message of the error it throws, which tRPC reports as an internal
      error. The bus is called exactly when there is a record, with that
      record, and it is the same record that is returned. */
  method SendMessage(bus: ChatEventEmitter, streams: seq<ChatStream>, ctx: Context, content: string,
                     insert: NewChatMessage -> Result<Option<ChatMessage>, string>)
    returns (r: Outcome<Option<ChatMessage>>, calls: seq<Call>)
    requires Wired(bus, streams)
    modifies streams
    ensures Wired(bus, streams)
    ensures SendRequest(ctx, content).Err? ==> r == Threw(SendRequest(ctx, content).error) && calls == []
    ensures SendRequest(ctx, content).Ok? && insert(SendRequest(ctx, content).value).Err? ==>
              r == Threw(Internal(insert(SendRequest(ctx, content).value).error)) && calls == []
    ensures SendRequest(ctx, content).Ok? && insert(SendRequest(ctx, content).value).Ok? ==>
              r == Returned(insert(SendRequest(ctx, content).value).value, true)
    ensures r.Returned? && r.result.Some? ==> calls == Calls(bus.listeners, r.result.value)
    ensures r.Returned? && r.result.None? ==> calls == []
    ensures forall k :: 0 <= k < |streams| ==>
              streams[k].queue == old(streams[k].queue) +
                (if r.Returned? && r.result.Some? && old(streams[k].subscribed) then [r.result.value] else [])
    ensures forall k :: 0 <= k < |streams| ==>
              && streams[k].emitted == old(streams[k].emitted)
              && streams[k].subscribed == old(streams[k].subscribed)
  {
    match SendRequest(ctx, content) {
      case Err(e) =>
        r := Threw(e);
        calls := [];
      case Ok(request) =>
        match insert(request) {
          case Err(failure) =>
            r := Threw(Internal(failure));
            calls := [];
          case Ok(message) =>
            if message.Some? {
              calls := Publish(bus, streams, message.value);
            } else {
              calls := [];
            }
            r := Returned(message, true);
        }
    }
  }
}
