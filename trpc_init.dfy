/** The tRPC set-up of the studio service: `createContext` turns the
    session lookup into the request context, the logging middleware wraps
    every procedure, and `protectedProcedure` admits only callers with both
    a user and a session. */
module TrpcInit {
  import opened Common
  import opened Domain

  /** What `auth.api.getSession` answered; the answer itself may be `null`
      (`None` at the call site). */
  datatype AuthResponse = AuthResponse(user: Option<User>, session: Option<Session>)

  /** `createContext`: with no response, or one carrying neither a user nor
      a session, both are `null`; otherwise both are taken over as they are,
      even when only one of them is present. */
  function CreateContext(response: Option<AuthResponse>): (ctx: Context)
    ensures response.None? ==> ctx == Context(None, None)
    ensures response.Some? ==> ctx.user == response.value.user && ctx.session == response.value.session
  {
    if response.None? || (response.value.session.None? && response.value.user.None?) then
      Context(None, None)
    else
      Context(response.value.user, response.value.session)
  }

  /** The `protectedProcedure` middleware: `UNAUTHORIZED` unless both the
      user and the session are present, and then the same two passed on. */
  function Protect(ctx: Context): (r: Result<AuthedContext, ProcedureError>)
    ensures r.Ok? <==> ctx.user.Some? && ctx.session.Some?
    ensures r.Ok? ==> r.value.user == ctx.user.value && r.value.session == ctx.session.value
    ensures r.Err? ==> r.error == Unauthorized
  {
    match (ctx.user, ctx.session)
    case (Some(u), Some(s)) => Ok(AuthedContext(u, s))
    case _ => Err(Unauthorized)
  }

  /** A signed-in request passes the guard: whenever the session lookup
      found both a user and a session, the guarded context is exactly
      them. */
  lemma SignedInPasses(u: User, s: Session)
    ensures Protect(CreateContext(Some(AuthResponse(Some(u), Some(s))))) == Ok(AuthedContext(u, s))
  {
  }

  /** How the wrapped procedure ended: it returned a result (with its `ok`
      flag), or it threw. */
  datatype Outcome<T> = Returned(result: T, ok: bool) | Threw(error: ProcedureError)

  /** The line the middleware logs after the call, with the duration in
      milliseconds between the two clock readings. */
  datatype CallLog =
    | Completed(path: string, duration: int, ok: bool)
    | Failed(path: string, duration: int, error: ProcedureError)

  /** The logging middleware around `next()`: the outcome is passed on as it
      is (the result returned, the error rethrown), and the log line records
      which of the two happened. */
  function Logged<T>(path: string, startedAt: int, endedAt: int, next: Outcome<T>): (r: (Outcome<T>, CallLog))
    ensures r.0 == next
    ensures r.1.path == path && r.1.duration == endedAt - startedAt
    ensures r.1.Completed? <==> next.Returned?
    ensures next.Returned? ==> r.1.ok == next.ok
    ensures next.Threw? ==> r.1.error == next.error
  {
    match next
    case Returned(_, ok) => (next, Completed(path, endedAt - startedAt, ok))
    case Threw(e) => (next, Failed(path, endedAt - startedAt, e))
  }

  /** A protected procedure with body `body`: an unauthenticated
      call ends with `UNAUTHORIZED` and never runs the body; otherwise the
      body's outcome comes back unchanged. */
  function CallProtected<T>(ctx: Context, body: AuthedContext -> Outcome<T>): (r: Outcome<T>)
    ensures Protect(ctx).Err? ==> r == Threw(Unauthorized)
    ensures Protect(ctx).Ok? ==> r == body(Protect(ctx).value)
  {
    match Protect(ctx)
    case Err(e) => Threw(e)
    case Ok(authed) => body(authed)
  }

  /** The logging middleware wraps the guard: an unauthenticated call to a
      protected procedure is rethrown as `UNAUTHORIZED` and logged as a
      failure with that error and its duration. */
  lemma LoggedUnauthorized<T>(path: string, startedAt: int, endedAt: int, ctx: Context, body: AuthedContext -> Outcome<T>)
    requires ctx.user.None? || ctx.session.None?
    ensures Logged(path, startedAt, endedAt, CallProtected(ctx, body)) ==
            (Threw(Unauthorized), Failed(path, endedAt - startedAt, Unauthorized))
  {
  }
}
