/**
 * The handshake middleware of the signaling server: it decides, before a
 * socket is admitted, whether the credential token and the requested session
 * allow the connection. Token verification and the session query are
 * collaborators the model does not see, so they are parameters.
 */
module Gate {
  import opened Common

  /** What the handshake carries: `auth.token` and the `sessionId` query value (None when absent). */
  datatype Handshake = Handshake(token: Option<string>, sessionId: Option<string>)

  /** Outcome of verifying a token: its payload's user id, or an exception (bad signature, expiry, malformed). */
  datatype VerifyOutcome = Decoded(userId: UserId) | Throws

  /**
   * Outcome of the one participation query, which matches a session row by id
   * AND by mentor or learner: the number of rows, or an exception from the database.
   * An unknown session and a non-participant both give zero rows.
   */
  datatype LookupOutcome = Rows(count: nat) | QueryFails

  /** The three rejections the middleware passes to `next`. */
  datatype AuthError = AuthenticationError | SessionIdRequired | NotAuthorized

  /** What an admitted socket is bound to. */
  datatype Admission = Admission(userId: UserId, sessionId: SessionId)

  /** The message of the Error object each rejection carries. */
  function Message(e: AuthError): (m: string)
    ensures e == AuthenticationError <==> m == "Authentication error"
    ensures e == SessionIdRequired <==> m == "Session ID required"
    ensures e == NotAuthorized <==> m == "Not authorized for this session"
  {
    match e
    case AuthenticationError => "Authentication error"
    case SessionIdRequired => "Session ID required"
    case NotAuthorized => "Not authorized for this session"
  }

  /** JavaScript truthiness of an optional string: absent and "" are both falsy. */
  predicate Truthy(o: Option<string>) {
    o.Some? && o.value != ""
  }

  /** The token is present and verifies. */
  predicate Authenticated(h: Handshake, verify: string -> VerifyOutcome) {
    Truthy(h.token) && verify(h.token.value).Decoded?
  }

  /** The token verifies and a session id is present: the query is run. */
  predicate Queried(h: Handshake, verify: string -> VerifyOutcome) {
    Authenticated(h, verify) && Truthy(h.sessionId)
  }

  /**
   * The middleware's early-return chain: missing token, verification
   * failure, missing session id, no matching row; every thrown error
   * (verification or query) becomes "Authentication error".
   */
  function Authorize(h: Handshake, verify: string -> VerifyOutcome,
                     lookup: (SessionId, UserId) -> LookupOutcome): (r: Result<Admission, AuthError>)
    ensures r.Success? <==>
      Queried(h, verify) && lookup(h.sessionId.value, verify(h.token.value).userId).Rows?
      && lookup(h.sessionId.value, verify(h.token.value).userId).count > 0
    ensures r.Success? ==> r.value == Admission(verify(h.token.value).userId, h.sessionId.value)
    ensures r == Failure(AuthenticationError) <==>
      !Authenticated(h, verify)
      || (Queried(h, verify) && lookup(h.sessionId.value, verify(h.token.value).userId).QueryFails?)
    ensures r == Failure(SessionIdRequired) <==> Authenticated(h, verify) && !Truthy(h.sessionId)
    ensures r == Failure(NotAuthorized) <==>
      Queried(h, verify) && lookup(h.sessionId.value, verify(h.token.value).userId) == Rows(0)
  {
    if !Truthy(h.token) then Failure(AuthenticationError)
    else
      match verify(h.token.value)
      case Throws => Failure(AuthenticationError)
      case Decoded(userId) =>
        if !Truthy(h.sessionId) then Failure(SessionIdRequired)
        else
          match lookup(h.sessionId.value, userId)
          case QueryFails => Failure(AuthenticationError)
          case Rows(n) =>
            if n == 0 then Failure(NotAuthorized)
            else Success(Admission(userId, h.sessionId.value))
  }

  /**
   * Admission depends on the session only through the one participation query:
   * two sessions the query answers alike for this user are decided alike, so an
   * unknown session and a session the user does not take part in are one case.
   */
  lemma SessionSeenOnlyThroughQuery(token: Option<string>, s1: SessionId, s2: SessionId,
                                    verify: string -> VerifyOutcome,
                                    lookup: (SessionId, UserId) -> LookupOutcome)
    requires s1 != "" && s2 != ""
    requires forall u :: lookup(s1, u) == lookup(s2, u)
    ensures Authorize(Handshake(token, Some(s1)), verify, lookup).Failure?
        <==> Authorize(Handshake(token, Some(s2)), verify, lookup).Failure?
    ensures Authorize(Handshake(token, Some(s1)), verify, lookup).Failure? ==>
      Authorize(Handshake(token, Some(s1)), verify, lookup)
        == Authorize(Handshake(token, Some(s2)), verify, lookup)
  {
  }
}
