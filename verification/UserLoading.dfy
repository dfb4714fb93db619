// Complete, User and Refresh of the OAuth provider from the token operation on
// (oauth2provider/provider.go, loader.go), under a context that may be cancelled before any of their
// observations. The token endpoint is an oracle.

module UserLoading {
  import opened Wrappers
  import opened Text
  import opened Errors
  import opened Contexts
  import opened Model
  import opened Transport
  import opened GitHubUser
  import OAuth
  import Scopes

  // The user loaders: the mapped one, GitHub's, and any other, which may look at the context as often
  // as it likes and answer anything.
  datatype Loader =
    | Mapped(valid: string -> bool, map_: string -> Result<User, GoError>) // valid: the syntax check of decoding raw JSON
    | GitHub(documents: Documents)
    | Custom(answer: Result<User, GoError>, looks: nat)

  // The requests a loader may make.
  datatype Exchanges = Exchanges(first: Exchange, second: Exchange)

  datatype Replies = Replies(first: Reply, second: Reply)

  // A token as the token endpoint returns it.
  datatype RawToken = RawToken(accessToken: string, refreshToken: string, tokenType: string, expiry: int, scope: Scopes.Extra)

  function Normalized(token: RawToken): Token {
    Token(token.accessToken, token.refreshToken, token.tokenType, token.expiry, Scopes.Extracted(token.scope))
  }

  // The token says what the response says, field by field.
  ghost predicate Says(t: Token, response: RawToken) {
    && t.accessToken == response.accessToken && t.refreshToken == response.refreshToken
    && t.tokenType == response.tokenType && t.expiry == response.expiry
    && Scopes.Given(response.scope, t.scopes)
  }

  lemma NormalizedSays(response: RawToken)
    ensures Says(Normalized(response), response)
  {
    Scopes.ExtractedIsGiven(response.scope);
  }

  const LOAD := "load provider user"

  // contextError.
  function ContextError(name: string, operation: string, cause: GoError): GoError {
    NewError(TRANSPORT, name, operation, Some(cause))
  }

  // --- what the methods come to ---

  function MappedLoads(ctx: Context, name: string, limit: int64, reply: Reply, valid: string -> bool,
                       map_: string -> Result<User, GoError>, k: nat): Outcome<User>
    requires limit >= 0
  {
    var fetched := Fetch(ctx, name, limit, reply, valid, k);
    match fetched.result
    case Err(error) => Outcome(Err(error), fetched.observations)
    case Ok(raw) =>
      match map_(raw)
      case Err(error) => Outcome(Err(NewError(DECODING, "", "map provider user", Some(error))), fetched.observations)
      case Ok(user) => Outcome(Ok(if user.raw.None? then user.(raw := Some(raw)) else user), fetched.observations)
  }

  function Loads(ctx: Context, name: string, limit: int64, loader: Loader, replies: Replies, token: Token, k: nat): Outcome<User>
    requires limit >= 0
  {
    match loader
    case Mapped(valid, map_) => MappedLoads(ctx, name, limit, replies.first, valid, map_, k)
    case GitHub(documents) => Loaded(ctx, name, limit, replies.first, replies.second, documents, token.scopes, k)
    case Custom(answer, looks) => Outcome(answer, k + looks)
  }

  // loadUser after its loader has returned.
  function Concludes(ctx: Context, name: string, token: Token, loaded: Outcome<User>): Outcome<User> {
    var k := loaded.observations;
    var result :=
      if ctx.Cancelled(k) then Err(ContextError(name, LOAD, ctx.cause))
      else
        match loaded.result
        case Err(error) => Err(Rewrap(name, LOAD, error))
        case Ok(user) => Ok(user.(provider := name, token := token));
    Outcome(result, k + 1)
  }

  function LoadsUser(ctx: Context, name: string, limit: int64, loader: Loader, replies: Replies, token: Token, k: nat): Outcome<User>
    requires limit >= 0
  {
    if ctx.Cancelled(k) then Outcome(Err(ContextError(name, LOAD, ctx.cause)), k + 1)
    else Concludes(ctx, name, token, Loads(ctx, name, limit, loader, replies, token, k + 1))
  }

  const TOO_LARGE_TEXT := "oauth2: cannot fetch token: response too large"

  // tokenOperationError.
  function TokenError(ctx: Context, name: string, code: ErrorCode, operation: string, error: GoError, k: nat): GoError {
    if ctx.Cancelled(k) then ContextError(name, operation, ctx.cause)
    else if HasKind(error, {BodyTooLarge}) || (error.Foreign? && error.text == TOO_LARGE_TEXT) then
      NewError(RESPONSE_TOO_LARGE, name, operation, None)
    else if HasKind(error, {Network, DeadlineExceeded}) then NewError(TRANSPORT, name, operation, Some(error))
    else NewError(code, name, operation, None)
  }

  // --- the methods ---

  class Provider {
    const config: OAuth.Config
    const fetcher: Fetcher
    const loader: Loader

    constructor (config: OAuth.Config, configuredLimit: int64, loader: Loader)
      requires ResponseLimit(configuredLimit).Some?
      ensures Valid() && this.config == config && this.loader == loader
      ensures fetcher.maxResponseSize == ResponseLimit(configuredLimit).value
    {
      this.config, this.loader := config, loader;
      fetcher := new Fetcher(config.name, configuredLimit);
    }

    ghost predicate Valid() {
      fetcher.Valid() && fetcher.providerName == config.name
    }

    method RunLoader(ctx: Context, exchanges: Exchanges, token: Token) returns (result: Result<User, GoError>)
      requires Valid() && Separate(exchanges)
      modifies ctx`observations, Bodies(exchanges)
      ensures Outcome(result, ctx.observations) ==
              Loads(ctx, config.name, fetcher.maxResponseSize, loader, old(Contents(exchanges)), token, old(ctx.observations))
    {
      match loader
      case Mapped(valid, map_) =>
        var fetched := fetcher.GetJSON(ctx, exchanges.first, valid);
        if fetched.Err? {
          return Err(fetched.error);
        }
        var mapped := map_(fetched.value);
        if mapped.Err? {
          return Err(NewError(DECODING, "", "map provider user", Some(mapped.error)));
        }
        var user := mapped.value;
        if user.raw.None? {
          user := user.(raw := Some(fetched.value));
        }
        result := Ok(user);
      case GitHub(documents) =>
        result := GitHubUser.LoadUser(ctx, fetcher, exchanges.first, exchanges.second, documents, token.scopes);
      case Custom(answer, looks) =>
        for i := 0 to looks
          invariant ctx.observations == old(ctx.observations) + i
        {
          var _ := ctx.Err();
        }
        result := answer;
    }

    method LoadUser(ctx: Context, exchanges: Exchanges, token: Token) returns (result: Result<User, GoError>)
      requires Valid() && Separate(exchanges)
      modifies ctx`observations, Bodies(exchanges)
      ensures Outcome(result, ctx.observations) ==
              LoadsUser(ctx, config.name, fetcher.maxResponseSize, loader, old(Contents(exchanges)), token, old(ctx.observations))
      ensures result.Ok? ==> result.value.provider == config.name && result.value.token == token
    {
      var before := ctx.Err();
      if before.Some? {
        return Err(ContextError(config.name, LOAD, before.value));
      }
      var loaded := RunLoader(ctx, exchanges, token);
      if loaded.Err? {
        var ctxErr := ctx.Err();
        if ctxErr.Some? {
          return Err(ContextError(config.name, LOAD, ctxErr.value));
        }
        match ErrorCodeOf(loaded.error)
        case Some(code) => return Err(NewError(code, config.name, LOAD, Some(loaded.error)));
        case None => return Err(NewError(DECODING, config.name, LOAD, Some(loaded.error)));
      }
      var after := ctx.Err();
      if after.Some? {
        return Err(ContextError(config.name, LOAD, after.value));
      }
      result := Ok(loaded.value.(provider := config.name, token := token));
    }

    // Complete; exchanged is what the token endpoint answers, should it be asked.
    method Complete(ctx: Context, callback: Callback, session: AuthorizationSession, exchanged: Result<RawToken, GoError>,
                    exchanges: Exchanges)
      returns (result: Result<User, GoError>, sent: Option<(string, Option<string>)>)
      requires Valid() && Separate(exchanges)
      modifies ctx`observations, Bodies(exchanges)
      ensures match OAuth.CheckCallback(config, callback, session)
              case Rejected(code) =>
                sent.None? && result == Err(NewError(code, config.name, "complete authorization", None))
                && ctx.observations == old(ctx.observations)
              case Exchanges(verifier) =>
                sent == Some((callback.code, verifier))
                && match exchanged
                   case Err(error) =>
                     result == Err(TokenError(ctx, config.name, TOKEN_EXCHANGE, "exchange authorization code", error,
                                              old(ctx.observations)))
                   case Ok(token) =>
                     Outcome(result, ctx.observations) ==
                     LoadsUser(ctx, config.name, fetcher.maxResponseSize, loader, old(Contents(exchanges)), Normalized(token),
                               old(ctx.observations))
      ensures result.Ok? ==>
                && exchanged.Ok? && Says(result.value.token, exchanged.value)
                && result.value.provider == config.name
    {
      sent := None;
      if callback.error != "" {
        return Err(NewError(AUTHORIZATION_DENIED, config.name, "complete authorization", None)), sent;
      }
      if TrimSpace(callback.code) == "" {
        return Err(NewError(INVALID_REQUEST, config.name, "complete authorization", None)), sent;
      }
      if !session.stateVerificationDisabled && !OAuth.ValidState(session.state, callback.state) {
        return Err(NewError(STATE_VALIDATION, config.name, "complete authorization", None)), sent;
      }
      if config.capabilities.pkce && session.pkceVerifier == "" {
        return Err(NewError(INVALID_REQUEST, config.name, "complete authorization", None)), sent;
      }
      sent := Some((callback.code, if config.capabilities.pkce then Some(session.pkceVerifier) else None));
      if exchanged.Err? {
        var error := TokenOperationError(ctx, TOKEN_EXCHANGE, "exchange authorization code", exchanged.error);
        return Err(error), sent;
      }
      var token := Normalize(exchanged.value);
      NormalizedSays(exchanged.value);
      result := LoadUser(ctx, exchanges, token);
    }

    // User, with an access token the caller has.
    method User(ctx: Context, accessToken: string, exchanges: Exchanges) returns (result: Result<User, GoError>)
      requires Valid() && Separate(exchanges)
      modifies ctx`observations, Bodies(exchanges)
      ensures if TrimSpace(accessToken) == "" then
                result == Err(NewError(INVALID_REQUEST, config.name, "load user from token", None))
              else
                Outcome(result, ctx.observations) ==
                LoadsUser(ctx, config.name, fetcher.maxResponseSize, loader, old(Contents(exchanges)),
                          Token(accessToken, "", "", 0, None), old(ctx.observations))
    {
      if TrimSpace(accessToken) == "" {
        return Err(NewError(INVALID_REQUEST, config.name, "load user from token", None));
      }
      result := LoadUser(ctx, exchanges, Token(accessToken, "", "", 0, None));
    }

    // Refresh; exchanged is what the token endpoint answers, should it be asked.
    method Refresh(ctx: Context, refreshToken: string, exchanged: Result<RawToken, GoError>) returns (result: Result<Token, GoError>)
      modifies ctx`observations
      ensures result.Ok? <==>
                config.capabilities.tokenRefresh && TrimSpace(refreshToken) != ""
                && exchanged.Ok? && !ctx.Cancelled(old(ctx.observations))
      ensures result.Ok? ==> result.value == Normalized(exchanged.value) && Says(result.value, exchanged.value)
      ensures !config.capabilities.tokenRefresh ==> result == Err(NewError(UNSUPPORTED, config.name, "refresh token", None))
      ensures config.capabilities.tokenRefresh && TrimSpace(refreshToken) == "" ==>
                result == Err(NewError(INVALID_REQUEST, config.name, "refresh token", None))
      ensures config.capabilities.tokenRefresh && TrimSpace(refreshToken) != "" ==>
                && ctx.observations == old(ctx.observations) + 1
                && (ctx.Cancelled(old(ctx.observations)) ==>
                     result == Err(ContextError(config.name, "refresh token", ctx.cause)))
                && (exchanged.Err? ==>
                     result == Err(TokenError(ctx, config.name, TOKEN_REFRESH, "refresh token", exchanged.error, old(ctx.observations))))
    {
      if !config.capabilities.tokenRefresh {
        return Err(NewError(UNSUPPORTED, config.name, "refresh token", None));
      }
      if TrimSpace(refreshToken) == "" {
        return Err(NewError(INVALID_REQUEST, config.name, "refresh token", None));
      }
      if exchanged.Err? {
        var error := TokenOperationError(ctx, TOKEN_REFRESH, "refresh token", exchanged.error);
        return Err(error);
      }
      var ctxErr := ctx.Err();
      if ctxErr.Some? {
        return Err(ContextError(config.name, "refresh token", ctxErr.value));
      }
      var token := Normalize(exchanged.value);
      NormalizedSays(exchanged.value);
      result := Ok(token);
    }

    method TokenOperationError(ctx: Context, code: ErrorCode, operation: string, error: GoError) returns (e: GoError)
      modifies ctx`observations
      ensures e == TokenError(ctx, config.name, code, operation, error, old(ctx.observations))
      ensures ctx.observations == old(ctx.observations) + 1
    {
      var ctxErr := ctx.Err();
      if ctxErr.Some? {
        return ContextError(config.name, operation, ctxErr.value);
      }
      if HasKind(error, {BodyTooLarge}) || (error.Foreign? && error.text == TOO_LARGE_TEXT) {
        return NewError(RESPONSE_TOO_LARGE, config.name, operation, None);
      }
      if HasKind(error, {Network, DeadlineExceeded}) {
        return NewError(TRANSPORT, config.name, operation, Some(error));
      }
      e := NewError(code, config.name, operation, None);
    }

    method Normalize(token: RawToken) returns (t: Token)
      ensures t == Normalized(token)
    {
      var scopes := Scopes.ExtractScopes(token.scope);
      t := Token(token.accessToken, token.refreshToken, token.tokenType, token.expiry, scopes);
    }
  }

  function Bodies(exchanges: Exchanges): set<Body> {
    (if exchanges.first.Responds? then {exchanges.first.body} else {})
    + (if exchanges.second.Responds? then {exchanges.second.body} else {})
  }

  // Two responses have two bodies.
  predicate Separate(exchanges: Exchanges) {
    exchanges.first.Responds? && exchanges.second.Responds? ==> exchanges.first.body != exchanges.second.body
  }

  ghost function Contents(exchanges: Exchanges): Replies
    reads Bodies(exchanges)
  {
    Replies(Content(exchanges.first), Content(exchanges.second))
  }

  // --- what that means ---

  // Whatever the loader does: loading a user looks at the context last of all. It succeeds exactly
  // when that last look finds it live and the loader succeeded; a cancellation that any look could
  // see ends in a transport error that carries the context's cause.
  lemma CancellationDecides(ctx: Context, name: string, limit: int64, loader: Loader, replies: Replies, token: Token, k: nat, seen: nat)
    requires limit >= 0
    ensures var o := LoadsUser(ctx, name, limit, loader, replies, token, k);
            && k < o.observations
            && (o.result.Ok? <==>
                 !ctx.Cancelled(o.observations - 1) && Loads(ctx, name, limit, loader, replies, token, k + 1).result.Ok?)
            && (seen < o.observations && ctx.Cancelled(seen) ==> o.result == Err(ContextError(name, LOAD, ctx.cause)))
            && (o.result.Ok? ==> o.result.value.provider == name && o.result.value.token == token)
  {
    LooksForward(ctx, name, limit, loader, replies, token, k + 1);
  }

  lemma LooksForward(ctx: Context, name: string, limit: int64, loader: Loader, replies: Replies, token: Token, k: nat)
    requires limit >= 0
    ensures Loads(ctx, name, limit, loader, replies, token, k).observations >= k
  {}

  // GitHub's optional e-mail: when its request fails, the user is returned without an address only if
  // the context is still live at the end. A cancellation behind the failure, or after it, is reported.
  lemma SwallowedFailureIsNotCancellation(ctx: Context, name: string, limit: int64, documents: Documents, replies: Replies,
                                          token: Token, k: nat)
    requires limit >= 0 && CanRequestEmails(token.scopes) && !ctx.Cancelled(k)
    requires var user := Fetch(ctx, name, limit, replies.first, raw => documents.user(raw).Some?, k + 1);
             && user.result.Ok? && documents.user(user.result.value).Some?
             && IsUint64(documents.user(user.result.value).value.id)
             && TrimSpace(documents.user(user.result.value).value.email) == ""
             && Fetch(ctx, name, limit, replies.second, raw => documents.emails(raw).Some?, user.observations).result.Err?
    ensures var o := LoadsUser(ctx, name, limit, GitHub(documents), replies, token, k);
            && (o.result.Ok? <==> !ctx.Cancelled(o.observations - 1))
            && (o.result.Ok? ==> o.result.value.email == "")
            && (o.result.Err? ==> o.result == Err(ContextError(name, LOAD, ctx.cause)))
  {}

  // The mapped loader: a user comes exactly from a whole reply that is valid JSON and that the mapper
  // accepts, on a context live at both looks.
  lemma MappedUsersComeFromValidDocuments(ctx: Context, name: string, limit: int64, valid: string -> bool,
                                          map_: string -> Result<User, GoError>, replies: Replies, token: Token, k: nat)
    requires limit >= 0
    ensures var o := LoadsUser(ctx, name, limit, Mapped(valid, map_), replies, token, k);
            var reply := replies.first;
            o.result.Ok? <==>
              && !ctx.Cancelled(k) && !ctx.Cancelled(o.observations - 1)
              && reply.Reply? && reply.contentLength <= limit && 200 <= reply.status < 300
              && |reply.bytes| <= limit as int && reply.ending == EOF && valid(reply.bytes) && map_(reply.bytes).Ok?
  {
    if !ctx.Cancelled(k) {
      SuccessIsTheWholeBody(name, limit, replies.first, ctx.Seen(k + 1), valid);
    }
  }

  // --- what Complete answers, by callback, session and exchange ---

  // Each rejection before the exchange, in the order the checks are made: a callback with an error, one
  // with a blank code, one without the session's state where it is verified, and a session without a
  // verifier where PKCE asks for one.
  lemma RejectionsByCallback(config: OAuth.Config, callback: Callback, session: AuthorizationSession)
    ensures var check := OAuth.CheckCallback(config, callback, session);
            var denied := callback.error != "";
            var blank := TrimSpace(callback.code) == "";
            var foreign := !session.stateVerificationDisabled
                           && (session.state == "" || callback.state == "" || session.state != callback.state);
            var unverifiable := config.capabilities.pkce && session.pkceVerifier == "";
            && (denied ==> check == OAuth.Rejected(AUTHORIZATION_DENIED))
            && (!denied && blank ==> check == OAuth.Rejected(INVALID_REQUEST))
            && (!denied && !blank && foreign ==> check == OAuth.Rejected(STATE_VALIDATION))
            && (!denied && !blank && !foreign && unverifiable ==> check == OAuth.Rejected(INVALID_REQUEST))
            && (!denied && !blank && !foreign && !unverifiable ==>
                 check == OAuth.Exchanges(if config.capabilities.pkce then Some(session.pkceVerifier) else None))
  {
  }

  // The category of a failed exchange or refresh: the context's cancellation first, then an oversized
  // response, then a network error, and otherwise the operation's own.
  lemma FailedExchange(ctx: Context, name: string, code: ErrorCode, operation: string, error: GoError, k: nat)
    requires code in SENTINELS
    ensures var e := TokenError(ctx, name, code, operation, error, k);
            var cancelled := ctx.cancelledAt.Some? && ctx.cancelledAt.value <= k;
            var oversized := HasKind(error, {BodyTooLarge})
                             || (error.Foreign? && error.text == "oauth2: cannot fetch token: response too large");
            var network := HasKind(error, {Network, DeadlineExceeded});
            && (cancelled ==> e == NewError(TRANSPORT, name, operation, Some(ctx.cause)) && IsErrorCode(e, TRANSPORT))
            && (!cancelled && oversized ==> IsErrorCode(e, RESPONSE_TOO_LARGE) && e.cause.None?)
            && (!cancelled && !oversized && network ==> IsErrorCode(e, TRANSPORT) && e.cause == Some(error))
            && (!cancelled && !oversized && !network ==> IsErrorCode(e, code) && e.cause.None?)
            && e.Package? && e.provider == name && e.operation == operation
  {
  }

  // The mapped loader hands on the mapper's user, with the document as its raw data unless the mapper
  // gave some, and a mapper's refusal as a decoding error with the refusal beneath.
  lemma MappedUserIsHandedOn(ctx: Context, name: string, limit: int64, reply: Reply, valid: string -> bool,
                             map_: string -> Result<User, GoError>, k: nat)
    requires limit >= 0 && Arrives(limit, reply) && valid(reply.bytes)
    ensures var loaded := MappedLoads(ctx, name, limit, reply, valid, map_, k).result;
            match map_(reply.bytes)
            case Ok(user) =>
              && loaded.Ok? && loaded.value.raw == Some(if user.raw.Some? then user.raw.value else reply.bytes)
              && loaded.value == user.(raw := loaded.value.raw)
            case Err(error) => loaded.Err? && IsErrorCode(loaded.error, DECODING) && loaded.error.cause == Some(error)
  {
    SuccessIsTheWholeBody(name, limit, reply, ctx.Seen(k), valid);
  }

  // The user loadUser returns is the loader's in every field but the provider and the token, which are
  // the provider's name and the token asked about; an error names the provider and the operation.
  lemma UserIsHandedOn(ctx: Context, name: string, limit: int64, loader: Loader, replies: Replies, token: Token, k: nat)
    requires limit >= 0
    ensures var o := LoadsUser(ctx, name, limit, loader, replies, token, k).result;
            var loaded := Loads(ctx, name, limit, loader, replies, token, k + 1).result;
            && (o.Ok? ==>
                 && loaded.Ok? && o.value.id == loaded.value.id && o.value.nickname == loaded.value.nickname
                 && o.value.name == loaded.value.name && o.value.email == loaded.value.email
                 && o.value.avatarURL == loaded.value.avatarURL && o.value.raw == loaded.value.raw
                 && o.value.provider == name && o.value.token == token)
            && (o.Err? ==> o.error.Package? && o.error.provider == name && o.error.operation == "load provider user")
  {
  }

  // On a live context, the error of a loader keeps its category, and exactly what errors.Is matches
  // unless the category came from a copied sentinel or an As method and nothing else offers it.
  lemma LoaderErrorsAreTransparent(ctx: Context, name: string, limit: int64, loader: Loader, replies: Replies, token: Token, k: nat)
    requires limit >= 0
    requires var o := LoadsUser(ctx, name, limit, loader, replies, token, k);
             var loaded := Loads(ctx, name, limit, loader, replies, token, k + 1);
             && !ctx.Cancelled(o.observations - 1) && loaded.result.Err?
             && BuiltByNewError(loaded.result.error) && ErrorCodeOf(loaded.result.error).Some?
    ensures var o := LoadsUser(ctx, name, limit, loader, replies, token, k);
            var error := Loads(ctx, name, limit, loader, replies, token, k + 1).result.error;
            && o.result.Err? && ErrorCodeOf(o.result.error) == ErrorCodeOf(error)
            && ((forall sentinel :: Is(o.result.error, sentinel) <==> Is(error, sentinel))
                <==> ErrorCodeOf(error) == Some(UNKNOWN) || ErrorCodeOf(error).value in Offered(error))
            && (DecidedGenuinely(error) ==>
                 ErrorCodeOf(error) == Some(UNKNOWN) || ErrorCodeOf(error).value in Offered(error))
            && (Honest(error) ==> forall sentinel :: Is(o.result.error, sentinel) <==> Is(error, sentinel))
  {
    LooksForward(ctx, name, limit, loader, replies, token, k + 1);
    RewrapIsTransparent(name, LOAD, Loads(ctx, name, limit, loader, replies, token, k + 1).result.error);
  }
}
