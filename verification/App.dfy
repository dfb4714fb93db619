// The two handlers of the example application (examples/nethttp/app.go), each run without another
// request in between; Login interleaves their steps. Pages are reduced to their status and message.

module App {
  import opened Wrappers
  import opened Text
  import opened Errors
  import opened Model
  import opened Registry
  import opened Sessions
  import OAuth
  import Random

  datatype Authorization = Authorization(url: string, session: AuthorizationSession)

  // What a provider answers, on the context of the request at hand.
  datatype Behaviour<!P> = Behaviour(
    begin: P -> Result<Authorization, GoError>,
    complete: (P, Callback, AuthorizationSession) -> Result<User, GoError>)

  datatype Reason =
    | UnknownProvider | NotStarted | SessionMissing | SessionInvalid | SessionExpired
    | Declined | CallbackInvalid | NotCompleted

  datatype Response =
    | Failed(status: nat, reason: Reason)
    | Redirect(location: string, cookie: string, expires: int) // status 302
    | Welcome(user: User) // status 200

  // How handleCallback reports an error of Complete.
  function Failure(error: GoError): Response {
    if Is(error, AUTHORIZATION_DENIED) then Failed(403, Declined)
    else if Is(error, INVALID_REQUEST) || Is(error, STATE_VALIDATION) then Failed(400, CallbackInvalid)
    else Failed(502, NotCompleted)
  }

  function Refusal(error: ConsumeError): Response {
    Failed(400, if error == Expired then SessionExpired else SessionInvalid)
  }

  function Finish(result: Result<User, GoError>): Response {
    match result
    case Ok(user) => Welcome(user)
    case Err(error) => Failure(error)
  }

  // The next tokens of a random stream, as many as create tries, are all live identifiers.
  ghost predicate Collide(stream: string, position: nat, live: SessionMap) {
    && IsBytes(stream) && position + ATTEMPTS * Random.TOKEN_BYTES <= |stream|
    && forall i :: 0 <= i < ATTEMPTS ==> Random.Token(stream, position + i * Random.TOKEN_BYTES) in live
  }

  lemma RejectedCollide(stream: string, position: nat, rejected: seq<string>, live: SessionMap)
    requires Rejected(stream, position, rejected, live) && |rejected| == ATTEMPTS
    ensures Collide(stream, position, live)
  {
    Random.TokensAt(stream, position, ATTEMPTS);
    forall i | 0 <= i < ATTEMPTS
      ensures Random.Token(stream, position + i * Random.TOKEN_BYTES) in live
    {
      assert rejected[i] in live;
    }
  }

  class Application<P> {
    const manager: Manager<P>
    const store: SessionStore

    constructor (manager: Manager<P>, store: SessionStore)
      ensures this.manager == manager && this.store == store
    {
      this.manager, this.store := manager, store;
    }

    // handleBegin from sessions.create on.
    method Start(name: string, authorization: Authorization, now: int) returns (response: Response)
      requires store.random.Valid()
      modifies store, store.random
      ensures store.random.Valid()
      ensures response.Redirect? ==>
                && response.location == authorization.url && response.expires == now + store.ttl
                && response.cookie != "" && response.cookie !in Live(old(store.sessions), now)
                && store.sessions == Live(old(store.sessions), now)[
                     response.cookie := Pending(TrimSpace(name), authorization.session, now + store.ttl)]
      ensures !response.Redirect? ==>
                && response == Failed(500, NotStarted)
                && (store.sessions == old(store.sessions) || store.sessions == Live(old(store.sessions), now))
                && (old(store.random.Healthy(ATTEMPTS * Random.TOKEN_BYTES)) ==>
                     Collide(store.random.stream, old(store.random.position), Live(old(store.sessions), now)))
    {
      var created, rejected := store.Create(name, authorization.session, now);
      if created.Err? {
        if old(store.random.Healthy(ATTEMPTS * Random.TOKEN_BYTES)) {
          assert created.error == Exhausted;
          RejectedCollide(store.random.stream, old(store.random.position), rejected, Live(old(store.sessions), now));
        }
        return Failed(500, NotStarted);
      }
      Random.TokenShape(
        store.random.stream, store.random.position - Random.TOKEN_BYTES, store.random.position - Random.TOKEN_BYTES);
      response := Redirect(authorization.url, created.value.0, created.value.1);
    }

    method HandleBegin(name: string, behaviour: Behaviour<P>, now: int) returns (response: Response)
      requires store.random.Valid()
      modifies store, store.random
      ensures store.random.Valid()
      ensures match Lookup(manager.View(), name)
              case None => response == Failed(404, UnknownProvider)
              case Some(provider) =>
                match behaviour.begin(provider)
                case Err(_) => response == Failed(502, NotStarted)
                case Ok(authorization) =>
                  if response.Redirect? then
                    && response.location == authorization.url && response.expires == now + store.ttl
                    && response.cookie != "" && response.cookie !in Live(old(store.sessions), now)
                    && store.sessions == Live(old(store.sessions), now)[
                         response.cookie := Pending(TrimSpace(name), authorization.session, now + store.ttl)]
                  else response == Failed(500, NotStarted)
      ensures response.Failed? && response.status != 500 ==>
                store.sessions == old(store.sessions) && store.random.position == old(store.random.position)
      ensures response == Failed(500, NotStarted) ==>
                && (store.sessions == old(store.sessions) || store.sessions == Live(old(store.sessions), now))
                && (old(store.random.Healthy(ATTEMPTS * Random.TOKEN_BYTES)) ==>
                     Collide(store.random.stream, old(store.random.position), Live(old(store.sessions), now)))
    {
      var found := manager.Provider(name);
      if found.Err? {
        return Failed(404, UnknownProvider);
      }
      var begun := behaviour.begin(found.value);
      if begun.Err? {
        return Failed(502, NotStarted);
      }
      response := Start(name, begun.value, now);
    }

    // cleared says whether the response clears the session cookie.
    method HandleCallback(name: string, cookie: Option<string>, callback: Callback, behaviour: Behaviour<P>, now: int)
      returns (response: Response, cleared: bool)
      modifies store
      ensures cleared <==> Lookup(manager.View(), name).Some? && cookie.Some? && cookie.value != ""
      ensures store.sessions == if cleared then old(store.sessions) - {cookie.value} else old(store.sessions)
      ensures Lookup(manager.View(), name).None? ==> response == Failed(404, UnknownProvider)
      ensures Lookup(manager.View(), name).Some? && !cleared ==> response == Failed(400, SessionMissing)
      ensures cleared ==>
                match Admit(Taken(old(store.sessions), cookie.value).1, TrimSpace(name), now)
                case Err(error) => response == Refusal(error)
                case Ok(session) =>
                  response == Finish(behaviour.complete(Lookup(manager.View(), name).value, callback, session))
    {
      cleared := false;
      var found := manager.Provider(name);
      if found.Err? {
        return Failed(404, UnknownProvider), cleared;
      }
      if cookie.None? || cookie.value == "" {
        return Failed(400, SessionMissing), cleared;
      }
      cleared := true;
      var consumed := store.Consume(cookie.value, name, now);
      if consumed.Err? {
        response := Failed(400, if consumed.error == Expired then SessionExpired else SessionInvalid);
        return;
      }
      var completed := behaviour.complete(found.value, callback, consumed.value);
      if completed.Err? {
        if Is(completed.error, AUTHORIZATION_DENIED) {
          response := Failed(403, Declined);
        } else if Is(completed.error, INVALID_REQUEST) || Is(completed.error, STATE_VALIDATION) {
          response := Failed(400, CallbackInvalid);
        } else {
          response := Failed(502, NotCompleted);
        }
        return;
      }
      response := Welcome(completed.value);
    }

    // An undisturbed login: the callback that brings back the cookie under the same name, up to outer
    // white space, gets Complete's verdict on the very session Begin issued, exactly once and only
    // before the expiry.
    method Login(name: string, again: string, behaviour: Behaviour<P>, callback: Callback, begun: int, first: int, second: int)
      returns (start: Response, answer: Response, replay: Response)
      requires store.random.Valid() && TrimSpace(name) == TrimSpace(again)
      modifies store, store.random
      ensures start.Redirect? ==>
                && Lookup(manager.View(), name).Some?
                && var provider := Lookup(manager.View(), name).value;
                   && behaviour.begin(provider).Ok?
                   && (first < start.expires ==>
                        answer == Finish(behaviour.complete(provider, callback, behaviour.begin(provider).value.session)))
                   && (first >= start.expires ==> answer == Failed(400, SessionExpired))
                   && replay == Failed(400, SessionInvalid)
    {
      start := HandleBegin(name, behaviour, begun);
      answer, replay := start, start;
      if start.Redirect? {
        var cleared;
        answer, cleared := HandleCallback(again, Some(start.cookie), callback, behaviour, first);
        replay, cleared := HandleCallback(again, Some(start.cookie), callback, behaviour, second);
      }
    }
  }

  // A callback that Complete turns away before the exchange is the client's fault, never a bad
  // gateway, and is a refusal by the user exactly when the callback reports an error.
  lemma RejectionsAreNotGatewayFailures(config: OAuth.Config, callback: Callback, session: AuthorizationSession, operation: string)
    requires OAuth.CheckCallback(config, callback, session).Rejected?
    ensures var code := OAuth.CheckCallback(config, callback, session).code;
            var response := Failure(NewError(code, config.name, operation, None));
            response == if callback.error != "" then Failed(403, Declined) else Failed(400, CallbackInvalid)
  {
  }

  // The statuses of a login that reached Complete: only a refusal by the user is forbidden, only an
  // invalid request or state is the client's fault, and everything else is the provider's.
  lemma StatusesByCategory(error: GoError, code: ErrorCode)
    requires Honest(error) && IsErrorCode(error, code) && Offered(error) <= {code}
    ensures Finish(Err(error)) ==
            if code == AUTHORIZATION_DENIED then Failed(403, Declined)
            else if code == INVALID_REQUEST || code == STATE_VALIDATION then Failed(400, CallbackInvalid)
            else Failed(502, NotCompleted)
  {
    MatchesMeansOffered(error, AUTHORIZATION_DENIED);
    MatchesMeansOffered(error, INVALID_REQUEST);
    MatchesMeansOffered(error, STATE_VALIDATION);
    if code != UNKNOWN && code in SENTINELS {
      ReportedCodeMatchesSentinel(error, code);
    }
  }

  // For any error at all: the sentinels it offers decide, a denial first.
  lemma StatusesByOffer(error: GoError, user: User)
    ensures Finish(Err(error)) ==
            if AUTHORIZATION_DENIED in Offered(error) then Failed(403, Declined)
            else if INVALID_REQUEST in Offered(error) || STATE_VALIDATION in Offered(error) then Failed(400, CallbackInvalid)
            else Failed(502, NotCompleted)
    ensures Finish(Ok(user)) == Welcome(user)
  {
    MatchesMeansOffered(error, AUTHORIZATION_DENIED);
    MatchesMeansOffered(error, INVALID_REQUEST);
    MatchesMeansOffered(error, STATE_VALIDATION);
  }

  // A session that cannot be used is a bad request, and only an expired one is called so.
  lemma RefusalsByEntry(sessions: SessionMap, id: string, name: string, now: int)
    requires Admit(Taken(sessions, id).1, name, now).Err?
    ensures Refusal(Admit(Taken(sessions, id).1, name, now).error) ==
            Failed(400, if id in sessions && sessions[id].expiresAt <= now then SessionExpired else SessionInvalid)
  {
    AdmitAnswers(sessions, id, name, now);
  }
}
