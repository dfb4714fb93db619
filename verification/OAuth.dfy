// Begin and the checks of Complete of the OAuth 2.0 provider (oauth2provider/provider.go), up to the
// token exchange. SHA-256 is a parameter; see AuthorizationQuery for the query itself.

module OAuth {
  import opened Wrappers
  import opened Text
  import opened Errors
  import opened Contexts
  import opened Model
  import opened UrlQuery
  import opened AuthorizationQuery
  import Random
  import Scopes

  datatype Capabilities = Capabilities(pkce: bool, tokenRefresh: bool)

  // What New keeps of its configuration; challenge is the S256 transformation of a verifier.
  datatype Config = Config(
    name: string, clientID: string, redirectURL: string, authURL: string, defaultScopes: seq<string>,
    capabilities: Capabilities, parameters: Values, challenge: string -> string)
  {
    // What New checks of the two layers of parameters it is given.
    ghost predicate Accepted() {
      !Invalid(ParseQuery(RawQuery(authURL))) && !Invalid(parameters)
    }

    // Go strings hold bytes.
    ghost predicate Bytes() {
      && IsBytes(clientID) && IsBytes(redirectURL) && IsBytes(authURL) && ByteValues(parameters)
      && (forall scope :: scope in defaultScopes ==> IsBytes(scope))
      && (forall verifier :: IsBytes(challenge(verifier)))
    }
  }

  datatype BeginRequest = BeginRequest(scopes: seq<string>, parameters: Values, disableState: bool)

  // An authorization URL is kept as its raw query; its scheme, host and path are the endpoint's.
  datatype Authorization = Authorization(rawQuery: string, session: AuthorizationSession)

  // oauthConfig: the request's scopes or else the defaults.
  function EffectiveScopes(config: Config, scopes: seq<string>): seq<string> {
    if scopes == [] then config.defaultScopes else scopes
  }

  function When(present: bool, value: string): Option<string> {
    if present then Some(value) else None
  }

  // The value the protocol gives a key: AuthCodeURL and S256ChallengeOption.
  function ProtocolValue(config: Config, scopes: seq<string>, session: AuthorizationSession, key: string): Option<string> {
    var effective := EffectiveScopes(config, scopes);
    if key == "response_type" then Some("code")
    else if key == "client_id" then Some(config.clientID)
    else if key == "redirect_uri" then When(config.redirectURL != "", config.redirectURL)
    else if key == "scope" then When(effective != [], Scopes.Join(effective, " "))
    else if key == "state" then When(session.state != "", session.state)
    else if key == "code_challenge" then When(config.capabilities.pkce, config.challenge(session.pkceVerifier))
    else if key == "code_challenge_method" then When(config.capabilities.pkce, "S256")
    else None
  }

  function Protocol(config: Config, scopes: seq<string>, session: AuthorizationSession): Values {
    map key | key in PROTECTED && ProtocolValue(config, scopes, session, key).Some? ::
      [ProtocolValue(config, scopes, session, key).value]
  }

  // The query Begin ends up with.
  function BeginQuery(config: Config, request: BeginRequest, session: AuthorizationSession): Values {
    var base := BaseQuery(config.authURL, Protocol(config, request.scopes, session));
    var stated := if request.disableState then base - {"state"} else base;
    Overlay(Overlay(stated, config.parameters), request.parameters)
  }

  // What every session from Begin has: a state unless the request disables it, and a verifier whenever
  // PKCE is on.
  predicate Fits(config: Config, request: BeginRequest, now: int, session: AuthorizationSession) {
    && session.stateVerificationDisabled == request.disableState && session.createdAt == now
    && (session.state != "" <==> !request.disableState)
    && (session.pkceVerifier != "" <==> config.capabilities.pkce)
  }

  // The same for a Begin that had its random source to itself: the state is the token at p, the
  // verifier the one at q. Issuance is about sources that others read, too.
  ghost predicate Drawn(
      config: Config, request: BeginRequest, now: int, session: AuthorizationSession, stream: string, p: nat, q: nat)
  {
    && IsBytes(stream)
    && session.stateVerificationDisabled == request.disableState && session.createdAt == now
    && (request.disableState ==> session.state == "")
    && (!request.disableState ==> p + Random.TOKEN_BYTES <= |stream| && session.state == Random.Token(stream, p))
    && (!config.capabilities.pkce ==> session.pkceVerifier == "")
    && (config.capabilities.pkce ==>
         q + Random.TOKEN_BYTES <= |stream| && session.pkceVerifier == Random.Token(stream, q))
  }

  function Draws(config: Config, request: BeginRequest): nat {
    (if request.disableState then 0 else Random.TOKEN_BYTES) + (if config.capabilities.pkce then Random.TOKEN_BYTES else 0)
  }

  lemma TokenIsBytes(stream: string, p: nat)
    requires IsBytes(stream) && p + Random.TOKEN_BYTES <= |stream|
    ensures IsBytes(Random.Token(stream, p)) && Random.Token(stream, p) != ""
  {
    Random.TokenShape(stream, p, p);
  }

  lemma DrawnFits(
      config: Config, request: BeginRequest, now: int, session: AuthorizationSession, stream: string, p: nat, q: nat)
    requires Drawn(config, request, now, session, stream, p, q)
    ensures Fits(config, request, now, session) && IsBytes(session.state)
  {
    if !request.disableState {
      TokenIsBytes(stream, p);
    }
    if config.capabilities.pkce {
      TokenIsBytes(stream, q);
    }
  }

  lemma {:induction false} JoinIsBytes(scopes: seq<string>)
    requires forall scope :: scope in scopes ==> IsBytes(scope)
    ensures IsBytes(Scopes.Join(scopes, " "))
  {
    if scopes != [] {
      assert IsBytes(scopes[0]);
    }
    if |scopes| > 1 {
      JoinIsBytes(scopes[1..]);
      ConcatIsBytes(" ", Scopes.Join(scopes[1..], " "));
      ConcatIsBytes(scopes[0], " " + Scopes.Join(scopes[1..], " "));
    }
  }

  lemma ConcatIsBytes(a: string, b: string)
    requires IsBytes(a) && IsBytes(b)
    ensures IsBytes(a + b)
  {}

  lemma ProtectedIsBytes(key: string)
    requires key in PROTECTED
    ensures IsBytes(key)
  {}

  lemma ProtocolValueIsBytes(config: Config, scopes: seq<string>, session: AuthorizationSession, key: string)
    requires config.Bytes() && IsBytes(session.state) && forall scope :: scope in scopes ==> IsBytes(scope)
    ensures ProtocolValue(config, scopes, session, key).Some? ==> IsBytes(ProtocolValue(config, scopes, session, key).value)
  {
    JoinIsBytes(EffectiveScopes(config, scopes));
  }

  lemma ProtocolIsBytes(config: Config, scopes: seq<string>, session: AuthorizationSession)
    requires config.Bytes() && IsBytes(session.state) && forall scope :: scope in scopes ==> IsBytes(scope)
    ensures ByteValues(Protocol(config, scopes, session))
  {
    var protocol := Protocol(config, scopes, session);
    forall key | key in protocol ensures IsBytes(key) && forall value :: value in protocol[key] ==> IsBytes(value) {
      ProtectedIsBytes(key);
      ProtocolValueIsBytes(config, scopes, session, key);
    }
  }

  // --- what the query holds ---

  predicate LowerCase(key: string) {
    forall i :: 0 <= i < |key| ==> 'a' <= key[i] <= 'z' || key[i] == '_'
  }

  lemma {:induction false} LowerCaseIsKept(key: string)
    requires LowerCase(key)
    ensures ToLower(key) == key
  {
    if key != "" {
      LowerCaseIsKept(key[1..]);
    }
  }

  lemma ProtectedIsLowerCase(key: string)
    requires key in PROTECTED
    ensures LowerCase(key)
  {}

  lemma ProtectedIsProtected(key: string)
    requires key in PROTECTED
    ensures IsProtected(key)
  {
    ProtectedIsLowerCase(key);
    LowerCaseIsKept(key);
  }

  // No layer but the protocol's names a protected key.
  lemma ProtectedIsUntouched(config: Config, request: BeginRequest, key: string)
    requires config.Accepted() && !Invalid(request.parameters) && IsProtected(key)
    ensures key !in ParseQuery(RawQuery(config.authURL)) && key !in config.parameters && key !in request.parameters
  {
    assert Offends(key);
  }

  lemma ProtectedKeyByLayers(config: Config, request: BeginRequest, session: AuthorizationSession, key: string)
    requires key !in ParseQuery(RawQuery(config.authURL)) && key !in config.parameters && key !in request.parameters
    requires request.disableState ==> session.state == ""
    ensures var q := BeginQuery(config, request, session);
            var protocol := Protocol(config, request.scopes, session);
            && ('#' !in config.authURL ==> (key in q <==> key in protocol) && (key in q ==> q[key] == protocol[key]))
            && ('#' in config.authURL ==> key !in q)
  {
    assert "state" in Protocol(config, request.scopes, session) ==> session.state != "";
  }

  lemma OtherKeyByLayers(config: Config, request: BeginRequest, session: AuthorizationSession, key: string)
    requires key !in PROTECTED
    ensures var q := BeginQuery(config, request, session);
            var layer := if key in request.parameters then request.parameters
                         else if key in config.parameters then config.parameters else ParseQuery(RawQuery(config.authURL));
            && (key in q <==> key in layer && (layer[key] != [] || (key !in request.parameters && key !in config.parameters)))
            && (key in q ==> q[key] == layer[key])
  {
    assert "state" in PROTECTED;
  }

  // The query Begin builds, key by key. A protected key, in any letter case, is there exactly as the
  // protocol set it, provided the endpoint has no number sign; any other key has the whole value list
  // of the last layer that names it: the endpoint, then the provider, then the request.
  lemma QueryByLayers(config: Config, request: BeginRequest, session: AuthorizationSession, key: string)
    requires config.Accepted() && !Invalid(request.parameters)
    requires request.disableState ==> session.state == ""
    ensures var q := BeginQuery(config, request, session);
            var protocol := Protocol(config, request.scopes, session);
            var endpoint := ParseQuery(RawQuery(config.authURL));
            && (IsProtected(key) && '#' !in config.authURL ==>
                 (key in q <==> key in protocol) && (key in q ==> q[key] == protocol[key]))
            && (IsProtected(key) && '#' in config.authURL ==> key !in q)
            && (!IsProtected(key) ==>
                 var layer := if key in request.parameters then request.parameters
                              else if key in config.parameters then config.parameters else endpoint;
                 (key in q <==> key in layer && (layer[key] != [] || (key !in request.parameters && key !in config.parameters)))
                 && (key in q ==> q[key] == layer[key]))
  {
    if IsProtected(key) {
      ProtectedIsUntouched(config, request, key);
      ProtectedKeyByLayers(config, request, session, key);
    } else {
      if key in PROTECTED {
        ProtectedIsProtected(key);
      }
      OtherKeyByLayers(config, request, session, key);
    }
  }

  // The key is there exactly under this condition, and then with this one value.
  predicate Sends(query: Values, key: string, present: bool, value: string) {
    (key in query <==> present) && (present ==> query[key] == [value])
  }

  // Section 4.1.1 of RFC 6749 and section 4.3 of RFC 7636: what a query for this configuration, request
  // and session sends. A query from an endpoint without a number sign sends this and no other protected
  // key.
  ghost predicate SendsProtocol(config: Config, request: BeginRequest, session: AuthorizationSession, query: Values) {
    var scopes := if |request.scopes| > 0 then request.scopes else config.defaultScopes;
    && Sends(query, "response_type", true, "code")
    && Sends(query, "client_id", true, config.clientID)
    && Sends(query, "redirect_uri", config.redirectURL != "", config.redirectURL)
    && Sends(query, "scope", |scopes| > 0, Scopes.Join(scopes, " "))
    && Sends(query, "state", !request.disableState, session.state)
    && Sends(query, "code_challenge", config.capabilities.pkce, config.challenge(session.pkceVerifier))
    && Sends(query, "code_challenge_method", config.capabilities.pkce, "S256")
    && forall key :: key in query && IsProtected(key) ==>
         key in {"response_type", "client_id", "redirect_uri", "scope", "state", "code_challenge", "code_challenge_method"}
  }

  lemma RequiredParameters(config: Config, request: BeginRequest, now: int, session: AuthorizationSession)
    requires config.Accepted() && !Invalid(request.parameters) && '#' !in config.authURL
    requires Fits(config, request, now, session)
    ensures SendsProtocol(config, request, session, BeginQuery(config, request, session))
  {
    CodeParameters(config, request, session);
    SessionParameters(config, request, now, session);
    var query := BeginQuery(config, request, session);
    forall key | key in query && IsProtected(key)
      ensures key in {"response_type", "client_id", "redirect_uri", "scope", "state", "code_challenge", "code_challenge_method"}
    {
      QueryByLayers(config, request, session, key);
    }
  }

  lemma CodeParameters(config: Config, request: BeginRequest, session: AuthorizationSession)
    requires config.Accepted() && !Invalid(request.parameters) && '#' !in config.authURL
    requires request.disableState ==> session.state == ""
    ensures var query := BeginQuery(config, request, session);
            var scopes := if |request.scopes| > 0 then request.scopes else config.defaultScopes;
            && Sends(query, "response_type", true, "code")
            && Sends(query, "client_id", true, config.clientID)
            && Sends(query, "redirect_uri", config.redirectURL != "", config.redirectURL)
            && Sends(query, "scope", |scopes| > 0, Scopes.Join(scopes, " "))
  {
    KeyByLayers(config, request, session, "response_type");
    KeyByLayers(config, request, session, "client_id");
    KeyByLayers(config, request, session, "redirect_uri");
    KeyByLayers(config, request, session, "scope");
  }

  lemma SessionParameters(config: Config, request: BeginRequest, now: int, session: AuthorizationSession)
    requires config.Accepted() && !Invalid(request.parameters) && '#' !in config.authURL
    requires Fits(config, request, now, session)
    ensures var query := BeginQuery(config, request, session);
            && Sends(query, "state", !request.disableState, session.state)
            && Sends(query, "code_challenge", config.capabilities.pkce, config.challenge(session.pkceVerifier))
            && Sends(query, "code_challenge_method", config.capabilities.pkce, "S256")
  {
    KeyByLayers(config, request, session, "state");
    KeyByLayers(config, request, session, "code_challenge");
    KeyByLayers(config, request, session, "code_challenge_method");
  }

  lemma KeyByLayers(config: Config, request: BeginRequest, session: AuthorizationSession, key: string)
    requires config.Accepted() && !Invalid(request.parameters) && '#' !in config.authURL && key in PROTECTED
    requires request.disableState ==> session.state == ""
    ensures var q := BeginQuery(config, request, session);
            var value := ProtocolValue(config, request.scopes, session, key);
            (key in q <==> value.Some?) && (key in q ==> q[key] == [value.value])
  {
    ProtectedIsProtected(key);
    QueryByLayers(config, request, session, key);
  }

  // New accepts such endpoints, since it looks for parameters before the number sign only:
  // "https://host/authorize#x" for one.
  lemma NumberSignIsAccepted(config: Config, base: string, fragment: string)
    requires config.authURL == base + (['#'] + fragment) && '?' !in base && '#' !in base && config.parameters == map[]
    ensures config.Accepted() && '#' in config.authURL
  {
    CutFirst(base, '#', fragment);
    CutNone(base, '?');
    assert config.authURL[|base|] == '#';
    assert PairsOf("") == [];
  }

  lemma NumberSignExample(config: Config)
    requires config.authURL == "https://host/authorize#x" && config.parameters == map[]
    ensures config.Accepted() && '#' in config.authURL
  {
    assert config.authURL == "https://host/authorize" + (['#'] + "x");
    NumberSignIsAccepted(config, "https://host/authorize", "x");
  }

  // An endpoint with a number sign gets past New, and its authorization URLs lack the protocol's
  // parameters: they are in the query exactly when there is no number sign.
  lemma NumberSignLosesProtocol(config: Config, request: BeginRequest, session: AuthorizationSession)
    requires config.Accepted() && !Invalid(request.parameters)
    requires request.disableState ==> session.state == ""
    ensures "client_id" in BeginQuery(config, request, session) <==> '#' !in config.authURL
    ensures '#' in config.authURL ==> BeginQuery(config, request, session).Keys !! PROTECTED
  {
    forall key | key in PROTECTED && '#' in config.authURL ensures key !in BeginQuery(config, request, session) {
      ProtectedIsProtected(key);
      QueryByLayers(config, request, session, key);
    }
    if '#' !in config.authURL {
      KeyByLayers(config, request, session, "client_id");
    }
  }

  // Reading the URL back gives the query that was built: nothing is lost or confused by its encoding.
  lemma QueryReadsBack(config: Config, request: BeginRequest, session: AuthorizationSession, rawQuery: string)
    requires config.Bytes() && IsBytes(session.state) && ByteValues(request.parameters)
    requires forall scope :: scope in request.scopes ==> IsBytes(scope)
    requires Encodes(rawQuery, BeginQuery(config, request, session))
    ensures ParseQuery(rawQuery) == BeginQuery(config, request, session)
  {
    var protocol := Protocol(config, request.scopes, session);
    ProtocolIsBytes(config, request.scopes, session);
    var base := BaseQuery(config.authURL, protocol);
    BaseIsProper(config.authURL, protocol);
    var stated := if request.disableState then base - {"state"} else base;
    OverlayIsProper(stated, config.parameters);
    OverlayIsProper(Overlay(stated, config.parameters), request.parameters);
    ParseOfEncoded(rawQuery, BeginQuery(config, request, session));
  }

  // The URL of Begin, read back.
  lemma SentQueryReadsBack(config: Config, request: BeginRequest, now: int, session: AuthorizationSession, rawQuery: string)
    requires config.Accepted() && !Invalid(request.parameters) && '#' !in config.authURL
    requires Fits(config, request, now, session)
    requires config.Bytes() && IsBytes(session.state) && ByteValues(request.parameters)
    requires forall scope :: scope in request.scopes ==> IsBytes(scope)
    requires Encodes(rawQuery, BeginQuery(config, request, session))
    ensures SendsProtocol(config, request, session, ParseQuery(rawQuery))
  {
    QueryReadsBack(config, request, session, rawQuery);
    RequiredParameters(config, request, now, session);
  }

  lemma BaseIsProper(authURL: string, protocol: Values)
    requires IsBytes(authURL) && ByteValues(protocol) && Named(protocol) == protocol
    ensures ByteValues(BaseQuery(authURL, protocol)) && Named(BaseQuery(authURL, protocol)) == BaseQuery(authURL, protocol)
  {
    CutIsBytes(authURL, '#');
    CutIsBytes(Before(authURL, '#'), '?');
    ParseIsProper(RawQuery(authURL));
    MergeIsProper(ParseQuery(RawQuery(authURL)), protocol);
  }

  lemma MergeIsProper(a: Values, b: Values)
    requires ByteValues(a) && ByteValues(b) && Named(a) == a && Named(b) == b
    ensures ByteValues(Merge(a, b)) && Named(Merge(a, b)) == Merge(a, b)
  {}

  lemma OverlayIsProper(query: Values, parameters: Values)
    requires ByteValues(query) && ByteValues(parameters) && Named(query) == query
    ensures ByteValues(Overlay(query, parameters)) && Named(Overlay(query, parameters)) == Overlay(query, parameters)
  {}

  // --- what Complete checks before it exchanges the code ---

  // validState, whose comparison takes constant time.
  predicate ValidState(expected: string, received: string) {
    expected != "" && received != "" && expected == received
  }

  // Either the error code Complete answers with, or the verifier it sends with the code.
  datatype Check = Rejected(code: ErrorCode) | Exchanges(verifier: Option<string>)

  function CheckCallback(config: Config, callback: Callback, session: AuthorizationSession): Check {
    if callback.error != "" then Rejected(AUTHORIZATION_DENIED)
    else if TrimSpace(callback.code) == "" then Rejected(INVALID_REQUEST)
    else if !session.stateVerificationDisabled && !ValidState(session.state, callback.state) then Rejected(STATE_VALIDATION)
    else if config.capabilities.pkce && session.pkceVerifier == "" then Rejected(INVALID_REQUEST)
    else Exchanges(if config.capabilities.pkce then Some(session.pkceVerifier) else None)
  }

  // A session from Begin reaches the exchange of the same provider exactly when the callback reports
  // no error, has a nonblank code and, unless it is disabled, echoes the state; the verifier sent is
  // then the one whose challenge was in the URL (sections 4.1 to 4.6 of RFC 7636).
  lemma BeginThenComplete(
      config: Config, request: BeginRequest, now: int, session: AuthorizationSession, callback: Callback)
    requires Fits(config, request, now, session)
    ensures var check := CheckCallback(config, callback, session);
            && (check.Exchanges? <==>
                 callback.error == "" && TrimSpace(callback.code) != ""
                 && (request.disableState || callback.state == session.state))
            && (check.Exchanges? && config.capabilities.pkce ==> check.verifier == Some(session.pkceVerifier))
            && (check.Exchanges? && !config.capabilities.pkce ==> check.verifier == None)
            && (config.Accepted() && !Invalid(request.parameters) && '#' !in config.authURL
                && check.Exchanges? && config.capabilities.pkce ==>
                 var query := BeginQuery(config, request, session);
                 "code_challenge" in query && query["code_challenge"] == [config.challenge(check.verifier.value)])
  {
    if config.Accepted() && !Invalid(request.parameters) && '#' !in config.authURL {
      RequiredParameters(config, request, now, session);
    }
  }

  class Provider {
    const config: Config
    const random: Random.Reader

    constructor (config: Config, random: Random.Reader)
      ensures this.config == config && this.random == random
    {
      this.config, this.random := config, random;
    }

    // The state and the verifier, as the request and the capabilities ask for them.
    method DrawSession(request: BeginRequest, now: int) returns (result: Result<AuthorizationSession, GoError>)
      requires random.Valid()
      modifies random
      ensures random.Valid()
      ensures result.Ok? ==>
                && Drawn(config, request, now, result.value, random.stream, old(random.position),
                         old(random.position) + if request.disableState then 0 else Random.TOKEN_BYTES)
                && random.position == old(random.position) + Draws(config, request)
      ensures result.Err? ==>
                && old(random.position) <= random.position <= old(random.position) + Draws(config, request)
                && !old(random.Healthy(Draws(config, request)))
                && result.error in {NewError(INVALID_CONFIGURATION, config.name, "generate authorization state", None),
                                    NewError(INVALID_CONFIGURATION, config.name, "generate PKCE verifier", None)}
    {
      var session := AuthorizationSession("", "", request.disableState, now);
      if !request.disableState {
        var state := random.ReadToken();
        if state.None? {
          return Err(NewError(INVALID_CONFIGURATION, config.name, "generate authorization state", None));
        }
        session := session.(state := state.value);
      }
      if config.capabilities.pkce {
        var verifier := random.ReadToken();
        if verifier.None? {
          return Err(NewError(INVALID_CONFIGURATION, config.name, "generate PKCE verifier", None));
        }
        session := session.(pkceVerifier := verifier.value);
      }
      result := Ok(session);
    }

    // Begin, with the reading of the clock. A session is never handed out with a missing value: the
    // state is a fresh token unless the request disables it, the verifier one whenever PKCE is on.
    method Begin(ctx: Context, request: BeginRequest, now: int) returns (result: Result<Authorization, GoError>)
      requires random.Valid() && config.Bytes() && forall scope :: scope in request.scopes ==> IsBytes(scope)
      modifies ctx`observations, random
      ensures random.Valid()
      ensures ctx.Cancelled(old(ctx.observations)) ==>
                && result == Err(NewError(TRANSPORT, config.name, "begin authorization", Some(ctx.cause)))
                && random.position == old(random.position)
      ensures !ctx.Cancelled(old(ctx.observations)) && Invalid(request.parameters) ==>
                && result == Err(NewError(INVALID_REQUEST, config.name, "begin authorization", None))
                && random.position == old(random.position)
      ensures result.Ok? ==>
                && !ctx.Cancelled(old(ctx.observations)) && !Invalid(request.parameters)
                && Fits(config, request, now, result.value.session)
                && Drawn(config, request, now, result.value.session, random.stream, old(random.position),
                         old(random.position) + if request.disableState then 0 else Random.TOKEN_BYTES)
                && random.position == old(random.position) + Draws(config, request)
                && Encodes(result.value.rawQuery, BeginQuery(config, request, result.value.session))
      ensures result.Ok? && config.Accepted() && '#' !in config.authURL && ByteValues(request.parameters) ==>
                SendsProtocol(config, request, result.value.session, ParseQuery(result.value.rawQuery))
      ensures result.Err? ==> old(random.position) <= random.position <= old(random.position) + Draws(config, request)
      ensures result.Err? && !ctx.Cancelled(old(ctx.observations)) && !Invalid(request.parameters) ==>
                && !old(random.Healthy(Draws(config, request)))
                && result.error in {NewError(INVALID_CONFIGURATION, config.name, "generate authorization state", None),
                                    NewError(INVALID_CONFIGURATION, config.name, "generate PKCE verifier", None)}
    {
      var ctxErr := ctx.Err();
      if ctxErr.Some? {
        return Err(NewError(TRANSPORT, config.name, "begin authorization", ctxErr));
      }
      var invalid := InvalidAuthorizationParameters(request.parameters);
      if invalid {
        return Err(NewError(INVALID_REQUEST, config.name, "begin authorization", None));
      }
      var session := DrawSession(request, now);
      if session.Err? {
        return Err(session.error);
      }
      DrawnFits(config, request, now, session.value, random.stream, old(random.position),
                old(random.position) + if request.disableState then 0 else Random.TOKEN_BYTES);
      var rawQuery := BuildQuery(request, session.value);
      if config.Accepted() && '#' !in config.authURL && ByteValues(request.parameters) {
        SentQueryReadsBack(config, request, now, session.value, rawQuery);
      }
      result := Ok(Authorization(rawQuery, session.value));
    }

    // The second half of Begin: from the parameters to the query of the URL.
    method BuildQuery(request: BeginRequest, session: AuthorizationSession) returns (rawQuery: string)
      requires config.Bytes() && IsBytes(session.state) && forall scope :: scope in request.scopes ==> IsBytes(scope)
      ensures Encodes(rawQuery, BeginQuery(config, request, session))
    {
      var protocol := Protocol(config, request.scopes, session);
      ProtocolIsBytes(config, request.scopes, session);
      var text := Encode(protocol);
      assert Named(protocol) == protocol;
      QueryOfAuthCodeURL(config.authURL, text, protocol);
      var query := new Query(ParseQuery(RawQuery(AuthCodeURL(config.authURL, text))));
      if request.disableState {
        query.Del("state");
      }
      query.Apply(config.parameters);
      query.Apply(request.parameters);
      rawQuery := Encode(query.values);
    }
  }
}
