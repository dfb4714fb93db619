// The login protocol from the authorization URL to the token exchange: Login's interleavings, in which
// some of the providers are OAuth providers that draw from random sources, alone or shared. Section 4.1
// of RFC 6749 and sections 4.1 to 4.6 of RFC 7636.

module EndToEnd {
  import opened Wrappers
  import opened Text
  import opened Model
  import opened Login
  import opened UrlQuery
  import opened AuthorizationQuery
  import Base64Url
  import Issuance
  import OAuth

  // A session Begin returned, and to which begin request.
  datatype Issue = Issue(request: RequestID, provider: Instance, session: AuthorizationSession)

  // The returns of Begin in a run.
  function Issues(c: Config, s: State, actions: seq<Action>): set<Issue>
    decreases |actions|
  {
    if actions == [] then {}
    else Returned(s, actions[0]) + Issues(c, Step(c, s, actions[0]), actions[1..])
  }

  function Returned(s: State, a: Action): set<Issue> {
    if a.BeginReturns? && a.issue.Some? && a.t in s.threads && s.threads[a.t].BeginResolved? then
      {Issue(a.t, s.threads[a.t].provider, a.issue.value)}
    else {}
  }

  // Nothing else adds to the history of issued sessions.
  lemma {:induction false} IssuedWereReturned(c: Config, s: State, actions: seq<Action>, p: Instance, session: AuthorizationSession)
    requires (p, session) in Run(c, s, actions).issued && (p, session) !in s.issued
    ensures exists issue :: issue in Issues(c, s, actions) && issue.provider == p && issue.session == session
    decreases |actions|
  {
    var next := Step(c, s, actions[0]);
    if (p, session) in next.issued {
      StepIssues(c, s, actions[0], p, session);
    } else {
      IssuedWereReturned(c, next, actions[1..], p, session);
    }
  }

  lemma StepIssues(c: Config, s: State, a: Action, p: Instance, session: AuthorizationSession)
    requires (p, session) in Step(c, s, a).issued && (p, session) !in s.issued
    ensures a.BeginReturns? && Issue(a.t, p, session) in Returned(s, a)
  {
  }

  // The OAuth providers among the instances: their configurations, and the arguments and clock reading
  // of each begin request.
  datatype World = World(
    config: Instance -> OAuth.Config, request: RequestID -> OAuth.BeginRequest, now: RequestID -> int)

  // What OAuth.Provider.Begin ensures of a return. Endpoints with a number sign are the ones
  // OAuth.NumberSignLosesProtocol is about.
  ghost predicate Begun(w: World, issue: Issue) {
    var (p, t) := (issue.provider, issue.request);
    && w.config(p).Accepted() && '#' !in w.config(p).authURL && !Invalid(w.request(t).parameters)
    && OAuth.Fits(w.config(p), w.request(t), w.now(t), issue.session)
  }

  // An instance whose Begin is that of an OAuth provider, whatever the others are.
  ghost predicate IsOAuth(w: World, c: Config, actions: seq<Action>, p: Instance) {
    forall issue :: issue in Issues(c, Init(), actions) && issue.provider == p ==> Begun(w, issue)
  }

  // The query of the URL the user was sent to.
  function SentQuery(w: World, issue: Issue): Values {
    OAuth.BeginQuery(w.config(issue.provider), w.request(issue.request), issue.session)
  }

  // The state in the callback is the one in the URL, or the URL had none, and the verifier is the one
  // whose challenge was in the URL.
  ghost predicate ExchangeMatches(w: World, issue: Issue, callback: Callback, verifier: Option<string>) {
    var (config, query) := (w.config(issue.provider), SentQuery(w, issue));
    && ("state" in query ==> query["state"] == [callback.state])
    && ("state" !in query <==> w.request(issue.request).disableState)
    && (config.capabilities.pkce <==> verifier.Some?)
    && ("code_challenge" in query <==> verifier.Some?)
    && (verifier.Some? ==> query["code_challenge"] == [config.challenge(verifier.value)])
  }

  ghost predicate From(issue: Issue, call: CompleteCall) {
    issue.provider == call.provider && issue.session == call.session
  }

  lemma ExchangeMatchesIssue(w: World, issue: Issue, callback: Callback)
    requires Begun(w, issue)
    requires OAuth.CheckCallback(w.config(issue.provider), callback, issue.session).Exchanges?
    ensures ExchangeMatches(
      w, issue, callback, OAuth.CheckCallback(w.config(issue.provider), callback, issue.session).verifier)
  {
    var (config, t) := (w.config(issue.provider), issue.request);
    OAuth.RequiredParameters(config, w.request(t), w.now(t), issue.session);
    OAuth.BeginThenComplete(config, w.request(t), w.now(t), issue.session, callback);
  }

  // Whatever the interleaving and the other providers, when a callback makes an OAuth provider exchange
  // a code, Begin of that provider returned the session at hand to some begin request, and the exchange
  // matches the URL it put it in.
  lemma ExchangeMatchesURL(c: Config, actions: seq<Action>, t: RequestID, call: CompleteCall, w: World, callback: Callback)
    requires var s := Reached(c, actions);
             && IsOAuth(w, c, actions, call.provider)
             && t in s.threads && s.threads[t] == CallbackDone(CompleteCalled(call))
    requires OAuth.CheckCallback(w.config(call.provider), callback, call.session).Exchanges?
    ensures Bound(c, Reached(c, actions), call)
    ensures exists issue :: issue in Issues(c, Init(), actions) && From(issue, call)
    ensures forall issue :: issue in Issues(c, Init(), actions) && From(issue, call) ==>
              ExchangeMatches(
                w, issue, callback, OAuth.CheckCallback(w.config(call.provider), callback, call.session).verifier)
  {
    CompletedCallsAreBound(c, actions, t, call);
    IssuedWereReturned(c, Init(), actions, call.provider, call.session);
    forall issue | issue in Issues(c, Init(), actions) && From(issue, call)
      ensures ExchangeMatches(
        w, issue, callback, OAuth.CheckCallback(w.config(call.provider), callback, call.session).verifier)
    {
      ExchangeMatchesIssue(w, issue, callback);
    }
  }

  // A callback that brings any state but the one sent never reaches the exchange, even with the cookie
  // of a live session.
  lemma ForeignStateIsRejected(
      c: Config, actions: seq<Action>, t: RequestID, call: CompleteCall, w: World, callback: Callback, issue: Issue)
    requires var s := Reached(c, actions);
             && IsOAuth(w, c, actions, call.provider)
             && t in s.threads && s.threads[t] == CallbackDone(CompleteCalled(call))
    requires issue in Issues(c, Init(), actions) && From(issue, call)
    ensures var query := SentQuery(w, issue);
            "state" in query && query["state"] != [callback.state] ==>
              OAuth.CheckCallback(w.config(call.provider), callback, call.session).Rejected?
  {
    if OAuth.CheckCallback(w.config(call.provider), callback, call.session).Exchanges? {
      ExchangeMatchesURL(c, actions, t, call, w, callback);
    }
  }

  // --- the state of another login ---

  // The random source of each instance, which instances may share, with its bytes and every read of it.
  datatype Sources = Sources(source: Instance -> nat, stream: nat -> string, schedule: nat -> seq<Issuance.Action>)
  {
    function Stream(p: Instance): string {
      stream(source(p))
    }

    function Draws(p: Instance): Issuance.State {
      Issuance.Reached(Stream(p), schedule(source(p)))
    }
  }

  function StateDraw(issue: Issue): Issuance.Draw {
    Issuance.Draw(issue.provider, issue.request, Issuance.ForState)
  }

  // The session's state is the token its begin request drew.
  ghost predicate DrewState(x: Sources, issue: Issue) {
    var (s, draw) := (x.Draws(issue.provider), StateDraw(issue));
    && IsBytes(x.Stream(issue.provider)) && draw in s.drawn && IsBytes(s.drawn[draw])
    && issue.session.state == Issuance.Token(s, draw)
  }

  // The bytes behind the state, and where in the stream they came from.
  function StateBytes(x: Sources, issue: Issue): string
    requires StateDraw(issue) in x.Draws(issue.provider).drawn
  {
    x.Draws(issue.provider).drawn[StateDraw(issue)]
  }

  function StatePositions(x: Sources, issue: Issue): seq<nat> {
    Issuance.Positions(x.Draws(issue.provider).owners, StateDraw(issue))
  }

  lemma StatesAreGathered(x: Sources, issue: Issue, other: Issue)
    requires DrewState(x, issue) && DrewState(x, other) && issue.request != other.request
    ensures Issuance.GatheredAt(x.Stream(issue.provider), StateBytes(x, issue), StatePositions(x, issue))
    ensures Issuance.GatheredAt(x.Stream(other.provider), StateBytes(x, other), StatePositions(x, other))
    ensures x.source(issue.provider) == x.source(other.provider) ==>
              forall i :: i in StatePositions(x, issue) ==> i !in StatePositions(x, other)
    ensures issue.session.state == other.session.state <==> StateBytes(x, issue) == StateBytes(x, other)
  {
    var (a, b) := (issue.provider, other.provider);
    Issuance.DrawIsGathered(x.Stream(a), x.schedule(x.source(a)), StateDraw(issue));
    Issuance.DrawIsGathered(x.Stream(b), x.schedule(x.source(b)), StateDraw(other));
    if x.source(a) == x.source(b) {
      Issuance.TokensAreIndependent(x.Stream(a), x.schedule(x.source(a)), StateDraw(issue), StateDraw(other));
    }
    if issue.session.state == other.session.state {
      Base64Url.EncodeIsInjective(StateBytes(x, issue), StateBytes(x, other));
    }
  }

  // A callback that brings the state issued to another login, of the same provider or another, reaches
  // the exchange if and only if it is otherwise in order and the random source repeated itself: the 32
  // bytes behind the two states are the same, and come from different positions if the source is one.
  lemma StateOfAnotherLogin(w: World, x: Sources, callback: Callback, issue: Issue, other: Issue)
    requires OAuth.Fits(w.config(issue.provider), w.request(issue.request), w.now(issue.request), issue.session)
    requires DrewState(x, issue) && DrewState(x, other)
    requires issue.request != other.request && !w.request(issue.request).disableState
    requires callback.state == other.session.state
    ensures var (a, b) := (StateBytes(x, issue), StateBytes(x, other));
            && IsBytes(a) && issue.session.state == Base64Url.Encode(a)
            && IsBytes(b) && other.session.state == Base64Url.Encode(b)
            && Issuance.GatheredAt(x.Stream(issue.provider), a, StatePositions(x, issue))
            && Issuance.GatheredAt(x.Stream(other.provider), b, StatePositions(x, other))
            && (x.source(issue.provider) == x.source(other.provider) ==>
                 forall i :: i in StatePositions(x, issue) ==> i !in StatePositions(x, other))
            && (OAuth.CheckCallback(w.config(issue.provider), callback, issue.session).Exchanges? <==>
                 callback.error == "" && TrimSpace(callback.code) != "" && a == b)
  {
    StatesAreGathered(x, issue, other);
    OAuth.BeginThenComplete(
      w.config(issue.provider), w.request(issue.request), w.now(issue.request), issue.session, callback);
  }

  ghost predicate SameBytes(x: Sources, issue: Issue, other: Issue) {
    DrewState(x, issue) && DrewState(x, other) && StateBytes(x, issue) == StateBytes(x, other)
  }

  // Whatever begin request a session was returned to, it drew its state itself.
  ghost predicate OtherRequest(x: Sources, issues: set<Issue>, call: CompleteCall, other: Issue) {
    forall issue :: issue in issues && From(issue, call) ==> DrewState(x, issue) && issue.request != other.request
  }

  // In any run, for the session that a callback passes to Complete: whichever begin request it was
  // returned to, the state of another request gets it to the exchange only if the source repeated itself.
  lemma SessionsAreNotConfused(
      c: Config, actions: seq<Action>, t: RequestID, call: CompleteCall, w: World, x: Sources, callback: Callback, other: Issue)
    requires var s := Reached(c, actions);
             && IsOAuth(w, c, actions, call.provider)
             && t in s.threads && s.threads[t] == CallbackDone(CompleteCalled(call))
    requires !call.session.stateVerificationDisabled && callback.state == other.session.state
    requires DrewState(x, other) && OtherRequest(x, Issues(c, Init(), actions), call, other)
    requires OAuth.CheckCallback(w.config(call.provider), callback, call.session).Exchanges?
    ensures exists issue :: issue in Issues(c, Init(), actions) && From(issue, call)
    ensures forall issue :: issue in Issues(c, Init(), actions) && From(issue, call) ==> SameBytes(x, issue, other)
  {
    ExchangeMatchesURL(c, actions, t, call, w, callback);
    forall issue | issue in Issues(c, Init(), actions) && From(issue, call)
      ensures SameBytes(x, issue, other)
    {
      StateOfAnotherLogin(w, x, callback, issue, other);
    }
  }
}
