// Runs of the fake provider against callers that may write, between any two calls, to everything they
// ever passed in or got back.

module FakeProviderRuns {
  import opened Wrappers
  import opened Errors
  import opened Cloning
  import opened FakeProvider

  // A call in values: its arguments as they stood when it was made, and its result as it stood when it
  // returned.
  datatype Event =
    | Began(request: RequestValue, authorized: Outcome<Authorization>)
    | Completed(callback: CompleteRequest, completed: Outcome<UserValue>)
    | UserLoaded(accessToken: string, loaded: Outcome<UserValue>)
    | Refreshed(refreshToken: string, refreshed: Outcome<TokenValue>)
    | BeginConfigured(authorization: Outcome<Authorization>)
    | CompleteConfigured(user: Outcome<UserValue>)
    | UserConfigured(user: Outcome<UserValue>)
    | RefreshConfigured(token: Outcome<TokenValue>)
    | BeginCallsRead(begins: seq<RequestValue>)
    | CompleteCallsRead(completes: seq<CompleteRequest>)
    | UserCallsRead(tokens: seq<string>)
    | RefreshCallsRead(tokens: seq<string>)
    | CallsCounted(counts: CallCounts)
    | CallsReset

  function Next(s: Snapshot, e: Event): Snapshot {
    match e
    case Began(request, _) => s.(begins := s.begins + [request])
    case Completed(request, _) => s.(completes := s.completes + [request])
    case UserLoaded(token, _) => s.(users := s.users + [token])
    case Refreshed(token, _) => s.(refreshes := s.refreshes + [token])
    case BeginConfigured(outcome) => s.(begin := outcome)
    case CompleteConfigured(outcome) => s.(complete := outcome)
    case UserConfigured(outcome) => s.(user := outcome)
    case RefreshConfigured(outcome) => s.(refresh := outcome)
    case CallsReset => s.(begins := [], completes := [], users := [], refreshes := [])
    case _ => s
  }

  // The result is what the provider held.
  predicate Faithful(s: Snapshot, e: Event) {
    match e
    case Began(_, outcome) => outcome == s.begin
    case Completed(_, outcome) => outcome == s.complete
    case UserLoaded(_, outcome) => outcome == s.user
    case Refreshed(_, outcome) => outcome == s.refresh
    case BeginCallsRead(begins) => begins == s.begins
    case CompleteCallsRead(completes) => completes == s.completes
    case UserCallsRead(tokens) => tokens == s.users
    case RefreshCallsRead(tokens) => tokens == s.refreshes
    case CallsCounted(counts) => counts == Counts(|s.begins|, |s.completes|, |s.users|, |s.refreshes|)
    case _ => true
  }

  function After(s: Snapshot, events: seq<Event>): Snapshot {
    if events == [] then s else Next(After(s, events[..|events| - 1]), events[|events| - 1])
  }

  ghost predicate AllFaithful(s: Snapshot, events: seq<Event>) {
    forall i :: 0 <= i < |events| ==> Faithful(After(s, events[..i]), events[i])
  }

  ghost function View(p: Provider): Snapshot
    reads p
  {
    Snapshot(
      p.Name(), Outcome(p.authorization, p.beginError), Outcome(p.completed.value, p.completeError),
      Outcome(p.byToken.value, p.userError), Outcome(p.refreshed.value, p.refreshError),
      p.log.value, p.completeCalls, p.userCalls, p.refreshCalls)
  }

  // --- callers ---

  // A call, or a read of the logs. The requests and results passed in are the caller's to choose.
  datatype Operation =
    | Begin
    | Complete(request: CompleteRequest)
    | User(accessToken: string)
    | Refresh(refreshToken: string)
    | ConfigureBegin(authorization: Outcome<Authorization>)
    | ConfigureComplete(error: Option<GoError>)
    | ConfigureUser(error: Option<GoError>)
    | ConfigureRefresh(error: Option<GoError>)
    | BeginCalls
    | CompleteCalls
    | UserCalls
    | RefreshCalls
    | CallCounts
    | ResetCalls

  // What a caller passes to its next call.
  datatype Arguments = Arguments(request: BeginRequest, user: Cloning.User, token: Token)

  datatype ArgumentValues = ArgumentValues(request: RequestValue, user: UserValue, token: TokenValue)

  ghost predicate ArgumentsHold(a: Arguments, cells: set<object>, values: ArgumentValues)
    reads cells
  {
    RequestHolds(a.request, cells, values.request) && UserHolds(a.user, cells, values.user)
    && TokenHolds(a.token, cells, values.token)
  }

  // The event is the operation's, with the arguments as they stood.
  ghost predicate Records(operation: Operation, values: ArgumentValues, event: Event) {
    match operation
    case Begin => event.Began? && event.request == values.request
    case Complete(request) => event.Completed? && event.callback == request
    case User(accessToken) => event.UserLoaded? && event.accessToken == accessToken
    case Refresh(refreshToken) => event.Refreshed? && event.refreshToken == refreshToken
    case ConfigureBegin(authorization) => event == BeginConfigured(authorization)
    case ConfigureComplete(error) => event == CompleteConfigured(Outcome(values.user, error))
    case ConfigureUser(error) => event == UserConfigured(Outcome(values.user, error))
    case ConfigureRefresh(error) => event == RefreshConfigured(Outcome(values.token, error))
    case BeginCalls => event.BeginCallsRead?
    case CompleteCalls => event.CompleteCallsRead?
    case UserCalls => event.UserCallsRead?
    case RefreshCalls => event.RefreshCallsRead?
    case CallCounts => event.CallsCounted?
    case ResetCalls => event == CallsReset
  }

  // A caller between two calls. Only its contract is known of it: it may write anything to the cells
  // it can reach, allocate others, and choose arguments made of them. The body is one such caller.
  method Meddle(ghost reachable: set<object>)
    returns (arguments: Arguments, ghost values: ArgumentValues, ghost extended: set<object>)
    modifies reachable
    ensures reachable <= extended && fresh(extended - reachable)
    ensures ArgumentsHold(arguments, extended, values)
  {
    var token := Token([], 0, null, null);
    arguments := Arguments(BeginRequest(null, null, false), Cloning.User([], token, null), token);
    ghost var nothing := TokenValue([], 0, None, None);
    values := ArgumentValues(RequestValue(None, None, false), UserValue([], nothing, None), nothing);
    extended := reachable;
  }

  // --- what a caller is handed ---

  datatype Returned =
    | Nothing
    | AnAuthorization(authorized: Outcome<Authorization>)
    | AUser(user: Cloning.User, error: Option<GoError>)
    | AToken(token: Token, error: Option<GoError>)
    | Requests(requests: array<BeginRequest>)
    | Callbacks(callbacks: array?<CompleteRequest>)
    | Tokens(tokens: array?<string>)
    | SomeCounts(counts: CallCounts)

  // A slice made by append(nil, log...).
  ghost predicate CopyHolds<T>(s: array?<T>, cells: set<object>, log: seq<T>)
    reads cells
  {
    if log == [] then s == null else SliceHolds(s, cells, Some(log))
  }

  // The objects handed over, made of these cells, hold the event's result as it stands.
  ghost predicate Shows(r: Returned, cells: set<object>, e: Event)
    reads cells
  {
    match e
    case Began(_, outcome) => r == AnAuthorization(outcome)
    case Completed(_, outcome) => r.AUser? && UserHolds(r.user, cells, outcome.result) && r.error == outcome.error
    case UserLoaded(_, outcome) => r.AUser? && UserHolds(r.user, cells, outcome.result) && r.error == outcome.error
    case Refreshed(_, outcome) => r.AToken? && TokenHolds(r.token, cells, outcome.result) && r.error == outcome.error
    case BeginCallsRead(begins) => r.Requests? && r.requests in cells && LogHolds(r.requests[..], cells, begins)
    case CompleteCallsRead(completes) => r.Callbacks? && CopyHolds(r.callbacks, cells, completes)
    case UserCallsRead(tokens) => r.Tokens? && CopyHolds(r.tokens, cells, tokens)
    case RefreshCallsRead(tokens) => r.Tokens? && CopyHolds(r.tokens, cells, tokens)
    case CallsCounted(counts) => r == SomeCounts(counts)
    case _ => r == Nothing
  }

  // --- each call, as its event ---

  method CallBegin(p: Provider, request: BeginRequest, ghost reachable: set<object>, ghost value: RequestValue)
    returns (ghost event: Event, returned: Returned)
    requires p.Valid() && RequestHolds(request, reachable, value)
    modifies p
    ensures p.Valid() && fresh(p.Reach() - old(p.Reach()))
    ensures View(p) == Next(old(View(p)), event) && Faithful(old(View(p)), event)
    ensures Shows(returned, {}, event) && event.Began? && event.request == value
  {
    var authorization, error := p.Begin(request, reachable, value);
    returned := AnAuthorization(Outcome(authorization, error));
    event := Began(value, Outcome(authorization, error));
  }

  method CallComplete(p: Provider, request: CompleteRequest) returns (ghost event: Event, returned: Returned, ghost got: set<object>)
    requires p.Valid()
    modifies p
    ensures p.Valid() && p.Reach() == old(p.Reach()) && fresh(got)
    ensures View(p) == Next(old(View(p)), event) && Faithful(old(View(p)), event)
    ensures Shows(returned, got, event) && event.Completed? && event.callback == request
  {
    var result, error;
    result, error, got := p.Complete(request);
    returned := AUser(result, error);
    event := Completed(request, Outcome(p.completed.value, error));
  }

  method CallUser(p: Provider, accessToken: string) returns (ghost event: Event, returned: Returned, ghost got: set<object>)
    requires p.Valid()
    modifies p
    ensures p.Valid() && p.Reach() == old(p.Reach()) && fresh(got)
    ensures View(p) == Next(old(View(p)), event) && Faithful(old(View(p)), event)
    ensures Shows(returned, got, event) && event.UserLoaded? && event.accessToken == accessToken
  {
    var result, error;
    result, error, got := p.User(accessToken);
    returned := AUser(result, error);
    event := UserLoaded(accessToken, Outcome(p.byToken.value, error));
  }

  method CallRefresh(p: Provider, refreshToken: string) returns (ghost event: Event, returned: Returned, ghost got: set<object>)
    requires p.Valid()
    modifies p
    ensures p.Valid() && p.Reach() == old(p.Reach()) && fresh(got)
    ensures View(p) == Next(old(View(p)), event) && Faithful(old(View(p)), event)
    ensures Shows(returned, got, event) && event.Refreshed? && event.refreshToken == refreshToken
  {
    var result, error;
    result, error, got := p.Refresh(refreshToken);
    returned := AToken(result, error);
    event := Refreshed(refreshToken, Outcome(p.refreshed.value, error));
  }

  method CallConfigureBegin(p: Provider, authorization: Outcome<Authorization>) returns (ghost event: Event)
    requires p.Valid()
    modifies p
    ensures p.Valid() && p.Reach() <= old(p.Reach())
    ensures View(p) == Next(old(View(p)), event) && Faithful(old(View(p)), event)
    ensures event == BeginConfigured(authorization)
  {
    p.ConfigureBegin(authorization.result, authorization.error);
    event := BeginConfigured(authorization);
  }

  method CallConfigureComplete(
      p: Provider, user: Cloning.User, error: Option<GoError>, ghost reachable: set<object>, ghost value: UserValue)
    returns (ghost event: Event)
    requires p.Valid() && UserHolds(user, reachable, value)
    modifies p
    ensures p.Valid() && fresh(p.Reach() - old(p.Reach()))
    ensures View(p) == Next(old(View(p)), event) && Faithful(old(View(p)), event)
    ensures event == CompleteConfigured(Outcome(value, error))
  {
    p.ConfigureComplete(user, error, reachable, value);
    event := CompleteConfigured(Outcome(value, error));
  }

  method CallConfigureUser(
      p: Provider, user: Cloning.User, error: Option<GoError>, ghost reachable: set<object>, ghost value: UserValue)
    returns (ghost event: Event)
    requires p.Valid() && UserHolds(user, reachable, value)
    modifies p
    ensures p.Valid() && fresh(p.Reach() - old(p.Reach()))
    ensures View(p) == Next(old(View(p)), event) && Faithful(old(View(p)), event)
    ensures event == UserConfigured(Outcome(value, error))
  {
    p.ConfigureUser(user, error, reachable, value);
    event := UserConfigured(Outcome(value, error));
  }

  method CallConfigureRefresh(
      p: Provider, token: Token, error: Option<GoError>, ghost reachable: set<object>, ghost value: TokenValue)
    returns (ghost event: Event)
    requires p.Valid() && TokenHolds(token, reachable, value)
    modifies p
    ensures p.Valid() && fresh(p.Reach() - old(p.Reach()))
    ensures View(p) == Next(old(View(p)), event) && Faithful(old(View(p)), event)
    ensures event == RefreshConfigured(Outcome(value, error))
  {
    p.ConfigureRefresh(token, error, reachable, value);
    event := RefreshConfigured(Outcome(value, error));
  }

  method CallBeginCalls(p: Provider) returns (ghost event: Event, returned: Returned, ghost got: set<object>)
    requires p.Valid()
    ensures p.Valid() && fresh(got)
    ensures View(p) == Next(View(p), event) && Faithful(View(p), event)
    ensures Shows(returned, got, event) && event.BeginCallsRead?
  {
    var calls;
    calls, got := p.BeginCalls();
    LogWidens(calls[..], got, p.log.value, got + {calls});
    returned, got := Requests(calls), got + {calls};
    event := BeginCallsRead(p.log.value);
  }

  method CallCompleteCalls(p: Provider) returns (ghost event: Event, returned: Returned, ghost got: set<object>)
    requires p.Valid()
    ensures p.Valid() && fresh(got)
    ensures View(p) == Next(View(p), event) && Faithful(View(p), event)
    ensures Shows(returned, got, event) && event.CompleteCallsRead?
  {
    var calls := p.CompleteCalls();
    returned := Callbacks(calls);
    event := CompleteCallsRead(p.completeCalls);
    got := if calls == null then {} else {calls};
  }

  method CallUserCalls(p: Provider) returns (ghost event: Event, returned: Returned, ghost got: set<object>)
    requires p.Valid()
    ensures p.Valid() && fresh(got)
    ensures View(p) == Next(View(p), event) && Faithful(View(p), event)
    ensures Shows(returned, got, event) && event.UserCallsRead?
  {
    var calls := p.UserCalls();
    returned := Tokens(calls);
    event := UserCallsRead(p.userCalls);
    got := if calls == null then {} else {calls};
  }

  method CallRefreshCalls(p: Provider) returns (ghost event: Event, returned: Returned, ghost got: set<object>)
    requires p.Valid()
    ensures p.Valid() && fresh(got)
    ensures View(p) == Next(View(p), event) && Faithful(View(p), event)
    ensures Shows(returned, got, event) && event.RefreshCallsRead?
  {
    var calls := p.RefreshCalls();
    returned := Tokens(calls);
    event := RefreshCallsRead(p.refreshCalls);
    got := if calls == null then {} else {calls};
  }

  method CallCallCounts(p: Provider) returns (ghost event: Event, returned: Returned)
    requires p.Valid()
    ensures View(p) == Next(View(p), event) && Faithful(View(p), event)
    ensures Shows(returned, {}, event) && event.CallsCounted?
    ensures returned == SomeCounts(Counts(|p.log.value|, |p.completeCalls|, |p.userCalls|, |p.refreshCalls|))
  {
    var counts := p.CallCounts();
    returned := SomeCounts(counts);
    event := CallsCounted(counts);
  }

  method CallResetCalls(p: Provider) returns (ghost event: Event)
    requires p.Valid()
    modifies p
    ensures p.Valid() && p.Reach() <= old(p.Reach())
    ensures View(p) == Next(old(View(p)), event) && Faithful(old(View(p)), event)
    ensures event == CallsReset
  {
    p.ResetCalls();
    event := CallsReset;
  }

  // --- one operation, and runs ---

  // The calls that neither take nor keep an object of the caller's.
  predicate IsQuery(operation: Operation) {
    operation.Complete? || operation.User? || operation.Refresh? || IsRead(operation)
  }

  predicate IsRead(operation: Operation) {
    operation.BeginCalls? || operation.CompleteCalls? || operation.UserCalls? || operation.RefreshCalls? || operation.CallCounts?
  }

  method Configure(p: Provider, operation: Operation, a: Arguments, ghost reachable: set<object>, ghost values: ArgumentValues)
    returns (ghost event: Event, returned: Returned)
    requires p.Valid() && ArgumentsHold(a, reachable, values) && !IsQuery(operation)
    modifies p
    ensures p.Valid() && fresh(p.Reach() - old(p.Reach()))
    ensures View(p) == Next(old(View(p)), event) && Faithful(old(View(p)), event)
    ensures Records(operation, values, event) && Shows(returned, {}, event)
  {
    returned := Nothing;
    match operation
    case Begin => event, returned := CallBegin(p, a.request, reachable, values.request);
    case ConfigureBegin(authorization) => event := CallConfigureBegin(p, authorization);
    case ConfigureComplete(error) => event := CallConfigureComplete(p, a.user, error, reachable, values.user);
    case ConfigureUser(error) => event := CallConfigureUser(p, a.user, error, reachable, values.user);
    case ConfigureRefresh(error) => event := CallConfigureRefresh(p, a.token, error, reachable, values.token);
    case ResetCalls => event := CallResetCalls(p);
  }

  method Read(p: Provider, operation: Operation, ghost values: ArgumentValues)
    returns (ghost event: Event, returned: Returned, ghost got: set<object>)
    requires p.Valid() && IsRead(operation)
    ensures p.Valid() && fresh(got)
    ensures View(p) == Next(View(p), event) && Faithful(View(p), event)
    ensures Records(operation, values, event) && Shows(returned, got, event)
  {
    got := {};
    match operation
    case BeginCalls => event, returned, got := CallBeginCalls(p);
    case CompleteCalls => event, returned, got := CallCompleteCalls(p);
    case UserCalls => event, returned, got := CallUserCalls(p);
    case RefreshCalls => event, returned, got := CallRefreshCalls(p);
    case CallCounts => event, returned := CallCallCounts(p);
  }

  method Query(p: Provider, operation: Operation, ghost values: ArgumentValues)
    returns (ghost event: Event, returned: Returned, ghost got: set<object>)
    requires p.Valid() && IsQuery(operation)
    modifies p
    ensures p.Valid() && p.Reach() == old(p.Reach()) && fresh(got)
    ensures View(p) == Next(old(View(p)), event) && Faithful(old(View(p)), event)
    ensures Records(operation, values, event) && Shows(returned, got, event)
  {
    match operation
    case Complete(request) => event, returned, got := CallComplete(p, request);
    case User(accessToken) => event, returned, got := CallUser(p, accessToken);
    case Refresh(refreshToken) => event, returned, got := CallRefresh(p, refreshToken);
    case _ => event, returned, got := Read(p, operation, values);
  }

  method MeddleBeside(p: Provider, ghost reachable: set<object>)
    returns (arguments: Arguments, ghost values: ArgumentValues, ghost extended: set<object>)
    requires p.Valid() && reachable !! p.Reach()
    modifies reachable
    ensures reachable <= extended && fresh(extended - reachable)
    ensures ArgumentsHold(arguments, extended, values)
    ensures p.Valid() && View(p) == old(View(p)) && p.Reach() == old(p.Reach())
  {
    arguments, values, extended := Meddle(reachable);
  }

  // What the caller can reach afterwards still misses the provider's cells.
  method ConfigureBeside(
      p: Provider, operation: Operation, a: Arguments, ghost reachable: set<object>, ghost values: ArgumentValues)
    returns (ghost event: Event, returned: Returned)
    requires p.Valid() && ArgumentsHold(a, reachable, values) && reachable !! p.Reach() && !IsQuery(operation)
    modifies p
    ensures p.Valid() && reachable !! p.Reach()
    ensures View(p) == Next(old(View(p)), event) && Faithful(old(View(p)), event)
    ensures Records(operation, values, event) && Shows(returned, {}, event)
  {
    event, returned := Configure(p, operation, a, reachable, values);
  }

  method QueryBeside(p: Provider, operation: Operation, ghost reachable: set<object>, ghost values: ArgumentValues)
    returns (ghost event: Event, returned: Returned, ghost got: set<object>)
    requires p.Valid() && reachable !! p.Reach() && IsQuery(operation)
    modifies p
    ensures p.Valid() && reachable + got !! p.Reach() && fresh(got)
    ensures View(p) == Next(old(View(p)), event) && Faithful(old(View(p)), event)
    ensures Records(operation, values, event) && Shows(returned, got, event)
  {
    event, returned, got := Query(p, operation, values);
  }

  // The caller meddles, then calls; what it gets back becomes reachable for it.
  method Step(p: Provider, operation: Operation, ghost reachable: set<object>)
    returns (ghost event: Event, ghost values: ArgumentValues, returned: Returned, ghost got: set<object>,
             ghost extended: set<object>)
    requires p.Valid() && reachable !! p.Reach()
    modifies p, reachable
    ensures p.Valid() && extended !! p.Reach() && reachable + got <= extended && fresh(extended - reachable)
    ensures View(p) == Next(old(View(p)), event) && Faithful(old(View(p)), event)
    ensures Records(operation, values, event) && Shows(returned, got, event) && fresh(got)
  {
    var arguments;
    arguments, values, extended := MeddleBeside(p, reachable);
    got := {};
    if IsQuery(operation) {
      event, returned, got := QueryBeside(p, operation, extended, values);
      extended := extended + got;
    } else {
      event, returned := ConfigureBeside(p, operation, arguments, extended, values);
    }
  }

  lemma OneMore(start: Snapshot, events: seq<Event>, event: Event)
    requires AllFaithful(start, events) && Faithful(After(start, events), event)
    ensures After(start, events + [event]) == Next(After(start, events), event)
    ensures AllFaithful(start, events + [event])
  {
    var longer := events + [event];
    assert longer[..|events|] == events;
    forall i | 0 <= i < |longer|
      ensures Faithful(After(start, longer[..i]), longer[i])
    {
      if i < |events| {
        assert longer[..i] == events[..i];
      }
    }
  }

  // The operations made so far, each with its event.
  ghost predicate AllRecorded(operations: seq<Operation>, arguments: seq<ArgumentValues>, events: seq<Event>) {
    && |events| == |arguments| <= |operations|
    && forall i :: 0 <= i < |events| ==> Records(operations[i], arguments[i], events[i])
  }

  lemma OneMoreRecord(
      operations: seq<Operation>, arguments: seq<ArgumentValues>, events: seq<Event>, values: ArgumentValues, event: Event)
    requires AllRecorded(operations, arguments, events) && |events| < |operations|
    requires Records(operations[|events|], values, event)
    ensures AllRecorded(operations, arguments + [values], events + [event])
  {
  }

  // Over any run, whatever the callers write in between: the provider ends up as its calls alone make
  // it, each with its arguments as they stood; each result is what the provider then held; and the
  // objects the last call handed over hold its result. Every call is the last one of some run.
  method Run(p: Provider, operations: seq<Operation>, ghost reachable: set<object>)
    returns (ghost events: seq<Event>, ghost arguments: seq<ArgumentValues>, returned: Returned, ghost got: set<object>,
             ghost extended: set<object>)
    requires p.Valid() && reachable !! p.Reach()
    modifies p, reachable
    ensures p.Valid() && extended !! p.Reach() && reachable + got <= extended
    ensures View(p) == After(old(View(p)), events) && AllFaithful(old(View(p)), events)
    ensures AllRecorded(operations, arguments, events) && |events| == |operations|
    ensures operations != [] ==> Shows(returned, got, events[|events| - 1])
  {
    events, arguments, returned, got, extended := [], [], Nothing, {}, reachable;
    ghost var start := View(p);
    for i := 0 to |operations|
      invariant p.Valid() && extended !! p.Reach() && reachable + got <= extended && fresh(extended - reachable)
      invariant View(p) == After(start, events) && AllFaithful(start, events)
      invariant AllRecorded(operations, arguments, events) && |events| == i
      invariant i > 0 ==> Shows(returned, got, events[i - 1])
    {
      ghost var event, values;
      event, values, returned, got, extended := Step(p, operations[i], extended);
      OneMore(start, events, event);
      OneMoreRecord(operations, arguments, events, values, event);
      events, arguments := events + [event], arguments + [values];
    }
  }

  // --- what a run's events say ---

  function SinceReset(events: seq<Event>): seq<Event> {
    if events == [] || events[|events| - 1].CallsReset? then []
    else SinceReset(events[..|events| - 1]) + [events[|events| - 1]]
  }

  function Begins(events: seq<Event>): seq<RequestValue> {
    if events == [] then []
    else if events[0].Began? then [events[0].request] + Begins(events[1..])
    else Begins(events[1..])
  }

  function Completes(events: seq<Event>): seq<CompleteRequest> {
    if events == [] then []
    else if events[0].Completed? then [events[0].callback] + Completes(events[1..])
    else Completes(events[1..])
  }

  function Users(events: seq<Event>): seq<string> {
    if events == [] then []
    else if events[0].UserLoaded? then [events[0].accessToken] + Users(events[1..])
    else Users(events[1..])
  }

  function Refreshes(events: seq<Event>): seq<string> {
    if events == [] then []
    else if events[0].Refreshed? then [events[0].refreshToken] + Refreshes(events[1..])
    else Refreshes(events[1..])
  }

  lemma {:induction false} LastBegin(events: seq<Event>, e: Event)
    ensures Begins(events + [e]) == Begins(events) + (if e.Began? then [e.request] else [])
  {
    if events == [] {
      assert (events + [e])[1..] == [];
    } else {
      assert (events + [e])[1..] == events[1..] + [e];
      LastBegin(events[1..], e);
    }
  }

  lemma {:induction false} LastComplete(events: seq<Event>, e: Event)
    ensures Completes(events + [e]) == Completes(events) + (if e.Completed? then [e.callback] else [])
  {
    if events == [] {
      assert (events + [e])[1..] == [];
    } else {
      assert (events + [e])[1..] == events[1..] + [e];
      LastComplete(events[1..], e);
    }
  }

  lemma {:induction false} LastUser(events: seq<Event>, e: Event)
    ensures Users(events + [e]) == Users(events) + (if e.UserLoaded? then [e.accessToken] else [])
  {
    if events == [] {
      assert (events + [e])[1..] == [];
    } else {
      assert (events + [e])[1..] == events[1..] + [e];
      LastUser(events[1..], e);
    }
  }

  lemma {:induction false} LastRefresh(events: seq<Event>, e: Event)
    ensures Refreshes(events + [e]) == Refreshes(events) + (if e.Refreshed? then [e.refreshToken] else [])
  {
    if events == [] {
      assert (events + [e])[1..] == [];
    } else {
      assert (events + [e])[1..] == events[1..] + [e];
      LastRefresh(events[1..], e);
    }
  }

  // The logs are the arguments of the calls since the last reset, in order.
  lemma {:induction false} LogsSinceReset(start: Snapshot, events: seq<Event>)
    requires start.begins == [] && start.completes == [] && start.users == [] && start.refreshes == []
    ensures var (s, since) := (After(start, events), SinceReset(events));
            && s.begins == Begins(since) && s.completes == Completes(since)
            && s.users == Users(since) && s.refreshes == Refreshes(since)
    decreases |events|
  {
    if events != [] {
      var front, e := events[..|events| - 1], events[|events| - 1];
      LogsSinceReset(start, front);
      LastBegin(SinceReset(front), e);
      LastComplete(SinceReset(front), e);
      LastUser(SinceReset(front), e);
      LastRefresh(SinceReset(front), e);
    }
  }

  // The result of Complete that was configured last.
  function Configured(first: Outcome<UserValue>, events: seq<Event>): Outcome<UserValue> {
    if events == [] then first
    else match events[|events| - 1]
         case CompleteConfigured(outcome) => outcome
         case _ => Configured(first, events[..|events| - 1])
  }

  lemma {:induction false} CompleteIsConfigured(start: Snapshot, events: seq<Event>)
    ensures After(start, events).complete == Configured(start.complete, events)
    decreases |events|
  {
    if events != [] {
      CompleteIsConfigured(start, events[..|events| - 1]);
    }
  }

  // What a caller of a fresh provider sees: reading a log gives the arguments since the last reset as
  // they stood when the calls were made, and Complete gives the user as it stood when it was configured,
  // however often it was returned and written over since.
  lemma CallersSeeValues(start: Snapshot, events: seq<Event>, i: nat)
    requires start.begins == [] && start.completes == [] && start.users == [] && start.refreshes == []
    requires AllFaithful(start, events) && i < |events|
    ensures var since := SinceReset(events[..i]);
            match events[i]
            case BeginCallsRead(begins) => begins == Begins(since)
            case CompleteCallsRead(completes) => completes == Completes(since)
            case UserCallsRead(tokens) => tokens == Users(since)
            case RefreshCallsRead(tokens) => tokens == Refreshes(since)
            case Completed(_, outcome) => outcome == Configured(start.complete, events[..i])
            case _ => true
  {
    LogsSinceReset(start, events[..i]);
    CompleteIsConfigured(start, events[..i]);
    assert Faithful(After(start, events[..i]), events[i]);
  }
}
