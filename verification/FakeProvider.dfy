// The fake provider (testkit/provider.go): configurable results and call logs that share no slice,
// map or byte buffer with the callers.

module FakeProvider {
  import opened Wrappers
  import opened Text
  import opened Errors
  import opened Cloning
  import Model

  type AuthorizationSession = Model.AuthorizationSession

  datatype Authorization = Authorization(url: string, session: AuthorizationSession)

  datatype CompleteRequest = CompleteRequest(callback: Model.Callback, session: AuthorizationSession)

  datatype CallCounts = Counts(begin: nat, complete: nat, user: nat, refresh: nat)

  // A result and the error returned beside it.
  datatype Outcome<T> = Outcome(result: T, error: Option<GoError>)

  // What a provider holds, without its heap layout.
  datatype Snapshot = Snapshot(
    name: string,
    begin: Outcome<Authorization>, complete: Outcome<UserValue>, user: Outcome<UserValue>, refresh: Outcome<TokenValue>,
    begins: seq<RequestValue>, completes: seq<CompleteRequest>, users: seq<string>, refreshes: seq<string>)

  // The cells a stored clone is made of, and what they hold.
  datatype Held<V> = Held(cells: set<object>, value: V)

  // A log of cloned requests, each in cells of the provider.
  ghost predicate LogHolds(log: seq<BeginRequest>, cells: set<object>, values: seq<RequestValue>)
    reads cells
  {
    |log| == |values| && forall i :: 0 <= i < |log| ==> RequestHolds(log[i], cells, values[i])
  }

  lemma RequestWidens(request: BeginRequest, cells: set<object>, value: RequestValue, wider: set<object>)
    requires RequestHolds(request, cells, value) && cells <= wider
    ensures RequestHolds(request, wider, value)
  {
    if request.parameters != null {
      EntriesWiden(request.parameters.entries, cells, value.parameters.value, wider);
      assert cells + wider == wider;
    }
  }

  lemma LogWidens(log: seq<BeginRequest>, cells: set<object>, values: seq<RequestValue>, wider: set<object>)
    requires LogHolds(log, cells, values) && cells <= wider
    ensures LogHolds(log, wider, values)
  {
    forall i | 0 <= i < |log|
      ensures RequestHolds(log[i], wider, values[i])
    {
      RequestWidens(log[i], cells, values[i], wider);
    }
  }

  lemma LogGrows(
      log: seq<BeginRequest>, cells: set<object>, values: seq<RequestValue>,
      request: BeginRequest, own: set<object>, value: RequestValue)
    requires LogHolds(log, cells, values) && RequestHolds(request, own, value)
    ensures LogHolds(log + [request], cells + own, values + [value])
  {
    LogWidens(log, cells, values, cells + own);
    RequestWidens(request, own, value, cells + own);
  }

  method CopyLog<T>(log: seq<T>) returns (copy: array?<T>)
    ensures copy != null ==> fresh(copy)
    ensures if log == [] then copy == null else copy != null && copy[..] == log
  {
    if log == [] {
      return null;
    }
    copy := new T[|log|](i requires 0 <= i < |log| => log[i]);
  }

  const DEFAULT_NAME: string := "fake"

  method CloneUsers(completed: User, byToken: User, ghost given: set<object>, ghost x: UserValue, ghost y: UserValue)
    returns (a: User, b: User, ghost p: Held<UserValue>, ghost q: Held<UserValue>)
    requires UserHolds(completed, given, x) && UserHolds(byToken, given, y)
    ensures p.value == x && q.value == y && fresh(p.cells + q.cells)
    ensures UserHolds(a, p.cells, x) && UserHolds(b, q.cells, y)
  {
    ghost var own;
    a, own := CloneUser(completed, given, x);
    p := Held(own, x);
    b, own := CloneUser(byToken, given, y);
    q := Held(own, y);
  }

  // NewProvider's copies.
  method CloneResults(
      completed: User, byToken: User, refreshed: Token,
      ghost given: set<object>, ghost x: UserValue, ghost y: UserValue, ghost z: TokenValue)
    returns (a: User, b: User, c: Token, ghost p: Held<UserValue>, ghost q: Held<UserValue>, ghost r: Held<TokenValue>)
    requires UserHolds(completed, given, x) && UserHolds(byToken, given, y) && TokenHolds(refreshed, given, z)
    ensures p.value == x && q.value == y && r.value == z && fresh(p.cells + q.cells + r.cells)
    ensures UserHolds(a, p.cells, x) && UserHolds(b, q.cells, y) && TokenHolds(c, r.cells, z)
  {
    a, b, p, q := CloneUsers(completed, byToken, given, x, y);
    ghost var own;
    c, own := CloneToken(refreshed, given, z);
    r := Held(own, z);
  }

  class Provider {
    const name: string
    var authorization: Authorization
    var completedUser: User
    var tokenUser: User
    var refreshedToken: Token
    var beginError: Option<GoError>
    var completeError: Option<GoError>
    var userError: Option<GoError>
    var refreshError: Option<GoError>
    var beginCalls: seq<BeginRequest>
    var completeCalls: seq<CompleteRequest>
    var userCalls: seq<string>
    var refreshCalls: seq<string>

    ghost var completed: Held<UserValue>
    ghost var byToken: Held<UserValue>
    ghost var refreshed: Held<TokenValue>
    ghost var log: Held<seq<RequestValue>>

    // Everything a caller would have to write to in order to change what the provider holds.
    ghost function Reach(): set<object>
      reads this
    {
      {this} + completed.cells + byToken.cells + refreshed.cells + log.cells
    }

    ghost predicate Valid()
      reads this, Reach()
    {
      && this !in completed.cells + byToken.cells + refreshed.cells + log.cells
      && UserHolds(completedUser, completed.cells, completed.value)
      && UserHolds(tokenUser, byToken.cells, byToken.value)
      && TokenHolds(refreshedToken, refreshed.cells, refreshed.value)
      && LogHolds(beginCalls, log.cells, log.value)
    }

    // The literal NewProvider returns; its results are clones already.
    constructor (
        name: string, authorization: Authorization, completedUser: User, tokenUser: User, refreshedToken: Token,
        beginError: Option<GoError>, completeError: Option<GoError>, userError: Option<GoError>, refreshError: Option<GoError>,
        ghost completed: Held<UserValue>, ghost byToken: Held<UserValue>, ghost refreshed: Held<TokenValue>)
      requires UserHolds(completedUser, completed.cells, completed.value)
      requires UserHolds(tokenUser, byToken.cells, byToken.value)
      requires TokenHolds(refreshedToken, refreshed.cells, refreshed.value)
      ensures Valid() && this.name == name
      ensures this.completed == completed && this.byToken == byToken && this.refreshed == refreshed && log == Held({}, [])
      ensures this.authorization == authorization && this.beginError == beginError && this.completeError == completeError
      ensures this.userError == userError && this.refreshError == refreshError
      ensures completeCalls == [] && userCalls == [] && refreshCalls == []
    {
      this.name, this.authorization := name, authorization;
      this.completedUser, this.tokenUser, this.refreshedToken := completedUser, tokenUser, refreshedToken;
      this.beginError, this.completeError, this.userError, this.refreshError := beginError, completeError, userError, refreshError;
      beginCalls, completeCalls, userCalls, refreshCalls := [], [], [], [];
      this.completed, this.byToken, this.refreshed, log := completed, byToken, refreshed, Held({}, []);
    }

    method Begin(request: BeginRequest, ghost given: set<object>, ghost value: RequestValue)
      returns (result: Authorization, error: Option<GoError>)
      requires Valid() && RequestHolds(request, given, value)
      modifies `beginCalls, `log
      ensures Valid() && fresh(log.cells - old(log.cells)) && log.value == old(log.value) + [value]
      ensures result == authorization && error == beginError
    {
      var clone, own := CloneRequest(request, given, value);
      LogGrows(beginCalls, log.cells, log.value, clone, own, value);
      beginCalls := beginCalls + [clone];
      log := Held(log.cells + own, log.value + [value]);
      return authorization, beginError;
    }

    method Complete(request: CompleteRequest) returns (result: User, error: Option<GoError>, ghost own: set<object>)
      requires Valid()
      modifies `completeCalls
      ensures Valid() && completeCalls == old(completeCalls) + [request]
      ensures fresh(own) && UserHolds(result, own, completed.value) && error == completeError
    {
      completeCalls := completeCalls + [request];
      result, own := CloneUser(completedUser, completed.cells, completed.value);
      error := completeError;
    }

    method User(token: string) returns (result: User, error: Option<GoError>, ghost own: set<object>)
      requires Valid()
      modifies `userCalls
      ensures Valid() && userCalls == old(userCalls) + [token]
      ensures fresh(own) && UserHolds(result, own, byToken.value) && error == userError
    {
      userCalls := userCalls + [token];
      result, own := CloneUser(tokenUser, byToken.cells, byToken.value);
      error := userError;
    }

    method Refresh(token: string) returns (result: Token, error: Option<GoError>, ghost own: set<object>)
      requires Valid()
      modifies `refreshCalls
      ensures Valid() && refreshCalls == old(refreshCalls) + [token]
      ensures fresh(own) && TokenHolds(result, own, refreshed.value) && error == refreshError
    {
      refreshCalls := refreshCalls + [token];
      result, own := CloneToken(refreshedToken, refreshed.cells, refreshed.value);
      error := refreshError;
    }

    method ConfigureBegin(result: Authorization, error: Option<GoError>)
      requires Valid()
      modifies `authorization, `beginError
      ensures Valid() && authorization == result && beginError == error
    {
      authorization, beginError := result, error;
    }

    method ConfigureComplete(result: User, error: Option<GoError>, ghost given: set<object>, ghost value: UserValue)
      requires Valid() && UserHolds(result, given, value)
      modifies `completedUser, `completeError, `completed
      ensures Valid() && fresh(completed.cells) && completed.value == value && completeError == error
    {
      var clone, own := CloneUser(result, given, value);
      KeepCompleted(clone, own, value);
      completeError := error;
    }

    method KeepCompleted(clone: User, ghost own: set<object>, ghost value: UserValue)
      requires Valid() && UserHolds(clone, own, value) && this !in own
      modifies `completedUser, `completed
      ensures Valid() && completedUser == clone && completed == Held(own, value)
    {
      completedUser, completed := clone, Held(own, value);
    }

    method ConfigureUser(result: User, error: Option<GoError>, ghost given: set<object>, ghost value: UserValue)
      requires Valid() && UserHolds(result, given, value)
      modifies `tokenUser, `userError, `byToken
      ensures Valid() && fresh(byToken.cells) && byToken.value == value && userError == error
    {
      var clone, own := CloneUser(result, given, value);
      KeepTokenUser(clone, own, value);
      userError := error;
    }

    method KeepTokenUser(clone: User, ghost own: set<object>, ghost value: UserValue)
      requires Valid() && UserHolds(clone, own, value) && this !in own
      modifies `tokenUser, `byToken
      ensures Valid() && tokenUser == clone && byToken == Held(own, value)
    {
      tokenUser, byToken := clone, Held(own, value);
    }

    method ConfigureRefresh(result: Token, error: Option<GoError>, ghost given: set<object>, ghost value: TokenValue)
      requires Valid() && TokenHolds(result, given, value)
      modifies `refreshedToken, `refreshError, `refreshed
      ensures Valid() && fresh(refreshed.cells) && refreshed.value == value && refreshError == error
    {
      var clone, own := CloneToken(result, given, value);
      KeepRefreshed(clone, own, value);
      refreshError := error;
    }

    method KeepRefreshed(clone: Token, ghost own: set<object>, ghost value: TokenValue)
      requires Valid() && TokenHolds(clone, own, value) && this !in own
      modifies `refreshedToken, `refreshed
      ensures Valid() && refreshedToken == clone && refreshed == Held(own, value)
    {
      refreshedToken, refreshed := clone, Held(own, value);
    }

    method CallCounts() returns (counts: CallCounts)
      requires Valid()
      ensures counts == Counts(|log.value|, |completeCalls|, |userCalls|, |refreshCalls|)
    {
      counts := Counts(|beginCalls|, |completeCalls|, |userCalls|, |refreshCalls|);
    }

    // A new slice of clones.
    method BeginCalls() returns (calls: array<BeginRequest>, ghost own: set<object>)
      requires Valid()
      ensures fresh(calls) && fresh(own) && LogHolds(calls[..], own, log.value)
    {
      calls := new BeginRequest[|beginCalls|](i => BeginRequest(null, null, false));
      own := {};
      for i := 0 to |beginCalls|
        invariant fresh(calls) && fresh(own) && calls !in own && calls.Length == |beginCalls|
        invariant LogHolds(calls[..i], own, log.value[..i])
      {
        var clone, cells := CloneRequest(beginCalls[i], log.cells, log.value[i]);
        LogGrows(calls[..i], own, log.value[..i], clone, cells, log.value[i]);
        calls[i] := clone;
        own := own + cells;
        assert calls[..i + 1] == calls[..i] + [clone];
        assert log.value[..i + 1] == log.value[..i] + [log.value[i]];
      }
      assert calls[..] == calls[..|beginCalls|] && log.value[..|beginCalls|] == log.value;
    }

    // append(nil, log...) for the logs whose entries hold nothing but strings.
    method CompleteCalls() returns (calls: array?<CompleteRequest>)
      ensures calls != null ==> fresh(calls)
      ensures if completeCalls == [] then calls == null else calls != null && calls[..] == completeCalls
    {
      calls := CopyLog(completeCalls);
    }

    method UserCalls() returns (calls: array?<string>)
      ensures calls != null ==> fresh(calls)
      ensures if userCalls == [] then calls == null else calls != null && calls[..] == userCalls
    {
      calls := CopyLog(userCalls);
    }

    method RefreshCalls() returns (calls: array?<string>)
      ensures calls != null ==> fresh(calls)
      ensures if refreshCalls == [] then calls == null else calls != null && calls[..] == refreshCalls
    {
      calls := CopyLog(refreshCalls);
    }

    method ResetCalls()
      requires Valid()
      modifies `beginCalls, `completeCalls, `userCalls, `refreshCalls, `log
      ensures Valid() && log == Held({}, []) && completeCalls == [] && userCalls == [] && refreshCalls == []
    {
      completeCalls, userCalls, refreshCalls := [], [], [];
      beginCalls, log := [], Held({}, []);
    }

    function Name(): (r: string)
      ensures r != ""
    {
      if name == "" then DEFAULT_NAME else name
    }
  }

  // NewProvider.
  method NewProvider(
      name: string, authorization: Authorization, completedUser: User, tokenUser: User, refreshedToken: Token,
      beginError: Option<GoError>, completeError: Option<GoError>, userError: Option<GoError>, refreshError: Option<GoError>,
      ghost given: set<object>, ghost x: UserValue, ghost y: UserValue, ghost z: TokenValue)
    returns (provider: Provider)
    requires UserHolds(completedUser, given, x) && UserHolds(tokenUser, given, y) && TokenHolds(refreshedToken, given, z)
    ensures provider.Valid() && fresh(provider.Reach())
    ensures provider.Name() == if TrimSpace(name) == "" then "fake" else TrimSpace(name)
    ensures provider.authorization == authorization && provider.beginError == beginError
    ensures provider.completed.value == x && provider.completeError == completeError
    ensures provider.byToken.value == y && provider.userError == userError
    ensures provider.refreshed.value == z && provider.refreshError == refreshError
    ensures provider.log.value == [] && provider.completeCalls == [] && provider.userCalls == [] && provider.refreshCalls == []
  {
    var a, b, c, p, q, r := CloneResults(completedUser, tokenUser, refreshedToken, given, x, y, z);
    var reported := TrimSpace(name);
    provider := new Provider(
      if reported == "" then DEFAULT_NAME else reported, authorization, a, b, c,
      beginError, completeError, userError, refreshError, p, q, r);
  }
}
