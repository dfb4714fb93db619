// The login protocol of the example application (examples/nethttp/app.go): any number of begin and
// callback requests interleaved with registrations. Each locked section, each clock reading, each
// random draw and each provider call is a step of its own; a request that is not ready for a step
// ignores it. A provider is identified by the instance behind the interface value.

module Login {
  import opened Wrappers
  import opened Text
  import opened Model
  import opened Sessions
  import opened Registry

  type Instance = nat
  type RequestID = nat

  // How registry and store normalise a name; sweeping is false for the reference store of
  // Refinement, whose create never sweeps.
  datatype Config = Config(ttl: int, sweeping: bool, trim: string -> string)

  // The program's own configuration.
  function Program(ttl: int): Config {
    Config(ttl, true, name => TrimSpace(name))
  }

  datatype BeginOutcome =
    | BeginUnknownProvider
    | BeginRefused
    | CreateFailed
    | Redirected(id: string, expiresAt: int)

  datatype CallbackOutcome =
    | CallbackUnknownProvider
    | CookieMissing
    | Refused(error: ConsumeError)
    | CompleteCalled(call: CompleteCall)

  // A call of Complete, with the entry the store gave up for it.
  datatype CompleteCall = CompleteCall(
    name: string, provider: Instance, id: string, session: AuthorizationSession, reading: int, origin: nat)

  datatype Thread =
    | BeginResolved(name: string, provider: Instance)
    | BeginIssued(name: string, provider: Instance, session: AuthorizationSession)
    | Drawing(name: string, provider: Instance, session: AuthorizationSession, now: int, attempt: nat)
    | Drawn(name: string, provider: Instance, session: AuthorizationSession, now: int, attempt: nat, id: string)
    | BeginDone(begin: BeginOutcome)
    | CallbackResolved(name: string, provider: Instance)
    | EntryTaken(name: string, provider: Instance, id: string, pending: Pending, origin: nat)
    | CallbackDone(callback: CallbackOutcome)

  // One successful create; requested is the name in the request, as it stands in the URL.
  datatype Insertion = Insertion(
    requested: string, provider: Instance, session: AuthorizationSession, now: int, id: string, pending: Pending)

  // The registry, the store and the requests are the program's; the rest is the history of a run.
  datatype State = State(
    registry: Registry<Instance>,
    sessions: SessionMap,
    threads: map<RequestID, Thread>,
    issued: set<(Instance, AuthorizationSession)>,
    insertions: seq<Insertion>,
    origins: map<string, nat>, // for each live identifier, the insertion it comes from
    takenBy: map<nat, RequestID>, // for each insertion that was taken, the request that took it
    found: multiset<string>, // the identifiers consumes have found
    swept: multiset<string> // the identifiers sweeps have removed
  )

  datatype Action =
    | ChangeRegistry(change: Change<Instance>)
    | BeginLooksUp(t: RequestID, name: string)
    | BeginReturns(t: RequestID, issue: Option<AuthorizationSession>)
    | CreateReadsClock(t: RequestID, now: int)
    | CreateDraws(t: RequestID, drawn: Option<string>)
    | CreateLocks(t: RequestID)
    | CallbackLooksUp(t: RequestID, name: string)
    | ConsumeLocks(t: RequestID, cookie: Option<string>)
    | ConsumeReadsClock(t: RequestID, now: int)

  function Init(): State {
    State(Empty(), map[], map[], {}, [], map[], map[], multiset{}, multiset{})
  }

  function Put(s: State, t: RequestID, thread: Thread): State {
    s.(threads := s.threads[t := thread])
  }

  function AfterLookup(c: Config, s: State, name: string, begin: bool): Thread {
    match Find(s.registry, c.trim(name))
    case Some(provider) => if begin then BeginResolved(name, provider) else CallbackResolved(name, provider)
    case None => if begin then BeginDone(BeginUnknownProvider) else CallbackDone(CallbackUnknownProvider)
  }

  function Returns(s: State, t: RequestID, thread: Thread, issue: Option<AuthorizationSession>): State
    requires thread.BeginResolved?
  {
    match issue
    case Some(session) =>
      Put(s, t, BeginIssued(thread.name, thread.provider, session)).(issued := s.issued + {(thread.provider, session)})
    case None => Put(s, t, BeginDone(BeginRefused))
  }

  function AfterDraw(thread: Thread, drawn: Option<string>): Thread
    requires thread.Drawing?
  {
    match drawn
    case Some(id) => Drawn(thread.name, thread.provider, thread.session, thread.now, thread.attempt, id)
    case None => BeginDone(CreateFailed)
  }

  // What create's sweep leaves; the reference store does not sweep.
  function Kept(c: Config, s: State, now: int): SessionMap {
    if c.sweeping then Live(s.sessions, now) else s.sessions
  }

  function PendingOf(c: Config, thread: Thread): Pending
    requires thread.Drawn?
  {
    Pending(c.trim(thread.name), thread.session, thread.now + c.ttl)
  }

  // The sweep alone, with its history.
  function Sweeps(c: Config, s: State, now: int): State {
    var kept := Kept(c, s, now);
    s.(sessions := kept,
       origins := map id | id in s.origins && id in kept :: s.origins[id],
       swept := s.swept + multiset(s.sessions.Keys - kept.Keys))
  }

  // The insertion alone, with its history.
  function Adds(c: Config, s: State, t: RequestID, thread: Thread): State
    requires thread.Drawn?
  {
    var pending := PendingOf(c, thread);
    Put(s, t, BeginDone(Redirected(thread.id, pending.expiresAt))).(
      sessions := s.sessions[thread.id := pending],
      origins := s.origins[thread.id := |s.insertions|],
      insertions := s.insertions + [Insertion(thread.name, thread.provider, thread.session, thread.now, thread.id, pending)])
  }

  function AfterCollision(thread: Thread): Thread
    requires thread.Drawn?
  {
    if thread.attempt + 1 < ATTEMPTS then Drawing(thread.name, thread.provider, thread.session, thread.now, thread.attempt + 1)
    else BeginDone(CreateFailed)
  }

  // create's locked section.
  function Locks(c: Config, s: State, t: RequestID, thread: Thread): State
    requires thread.Drawn?
  {
    var swept := Sweeps(c, s, thread.now);
    if thread.id in swept.sessions then Put(swept, t, AfterCollision(thread)) else Adds(c, swept, t, thread)
  }

  // The removal alone, with its history.
  function Removes(s: State, t: RequestID, thread: Thread, id: string): State
    requires thread.CallbackResolved? && id in s.sessions
  {
    var origin := if id in s.origins then s.origins[id] else 0;
    Put(s, t, EntryTaken(thread.name, thread.provider, id, s.sessions[id], origin)).(
      sessions := s.sessions - {id},
      origins := s.origins - {id},
      takenBy := s.takenBy[origin := t],
      found := s.found + multiset{id})
  }

  // consume's locked section; without an entry it answers at once.
  function Takes(s: State, t: RequestID, thread: Thread, cookie: Option<string>): State
    requires thread.CallbackResolved?
  {
    if cookie.None? || cookie.value == "" then Put(s, t, CallbackDone(CookieMissing))
    else if cookie.value in s.sessions then Removes(s, t, thread, cookie.value)
    else Put(s, t, CallbackDone(Refused(NotFound)))
  }

  function AfterClock(c: Config, thread: Thread, now: int): Thread
    requires thread.EntryTaken?
  {
    match Admit(Some(thread.pending), c.trim(thread.name), now)
    case Err(error) => CallbackDone(Refused(error))
    case Ok(session) =>
      CallbackDone(CompleteCalled(CompleteCall(thread.name, thread.provider, thread.id, session, now, thread.origin)))
  }

  function Step(c: Config, s: State, a: Action): State {
    match a
    case ChangeRegistry(change) => s.(registry := Apply(s.registry, change).registry)
    case BeginLooksUp(t, name) => if t in s.threads then s else Put(s, t, AfterLookup(c, s, name, true))
    case CallbackLooksUp(t, name) => if t in s.threads then s else Put(s, t, AfterLookup(c, s, name, false))
    case _ =>
      if a.t !in s.threads then s
      else
        var thread := s.threads[a.t];
        match a
        case BeginReturns(t, issue) => if thread.BeginResolved? then Returns(s, t, thread, issue) else s
        case CreateReadsClock(t, now) =>
          if thread.BeginIssued? then Put(s, t, Drawing(thread.name, thread.provider, thread.session, now, 0)) else s
        case CreateDraws(t, drawn) => if thread.Drawing? then Put(s, t, AfterDraw(thread, drawn)) else s
        case CreateLocks(t) => if thread.Drawn? then Locks(c, s, t, thread) else s
        case ConsumeLocks(t, cookie) => if thread.CallbackResolved? then Takes(s, t, thread, cookie) else s
        case ConsumeReadsClock(t, now) => if thread.EntryTaken? then Put(s, t, AfterClock(c, thread, now)) else s
        case _ => s
  }

  function Run(c: Config, s: State, actions: seq<Action>): State
    decreases |actions|
  {
    if actions == [] then s else Run(c, Step(c, s, actions[0]), actions[1..])
  }

  // The program's locked section is the one the class SessionStore runs.
  lemma LocksRunsInserted(ttl: int, s: State, t: RequestID, thread: Thread)
    requires thread.Drawn?
    ensures var pending := Pending(TrimSpace(thread.name), thread.session, thread.now + ttl);
            var (sessions, inserted) := Inserted(s.sessions, thread.now, thread.id, pending);
            var after := Locks(Program(ttl), s, t, thread);
            after.sessions == sessions && (inserted <==> |after.insertions| == |s.insertions| + 1)
  {
    var c := Program(ttl);
    assert PendingOf(c, thread) == Pending(TrimSpace(thread.name), thread.session, thread.now + ttl);
    LocksInsert(c, s, t, thread);
  }

  lemma LocksInsert(c: Config, s: State, t: RequestID, thread: Thread)
    requires c.sweeping && thread.Drawn?
    ensures var (sessions, inserted) := Inserted(s.sessions, thread.now, thread.id, PendingOf(c, thread));
            var after := Locks(c, s, t, thread);
            after.sessions == sessions && (inserted <==> |after.insertions| == |s.insertions| + 1)
  {}

  // --- what every step keeps ---

  // An insertion was asked for by a begin request whose name resolved to the provider that issued
  // the session, and stored it under the trimmed name with the expiry computed from its own reading.
  ghost predicate InsertionOk(c: Config, s: State, ins: Insertion) {
    && (ins.provider, ins.session) in s.issued
    && Find(s.registry, ins.pending.provider) == Some(ins.provider)
    && ins.pending == Pending(c.trim(ins.requested), ins.session, ins.now + c.ttl)
  }

  // Before it has stored anything, a begin request holds the provider its name resolves to and, once
  // Begin has returned, a session that provider issued.
  ghost predicate Serves(c: Config, s: State, name: string, provider: Instance) {
    Find(s.registry, c.trim(name)) == Some(provider)
  }

  ghost predicate FromInsertion(s: State, id: string, pending: Pending, origin: nat) {
    origin < |s.insertions| && s.insertions[origin].id == id && s.insertions[origin].pending == pending
  }

  // The call got the session that was inserted under its name and identifier, before it expired.
  ghost predicate CallOk(c: Config, s: State, call: CompleteCall) {
    && call.origin < |s.insertions|
    && var ins := s.insertions[call.origin];
       && ins.id == call.id
       && ins.session == call.session
       && ins.pending.provider == c.trim(call.name)
       && call.reading < ins.pending.expiresAt
  }

  ghost predicate ThreadOk(c: Config, s: State, t: RequestID, thread: Thread) {
    match thread
    case BeginResolved(name, provider) => Serves(c, s, name, provider)
    case BeginIssued(name, provider, session) => Serves(c, s, name, provider) && (provider, session) in s.issued
    case Drawing(name, provider, session, _, _) => Serves(c, s, name, provider) && (provider, session) in s.issued
    case Drawn(name, provider, session, _, _, _) => Serves(c, s, name, provider) && (provider, session) in s.issued
    case CallbackResolved(name, provider) => Serves(c, s, name, provider)
    case EntryTaken(name, provider, id, pending, origin) =>
      && Serves(c, s, name, provider) && FromInsertion(s, id, pending, origin)
      && origin in s.takenBy && s.takenBy[origin] == t
    case CallbackDone(CompleteCalled(call)) =>
      && Serves(c, s, call.name, call.provider) && CallOk(c, s, call)
      && call.origin in s.takenBy && s.takenBy[call.origin] == t
    case _ => true
  }

  ghost predicate ThreadsOk(c: Config, s: State) {
    forall t :: t in s.threads ==> ThreadOk(c, s, t, s.threads[t])
  }

  ghost predicate InsertionsOk(c: Config, s: State) {
    forall i :: 0 <= i < |s.insertions| ==> InsertionOk(c, s, s.insertions[i])
  }

  // Live entries come from insertions that were not taken.
  ghost predicate EntriesOk(s: State) {
    && s.origins.Keys == s.sessions.Keys
    && (forall id :: id in s.sessions ==>
          FromInsertion(s, id, s.sessions[id], s.origins[id]) && s.origins[id] !in s.takenBy)
    && (forall origin :: origin in s.takenBy ==> origin < |s.insertions|)
  }

  ghost function InsertedIDs(insertions: seq<Insertion>): multiset<string> {
    if insertions == [] then multiset{}
    else InsertedIDs(insertions[..|insertions| - 1]) + multiset{insertions[|insertions| - 1].id}
  }

  // Per identifier and in total: inserted = live + consumed + swept.
  ghost predicate Conserved(s: State) {
    InsertedIDs(s.insertions) == multiset(s.sessions.Keys) + s.found + s.swept
  }

  ghost predicate Inv(c: Config, s: State) {
    Consistent(s.registry) && InsertionsOk(c, s) && ThreadsOk(c, s) && EntriesOk(s) && Conserved(s)
  }

  // The registry and the history only grow.
  ghost predicate Later(s: State, s': State) {
    && Consistent(s.registry) && Consistent(s'.registry) && Grown(s.registry, s'.registry)
    && s.issued <= s'.issued
    && s.insertions <= s'.insertions
    && Extends(s.takenBy, s'.takenBy)
  }

  lemma ThreadStaysOk(c: Config, s: State, s': State, t: RequestID, thread: Thread)
    requires Later(s, s') && ThreadOk(c, s, t, thread)
    ensures ThreadOk(c, s', t, thread)
  {
    if thread.CallbackDone? && thread.callback.CompleteCalled? {
      FindIsStable(s.registry, s'.registry, c.trim(thread.callback.call.name));
    } else if !thread.CallbackDone? && !thread.BeginDone? {
      FindIsStable(s.registry, s'.registry, c.trim(thread.name));
    }
  }

  lemma InsertionsStayOk(c: Config, s: State, s': State)
    requires Later(s, s') && InsertionsOk(c, s)
    requires forall i :: |s.insertions| <= i < |s'.insertions| ==> InsertionOk(c, s', s'.insertions[i])
    ensures InsertionsOk(c, s')
  {
    forall i | 0 <= i < |s.insertions| ensures InsertionOk(c, s', s'.insertions[i]) {
      assert InsertionOk(c, s, s.insertions[i]);
      FindIsStable(s.registry, s'.registry, s.insertions[i].pending.provider);
    }
  }

  // A step that moves only request t keeps the facts about the others.
  lemma ThreadsStayOk(c: Config, s: State, s': State, t: RequestID)
    requires Later(s, s') && ThreadsOk(c, s)
    requires forall u :: u != t && u in s'.threads ==> u in s.threads && s'.threads[u] == s.threads[u]
    requires t in s'.threads ==> ThreadOk(c, s', t, s'.threads[t])
    ensures ThreadsOk(c, s')
  {
    forall u | u in s'.threads ensures ThreadOk(c, s', u, s'.threads[u]) {
      if u != t {
        ThreadStaysOk(c, s, s', u, s.threads[u]);
      }
    }
  }

  // Steps that leave the store alone.
  lemma QuietStep(c: Config, s: State, s': State, t: RequestID)
    requires Inv(c, s) && Later(s, s')
    requires s'.(registry := s.registry, threads := s.threads, issued := s.issued) == s
    requires forall u :: u != t && u in s'.threads ==> u in s.threads && s'.threads[u] == s.threads[u]
    requires t in s'.threads ==> ThreadOk(c, s', t, s'.threads[t])
    ensures Inv(c, s')
  {
    ThreadsStayOk(c, s, s', t);
    InsertionsStayOk(c, s, s');
  }

  lemma AllThreadsStayOk(c: Config, s: State, s': State)
    requires Later(s, s') && ThreadsOk(c, s) && s'.threads == s.threads
    ensures ThreadsOk(c, s')
  {
    forall u | u in s'.threads ensures ThreadOk(c, s', u, s'.threads[u]) {
      ThreadStaysOk(c, s, s', u, s.threads[u]);
    }
  }

  // A step that changes only the state of request t, to one whose facts follow from its old ones.
  lemma MoveStep(c: Config, s: State, t: RequestID, thread: Thread)
    requires Inv(c, s) && ThreadOk(c, s, t, thread)
    ensures Inv(c, Put(s, t, thread)) && Later(s, Put(s, t, thread))
  {
    QuietStep(c, s, Put(s, t, thread), t);
  }

  lemma RegistryStep(c: Config, s: State, registry: Registry<Instance>)
    requires Inv(c, s) && Consistent(registry) && Grown(s.registry, registry)
    ensures Inv(c, s.(registry := registry)) && Later(s, s.(registry := registry))
  {
    var s' := s.(registry := registry);
    InsertionsStayOk(c, s, s');
    AllThreadsStayOk(c, s, s');
  }

  lemma MultisetSplit(all: set<string>, part: set<string>)
    requires part <= all
    ensures multiset(all) == multiset(part) + multiset(all - part)
  {}

  lemma SweepKeepsEntries(c: Config, s: State, now: int)
    requires EntriesOk(s)
    ensures EntriesOk(Sweeps(c, s, now))
  {
    var s' := Sweeps(c, s, now);
    forall id | id in s'.sessions
      ensures FromInsertion(s', id, s'.sessions[id], s'.origins[id]) && s'.origins[id] !in s'.takenBy
    {
      assert FromInsertion(s, id, s.sessions[id], s.origins[id]);
    }
  }

  lemma SweepConserves(c: Config, s: State, now: int)
    requires Conserved(s)
    ensures Conserved(Sweeps(c, s, now))
  {
    MultisetSplit(s.sessions.Keys, Kept(c, s, now).Keys);
  }

  lemma SweepStep(c: Config, s: State, now: int)
    requires Inv(c, s)
    ensures Inv(c, Sweeps(c, s, now)) && Later(s, Sweeps(c, s, now))
  {
    var s' := Sweeps(c, s, now);
    InsertionsStayOk(c, s, s');
    AllThreadsStayOk(c, s, s');
    SweepKeepsEntries(c, s, now);
    SweepConserves(c, s, now);
  }

  lemma AddKeepsEntries(c: Config, m: State, t: RequestID, thread: Thread)
    requires thread.Drawn? && EntriesOk(m)
    ensures EntriesOk(Adds(c, m, t, thread))
  {
    var s' := Adds(c, m, t, thread);
    forall id | id in s'.sessions
      ensures FromInsertion(s', id, s'.sessions[id], s'.origins[id]) && s'.origins[id] !in s'.takenBy
    {
      if id != thread.id {
        assert FromInsertion(m, id, m.sessions[id], m.origins[id]);
      }
    }
  }

  lemma LastInsertedID(insertions: seq<Insertion>, ins: Insertion)
    ensures InsertedIDs(insertions + [ins]) == InsertedIDs(insertions) + multiset{ins.id}
  {
    assert (insertions + [ins])[..|insertions|] == insertions;
  }

  lemma OneMoreKey(sessions: SessionMap, id: string, pending: Pending)
    requires id !in sessions
    ensures multiset(sessions[id := pending].Keys) == multiset(sessions.Keys) + multiset{id}
  {
    assert sessions[id := pending].Keys == sessions.Keys + {id};
  }

  lemma AddConserves(c: Config, m: State, t: RequestID, thread: Thread)
    requires thread.Drawn? && Conserved(m) && thread.id !in m.sessions
    ensures Conserved(Adds(c, m, t, thread))
  {
    var pending := PendingOf(c, thread);
    LastInsertedID(m.insertions, Insertion(thread.name, thread.provider, thread.session, thread.now, thread.id, pending));
    OneMoreKey(m.sessions, thread.id, pending);
  }

  lemma AddStep(c: Config, m: State, t: RequestID, thread: Thread)
    requires Inv(c, m) && thread.Drawn? && ThreadOk(c, m, t, thread) && thread.id !in m.sessions
    ensures Inv(c, Adds(c, m, t, thread)) && Later(m, Adds(c, m, t, thread))
  {
    var s' := Adds(c, m, t, thread);
    InsertionsStayOk(c, m, s');
    ThreadsStayOk(c, m, s', t);
    AddKeepsEntries(c, m, t, thread);
    AddConserves(c, m, t, thread);
  }

  lemma LockStep(c: Config, s: State, t: RequestID, thread: Thread)
    requires Inv(c, s) && t in s.threads && s.threads[t] == thread && thread.Drawn?
    ensures Inv(c, Locks(c, s, t, thread)) && Later(s, Locks(c, s, t, thread))
  {
    SweepStep(c, s, thread.now);
    var m := Sweeps(c, s, thread.now);
    assert ThreadOk(c, m, t, thread);
    if thread.id in m.sessions {
      MoveStep(c, m, t, AfterCollision(thread));
    } else {
      AddStep(c, m, t, thread);
    }
  }

  lemma RemoveKeepsEntries(s: State, t: RequestID, thread: Thread, id: string)
    requires thread.CallbackResolved? && EntriesOk(s) && id in s.sessions
    ensures EntriesOk(Removes(s, t, thread, id))
  {
    assert FromInsertion(s, id, s.sessions[id], s.origins[id]);
    var s' := Removes(s, t, thread, id);
    forall other | other in s'.sessions
      ensures FromInsertion(s', other, s'.sessions[other], s'.origins[other]) && s'.origins[other] !in s'.takenBy
    {
      assert FromInsertion(s, other, s.sessions[other], s.origins[other]);
    }
  }

  lemma OneKeyLess(sessions: SessionMap, id: string)
    requires id in sessions
    ensures multiset(sessions.Keys) == multiset((sessions - {id}).Keys) + multiset{id}
  {
    assert sessions.Keys == (sessions - {id}).Keys + {id};
  }

  lemma RemoveConserves(s: State, t: RequestID, thread: Thread, id: string)
    requires thread.CallbackResolved? && EntriesOk(s) && Conserved(s) && id in s.sessions
    ensures Conserved(Removes(s, t, thread, id))
  {
    OneKeyLess(s.sessions, id);
  }

  lemma RemoveIsLater(s: State, t: RequestID, thread: Thread, id: string)
    requires Consistent(s.registry) && EntriesOk(s) && thread.CallbackResolved? && id in s.sessions
    ensures Later(s, Removes(s, t, thread, id))
  {
    assert FromInsertion(s, id, s.sessions[id], s.origins[id]);
  }

  lemma RemoveKeepsThreads(c: Config, s: State, t: RequestID, thread: Thread, id: string)
    requires thread.CallbackResolved? && ThreadOk(c, s, t, thread) && ThreadsOk(c, s) && EntriesOk(s) && id in s.sessions
    requires Later(s, Removes(s, t, thread, id))
    ensures ThreadsOk(c, Removes(s, t, thread, id))
  {
    var s' := Removes(s, t, thread, id);
    assert FromInsertion(s, id, s.sessions[id], s.origins[id]);
    assert ThreadOk(c, s', t, s'.threads[t]);
    ThreadsStayOk(c, s, s', t);
  }

  lemma RemoveStep(c: Config, s: State, t: RequestID, thread: Thread, id: string)
    requires Inv(c, s) && thread.CallbackResolved? && ThreadOk(c, s, t, thread) && id in s.sessions
    ensures Inv(c, Removes(s, t, thread, id)) && Later(s, Removes(s, t, thread, id))
  {
    RemoveIsLater(s, t, thread, id);
    RemoveKeepsEntries(s, t, thread, id);
    RemoveConserves(s, t, thread, id);
    InsertionsStayOk(c, s, Removes(s, t, thread, id));
    RemoveKeepsThreads(c, s, t, thread, id);
  }

  lemma TakeStep(c: Config, s: State, t: RequestID, thread: Thread, cookie: Option<string>)
    requires Inv(c, s) && t in s.threads && s.threads[t] == thread && thread.CallbackResolved?
    ensures Inv(c, Takes(s, t, thread, cookie)) && Later(s, Takes(s, t, thread, cookie))
  {
    if cookie.Some? && cookie.value != "" && cookie.value in s.sessions {
      assert ThreadOk(c, s, t, thread);
      RemoveStep(c, s, t, thread, cookie.value);
    } else {
      MoveStep(c, s, t, if cookie.None? || cookie.value == "" then CallbackDone(CookieMissing) else CallbackDone(Refused(NotFound)));
    }
  }

  lemma BeginStep(c: Config, s: State, t: RequestID, thread: Thread, issue: Option<AuthorizationSession>)
    requires Inv(c, s) && t in s.threads && s.threads[t] == thread && thread.BeginResolved?
    ensures Inv(c, Returns(s, t, thread, issue)) && Later(s, Returns(s, t, thread, issue))
  {
    assert ThreadOk(c, s, t, thread);
    QuietStep(c, s, Returns(s, t, thread, issue), t);
  }

  lemma StepKeepsInv(c: Config, s: State, a: Action)
    requires Inv(c, s)
    ensures Inv(c, Step(c, s, a)) && Later(s, Step(c, s, a))
  {
    match a
    case ChangeRegistry(change) =>
      ApplyKeepsConsistent(s.registry, change);
      RegistryStep(c, s, Apply(s.registry, change).registry);
    case BeginLooksUp(t, name) => if t !in s.threads { MoveStep(c, s, t, AfterLookup(c, s, name, true)); }
    case CallbackLooksUp(t, name) => if t !in s.threads { MoveStep(c, s, t, AfterLookup(c, s, name, false)); }
    case _ =>
      if a.t in s.threads {
        RequestStepKeepsInv(c, s, a, s.threads[a.t]);
      }
  }

  lemma RequestStepKeepsInv(c: Config, s: State, a: Action, thread: Thread)
    requires Inv(c, s) && !a.ChangeRegistry? && !a.BeginLooksUp? && !a.CallbackLooksUp?
    requires a.t in s.threads && s.threads[a.t] == thread
    ensures Inv(c, Step(c, s, a)) && Later(s, Step(c, s, a))
  {
    assert ThreadOk(c, s, a.t, thread);
    match a
    case BeginReturns(t, issue) => if thread.BeginResolved? { BeginStep(c, s, t, thread, issue); }
    case CreateReadsClock(t, now) =>
      if thread.BeginIssued? { MoveStep(c, s, t, Drawing(thread.name, thread.provider, thread.session, now, 0)); }
    case CreateDraws(t, drawn) => if thread.Drawing? { MoveStep(c, s, t, AfterDraw(thread, drawn)); }
    case CreateLocks(t) => if thread.Drawn? { LockStep(c, s, t, thread); }
    case ConsumeLocks(t, cookie) => if thread.CallbackResolved? { TakeStep(c, s, t, thread, cookie); }
    case ConsumeReadsClock(t, now) => if thread.EntryTaken? { MoveStep(c, s, t, AfterClock(c, thread, now)); }
  }

  lemma {:induction false} RunKeepsInv(c: Config, s: State, actions: seq<Action>)
    requires Inv(c, s)
    ensures Inv(c, Run(c, s, actions)) && Later(s, Run(c, s, actions))
    decreases |actions|
  {
    if actions != [] {
      StepKeepsInv(c, s, actions[0]);
      RunKeepsInv(c, Step(c, s, actions[0]), actions[1..]);
    }
  }

  function Reached(c: Config, actions: seq<Action>): State {
    Run(c, Init(), actions)
  }

  lemma ReachedKeepsInv(c: Config, actions: seq<Action>)
    ensures Inv(c, Reached(c, actions))
  {
    RunKeepsInv(c, Init(), actions);
  }

  // --- the main results, over every interleaving ---

  // What a call of Complete may rely on.
  ghost predicate Bound(c: Config, s: State, call: CompleteCall) {
    && call.origin < |s.insertions|
    && var ins := s.insertions[call.origin];
       && (call.provider, call.session) in s.issued
       && ins.provider == call.provider
       && ins.session == call.session
       && ins.id == call.id
       && c.trim(ins.requested) == c.trim(call.name)
       && call.reading < ins.now + c.ttl
  }

  // The session passed to Complete was returned by Begin of that same provider instance, was stored
  // by a create for the same name up to outer white space, under the identifier in the cookie, and
  // had not expired at consume's clock reading.
  lemma CompletedCallsAreBound(c: Config, actions: seq<Action>, t: RequestID, call: CompleteCall)
    requires var s := Reached(c, actions);
             t in s.threads && s.threads[t] == CallbackDone(CompleteCalled(call))
    ensures Bound(c, Reached(c, actions), call)
  {
    ReachedKeepsInv(c, actions);
    CallIsBound(c, Reached(c, actions), t, call);
  }

  lemma CallIsBound(c: Config, s: State, t: RequestID, call: CompleteCall)
    requires Inv(c, s) && t in s.threads && s.threads[t] == CallbackDone(CompleteCalled(call))
    ensures Bound(c, s, call)
  {
    assert ThreadOk(c, s, t, s.threads[t]);
    assert InsertionOk(c, s, s.insertions[call.origin]);
  }

  // No stored session reaches Complete twice.
  lemma EachInsertionCompletesOnce(
    c: Config, actions: seq<Action>, t: RequestID, u: RequestID, first: CompleteCall, second: CompleteCall)
    requires var s := Reached(c, actions);
             && t in s.threads && s.threads[t] == CallbackDone(CompleteCalled(first))
             && u in s.threads && s.threads[u] == CallbackDone(CompleteCalled(second))
    ensures first.origin == second.origin ==> t == u
  {
    ReachedKeepsInv(c, actions);
    var s := Reached(c, actions);
    assert ThreadOk(c, s, t, s.threads[t]) && ThreadOk(c, s, u, s.threads[u]);
  }

  // Of the times an identifier was inserted, each is accounted for exactly once: it is live, a
  // consume found it, or a sweep removed it. In particular consumes never find an identifier more
  // often than creates inserted it.
  lemma InsertionsAreAccountedFor(c: Config, actions: seq<Action>, id: string)
    ensures var s := Reached(c, actions);
            && InsertedIDs(s.insertions)[id] == (if id in s.sessions then 1 else 0) + s.found[id] + s.swept[id]
            && |InsertedIDs(s.insertions)| == |s.sessions| + |s.found| + |s.swept|
            && s.found[id] <= InsertedIDs(s.insertions)[id]
  {
    ReachedKeepsInv(c, actions);
    var s := Reached(c, actions);
    assert InsertedIDs(s.insertions)[id] == (multiset(s.sessions.Keys) + s.found + s.swept)[id];
  }

  // A live entry is never overwritten, whatever identifiers the random source repeats: one step can
  // only remove it, by a consume of its identifier or by a create whose reading its expiry has
  // reached.
  lemma EntriesAreNotOverwritten(c: Config, s: State, a: Action, id: string)
    requires id in s.sessions
    ensures var s' := Step(c, s, a);
            || (id in s'.sessions && s'.sessions[id] == s.sessions[id])
            || (a.ConsumeLocks? && a.cookie == Some(id))
            || (a.CreateLocks? && a.t in s.threads && s.threads[a.t].Drawn? && !LiveAt(s.sessions[id], s.threads[a.t].now))
  {
    if a.CreateLocks? && a.t in s.threads && s.threads[a.t].Drawn? && LiveAt(s.sessions[id], s.threads[a.t].now) {
      LockKeepsEntry(c, s, a.t, s.threads[a.t], id);
    }
  }

  lemma LockKeepsEntry(c: Config, s: State, t: RequestID, thread: Thread, id: string)
    requires thread.Drawn? && id in s.sessions && LiveAt(s.sessions[id], thread.now)
    ensures var s' := Locks(c, s, t, thread); id in s'.sessions && s'.sessions[id] == s.sessions[id]
  {}
}
