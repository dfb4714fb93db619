// Why Refinement asks for an advancing clock and for identifiers that are not drawn twice: without
// either, one schedule of complete requests tells the two stores apart.

module RefinementLimits {
  import opened Wrappers
  import opened Model
  import opened Sessions
  import opened Registry
  import opened Login

  function Named(sweeping: bool): Config {
    Config(10, sweeping, s => s)
  }

  // One registered provider and no requests.
  function Start(): State {
    Init().(registry := Registry(map["p" := 0], map[]))
  }

  function BeginRequest(t: RequestID, session: AuthorizationSession, now: int, id: string): seq<Action> {
    [BeginLooksUp(t, "p")] + ([BeginReturns(t, Some(session))] + ([CreateReadsClock(t, now)] + ([CreateDraws(t, Some(id))]
    + ([CreateLocks(t)] + []))))
  }

  function CallbackRequest(t: RequestID, id: string, now: int): seq<Action> {
    [CallbackLooksUp(t, "p")] + ([ConsumeLocks(t, Some(id))] + ([ConsumeReadsClock(t, now)] + []))
  }

  // One step, then the rest.
  lemma RunVia(c: Config, s: State, a: Action, next: State, rest: seq<Action>)
    requires Step(c, s, a) == next
    ensures Run(c, s, [a] + rest) == Run(c, next, rest)
  {
    assert ([a] + rest)[1..] == rest;
  }

  lemma {:induction false} RunInParts(c: Config, s: State, first: seq<Action>, rest: seq<Action>)
    ensures Run(c, s, first + rest) == Run(c, Run(c, s, first), rest)
    decreases |first|
  {
    if first == [] {
      assert first + rest == rest;
    } else {
      assert (first + rest)[0] == first[0] && (first + rest)[1..] == first[1..] + rest;
      RunInParts(c, Step(c, s, first[0]), first[1..], rest);
    }
  }

  // s after steps that only moved request t.
  ghost predicate OnlyMoved(s: State, s': State, t: RequestID, thread: Thread) {
    s'.registry == s.registry && s'.sessions == s.sessions && s'.threads == s.threads[t := thread]
  }

  lemma Resolve(c: Config, s: State, t: RequestID, session: AuthorizationSession, rest: seq<Action>) returns (next: State)
    requires t !in s.threads && s.registry == Start().registry && c.trim("p") == "p"
    ensures OnlyMoved(s, next, t, BeginIssued("p", 0, session))
    ensures Run(c, s, [BeginLooksUp(t, "p")] + ([BeginReturns(t, Some(session))] + rest)) == Run(c, next, rest)
  {
    var s1 := Put(s, t, BeginResolved("p", 0));
    next := Returns(s1, t, BeginResolved("p", 0), Some(session));
    RunVia(c, s1, BeginReturns(t, Some(session)), next, rest);
    RunVia(c, s, BeginLooksUp(t, "p"), s1, [BeginReturns(t, Some(session))] + rest);
  }

  lemma Prepare(c: Config, s: State, t: RequestID, session: AuthorizationSession, now: int, id: string, rest: seq<Action>)
    returns (next: State)
    requires t in s.threads && s.threads[t] == BeginIssued("p", 0, session)
    ensures OnlyMoved(s, next, t, Drawn("p", 0, session, now, 0, id))
    ensures Run(c, s, [CreateReadsClock(t, now)] + ([CreateDraws(t, Some(id))] + rest)) == Run(c, next, rest)
  {
    var s1 := Put(s, t, Drawing("p", 0, session, now, 0));
    next := Put(s1, t, Drawn("p", 0, session, now, 0, id));
    RunVia(c, s1, CreateDraws(t, Some(id)), next, rest);
    RunVia(c, s, CreateReadsClock(t, now), s1, [CreateDraws(t, Some(id))] + rest);
  }

  // What the two kinds of store hold after a begin request was served on its own.
  function Stored(sweeping: bool, sessions: SessionMap, session: AuthorizationSession, now: int, id: string): SessionMap {
    var kept := if sweeping then Live(sessions, now) else sessions;
    if id in kept then kept else kept[id := Pending("p", session, now + 10)]
  }

  lemma Locked(sweeping: bool, s: State, t: RequestID, session: AuthorizationSession, now: int, id: string)
    requires t in s.threads && s.threads[t] == Drawn("p", 0, session, now, 0, id)
    ensures var after := Locks(Named(sweeping), s, t, s.threads[t]);
            && after.registry == s.registry && after.threads.Keys == s.threads.Keys
            && after.sessions == Stored(sweeping, s.sessions, session, now, id)
  {}

  lemma StepLocks(c: Config, s: State, t: RequestID)
    requires t in s.threads && s.threads[t].Drawn?
    ensures Step(c, s, CreateLocks(t)) == Locks(c, s, t, s.threads[t])
  {}

  lemma Store(sweeping: bool, s: State, t: RequestID, session: AuthorizationSession, now: int, id: string)
    requires t in s.threads && s.threads[t] == Drawn("p", 0, session, now, 0, id)
    ensures Run(Named(sweeping), s, [CreateLocks(t)] + []) == Locks(Named(sweeping), s, t, s.threads[t])
  {
    var c := Named(sweeping);
    StepLocks(c, s, t);
    RunVia(c, s, CreateLocks(t), Locks(c, s, t, s.threads[t]), []);
  }

  lemma BeginReady(c: Config, s: State, t: RequestID, session: AuthorizationSession, now: int, id: string, last: seq<Action>)
    returns (ready: State)
    requires t !in s.threads && s.registry == Start().registry && c.trim("p") == "p"
    ensures OnlyMoved(s, ready, t, Drawn("p", 0, session, now, 0, id))
    ensures Run(c, s, [BeginLooksUp(t, "p")] + ([BeginReturns(t, Some(session))] + ([CreateReadsClock(t, now)]
                      + ([CreateDraws(t, Some(id))] + last)))) == Run(c, ready, last)
  {
    var issued := Resolve(c, s, t, session, [CreateReadsClock(t, now)] + ([CreateDraws(t, Some(id))] + last));
    ready := Prepare(c, issued, t, session, now, id, last);
  }

  lemma BeginRunsTo(sweeping: bool, s: State, t: RequestID, session: AuthorizationSession, now: int, id: string)
    returns (ready: State)
    requires t !in s.threads && s.registry == Start().registry
    ensures OnlyMoved(s, ready, t, Drawn("p", 0, session, now, 0, id))
    ensures Run(Named(sweeping), s, BeginRequest(t, session, now, id)) == Locks(Named(sweeping), ready, t, ready.threads[t])
  {
    ready := BeginReady(Named(sweeping), s, t, session, now, id, [CreateLocks(t)] + []);
    Store(sweeping, ready, t, session, now, id);
  }

  lemma BeginServed(sweeping: bool, s: State, t: RequestID, session: AuthorizationSession, now: int, id: string)
    requires t !in s.threads && s.registry == Start().registry
    ensures var after := Run(Named(sweeping), s, BeginRequest(t, session, now, id));
            && after.registry == s.registry && after.threads.Keys == s.threads.Keys + {t}
            && after.sessions == Stored(sweeping, s.sessions, session, now, id)
  {
    var ready := BeginRunsTo(sweeping, s, t, session, now, id);
    Locked(sweeping, ready, t, session, now, id);
  }

  // How request t ended, if it did.
  function Ended(s: State, t: RequestID): Option<CallbackOutcome> {
    if t in s.threads && s.threads[t].CallbackDone? then Some(s.threads[t].callback) else None
  }

  // What a callback for "p" comes to, in terms of the entry it takes.
  ghost predicate Answered(outcome: Option<CallbackOutcome>, taken: Option<Pending>, now: int) {
    match Admit(taken, "p", now)
    case Err(error) => outcome == Some(Refused(error))
    case Ok(session) => outcome.Some? && outcome.value.CompleteCalled? && outcome.value.call.session == session
  }

  lemma Admitted(sweeping: bool, s: State, t: RequestID, pending: Pending, id: string, origin: nat, now: int)
    requires t in s.threads && s.threads[t] == EntryTaken("p", 0, id, pending, origin)
    ensures Answered(Ended(Run(Named(sweeping), s, [ConsumeReadsClock(t, now)] + []), t), Some(pending), now)
  {
    var c := Named(sweeping);
    RunVia(c, s, ConsumeReadsClock(t, now), Put(s, t, AfterClock(c, s.threads[t], now)), []);
  }

  lemma NotAdmitted(sweeping: bool, s: State, t: RequestID, now: int)
    requires t in s.threads && s.threads[t] == CallbackDone(Refused(NotFound))
    ensures Answered(Ended(Run(Named(sweeping), s, [ConsumeReadsClock(t, now)] + []), t), None, now)
  {
    RunVia(Named(sweeping), s, ConsumeReadsClock(t, now), s, []);
  }

  lemma CallbackServed(sweeping: bool, s: State, t: RequestID, id: string, now: int)
    requires t !in s.threads && s.registry == Start().registry && id != ""
    ensures Answered(Ended(Run(Named(sweeping), s, CallbackRequest(t, id, now)), t), Taken(s.sessions, id).1, now)
  {
    var c := Named(sweeping);
    var (a1, a2) := (ConsumeLocks(t, Some(id)), ConsumeReadsClock(t, now));
    var s1 := Put(s, t, CallbackResolved("p", 0));
    var s2 := Takes(s1, t, CallbackResolved("p", 0), Some(id));
    RunVia(c, s1, a1, s2, [a2] + []);
    RunVia(c, s, CallbackLooksUp(t, "p"), s1, [a1] + ([a2] + []));
    if id in s.sessions {
      Admitted(sweeping, s2, t, s.sessions[id], id, s2.threads[t].origin, now);
    } else {
      NotAdmitted(sweeping, s2, t, now);
    }
  }

  // Two begins and one callback.
  function Schedule(first: AuthorizationSession, second: AuthorizationSession, now1: int, id1: string, now2: int, id2: string,
                    id: string, now3: int): seq<Action>
  {
    BeginRequest(1, first, now1, id1) + (BeginRequest(2, second, now2, id2) + CallbackRequest(3, id, now3))
  }

  lemma ScheduleServed(sweeping: bool, first: AuthorizationSession, second: AuthorizationSession,
                       now1: int, id1: string, now2: int, id2: string, id: string, now3: int)
    requires id != ""
    ensures var after := Run(Named(sweeping), Start(), Schedule(first, second, now1, id1, now2, id2, id, now3));
            var sessions := Stored(sweeping, Stored(sweeping, map[], first, now1, id1), second, now2, id2);
            Answered(Ended(after, 3), Taken(sessions, id).1, now3)
  {
    var c := Named(sweeping);
    var (b1, b2, k) := (BeginRequest(1, first, now1, id1), BeginRequest(2, second, now2, id2), CallbackRequest(3, id, now3));
    var s1 := Run(c, Start(), b1);
    BeginServed(sweeping, Start(), 1, first, now1, id1);
    var s2 := Run(c, s1, b2);
    BeginServed(sweeping, s1, 2, second, now2, id2);
    CallbackServed(sweeping, s2, 3, id, now3);
    RunInParts(c, s1, b2, k);
    RunInParts(c, Start(), b1, b2 + k);
  }

  // The identifier "i" is drawn again after its first entry expired: the sweeping store logs the
  // second request in, the other one gives up the first request's entry.
  lemma RepeatedIdentifierIsVisible(x: AuthorizationSession, y: AuthorizationSession)
    ensures var actions := Schedule(x, y, 0, "i", 20, "i", "i", 25);
            var (actual, reference) := (Ended(Run(Named(true), Start(), actions), 3), Ended(Run(Named(false), Start(), actions), 3));
            actual.Some? && actual.value.CompleteCalled? && reference == Some(Refused(Expired))
  {
    ScheduleServed(true, x, y, 0, "i", 20, "i", "i", 25);
    ScheduleServed(false, x, y, 0, "i", 20, "i", "i", 25);
  }

  // The clock goes back from 20 to 5: the sweep at 20 has removed an entry that is live at 5.
  lemma BackwardClockIsVisible(x: AuthorizationSession, y: AuthorizationSession)
    ensures var actions := Schedule(x, y, 0, "i", 20, "j", "i", 5);
            var (actual, reference) := (Ended(Run(Named(true), Start(), actions), 3), Ended(Run(Named(false), Start(), actions), 3));
            actual == Some(Refused(NotFound)) && reference.Some? && reference.value.CompleteCalled?
  {
    ScheduleServed(true, x, y, 0, "i", 20, "j", "i", 5);
    ScheduleServed(false, x, y, 0, "i", 20, "j", "i", 5);
  }
}
