// The store that sweeps refines one that never does: with clock readings that do not go back and
// identifiers that are not drawn twice, every schedule completes the same logins with the same
// sessions, although create sweeps with a reading taken before it got the lock. Only "expired" may
// turn into "not found".

module Refinement {
  import opened Wrappers
  import opened Model
  import opened Sessions
  import opened Registry
  import opened Login

  // The two stores run the same schedule.
  function Sweeping(ttl: int, trim: string -> string): Config {
    Config(ttl, true, trim)
  }

  function Hoarding(ttl: int, trim: string -> string): Config {
    Config(ttl, false, trim)
  }

  predicate ReadsClock(a: Action) {
    a.CreateReadsClock? || a.ConsumeReadsClock?
  }

  // The latest reading after a step.
  function Clock(now: int, a: Action): int {
    if ReadsClock(a) then a.now else now
  }

  // No reading is earlier than the one before it.
  predicate ClockAdvances(now: int, actions: seq<Action>)
    decreases |actions|
  {
    actions != [] ==> now <= Clock(now, actions[0]) && ClockAdvances(Clock(now, actions[0]), actions[1..])
  }

  function Draw(a: Action): set<string> {
    if a.CreateDraws? && a.drawn.Some? then {a.drawn.value} else {}
  }

  // No identifier is drawn twice.
  predicate DrawsAreFresh(drawn: set<string>, actions: seq<Action>)
    decreases |actions|
  {
    actions != [] ==> Draw(actions[0]) !! drawn && DrawsAreFresh(drawn + Draw(actions[0]), actions[1..])
  }

  // How a request may stand in the two runs: the same, or refused here for an entry that a sweep
  // removed and that the other store gives up only to find it expired.
  ghost predicate Alike(actual: Thread, reference: Thread, now: int) {
    || actual == reference
    || (actual == CallbackDone(Refused(NotFound)) && reference == CallbackDone(Refused(Expired)))
    || (actual == CallbackDone(Refused(NotFound)) && reference.EntryTaken? && !LiveAt(reference.pending, now))
  }

  ghost predicate SameHistory(s: State, r: State) {
    && s.registry == r.registry && s.issued == r.issued && s.insertions == r.insertions
    && s.threads.Keys == r.threads.Keys
  }

  // The reference store has every live entry of the actual one, and otherwise only expired ones.
  ghost predicate SameEntries(s: State, r: State, now: int) {
    && s.origins.Keys == s.sessions.Keys && r.origins.Keys == r.sessions.Keys
    && (forall id :: id in s.sessions ==>
          id in r.sessions && r.sessions[id] == s.sessions[id] && r.origins[id] == s.origins[id])
    && (forall id :: id in r.sessions && id !in s.sessions ==> !LiveAt(r.sessions[id], now))
  }

  ghost predicate AlikeThreads(s: State, r: State, now: int) {
    forall t :: t in s.threads && t in r.threads ==> Alike(s.threads[t], r.threads[t], now)
  }

  // A create's reading is in the past; owner says which request drew an identifier.
  ghost predicate CreateOk(r: State, now: int, owner: map<string, RequestID>, t: RequestID, thread: Thread) {
    && (thread.Drawing? || thread.Drawn? ==> thread.now <= now)
    && (thread.Drawn? ==> thread.id in owner && owner[thread.id] == t && thread.id !in r.sessions)
  }

  ghost predicate CreatesOk(s: State, r: State, now: int, owner: map<string, RequestID>) {
    && r.sessions.Keys <= owner.Keys
    && (forall t :: t in s.threads ==> CreateOk(r, now, owner, t, s.threads[t]))
  }

  ghost predicate Simulates(s: State, r: State, now: int, owner: map<string, RequestID>) {
    SameHistory(s, r) && SameEntries(s, r, now) && AlikeThreads(s, r, now) && CreatesOk(s, r, now, owner)
  }

  // Time passes.
  lemma Wait(s: State, r: State, now: int, later: int, owner: map<string, RequestID>)
    requires Simulates(s, r, now, owner) && now <= later
    ensures Simulates(s, r, later, owner)
  {}

  // A request moves to the same state in both runs, or to states that are alike.
  lemma Move(s: State, r: State, now: int, owner: map<string, RequestID>, t: RequestID, thread: Thread, other: Thread)
    requires Simulates(s, r, now, owner)
    requires Alike(thread, other, now) && CreateOk(r, now, owner, t, thread)
    ensures Simulates(Put(s, t, thread), Put(r, t, other), now, owner)
  {}

  lemma Register(s: State, r: State, now: int, owner: map<string, RequestID>, registry: Registry<Instance>)
    requires Simulates(s, r, now, owner)
    ensures Simulates(s.(registry := registry), r.(registry := registry), now, owner)
  {}

  lemma Issue(s: State, r: State, now: int, owner: map<string, RequestID>, t: RequestID, thread: Thread,
              issue: Option<AuthorizationSession>)
    requires Simulates(s, r, now, owner) && thread.BeginResolved?
    ensures Simulates(Returns(s, t, thread, issue), Returns(r, t, thread, issue), now, owner)
  {}

  lemma DrawnIsNew(s: State, r: State, now: int, owner: map<string, RequestID>, t: RequestID, id: string)
    requires Simulates(s, r, now, owner) && id !in owner
    ensures Simulates(s, r, now, owner[id := t]) && id !in r.sessions
  {}

  // The sweep removes only what has expired by its reading, which is not after the latest one.
  lemma Sweep(ttl: int, trim: string -> string, s: State, r: State, now: int, owner: map<string, RequestID>, reading: int)
    requires Simulates(s, r, now, owner) && reading <= now
    ensures Simulates(Sweeps(Sweeping(ttl, trim), s, reading), Sweeps(Hoarding(ttl, trim), r, reading), now, owner)
  {}

  lemma Add(ttl: int, trim: string -> string, s: State, r: State, now: int, owner: map<string, RequestID>, t: RequestID,
            thread: Thread)
    requires Simulates(s, r, now, owner) && thread.Drawn? && CreateOk(r, now, owner, t, thread)
    ensures Simulates(Adds(Sweeping(ttl, trim), s, t, thread), Adds(Hoarding(ttl, trim), r, t, thread), now, owner)
  {}

  lemma Lock(ttl: int, trim: string -> string, s: State, r: State, now: int, owner: map<string, RequestID>, t: RequestID,
             thread: Thread)
    requires Simulates(s, r, now, owner) && thread.Drawn? && CreateOk(r, now, owner, t, thread)
    ensures Simulates(Locks(Sweeping(ttl, trim), s, t, thread), Locks(Hoarding(ttl, trim), r, t, thread), now, owner)
  {
    Sweep(ttl, trim, s, r, now, owner, thread.now);
    Add(ttl, trim, Sweeps(Sweeping(ttl, trim), s, thread.now), Sweeps(Hoarding(ttl, trim), r, thread.now), now, owner, t, thread);
  }

  lemma Remove(s: State, r: State, now: int, owner: map<string, RequestID>, t: RequestID, thread: Thread, id: string)
    requires Simulates(s, r, now, owner) && thread.CallbackResolved? && id in s.sessions
    ensures id in r.sessions && Simulates(Removes(s, t, thread, id), Removes(r, t, thread, id), now, owner)
  {}

  lemma RemoveExpired(s: State, r: State, now: int, owner: map<string, RequestID>, t: RequestID, thread: Thread, id: string)
    requires Simulates(s, r, now, owner) && thread.CallbackResolved? && id in r.sessions && id !in s.sessions
    ensures Simulates(Put(s, t, CallbackDone(Refused(NotFound))), Removes(r, t, thread, id), now, owner)
  {}

  lemma Take(s: State, r: State, now: int, owner: map<string, RequestID>, t: RequestID, thread: Thread, cookie: Option<string>)
    requires Simulates(s, r, now, owner) && thread.CallbackResolved?
    ensures Simulates(Takes(s, t, thread, cookie), Takes(r, t, thread, cookie), now, owner)
  {
    if cookie.None? || cookie.value == "" {
      Move(s, r, now, owner, t, CallbackDone(CookieMissing), CallbackDone(CookieMissing));
    } else if cookie.value in s.sessions {
      Remove(s, r, now, owner, t, thread, cookie.value);
    } else if cookie.value in r.sessions {
      RemoveExpired(s, r, now, owner, t, thread, cookie.value);
    } else {
      Move(s, r, now, owner, t, CallbackDone(Refused(NotFound)), CallbackDone(Refused(NotFound)));
    }
  }

  // consume's clock reading; a request the actual store has refused already finds its entry expired.
  lemma ReadClock(ttl: int, trim: string -> string, s: State, r: State, now: int, owner: map<string, RequestID>, t: RequestID)
    requires Simulates(s, r, now, owner) && t in s.threads
    ensures var a := ConsumeReadsClock(t, now);
            Simulates(Step(Sweeping(ttl, trim), s, a), Step(Hoarding(ttl, trim), r, a), now, owner)
  {
    var (mine, other) := (s.threads[t], r.threads[t]);
    assert Alike(mine, other, now);
    if mine.EntryTaken? {
      var after := AfterClock(Sweeping(ttl, trim), mine, now);
      Move(s, r, now, owner, t, after, after);
    } else if other.EntryTaken? {
      assert AfterClock(Hoarding(ttl, trim), other, now) == CallbackDone(Refused(Expired));
      Move(s, r, now, owner, t, mine, CallbackDone(Refused(Expired)));
      assert Put(s, t, mine) == s;
    }
  }

  function Owners(owner: map<string, RequestID>, a: Action): map<string, RequestID> {
    if a.CreateDraws? && a.drawn.Some? then owner[a.drawn.value := a.t] else owner
  }

  // The steps of a request that is already known, other than consume's clock reading.
  lemma RequestStep(ttl: int, trim: string -> string, s: State, r: State, now: int, owner: map<string, RequestID>, a: Action)
    requires Simulates(s, r, now, owner) && !a.ChangeRegistry? && !a.BeginLooksUp? && !a.CallbackLooksUp?
    requires a.t in s.threads && !a.ConsumeReadsClock? && (a.CreateReadsClock? ==> a.now == now)
    requires Draw(a) !! owner.Keys
    ensures Simulates(Step(Sweeping(ttl, trim), s, a), Step(Hoarding(ttl, trim), r, a), now, Owners(owner, a))
  {
    var (mine, other) := (s.threads[a.t], r.threads[a.t]);
    assert Alike(mine, other, now) && CreateOk(r, now, owner, a.t, mine);
    match a
    case BeginReturns(t, issue) => if mine.BeginResolved? { Issue(s, r, now, owner, t, mine, issue); }
    case CreateReadsClock(t, _) =>
      if mine.BeginIssued? {
        var after := Drawing(mine.name, mine.provider, mine.session, now, 0);
        Move(s, r, now, owner, t, after, after);
      }
    case CreateDraws(t, drawn) =>
      if drawn.Some? {
        DrawnIsNew(s, r, now, owner, t, drawn.value);
      }
      if mine.Drawing? {
        Move(s, r, now, Owners(owner, a), t, AfterDraw(mine, drawn), AfterDraw(mine, drawn));
      }
    case CreateLocks(t) => if mine.Drawn? { Lock(ttl, trim, s, r, now, owner, t, mine); }
    case ConsumeLocks(t, cookie) => if mine.CallbackResolved? { Take(s, r, now, owner, t, mine, cookie); }
  }

  lemma EachStep(ttl: int, trim: string -> string, s: State, r: State, now: int, owner: map<string, RequestID>, a: Action)
    requires Simulates(s, r, now, owner) && now <= Clock(now, a) && Draw(a) !! owner.Keys
    ensures Simulates(Step(Sweeping(ttl, trim), s, a), Step(Hoarding(ttl, trim), r, a), Clock(now, a), Owners(owner, a))
  {
    Wait(s, r, now, Clock(now, a), owner);
    if a.ChangeRegistry? {
      Register(s, r, now, owner, Apply(s.registry, a.change).registry);
    } else if a.BeginLooksUp? || a.CallbackLooksUp? {
      if a.t !in s.threads {
        var after := AfterLookup(Sweeping(ttl, trim), s, a.name, a.BeginLooksUp?);
        Move(s, r, now, owner, a.t, after, after);
      }
    } else if a.t !in s.threads {
      if a.CreateDraws? && a.drawn.Some? {
        DrawnIsNew(s, r, now, owner, a.t, a.drawn.value);
      }
    } else if a.ConsumeReadsClock? {
      ReadClock(ttl, trim, s, r, a.now, owner, a.t);
    } else {
      RequestStep(ttl, trim, s, r, Clock(now, a), owner, a);
    }
  }

  lemma {:induction false} EachRun(ttl: int, trim: string -> string, s: State, r: State, now: int,
                                   owner: map<string, RequestID>, actions: seq<Action>)
    returns (later: int, owners: map<string, RequestID>)
    requires Simulates(s, r, now, owner) && ClockAdvances(now, actions) && DrawsAreFresh(owner.Keys, actions)
    ensures Simulates(Run(Sweeping(ttl, trim), s, actions), Run(Hoarding(ttl, trim), r, actions), later, owners)
    decreases |actions|
  {
    if actions == [] {
      return now, owner;
    }
    var a := actions[0];
    EachStep(ttl, trim, s, r, now, owner, a);
    assert Owners(owner, a).Keys == owner.Keys + Draw(a);
    later, owners := EachRun(ttl, trim, Step(Sweeping(ttl, trim), s, a), Step(Hoarding(ttl, trim), r, a),
                             Clock(now, a), Owners(owner, a), actions[1..]);
  }

  // On every such schedule, from any first reading: the same requests call Complete, with the same
  // provider and session, and every other request ends the same way too, except that one refused as
  // unknown here may be refused as expired there.
  lemma SweepingIsInvisible(ttl: int, trim: string -> string, start: int, actions: seq<Action>, t: RequestID)
    requires ClockAdvances(start, actions) && DrawsAreFresh({}, actions)
    ensures var s := Reached(Sweeping(ttl, trim), actions);
            var r := Reached(Hoarding(ttl, trim), actions);
            && s.registry == r.registry && s.insertions == r.insertions
            && (t in s.threads <==> t in r.threads)
            && (t in s.threads && s.threads[t] != CallbackDone(Refused(NotFound)) ==> r.threads[t] == s.threads[t])
            && (t in s.threads && r.threads[t].CallbackDone? ==>
                 || s.threads[t] == r.threads[t]
                 || (s.threads[t] == CallbackDone(Refused(NotFound)) && r.threads[t] == CallbackDone(Refused(Expired))))
  {
    var nobody: map<string, RequestID> := map[];
    assert nobody.Keys == {};
    var later, owners := EachRun(ttl, trim, Init(), Init(), start, nobody, actions);
    var s := Reached(Sweeping(ttl, trim), actions);
    var r := Reached(Hoarding(ttl, trim), actions);
    if t in s.threads {
      assert Alike(s.threads[t], r.threads[t], later);
    }
  }
}
