// The in-memory session store of the example application (examples/nethttp/session_store.go). The
// two locked sections are functions of the map they find; the class runs them, and Login interleaves
// them.

module Sessions {
  import opened Wrappers
  import opened Text
  import opened Model
  import Random

  const DEFAULT_SESSION_TTL := 600_000_000_000
  const ATTEMPTS: nat := 4

  datatype Pending = Pending(provider: string, session: AuthorizationSession, expiresAt: int)

  type SessionMap = map<string, Pending>

  predicate LiveAt(pending: Pending, now: int) {
    pending.expiresAt > now
  }

  // What removeExpired leaves.
  function Live(sessions: SessionMap, now: int): SessionMap {
    map id | id in sessions && LiveAt(sessions[id], now) :: sessions[id]
  }

  // The locked section of create: sweep, then insert unless a live session has the identifier.
  function Inserted(sessions: SessionMap, now: int, id: string, pending: Pending): (SessionMap, bool) {
    var live := Live(sessions, now);
    if id in live then (live, false) else (live[id := pending], true)
  }

  // The locked section of consume.
  function Taken(sessions: SessionMap, id: string): (SessionMap, Option<Pending>) {
    if id in sessions then (sessions - {id}, Some(sessions[id])) else (sessions, None)
  }

  datatype ConsumeError = NotFound | Expired | ProviderMismatch

  // What consume answers once it has taken an entry and read the clock; name is trimmed.
  function Admit(taken: Option<Pending>, name: string, now: int): Result<AuthorizationSession, ConsumeError> {
    if taken.None? then Err(NotFound)
    else if !LiveAt(taken.value, now) then Err(Expired)
    else if taken.value.provider != name then Err(ProviderMismatch)
    else Ok(taken.value.session)
  }

  // The same over the map: expiry comes before the provider's name, and an entry expires at its time.
  ghost predicate Answers(
      sessions: SessionMap, id: string, name: string, now: int, result: Result<AuthorizationSession, ConsumeError>)
  {
    && (result == Err(NotFound) <==> id !in sessions)
    && (result == Err(Expired) <==> id in sessions && sessions[id].expiresAt <= now)
    && (result == Err(ProviderMismatch) <==>
         id in sessions && sessions[id].expiresAt > now && sessions[id].provider != name)
    && (result.Ok? ==> id in sessions && result.value == sessions[id].session)
  }

  lemma AdmitAnswers(sessions: SessionMap, id: string, name: string, now: int)
    ensures Answers(sessions, id, name, now, Admit(Taken(sessions, id).1, name, now))
  {
  }

  datatype CreateError = RandomFailed | Exhausted

  // Consecutive tokens of the random stream, all of them live identifiers.
  ghost predicate Rejected(stream: string, start: nat, rejected: seq<string>, live: SessionMap) {
    && IsBytes(stream) && start + |rejected| * Random.TOKEN_BYTES <= |stream|
    && rejected == Random.Tokens(stream, start, |rejected|)
    && forall i :: 0 <= i < |rejected| ==> rejected[i] in live
  }

  lemma OneMoreRejected(stream: string, start: nat, rejected: seq<string>, live: SessionMap)
    requires Rejected(stream, start, rejected, live) && start + (|rejected| + 1) * Random.TOKEN_BYTES <= |stream|
    requires Random.Token(stream, start + |rejected| * Random.TOKEN_BYTES) in live
    ensures Rejected(stream, start, rejected + [Random.Token(stream, start + |rejected| * Random.TOKEN_BYTES)], live)
  {
  }

  class SessionStore {
    var sessions: SessionMap
    const ttl: int
    const random: Random.Reader

    constructor (ttl: int, random: Random.Reader)
      ensures sessions == map[] && this.random == random
      ensures this.ttl > 0 && (ttl > 0 ==> this.ttl == ttl) && (ttl <= 0 ==> this.ttl == 10 * 60 * 1_000_000_000)
    {
      sessions := map[];
      this.ttl := if ttl <= 0 then DEFAULT_SESSION_TTL else ttl;
      this.random := random;
    }

    method RemoveExpired(now: int)
      modifies this
      ensures sessions == Live(old(sessions), now)
      ensures forall id :: id in sessions <==> id in old(sessions) && old(sessions)[id].expiresAt > now
    {
      var unvisited := sessions.Keys;
      while unvisited != {}
        invariant unvisited <= sessions.Keys <= old(sessions).Keys
        invariant forall id :: id in sessions ==> sessions[id] == old(sessions)[id]
        invariant forall id :: id in old(sessions) && LiveAt(old(sessions)[id], now) ==> id in sessions
        invariant forall id :: id in sessions && id !in unvisited ==> LiveAt(sessions[id], now)
        decreases unvisited
      {
        var id :| id in unvisited;
        unvisited := unvisited - {id};
        if !LiveAt(sessions[id], now) {
          sessions := sessions - {id};
        }
      }
    }

    method Insert(now: int, id: string, pending: Pending) returns (inserted: bool)
      modifies this
      ensures (sessions, inserted) == Inserted(old(sessions), now, id, pending)
    {
      RemoveExpired(now);
      inserted := id !in sessions;
      if inserted {
        sessions := sessions[id := pending];
      }
    }

    // One round of create's loop.
    method Attempt(now: int, pending: Pending, ghost live: SessionMap) returns (id: Option<string>, inserted: bool)
      requires random.Valid() && live == Live(sessions, now)
      modifies this, random
      ensures random.Valid() && old(random.position) <= random.position
      ensures id.None? ==> !inserted && sessions == old(sessions)
      ensures id.Some? ==>
                && random.position == old(random.position) + Random.TOKEN_BYTES
                && id.value == Random.Token(random.stream, old(random.position))
                && (inserted <==> id.value !in live)
                && (inserted ==> sessions == live[id.value := pending])
                && (!inserted ==> sessions == live == Live(sessions, now))
      ensures old(random.Healthy(Random.TOKEN_BYTES)) ==> id.Some? && random.failures == []
    {
      id := random.ReadToken();
      inserted := false;
      if id.Some? {
        LiveIsStable(sessions, now);
        inserted := Insert(now, id.value, pending);
      }
    }

    // create, with no other request in between: the identifier returned is the first of at most four
    // tokens of the random stream that no live session has, and it is the only entry added. rejected
    // are the tokens before it.
    method Create(provider: string, session: AuthorizationSession, now: int)
      returns (result: Result<(string, int), CreateError>, rejected: seq<string>)
      requires random.Valid()
      modifies this, random
      ensures random.Valid() && |rejected| <= ATTEMPTS && old(random.position) + |rejected| * Random.TOKEN_BYTES <= random.position
      ensures Rejected(random.stream, old(random.position), rejected, Live(old(sessions), now))
      ensures result.Ok? ==>
                && random.position == old(random.position) + (|rejected| + 1) * Random.TOKEN_BYTES
                && result.value.0 == Random.Token(random.stream, random.position - Random.TOKEN_BYTES)
                && result.value.0 !in Live(old(sessions), now) && result.value.1 == now + ttl
                && sessions == Live(old(sessions), now)[result.value.0 := Pending(TrimSpace(provider), session, now + ttl)]
      ensures result.Err? ==> sessions == if rejected == [] then old(sessions) else Live(old(sessions), now)
      ensures result == Err(Exhausted) ==> |rejected| == ATTEMPTS == 4
      ensures old(random.Healthy(ATTEMPTS * Random.TOKEN_BYTES)) ==> result != Err(RandomFailed)
    {
      var pending := Pending(TrimSpace(provider), session, now + ttl);
      ghost var live := Live(sessions, now);
      ghost var start := random.position;
      rejected := [];
      for attempt := 0 to ATTEMPTS
        invariant random.Valid() && |rejected| == attempt && random.position == start + attempt * Random.TOKEN_BYTES
        invariant Rejected(random.stream, start, rejected, live)
        invariant live == Live(sessions, now) && sessions == if attempt == 0 then old(sessions) else live
        invariant old(random.Healthy(ATTEMPTS * Random.TOKEN_BYTES)) ==> random.failures == []
      {
        var id, inserted := Attempt(now, pending, live);
        if id.None? {
          return Err(RandomFailed), rejected;
        }
        if inserted {
          return Ok((id.value, pending.expiresAt)), rejected;
        }
        OneMoreRejected(random.stream, start, rejected, live);
        rejected := rejected + [id.value];
      }
      result := Err(Exhausted);
    }

    // consume, with no other request in between: whatever the answer, the entry is gone.
    method Consume(id: string, provider: string, now: int) returns (result: Result<AuthorizationSession, ConsumeError>)
      modifies this
      ensures sessions == old(sessions) - {id}
      ensures result == Admit(Taken(old(sessions), id).1, TrimSpace(provider), now)
      ensures Answers(old(sessions), id, TrimSpace(provider), now, result)
    {
      var exists_ := id in sessions;
      var pending := if exists_ then Some(sessions[id]) else None;
      if exists_ {
        sessions := sessions - {id};
      }
      if pending.None? {
        return Err(NotFound);
      }
      if !LiveAt(pending.value, now) {
        return Err(Expired);
      }
      if pending.value.provider != TrimSpace(provider) {
        return Err(ProviderMismatch);
      }
      result := Ok(pending.value.session);
    }
  }

  lemma LiveIsStable(sessions: SessionMap, now: int)
    ensures Live(Live(sessions, now), now) == Live(sessions, now)
  {}

  // Over the functions the class runs: an inserted session is found once, by whoever names the same
  // provider before it expires, and by nobody afterwards.
  lemma InsertedIsTakenOnce(sessions: SessionMap, created: int, id: string, pending: Pending, name: string, now: int)
    requires Inserted(sessions, created, id, pending).1
    ensures var (after, _) := Inserted(sessions, created, id, pending);
            var (left, found) := Taken(after, id);
            && (Admit(found, name, now) == Ok(pending.session) <==> now < pending.expiresAt && name == pending.provider)
            && Admit(Taken(left, id).1, name, now) == Err(NotFound)
            && left == Live(sessions, created)
  {
    var live := Live(sessions, created);
    assert live[id := pending] - {id} == live;
  }
}
