// Any number of Begin calls, of any number of providers, that draw their states and verifiers from one
// random source (oauth2provider/provider.go). A draw holds its provider's lock from its first Read to
// its last; another provider holds another lock. The source is an io.Reader that is safe for concurrent
// use: a Read is one step, and hands over as many bytes as it likes.

module Issuance {
  import opened Wrappers
  import opened Text
  import Base64Url
  import Random

  datatype Purpose = ForState | ForVerifier

  // One call of randomValue.
  datatype Draw = Draw(provider: nat, call: nat, purpose: Purpose)

  // Who took a byte of the source: a draw, or somebody who is no provider.
  datatype Reader = By(draw: Draw) | Outsider

  // What a call has yet to draw: the state first, then the verifier.
  datatype Wanted = Wanted(provider: nat, state: bool, verifier: bool)

  // A draw that holds its provider's lock, and the bytes io.ReadFull has put into its buffer.
  datatype Drawing = Drawing(draw: Draw, buffer: string)

  // owners says who took each byte of the stream so far; the source goes on at |owners|.
  datatype State = State(owners: seq<Reader>, calls: map<nat, Wanted>, locks: map<nat, Drawing>, drawn: map<Draw, string>)

  datatype Action =
    | Start(call: nat, provider: nat, disableState: bool, pkce: bool)
    | Lock(call: nat)
    | Read(provider: nat, count: nat, fails: bool) // by the holder of the provider's lock
    | ReadElsewhere(count: nat)

  function Init(): State {
    State([], map[], map[], map[])
  }

  function Min(a: nat, b: nat): nat {
    if a < b then a else b
  }

  function Copies(r: Reader, n: nat): seq<Reader> {
    seq(n, _ => r)
  }

  predicate Wants(w: Wanted, purpose: Purpose) {
    if purpose == ForState then w.state else w.verifier
  }

  // How many bytes a Read hands over, asked for room.
  function Count(stream: string, s: State, count: nat, room: nat): nat {
    Min(Min(count, room), if |s.owners| <= |stream| then |stream| - |s.owners| else 0)
  }

  function Locks(s: State, call: nat): State
    requires call in s.calls
  {
    var w := s.calls[call];
    if w.provider in s.locks || (!w.state && !w.verifier) then s
    else
      var draw := Draw(w.provider, call, if w.state then ForState else ForVerifier);
      s.(calls := s.calls[call := Wanted(w.provider, false, w.state && w.verifier)],
         locks := s.locks[w.provider := Drawing(draw, "")])
  }

  // What io.ReadFull makes of a buffer after a Read: done, failed, or on to the next Read.
  function Settle(s: State, p: nat, d: Drawing, fails: bool): State {
    if |d.buffer| == Random.TOKEN_BYTES then s.(locks := s.locks - {p}, drawn := s.drawn[d.draw := d.buffer])
    else if fails then s.(locks := s.locks - {p}, calls := s.calls[d.draw.call := Wanted(d.draw.provider, false, false)])
    else s.(locks := s.locks[p := d])
  }

  function Reads(stream: string, s: State, p: nat, count: nat, fails: bool): State
    requires p in s.locks && |s.locks[p].buffer| < Random.TOKEN_BYTES
  {
    var (d, at) := (s.locks[p], |s.owners|);
    var n := Count(stream, s, count, Random.TOKEN_BYTES - |d.buffer|);
    var bytes := if at + n <= |stream| then stream[at..at + n] else "";
    Settle(s.(owners := s.owners + Copies(By(d.draw), n)), p, Drawing(d.draw, d.buffer + bytes), fails)
  }

  function Step(stream: string, s: State, a: Action): State {
    match a
    case Start(call, provider, disableState, pkce) =>
      if call in s.calls then s else s.(calls := s.calls[call := Wanted(provider, !disableState, pkce)])
    case Lock(call) => if call in s.calls then Locks(s, call) else s
    case Read(p, count, fails) =>
      if p in s.locks && |s.locks[p].buffer| < Random.TOKEN_BYTES then Reads(stream, s, p, count, fails) else s
    case ReadElsewhere(count) => s.(owners := s.owners + Copies(Outsider, Count(stream, s, count, count)))
  }

  function Run(stream: string, s: State, actions: seq<Action>): State
    decreases |actions|
  {
    if actions == [] then s else Run(stream, Step(stream, s, actions[0]), actions[1..])
  }

  function Reached(stream: string, actions: seq<Action>): State {
    Run(stream, Init(), actions)
  }

  // --- the bytes of a draw ---

  // Where in the stream the bytes of a draw came from, and the bytes there.
  function Positions(owners: seq<Reader>, draw: Draw): seq<nat> {
    if owners == [] then []
    else
      var last := |owners| - 1;
      Positions(owners[..last], draw) + if owners[last] == By(draw) then [last] else []
  }

  function Bytes(stream: string, owners: seq<Reader>, draw: Draw): string
    requires |owners| <= |stream|
  {
    if owners == [] then ""
    else
      var last := |owners| - 1;
      Bytes(stream, owners[..last], draw) + if owners[last] == By(draw) then [stream[last]] else ""
  }

  // In ascending order, exactly the positions the draw owns.
  lemma {:induction false} PositionsMean(stream: string, owners: seq<Reader>, draw: Draw)
    requires |owners| <= |stream|
    ensures var (ps, bytes) := (Positions(owners, draw), Bytes(stream, owners, draw));
            && |ps| == |bytes|
            && (forall i :: 0 <= i < |ps| ==> ps[i] < |owners| && owners[ps[i]] == By(draw) && bytes[i] == stream[ps[i]])
            && (forall i, j :: 0 <= i < j < |ps| ==> ps[i] < ps[j])
            && (forall k :: 0 <= k < |owners| && owners[k] == By(draw) ==> k in ps)
  {
    if owners != [] {
      PositionsMean(stream, owners[..|owners| - 1], draw);
    }
  }

  lemma {:induction false} BytesGrow(stream: string, owners: seq<Reader>, r: Reader, n: nat, draw: Draw)
    requires |owners| + n <= |stream|
    ensures Bytes(stream, owners + Copies(r, n), draw) ==
            Bytes(stream, owners, draw) + if r == By(draw) then stream[|owners|..|owners| + n] else ""
  {
    var all := owners + Copies(r, n);
    if n == 0 {
      assert all == owners;
    } else {
      assert all[..|all| - 1] == owners + Copies(r, n - 1);
      BytesGrow(stream, owners, r, n - 1, draw);
      assert stream[|owners|..|owners| + n] == stream[|owners|..|owners| + n - 1] + [stream[|owners| + n - 1]];
    }
  }

  lemma {:induction false} NoBytesYet(stream: string, owners: seq<Reader>, draw: Draw)
    requires |owners| <= |stream| && By(draw) !in owners
    ensures Bytes(stream, owners, draw) == ""
  {
    if owners != [] {
      var last := |owners| - 1;
      assert owners[last] in owners;
      NoBytesYet(stream, owners[..last], draw);
    }
  }

  // --- what every step keeps ---

  ghost predicate Asked(s: State, draw: Draw) {
    draw.call in s.calls && s.calls[draw.call].provider == draw.provider && !Wants(s.calls[draw.call], draw.purpose)
  }

  // Whoever took a byte had asked to draw.
  ghost predicate OwnersOk(s: State) {
    forall k :: 0 <= k < |s.owners| && s.owners[k].By? ==> Asked(s, s.owners[k].draw)
  }

  ghost predicate LockOk(stream: string, s: State, p: nat, d: Drawing)
    requires |s.owners| <= |stream|
  {
    && d.draw.provider == p && Asked(s, d.draw) && d.draw !in s.drawn
    && |d.buffer| < Random.TOKEN_BYTES && d.buffer == Bytes(stream, s.owners, d.draw)
  }

  ghost predicate LocksOk(stream: string, s: State)
    requires |s.owners| <= |stream|
  {
    forall p :: p in s.locks ==> LockOk(stream, s, p, s.locks[p])
  }

  ghost predicate DrawnOk(stream: string, s: State)
    requires |s.owners| <= |stream|
  {
    forall draw :: draw in s.drawn ==>
      Asked(s, draw) && |s.drawn[draw]| == Random.TOKEN_BYTES && s.drawn[draw] == Bytes(stream, s.owners, draw)
  }

  ghost predicate Holds(s: State, draw: Draw) {
    draw.provider in s.locks && s.locks[draw.provider].draw == draw
  }

  ghost predicate Rivals(r: Reader, q: Reader) {
    r.By? && q.By? && r.draw.provider == q.draw.provider && r != q
  }

  // Once another draw of the same provider has read, a draw does not hold the lock any more, and it
  // does not read again.
  ghost predicate LockWorks(s: State) {
    && (forall i, k :: 0 <= i < k < |s.owners| && Rivals(s.owners[i], s.owners[k]) ==> !Holds(s, s.owners[i].draw))
    && (forall i, k, j :: 0 <= i < k < j < |s.owners| && Rivals(s.owners[i], s.owners[k]) ==> s.owners[j] != s.owners[i])
  }

  ghost predicate Inv(stream: string, s: State) {
    |s.owners| <= |stream| && OwnersOk(s) && LocksOk(stream, s) && DrawnOk(stream, s) && LockWorks(s)
  }

  lemma StartKeepsInv(stream: string, s: State, call: nat, w: Wanted)
    requires Inv(stream, s) && call !in s.calls
    ensures Inv(stream, s.(calls := s.calls[call := w]))
  {
  }

  // What a call wants, nobody has drawn for it.
  lemma WantedIsNew(stream: string, s: State, draw: Draw)
    requires Inv(stream, s) && draw.call in s.calls && Wants(s.calls[draw.call], draw.purpose)
    ensures By(draw) !in s.owners && draw !in s.drawn && Bytes(stream, s.owners, draw) == ""
  {
    forall k | 0 <= k < |s.owners|
      ensures s.owners[k] != By(draw)
    {
      assert s.owners[k].By? ==> Asked(s, s.owners[k].draw);
    }
    NoBytesYet(stream, s.owners, draw);
  }

  // Nobody asks for more than before, or holds another lock.
  ghost predicate Calms(s: State, s': State) {
    && s'.owners == s.owners
    && (forall draw :: Asked(s, draw) ==> Asked(s', draw))
    && (forall draw :: Holds(s', draw) ==> Holds(s, draw))
  }

  lemma CalmKeepsOwners(s: State, s': State)
    requires OwnersOk(s) && LockWorks(s) && Calms(s, s')
    ensures OwnersOk(s') && LockWorks(s')
  {
  }

  lemma LockKeepsInv(stream: string, s: State, call: nat)
    requires Inv(stream, s) && call in s.calls
    ensures Inv(stream, Locks(s, call))
  {
    var w := s.calls[call];
    if w.provider !in s.locks && (w.state || w.verifier) {
      var draw := Draw(w.provider, call, if w.state then ForState else ForVerifier);
      var rest := Wanted(w.provider, false, w.state && w.verifier);
      WantedIsNew(stream, s, draw);
      AskKeepsInv(stream, s, call, rest);
      TakeKeepsInv(stream, s.(calls := s.calls[call := rest]), draw);
    }
  }

  lemma AskKeepsInv(stream: string, s: State, call: nat, rest: Wanted)
    requires Inv(stream, s) && call in s.calls && rest.provider == s.calls[call].provider
    requires forall purpose :: Wants(rest, purpose) ==> Wants(s.calls[call], purpose)
    ensures Inv(stream, s.(calls := s.calls[call := rest]))
  {
    var s' := s.(calls := s.calls[call := rest]);
    CalmKeepsOwners(s, s');
    forall q | q in s'.locks
      ensures LockOk(stream, s', q, s'.locks[q])
    {
      assert LockOk(stream, s, q, s.locks[q]);
    }
  }

  lemma TakeKeepsInv(stream: string, s: State, draw: Draw)
    requires Inv(stream, s) && draw.provider !in s.locks && Asked(s, draw)
    requires By(draw) !in s.owners && draw !in s.drawn && Bytes(stream, s.owners, draw) == ""
    ensures Inv(stream, s.(locks := s.locks[draw.provider := Drawing(draw, "")]))
  {
    var s' := s.(locks := s.locks[draw.provider := Drawing(draw, "")]);
    TakeKeepsOrder(s, draw);
    forall q | q in s'.locks
      ensures LockOk(stream, s', q, s'.locks[q])
    {
      assert q != draw.provider ==> LockOk(stream, s, q, s.locks[q]);
    }
  }

  lemma TakeKeepsOrder(s: State, draw: Draw)
    requires LockWorks(s) && By(draw) !in s.owners
    ensures LockWorks(s.(locks := s.locks[draw.provider := Drawing(draw, "")]))
  {
    var s' := s.(locks := s.locks[draw.provider := Drawing(draw, "")]);
    forall i, k | 0 <= i < k < |s'.owners| && Rivals(s'.owners[i], s'.owners[k])
      ensures !Holds(s', s'.owners[i].draw)
    {
      assert s.owners[i] in s.owners;
      assert !Holds(s, s.owners[i].draw);
    }
  }

  // The bytes go to the holder of a lock, or to an outsider.
  ghost predicate MayRead(s: State, r: Reader) {
    r.By? ==> Holds(s, r.draw) && Asked(s, r.draw)
  }

  lemma GrowthKeepsOwners(s: State, r: Reader, n: nat)
    requires OwnersOk(s) && LockWorks(s) && MayRead(s, r)
    ensures OwnersOk(s.(owners := s.owners + Copies(r, n))) && LockWorks(s.(owners := s.owners + Copies(r, n)))
  {
    var s' := s.(owners := s.owners + Copies(r, n));
    forall i, k | 0 <= i < k < |s'.owners| && Rivals(s'.owners[i], s'.owners[k])
      ensures !Holds(s', s'.owners[i].draw)
    {
      assert i < |s.owners|;
      if k < |s.owners| {
        assert !Holds(s, s.owners[i].draw);
      }
    }
    forall i, k, j | 0 <= i < k < j < |s'.owners| && Rivals(s'.owners[i], s'.owners[k])
      ensures s'.owners[j] != s'.owners[i]
    {
      if k < |s.owners| {
        assert !Holds(s, s.owners[i].draw);
      }
    }
  }

  lemma DrawnIsNotHeld(stream: string, s: State, draw: Draw)
    requires Inv(stream, s) && draw in s.drawn
    ensures !Holds(s, draw)
  {
    if draw.provider in s.locks {
      assert LockOk(stream, s, draw.provider, s.locks[draw.provider]);
    }
  }

  lemma GrowthKeepsOthers(stream: string, s: State, r: Reader, n: nat)
    requires Inv(stream, s) && |s.owners| + n <= |stream| && MayRead(s, r)
    ensures DrawnOk(stream, s.(owners := s.owners + Copies(r, n)))
    ensures forall p :: p in s.locks && r != By(s.locks[p].draw) ==>
              LockOk(stream, s.(owners := s.owners + Copies(r, n)), p, s.locks[p])
  {
    forall draw | draw in s.drawn
      ensures Bytes(stream, s.owners + Copies(r, n), draw) == Bytes(stream, s.owners, draw)
    {
      if Holds(s, draw) {
        DrawnIsNotHeld(stream, s, draw);
      }
      BytesGrow(stream, s.owners, r, n, draw);
    }
    forall p | p in s.locks && r != By(s.locks[p].draw)
      ensures LockOk(stream, s.(owners := s.owners + Copies(r, n)), p, s.locks[p])
    {
      BytesGrow(stream, s.owners, r, n, s.locks[p].draw);
    }
  }

  lemma ElsewhereKeepsInv(stream: string, s: State, n: nat)
    requires Inv(stream, s) && |s.owners| + n <= |stream|
    ensures Inv(stream, s.(owners := s.owners + Copies(Outsider, n)))
  {
    GrowthKeepsOwners(s, Outsider, n);
    GrowthKeepsOthers(stream, s, Outsider, n);
  }

  lemma ReleaseKeepsInv(stream: string, s: State, p: nat)
    requires |s.owners| <= |stream| && OwnersOk(s) && DrawnOk(stream, s) && LockWorks(s)
    requires forall q :: q in s.locks && q != p ==> LockOk(stream, s, q, s.locks[q])
    ensures Inv(stream, s.(locks := s.locks - {p}))
  {
    var s' := s.(locks := s.locks - {p});
    CalmKeepsOwners(s, s');
    forall q | q in s'.locks
      ensures LockOk(stream, s', q, s'.locks[q])
    {
      assert LockOk(stream, s, q, s.locks[q]);
    }
  }

  lemma RecordKeepsInv(stream: string, s: State, draw: Draw, buffer: string)
    requires Inv(stream, s) && draw.provider !in s.locks && Asked(s, draw)
    requires |buffer| == Random.TOKEN_BYTES && buffer == Bytes(stream, s.owners, draw)
    ensures Inv(stream, s.(drawn := s.drawn[draw := buffer]))
  {
    var s' := s.(drawn := s.drawn[draw := buffer]);
    CalmKeepsOwners(s, s');
    forall q | q in s'.locks
      ensures LockOk(stream, s', q, s'.locks[q])
    {
      assert LockOk(stream, s, q, s.locks[q]);
    }
  }

  lemma NextKeepsInv(stream: string, s: State, p: nat, d: Drawing)
    requires |s.owners| <= |stream| && OwnersOk(s) && DrawnOk(stream, s) && LockWorks(s)
    requires p in s.locks && s.locks[p].draw == d.draw && LockOk(stream, s, p, d)
    requires forall q :: q in s.locks && q != p ==> LockOk(stream, s, q, s.locks[q])
    ensures Inv(stream, s.(locks := s.locks[p := d]))
  {
    var s' := s.(locks := s.locks[p := d]);
    CalmKeepsOwners(s, s');
    forall q | q in s'.locks
      ensures LockOk(stream, s', q, s'.locks[q])
    {
      assert q != p ==> LockOk(stream, s, q, s.locks[q]);
    }
  }

  // The holder of a lock has read into its buffer, and has not looked at it yet.
  ghost predicate Filled(stream: string, s: State, p: nat, d: Drawing) {
    && |s.owners| <= |stream| && OwnersOk(s) && LockWorks(s) && DrawnOk(stream, s)
    && (forall q :: q in s.locks && q != p ==> LockOk(stream, s, q, s.locks[q]))
    && p in s.locks && s.locks[p].draw == d.draw && d.draw.provider == p && Asked(s, d.draw) && d.draw !in s.drawn
    && |d.buffer| <= Random.TOKEN_BYTES && d.buffer == Bytes(stream, s.owners, d.draw)
  }

  lemma SettleKeepsInv(stream: string, s: State, p: nat, d: Drawing, fails: bool)
    requires Filled(stream, s, p, d)
    ensures Inv(stream, Settle(s, p, d, fails))
  {
    if |d.buffer| == Random.TOKEN_BYTES {
      ReleaseKeepsInv(stream, s, p);
      RecordKeepsInv(stream, s.(locks := s.locks - {p}), d.draw, d.buffer);
    } else if fails {
      ReleaseKeepsInv(stream, s, p);
      AskKeepsInv(stream, s.(locks := s.locks - {p}), d.draw.call, Wanted(p, false, false));
    } else {
      NextKeepsInv(stream, s, p, d);
    }
  }

  lemma HoldersDiffer(stream: string, s: State, p: nat, q: nat)
    requires Inv(stream, s) && p in s.locks && q in s.locks
    ensures s.locks[p].draw == s.locks[q].draw ==> p == q
    ensures s.locks[p].draw.provider == p && Asked(s, s.locks[p].draw) && s.locks[p].draw !in s.drawn
    ensures s.locks[p].buffer == Bytes(stream, s.owners, s.locks[p].draw)
  {
    assert LockOk(stream, s, p, s.locks[p]) && LockOk(stream, s, q, s.locks[q]);
  }

  lemma GrowthFillsBuffer(stream: string, s: State, p: nat, n: nat, d: Drawing)
    requires Inv(stream, s) && p in s.locks && |s.owners| + n <= |stream| && |d.buffer| <= Random.TOKEN_BYTES
    requires d == Drawing(s.locks[p].draw, s.locks[p].buffer + stream[|s.owners|..|s.owners| + n])
    ensures Filled(stream, s.(owners := s.owners + Copies(By(d.draw), n)), p, d)
  {
    HoldersDiffer(stream, s, p, p);
    GrowthKeepsOwners(s, By(d.draw), n);
    GrowthKeepsOthers(stream, s, By(d.draw), n);
    BytesGrow(stream, s.owners, By(d.draw), n, d.draw);
    var grown := s.(owners := s.owners + Copies(By(d.draw), n));
    forall q | q in s.locks && q != p
      ensures LockOk(stream, grown, q, s.locks[q])
    {
      HoldersDiffer(stream, s, p, q);
    }
  }

  lemma ReadsSettles(stream: string, s: State, p: nat, count: nat, fails: bool) returns (n: nat, d: Drawing)
    requires |s.owners| <= |stream| && p in s.locks && |s.locks[p].buffer| < Random.TOKEN_BYTES
    ensures |s.owners| + n <= |stream| && |d.buffer| <= Random.TOKEN_BYTES
    ensures d == Drawing(s.locks[p].draw, s.locks[p].buffer + stream[|s.owners|..|s.owners| + n])
    ensures Reads(stream, s, p, count, fails) == Settle(s.(owners := s.owners + Copies(By(d.draw), n)), p, d, fails)
  {
    n := Count(stream, s, count, Random.TOKEN_BYTES - |s.locks[p].buffer|);
    d := Drawing(s.locks[p].draw, s.locks[p].buffer + stream[|s.owners|..|s.owners| + n]);
  }

  lemma ReadKeepsInv(stream: string, s: State, p: nat, count: nat, fails: bool)
    requires Inv(stream, s) && p in s.locks && |s.locks[p].buffer| < Random.TOKEN_BYTES
    ensures Inv(stream, Reads(stream, s, p, count, fails))
  {
    var n, d := ReadsSettles(stream, s, p, count, fails);
    GrowthFillsBuffer(stream, s, p, n, d);
    SettleKeepsInv(stream, s.(owners := s.owners + Copies(By(d.draw), n)), p, d, fails);
  }

  lemma StepKeepsInv(stream: string, s: State, a: Action)
    requires Inv(stream, s)
    ensures Inv(stream, Step(stream, s, a))
  {
    match a
    case Start(call, provider, disableState, pkce) =>
      if call !in s.calls {
        StartKeepsInv(stream, s, call, Wanted(provider, !disableState, pkce));
      }
    case Lock(call) =>
      if call in s.calls {
        LockKeepsInv(stream, s, call);
      }
    case Read(p, count, fails) =>
      if p in s.locks && |s.locks[p].buffer| < Random.TOKEN_BYTES {
        ReadKeepsInv(stream, s, p, count, fails);
      }
    case ReadElsewhere(count) => ElsewhereKeepsInv(stream, s, Count(stream, s, count, count));
  }

  lemma {:induction false} RunKeepsInv(stream: string, s: State, actions: seq<Action>)
    requires Inv(stream, s)
    ensures Inv(stream, Run(stream, s, actions))
    decreases |actions|
  {
    if actions != [] {
      StepKeepsInv(stream, s, actions[0]);
      RunKeepsInv(stream, Step(stream, s, actions[0]), actions[1..]);
    }
  }

  lemma ReachedKeepsInv(stream: string, actions: seq<Action>)
    ensures Inv(stream, Reached(stream, actions))
  {
    RunKeepsInv(stream, Init(), actions);
  }

  // --- tokens ---

  // What a finished draw returns.
  function Token(s: State, draw: Draw): string
    requires draw in s.drawn && IsBytes(s.drawn[draw])
  {
    Base64Url.Encode(s.drawn[draw])
  }

  lemma {:induction false} BytesAreBytes(stream: string, owners: seq<Reader>, draw: Draw)
    requires |owners| <= |stream| && IsBytes(stream)
    ensures IsBytes(Bytes(stream, owners, draw))
  {
    if owners != [] {
      BytesAreBytes(stream, owners[..|owners| - 1], draw);
    }
  }

  // A finished draw has 32 bytes, gathered in ascending order from positions of the stream.
  ghost predicate GatheredAt(stream: string, bytes: string, positions: seq<nat>) {
    && |bytes| == |positions| == Random.TOKEN_BYTES
    && (forall i :: 0 <= i < |positions| ==> positions[i] < |stream| && bytes[i] == stream[positions[i]])
    && (forall i, j :: 0 <= i < j < |positions| ==> positions[i] < positions[j])
  }

  lemma DrawIsGathered(stream: string, actions: seq<Action>, draw: Draw)
    requires IsBytes(stream) && draw in Reached(stream, actions).drawn
    ensures var s := Reached(stream, actions);
            && IsBytes(s.drawn[draw]) && GatheredAt(stream, s.drawn[draw], Positions(s.owners, draw))
  {
    ReachedKeepsInv(stream, actions);
    var s := Reached(stream, actions);
    assert Asked(s, draw);
    PositionsMean(stream, s.owners, draw);
    BytesAreBytes(stream, s.owners, draw);
  }

  // Over every interleaving of draws, of any providers, whatever the reads hand over: the bytes of two
  // draws come from positions of the stream that have none in common, and their tokens are equal exactly
  // when those bytes are. There is one draw per call and purpose.
  lemma TokensAreIndependent(stream: string, actions: seq<Action>, a: Draw, b: Draw)
    requires IsBytes(stream) && a != b && a in Reached(stream, actions).drawn && b in Reached(stream, actions).drawn
    ensures var s := Reached(stream, actions);
            var (p, q) := (Positions(s.owners, a), Positions(s.owners, b));
            && IsBytes(s.drawn[a]) && IsBytes(s.drawn[b])
            && GatheredAt(stream, s.drawn[a], p) && GatheredAt(stream, s.drawn[b], q)
            && (forall i, j :: 0 <= i < |p| && 0 <= j < |q| ==> p[i] != q[j])
            && (a.call, a.purpose) != (b.call, b.purpose)
            && (Token(s, a) == Token(s, b) <==> s.drawn[a] == s.drawn[b])
  {
    DrawIsGathered(stream, actions, a);
    DrawIsGathered(stream, actions, b);
    ReachedKeepsInv(stream, actions);
    var s := Reached(stream, actions);
    PositionsMean(stream, s.owners, a);
    PositionsMean(stream, s.owners, b);
    assert Asked(s, a) && Asked(s, b);
    if Token(s, a) == Token(s, b) {
      Base64Url.EncodeIsInjective(s.drawn[a], s.drawn[b]);
    }
  }

  // --- when a token is one window of the stream ---

  // The draw took all 32 bytes in a row, from a on.
  ghost predicate WindowAt(owners: seq<Reader>, draw: Draw, a: nat) {
    a + Random.TOKEN_BYTES <= |owners| && forall k :: a <= k < a + Random.TOKEN_BYTES ==> owners[k] == By(draw)
  }

  // Nobody but its own provider took a byte between the draw's first and its last.
  ghost predicate Undisturbed(owners: seq<Reader>, draw: Draw) {
    forall i, k, j :: 0 <= i < k < j < |owners| && owners[i] == owners[j] == By(draw) ==>
      owners[k].By? && owners[k].draw.provider == draw.provider
  }

  lemma {:induction false} BytesOfConcat(stream: string, owners: seq<Reader>, n: nat, draw: Draw)
    requires n <= |owners| <= |stream|
    requires forall k :: n <= k < |owners| ==> owners[k] == By(draw)
    ensures Bytes(stream, owners, draw) == Bytes(stream, owners[..n], draw) + stream[n..|owners|]
    decreases |owners|
  {
    if n == |owners| {
      assert owners[..n] == owners;
    } else {
      var last := |owners| - 1;
      BytesOfConcat(stream, owners[..last], n, draw);
      assert owners[..last][..n] == owners[..n];
      assert stream[n..|owners|] == stream[n..last] + [stream[last]];
    }
  }

  lemma {:induction false} BytesOfPrefix(stream: string, owners: seq<Reader>, n: nat, draw: Draw)
    requires n <= |owners| <= |stream|
    ensures Bytes(stream, owners[..n], draw) <= Bytes(stream, owners, draw)
    ensures |Bytes(stream, owners[..n], draw)| == |Bytes(stream, owners, draw)| ==>
              forall k :: n <= k < |owners| ==> owners[k] != By(draw)
    decreases |owners|
  {
    if n == |owners| {
      assert owners[..n] == owners;
    } else {
      var last := |owners| - 1;
      BytesOfPrefix(stream, owners[..last], n, draw);
      assert owners[..last][..n] == owners[..n];
    }
  }

  lemma BytesOfRow(stream: string, owners: seq<Reader>, i: nat, j: nat, draw: Draw)
    requires i <= j <= |owners| <= |stream| && forall k :: i <= k < j ==> owners[k] == By(draw)
    ensures Bytes(stream, owners[..i], draw) + stream[i..j] <= Bytes(stream, owners, draw)
  {
    BytesOfConcat(stream, owners[..j], i, draw);
    assert owners[..j][..i] == owners[..i];
    BytesOfPrefix(stream, owners, j, draw);
  }

  lemma WindowIsWhole(stream: string, owners: seq<Reader>, draw: Draw, a: nat)
    requires |owners| <= |stream| && WindowAt(owners, draw, a) && |Bytes(stream, owners, draw)| == Random.TOKEN_BYTES
    ensures Bytes(stream, owners, draw) == stream[a..a + Random.TOKEN_BYTES]
  {
    BytesOfRow(stream, owners, a, a + Random.TOKEN_BYTES, draw);
  }

  lemma WindowIsUndisturbed(stream: string, owners: seq<Reader>, draw: Draw, a: nat)
    requires |owners| <= |stream| && WindowAt(owners, draw, a) && |Bytes(stream, owners, draw)| == Random.TOKEN_BYTES
    ensures Undisturbed(owners, draw)
  {
    var b := a + Random.TOKEN_BYTES;
    BytesOfRow(stream, owners, a, b, draw);
    BytesOfConcat(stream, owners[..b], a, draw);
    assert owners[..b][..a] == owners[..a];
    BytesOfPrefix(stream, owners, b, draw);
    PositionsMean(stream, owners[..a], draw);
    forall i | 0 <= i < a
      ensures owners[i] != By(draw)
    {
      assert owners[..a][i] == owners[i];
    }
  }

  lemma {:induction false} AscendingSpreads(positions: seq<nat>, n: nat)
    requires n < |positions| && forall i, j :: 0 <= i < j < |positions| ==> positions[i] < positions[j]
    ensures positions[n] >= positions[0] + n
  {
    if n > 0 {
      AscendingSpreads(positions, n - 1);
    }
  }

  lemma UndisturbedIsWindow(stream: string, s: State, draw: Draw)
    requires |s.owners| <= |stream| && LockWorks(s) && Undisturbed(s.owners, draw)
    requires |Bytes(stream, s.owners, draw)| == Random.TOKEN_BYTES
    ensures exists a :: WindowAt(s.owners, draw, a)
  {
    PositionsMean(stream, s.owners, draw);
    var ps := Positions(s.owners, draw);
    var (first, last) := (ps[0], ps[Random.TOKEN_BYTES - 1]);
    AscendingSpreads(ps, Random.TOKEN_BYTES - 1);
    forall k | first <= k <= last
      ensures s.owners[k] == By(draw)
    {
      assert first < k < last ==> s.owners[k].By? && s.owners[k].draw.provider == draw.provider;
      assert s.owners[last] == s.owners[first] == By(draw);
      assert k < last ==> !Rivals(s.owners[first], s.owners[k]);
    }
    BytesOfRow(stream, s.owners, first, last + 1, draw);
    assert WindowAt(s.owners, draw, first);
  }

  // A draw takes its 32 bytes in a row, and its token is then the encoding of that window of the
  // stream, if and only if nobody but its own provider took a byte between its first and its last.
  lemma WindowIffUndisturbed(stream: string, actions: seq<Action>, draw: Draw)
    requires IsBytes(stream) && draw in Reached(stream, actions).drawn
    ensures var s := Reached(stream, actions);
            && IsBytes(s.drawn[draw]) && |s.owners| <= |stream|
            && ((exists a :: WindowAt(s.owners, draw, a)) <==> Undisturbed(s.owners, draw))
            && (forall a :: WindowAt(s.owners, draw, a) ==> Token(s, draw) == Random.Token(stream, a))
  {
    DrawIsGathered(stream, actions, draw);
    ReachedKeepsInv(stream, actions);
    var s := Reached(stream, actions);
    assert Asked(s, draw);
    forall a | WindowAt(s.owners, draw, a)
      ensures Undisturbed(s.owners, draw) && Token(s, draw) == Random.Token(stream, a)
    {
      WindowIsUndisturbed(stream, s.owners, draw, a);
      WindowIsWhole(stream, s.owners, draw, a);
    }
    if Undisturbed(s.owners, draw) {
      UndisturbedIsWindow(stream, s, draw);
    }
  }

  // --- sources where every token is a window ---

  // One provider has the source to itself.
  predicate Alone(p: nat, actions: seq<Action>) {
    forall a :: a in actions ==> !a.ReadElsewhere? && (a.Start? ==> a.provider == p)
  }

  ghost predicate OnlyBy(p: nat, s: State) {
    (forall call :: call in s.calls ==> s.calls[call].provider == p) && Outsider !in s.owners
  }

  lemma StepStaysAlone(stream: string, p: nat, s: State, a: Action)
    requires Inv(stream, s) && OnlyBy(p, s) && !a.ReadElsewhere? && (a.Start? ==> a.provider == p)
    ensures OnlyBy(p, Step(stream, s, a))
  {
    if a.Read? && a.provider in s.locks {
      assert LockOk(stream, s, a.provider, s.locks[a.provider]);
    }
  }

  lemma {:induction false} RunStaysAlone(stream: string, p: nat, s: State, actions: seq<Action>)
    requires Inv(stream, s) && OnlyBy(p, s) && Alone(p, actions)
    ensures OnlyBy(p, Run(stream, s, actions))
    decreases |actions|
  {
    if actions != [] {
      assert actions[0] in actions && forall a :: a in actions[1..] ==> a in actions;
      StepStaysAlone(stream, p, s, actions[0]);
      StepKeepsInv(stream, s, actions[0]);
      RunStaysAlone(stream, p, Step(stream, s, actions[0]), actions[1..]);
    }
  }

  lemma AloneDrawsWindows(stream: string, p: nat, actions: seq<Action>, draw: Draw)
    requires IsBytes(stream) && Alone(p, actions) && draw in Reached(stream, actions).drawn
    ensures exists a :: WindowAt(Reached(stream, actions).owners, draw, a)
  {
    var s := Reached(stream, actions);
    RunStaysAlone(stream, p, Init(), actions);
    ReachedKeepsInv(stream, actions);
    assert Asked(s, draw);
    forall k | 0 <= k < |s.owners|
      ensures s.owners[k].By? && s.owners[k].draw.provider == draw.provider
    {
      assert s.owners[k] in s.owners;
      assert Asked(s, s.owners[k].draw);
    }
    WindowIffUndisturbed(stream, actions, draw);
  }

  // The source hands over all it is asked for, as long as it has it.
  predicate Whole(actions: seq<Action>) {
    forall a :: a in actions && a.Read? ==> a.count >= Random.TOKEN_BYTES
  }

  ghost predicate InOneRead(stream: string, s: State) {
    && (forall p :: p in s.locks ==> s.locks[p].buffer == "" || |s.owners| == |stream|)
    && (forall draw :: draw in s.drawn ==> exists a :: WindowAt(s.owners, draw, a))
  }

  lemma WindowsStay(owners: seq<Reader>, r: Reader, n: nat, draw: Draw)
    requires exists a :: WindowAt(owners, draw, a)
    ensures exists a :: WindowAt(owners + Copies(r, n), draw, a)
  {
    var a :| WindowAt(owners, draw, a);
    assert WindowAt(owners + Copies(r, n), draw, a);
  }

  lemma ReadInOne(stream: string, s: State, p: nat, count: nat, fails: bool)
    requires Inv(stream, s) && InOneRead(stream, s) && p in s.locks && |s.locks[p].buffer| < Random.TOKEN_BYTES
    requires count >= Random.TOKEN_BYTES
    ensures InOneRead(stream, Reads(stream, s, p, count, fails))
  {
    var n, d := ReadsSettles(stream, s, p, count, fails);
    var grown := s.owners + Copies(By(d.draw), n);
    var s' := Reads(stream, s, p, count, fails);
    forall draw | draw in s'.drawn
      ensures exists a :: WindowAt(grown, draw, a)
    {
      if draw in s.drawn {
        WindowsStay(s.owners, By(d.draw), n, draw);
      } else {
        assert WindowAt(grown, d.draw, |s.owners|);
      }
    }
  }

  lemma StepInOne(stream: string, s: State, a: Action)
    requires Inv(stream, s) && InOneRead(stream, s) && (a.Read? ==> a.count >= Random.TOKEN_BYTES)
    ensures InOneRead(stream, Step(stream, s, a))
  {
    if a.Read? && a.provider in s.locks && |s.locks[a.provider].buffer| < Random.TOKEN_BYTES {
      ReadInOne(stream, s, a.provider, a.count, a.fails);
    } else if a.ReadElsewhere? {
      var n := Count(stream, s, a.count, a.count);
      forall draw | draw in s.drawn
        ensures exists at :: WindowAt(s.owners + Copies(Outsider, n), draw, at)
      {
        WindowsStay(s.owners, Outsider, n, draw);
      }
    }
  }

  lemma {:induction false} RunInOne(stream: string, s: State, actions: seq<Action>)
    requires Inv(stream, s) && InOneRead(stream, s) && Whole(actions)
    ensures InOneRead(stream, Run(stream, s, actions))
    decreases |actions|
  {
    if actions != [] {
      assert actions[0] in actions && forall a :: a in actions[1..] ==> a in actions;
      StepInOne(stream, s, actions[0]);
      StepKeepsInv(stream, s, actions[0]);
      RunInOne(stream, Step(stream, s, actions[0]), actions[1..]);
    }
  }

  lemma WholeReadsDrawWindows(stream: string, actions: seq<Action>, draw: Draw)
    requires IsBytes(stream) && Whole(actions) && draw in Reached(stream, actions).drawn
    ensures exists a :: WindowAt(Reached(stream, actions).owners, draw, a)
  {
    RunInOne(stream, Init(), actions);
  }

  // --- two providers on one source that hands over 16 bytes at a time ---

  const FIRST: Draw := Draw(0, 0, ForState)
  const SECOND: Draw := Draw(1, 1, ForState)

  // The first provider's draw is interrupted by the second's.
  function Interrupted(): seq<Action> {
    [Start(0, 0, false, false), Start(1, 1, false, false), Lock(0), Lock(1),
     Read(0, 16, false), Read(1, 16, false), Read(0, 16, false)]
  }

  lemma RunVia(stream: string, s: State, a: Action, next: State, rest: seq<Action>)
    requires Step(stream, s, a) == next
    ensures Run(stream, s, [a] + rest) == Run(stream, next, rest)
  {
    assert ([a] + rest)[1..] == rest;
  }

  lemma ReadOf(stream: string, s: State, p: nat, d: Drawing)
    requires p in s.locks && s.locks[p] == d && |d.buffer| <= 16 && |s.owners| + 16 <= |stream|
    ensures var at := |s.owners|;
            Step(stream, s, Read(p, 16, false)) ==
            Settle(s.(owners := s.owners + Copies(By(d.draw), 16)), p, Drawing(d.draw, d.buffer + stream[at..at + 16]), false)
  {
  }

  function Both(owners: seq<Reader>, first: string, second: string): State {
    State(owners, map[0 := Wanted(0, false, false), 1 := Wanted(1, false, false)],
          map[0 := Drawing(FIRST, first), 1 := Drawing(SECOND, second)], map[])
  }

  lemma BothLock(stream: string, rest: seq<Action>)
    ensures Run(stream, Init(), [Start(0, 0, false, false)] + ([Start(1, 1, false, false)] + ([Lock(0)] + ([Lock(1)] + rest)))) ==
            Run(stream, Both([], "", ""), rest)
  {
    var w := Wanted(0, true, false);
    var s1 := State([], map[0 := w], map[], map[]);
    var s2 := State([], map[0 := w, 1 := Wanted(1, true, false)], map[], map[]);
    var s3 := State([], map[0 := Wanted(0, false, false), 1 := Wanted(1, true, false)], map[0 := Drawing(FIRST, "")], map[]);
    RunVia(stream, Init(), Start(0, 0, false, false), s1, [Start(1, 1, false, false)] + ([Lock(0)] + ([Lock(1)] + rest)));
    RunVia(stream, s1, Start(1, 1, false, false), s2, [Lock(0)] + ([Lock(1)] + rest));
    RunVia(stream, s2, Lock(0), s3, [Lock(1)] + rest);
    RunVia(stream, s3, Lock(1), Both([], "", ""), rest);
  }

  lemma FirstHalf(stream: string, rest: seq<Action>)
    requires |stream| >= 48
    ensures Run(stream, Both([], "", ""), [Read(0, 16, false)] + ([Read(1, 16, false)] + rest)) ==
            Run(stream, Both(Copies(By(FIRST), 16) + Copies(By(SECOND), 16), stream[..16], stream[16..32]), rest)
  {
    var (a, b) := (Copies(By(FIRST), 16), Copies(By(SECOND), 16));
    var s1 := Both(a, stream[..16], "");
    ReadOf(stream, Both([], "", ""), 0, Drawing(FIRST, ""));
    assert [] + a == a && "" + stream[0..0 + 16] == stream[..16];
    RunVia(stream, Both([], "", ""), Read(0, 16, false), s1, [Read(1, 16, false)] + rest);
    ReadOf(stream, s1, 1, Drawing(SECOND, ""));
    assert "" + stream[16..16 + 16] == stream[16..32];
    RunVia(stream, s1, Read(1, 16, false), Both(a + b, stream[..16], stream[16..32]), rest);
  }

  lemma LastRead(stream: string, s: State)
    requires |stream| >= 48
    requires s == Both(Copies(By(FIRST), 16) + Copies(By(SECOND), 16), stream[..16], stream[16..32])
    ensures var after := Run(stream, s, [Read(0, 16, false)] + []);
            && FIRST in after.drawn && after.drawn[FIRST] == stream[..16] + stream[32..48]
            && |after.owners| == 48 && after.owners[0] == after.owners[32] == By(FIRST) && after.owners[16] == By(SECOND)
  {
    ReadOf(stream, s, 0, Drawing(FIRST, stream[..16]));
    RunVia(stream, s, Read(0, 16, false), Step(stream, s, Read(0, 16, false)), []);
  }

  // Then the first provider's 32 bytes are no window of the stream: they have a gap.
  lemma InterruptedDraw(stream: string)
    requires |stream| >= 48
    ensures var s := Reached(stream, Interrupted());
            && FIRST in s.drawn && s.drawn[FIRST] == stream[..16] + stream[32..48]
            && !Undisturbed(s.owners, FIRST)
  {
    var s := Both(Copies(By(FIRST), 16) + Copies(By(SECOND), 16), stream[..16], stream[16..32]);
    var rest := [Read(0, 16, false)] + ([Read(1, 16, false)] + ([Read(0, 16, false)] + []));
    assert Interrupted() ==
           [Start(0, 0, false, false)] + ([Start(1, 1, false, false)] + ([Lock(0)] + ([Lock(1)] + rest)));
    BothLock(stream, rest);
    FirstHalf(stream, [Read(0, 16, false)] + []);
    LastRead(stream, s);
  }
}
