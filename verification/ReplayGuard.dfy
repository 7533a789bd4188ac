/**
 Single-use requests: the store that remembers keys for a while, and the signature check
 that uses it to refuse a nonce it has seen.  Times are nanoseconds; every request takes
 one clock reading.
 */
module ReplayGuard {

  datatype Key = Ingest(key: nat) | Nonce(origin: nat, nonce: nat)

  const SWEEP_THRESHOLD := 1024

  /** A request that gets as far as the store (`reaches`), or is refused before. */
  datatype Call = Call(reaches: bool, key: Key, window: nat, now: int)

  predicate Holds(seen: map<Key, int>, key: Key, now: int) {
    key in seen && now < seen[key]
  }

  function Swept(seen: map<Key, int>, now: int): map<Key, int> {
    if |seen| > SWEEP_THRESHOLD then map k | k in seen && !(now > seen[k]) :: seen[k] else seen
  }

  function Remember(seen: map<Key, int>, c: Call): map<Key, int> {
    if !c.reaches || Holds(seen, c.key, c.now) then seen
    else Swept(seen, c.now)[c.key := c.now + c.window]
  }

  function After(calls: seq<Call>): map<Key, int> {
    if calls == [] then map[] else Remember(After(calls[..|calls| - 1]), calls[|calls| - 1])
  }

  ghost predicate Accepted(calls: seq<Call>, i: nat)
    requires i < |calls|
  {
    calls[i].reaches && !Holds(After(calls[..i]), calls[i].key, calls[i].now)
  }

  ghost predicate Clocked(calls: seq<Call>) {
    forall i, j :: 0 <= i < j < |calls| ==> calls[i].now <= calls[j].now
  }

  /** Call `i` was accepted for `key` and its window is still open at `now`. */
  ghost predicate OpenAt(calls: seq<Call>, i: nat, key: Key, now: int) {
    i < |calls| && calls[i].key == key && Accepted(calls, i) && now < calls[i].now + calls[i].window
  }

  ghost predicate AnyOpen(calls: seq<Call>, key: Key, now: int) {
    exists i: nat :: OpenAt(calls, i, key, now)
  }

  /** A window that is open later is open earlier. */
  lemma AnyOpenEarlier(calls: seq<Call>, key: Key, now: int, later: int)
    requires now <= later && AnyOpen(calls, key, later)
    ensures AnyOpen(calls, key, now)
  {
    var i: nat :| OpenAt(calls, i, key, later);
    assert OpenAt(calls, i, key, now);
  }

  lemma OpenInPrefix(calls: seq<Call>, n: nat, i: nat, key: Key, now: int)
    requires i < n <= |calls|
    ensures OpenAt(calls[..n], i, key, now) <==> OpenAt(calls, i, key, now)
  {
    assert calls[..n][..i] == calls[..i];
  }

  lemma AnyOpenLast(calls: seq<Call>, key: Key, now: int)
    requires calls != []
    ensures AnyOpen(calls, key, now)
      <==> OpenAt(calls, |calls| - 1, key, now) || AnyOpen(calls[..|calls| - 1], key, now)
  {
    var n := |calls| - 1;
    if AnyOpen(calls, key, now) {
      var i: nat :| OpenAt(calls, i, key, now);
      if i < n {
        OpenInPrefix(calls, n, i, key, now);
      }
    }
    if AnyOpen(calls[..n], key, now) {
      var i: nat :| OpenAt(calls[..n], i, key, now);
      OpenInPrefix(calls, n, i, key, now);
    }
  }

  /** What the sweep deletes never matters: the store knows exactly the keys with an open window. */
  lemma {:induction false} StoreIsExact(calls: seq<Call>, key: Key, now: int)
    requires Clocked(calls) && forall i :: 0 <= i < |calls| ==> calls[i].now <= now
    ensures Holds(After(calls), key, now) <==> AnyOpen(calls, key, now)
  {
    if calls != [] {
      var n := |calls| - 1;
      var before, c := calls[..n], calls[n];
      StoreIsExact(before, key, now);
      StoreIsExact(before, c.key, c.now);
      AnyOpenLast(calls, key, now);
      if AnyOpen(before, key, now) {
        AnyOpenEarlier(before, key, c.now, now);
      }
    }
  }

  /** A key is refused exactly while the window of an accepted use of it is open. */
  lemma SeenExactly(calls: seq<Call>, j: nat)
    requires Clocked(calls) && j < |calls| && calls[j].reaches
    ensures !Accepted(calls, j) <==> exists i: nat :: i < j && OpenAt(calls, i, calls[j].key, calls[j].now)
  {
    var key, now := calls[j].key, calls[j].now;
    StoreIsExact(calls[..j], key, now);
    forall i: nat | i < j
      ensures OpenAt(calls[..j], i, key, now) <==> OpenAt(calls, i, key, now)
    {
      OpenInPrefix(calls, j, i, key, now);
    }
  }

  // --------------------------------------------------------- signed requests

  const MAX_SKEW: nat := 5 * 60 * 1_000_000_000

  /** What the headers of a request say; `authentic` stands for a good signature by a listed key. */
  datatype Request = Request(
    complete: bool, origin: nat, nonce: nat, timestamp: int, parses: bool, wellFormed: bool, authentic: bool)

  datatype Verdict = MissingHeaders | BadTimestamp | Stale | BadSignature | Replayed | Verified(origin: nat)

  predicate WithinSkew(r: Request, now: int) {
    -(MAX_SKEW as int) <= now - r.timestamp <= MAX_SKEW
  }

  /** The checks before the replay store, in their order; `Verified` here means "not refused yet". */
  function Precheck(r: Request, now: int): Verdict {
    if !r.complete then MissingHeaders
    else if !r.parses then BadTimestamp
    else if !WithinSkew(r, now) then Stale
    else if !r.wellFormed || !r.authentic then BadSignature
    else Verified(r.origin)
  }

  function CallOf(r: Request, now: int): Call {
    Call(Precheck(r, now).Verified?, Nonce(r.origin, r.nonce), 2 * MAX_SKEW, now)
  }

  /** Call `i` is request `r` arriving, and it is accepted. */
  ghost predicate AcceptedRequest(calls: seq<Call>, i: nat, r: Request) {
    i < |calls| && calls[i] == CallOf(r, calls[i].now) && Accepted(calls, i)
  }

  /**
   A signed request is accepted at most once among all other traffic, with one exception:
   at the two very ends of the skew window.
   */
  lemma SignedRequestIsSingleUse(calls: seq<Call>, i: nat, j: nat, r: Request)
    requires Clocked(calls) && i < j && AcceptedRequest(calls, i, r) && AcceptedRequest(calls, j, r)
    ensures calls[i].now == r.timestamp - MAX_SKEW && calls[j].now == r.timestamp + MAX_SKEW
  {
    SeenExactly(calls, j);
    assert !OpenAt(calls, i, calls[j].key, calls[j].now);
  }

  /** Strictly inside the skew window there is no exception. */
  lemma InsideTheWindowOnce(calls: seq<Call>, i: nat, j: nat, r: Request)
    requires Clocked(calls) && i < j && AcceptedRequest(calls, i, r) && j < |calls|
    requires calls[j] == CallOf(r, calls[j].now) && calls[j].now < r.timestamp + MAX_SKEW
    ensures !Accepted(calls, j)
  {
    if Accepted(calls, j) {
      SignedRequestIsSingleUse(calls, i, j, r);
    }
  }

  /** The exception is real: the store's window closes at the instant the skew check still passes. */
  lemma BothEndsOfTheWindowAccept(r: Request)
    requires r.complete && r.parses && r.wellFormed && r.authentic
    ensures var calls := [CallOf(r, r.timestamp - MAX_SKEW), CallOf(r, r.timestamp + MAX_SKEW)];
      Clocked(calls) && AcceptedRequest(calls, 0, r) && AcceptedRequest(calls, 1, r)
  {
    var first, last := CallOf(r, r.timestamp - MAX_SKEW), CallOf(r, r.timestamp + MAX_SKEW);
    var calls := [first, last];
    assert calls[..0] == [] && calls[..1] == [first] && [first][..0] == [];
    assert After([first]) == map[first.key := first.now + first.window];
    assert calls[0] == CallOf(r, calls[0].now) && calls[1] == CallOf(r, calls[1].now);
  }

  // ------------------------------------------------------------------ the code

  /** The key is held for the window; of the others the expired ones are gone if there were more than 1024. */
  ghost predicate Remembered(was: map<Key, int>, seen: map<Key, int>, key: Key, now: int, window: nat) {
    && key in seen && seen[key] == now + window
    && (forall k :: k in seen && k != key ==> k in was && seen[k] == was[k])
    && (forall k :: k in was && k != key ==> (k !in seen <==> |was| > 1024 && now > was[k]))
  }

  class Memory {
    var seen: map<Key, int>

    constructor ()
      ensures seen == map[]
    {
      seen := map[];
    }

    /** `Seen`: check, sweep what has expired if the store has grown, and record. */
    method Seen(key: Key, window: nat, now: int) returns (duplicate: bool)
      modifies this
      ensures duplicate <==> key in old(seen) && now < old(seen)[key]
      ensures seen == Remember(old(seen), Call(true, key, window, now))
      ensures duplicate ==> seen == old(seen)
      ensures !duplicate ==> Remembered(old(seen), seen, key, now, window)
    {
      if key in seen && now < seen[key] {
        return true;
      }
      if |seen| > SWEEP_THRESHOLD {
        Sweep(now);
      }
      seen := seen[key := now + window];
      duplicate := false;
    }

    method Sweep(now: int)
      modifies this
      ensures seen == map k | k in old(seen) && !(now > old(seen)[k]) :: old(seen)[k]
    {
      var todo := seen.Keys;
      while todo != {}
        invariant todo <= seen.Keys <= old(seen).Keys
        invariant forall k :: k in seen ==> seen[k] == old(seen)[k]
        invariant forall k :: k in old(seen) && k !in todo ==> (k in seen <==> !(now > old(seen)[k]))
        decreases todo
      {
        var k :| k in todo;
        todo := todo - {k};
        if now > seen[k] {
          seen := seen - {k};
        }
      }
    }
  }

  /** The clock reading is within five minutes of the timestamp, either way. */
  predicate Timely(r: Request, now: int) {
    r.timestamp - 300_000_000_000 <= now <= r.timestamp + 300_000_000_000
  }

  /** Every header is there and reads well, and the signature is a listed key's. */
  predicate Signed(r: Request) {
    r.complete && r.parses && r.wellFormed && r.authentic
  }

  /** The origin has used the nonce, and has not been forgotten. */
  predicate Used(seen: map<Key, int>, r: Request, now: int) {
    Nonce(r.origin, r.nonce) in seen && now < seen[Nonce(r.origin, r.nonce)]
  }

  /**
   `Verify`: a request is verified, as its origin's, exactly if it is signed, timely and not
   used before.  Each refusal names the first condition that fails.  Only a signed and timely
   request touches the replay store, where it is then remembered for twice the skew.
   */
  method Verify(r: Request, now: int, guard: Memory) returns (v: Verdict)
    modifies guard
    ensures guard.seen == Remember(old(guard.seen), CallOf(r, now))
    ensures v.Verified? <==> Signed(r) && Timely(r, now) && !Used(old(guard.seen), r, now)
    ensures v.Verified? ==> v.origin == r.origin
    ensures v.MissingHeaders? <==> !r.complete
    ensures v.BadTimestamp? <==> r.complete && !r.parses
    ensures v.Stale? <==> r.complete && r.parses && !Timely(r, now)
    ensures v.BadSignature? <==> r.complete && r.parses && Timely(r, now) && !(r.wellFormed && r.authentic)
    ensures v.Replayed? <==> Signed(r) && Timely(r, now) && Used(old(guard.seen), r, now)
    ensures !v.Verified? ==> guard.seen == old(guard.seen)
    ensures v.Verified? ==> Remembered(old(guard.seen), guard.seen, Nonce(r.origin, r.nonce), now, 600_000_000_000)
  {
    if !r.complete {
      return MissingHeaders;
    }
    if !r.parses {
      return BadTimestamp;
    }
    var d := now - r.timestamp;
    if d > MAX_SKEW || d < -(MAX_SKEW as int) {
      return Stale;
    }
    if !r.wellFormed {
      return BadSignature;
    }
    if !r.authentic {
      return BadSignature;
    }
    var duplicate := guard.Seen(Nonce(r.origin, r.nonce), 2 * MAX_SKEW, now);
    v := if duplicate then Replayed else Verified(r.origin);
  }
}
