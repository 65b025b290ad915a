/**
 * The hello replay cache: nonces per public key with expiries, pruned lazily and swept now and
 * then, against the plain log of accepted calls. Times are milliseconds of one clock.
 */
module NonceCache {
  import opened Basics

  const TS_WINDOW := 300_000
  const REPLAY_KEEP := TS_WINDOW + 60_000
  const SWEEP_EVERY := 60_000
  const NONCE_MIN_LEN := 16

  type Nonces = map<string, int>

  /** seen: public key to nonce to expiry; no sweep has happened at the start. */
  datatype Cache = Cache(seen: map<string, Nonces>, lastSweep: Option<int>)

  const EMPTY_CACHE := Cache(map[], None)

  function Unexpired(m: Nonces, now: int): Nonces {
    map k | k in m && now < m[k] :: m[k]
  }

  function Swept(c: Cache, now: int): Cache {
    Cache(map p | p in c.seen && Unexpired(c.seen[p], now) != map[] :: Unexpired(c.seen[p], now), Some(now))
  }

  predicate SweepDue(c: Cache, now: int) {
    c.lastSweep.None? || now - c.lastSweep.value >= SWEEP_EVERY
  }

  function NoncesOf(c: Cache, pub: string): Nonces {
    if pub in c.seen then c.seen[pub] else map[]
  }

  /** The nonce is held and has not expired. */
  predicate Replayed(c: Cache, pub: string, nonce: string, now: int) {
    nonce in NoncesOf(c, pub) && now < NoncesOf(c, pub)[nonce]
  }

  function Checked(c: Cache, pub: string, nonce: string, now: int): Cache {
    if Replayed(c, pub, nonce, now) then c
    else
      var c1 := c.(seen := c.seen[pub := Unexpired(NoncesOf(c, pub)[nonce := now + REPLAY_KEEP], now)]);
      if SweepDue(c1, now) then Swept(c1, now) else c1
  }

  // -------- the cache in place

  class NonceCache {
    var seen: map<string, Nonces>
    var lastSweep: Option<int>

    ghost function State(): Cache
      reads this
    {
      Cache(seen, lastSweep)
    }

    constructor ()
      ensures State() == EMPTY_CACHE
    {
      seen, lastSweep := map[], None;
    }

    /** Records a nonce; false means it was already there and still counts. */
    method Check(pub: string, nonce: string, now: int) returns (ok: bool)
      modifies this
      ensures ok <==> !Replayed(old(State()), pub, nonce, now)
      ensures State() == Checked(old(State()), pub, nonce, now)
    {
      var perPub := if pub in seen then seen[pub] else map[];
      if nonce in perPub && now < perPub[nonce] {
        return false;
      }
      perPub := perPub[nonce := now + REPLAY_KEEP];
      perPub := Prune(perPub, now);
      seen := seen[pub := perPub];
      if lastSweep.None? || now - lastSweep.value >= SWEEP_EVERY {
        Sweep(now);
      }
      return true;
    }

    /** The checks of a hello, in their order; the nonce is recorded only by the last. */
    method CheckFrame(f: Hello, now: int) returns (v: Verdict)
      modifies this
      ensures (State(), v) == CheckHello(old(State()), f, now)
    {
      if |f.nonce| < NONCE_MIN_LEN {
        return ShortNonce;
      }
      if !f.sigOk {
        return BadSignature;
      }
      if !TsFresh(f.ts, now) {
        return StaleTs;
      }
      var ok := Check(f.pub, f.nonce, now);
      v := if ok then Welcome else ReplayedNonce;
    }

    /** Drops expired nonces, and public keys left without any. */
    method Sweep(now: int)
      modifies this
      ensures State() == Swept(old(State()), now)
    {
      lastSweep := Some(now);
      var todo := seen.Keys;
      while todo != {}
        invariant todo <= old(seen).Keys && lastSweep == Some(now)
        invariant forall p :: p in seen <==> p in old(seen) && (p in todo || Unexpired(old(seen)[p], now) != map[])
        invariant forall p :: p in seen ==> seen[p] == if p in todo then old(seen)[p] else Unexpired(old(seen)[p], now)
        decreases |todo|
      {
        var pub :| pub in todo;
        todo := todo - {pub};
        var perPub := Prune(seen[pub], now);
        if perPub == map[] {
          seen := seen - {pub};
        } else {
          seen := seen[pub := perPub];
        }
      }
    }
  }

  datatype Hello = Hello(pub: string, nonce: string, ts: int, sigOk: bool)

  /** The verdicts of the hello gauntlet, in the order the checks are made. */
  datatype Verdict = ShortNonce | BadSignature | StaleTs | ReplayedNonce | Welcome

  /** Deletes the expired entries one by one. */
  method Prune(m: Nonces, now: int) returns (r: Nonces)
    ensures r == Unexpired(m, now)
  {
    r := m;
    var todo := m.Keys;
    while todo != {}
      invariant todo <= m.Keys
      invariant forall k :: k in r <==> k in m && (k in todo || now < m[k])
      invariant forall k :: k in r ==> r[k] == m[k]
      decreases |todo|
    {
      var k :| k in todo;
      todo := todo - {k};
      if !(now < r[k]) {
        r := r - {k};
      }
    }
  }

  // -------- against the log

  datatype Call = Call(pub: string, nonce: string, at: int)

  function After(calls: seq<Call>, k: nat): Cache
    requires k <= |calls|
  {
    if k == 0 then EMPTY_CACHE
    else Checked(After(calls, k - 1), calls[k - 1].pub, calls[k - 1].nonce, calls[k - 1].at)
  }

  /** Call i was answered true. */
  predicate Accepted(calls: seq<Call>, i: nat)
    requires i < |calls|
  {
    !Replayed(After(calls, i), calls[i].pub, calls[i].nonce, calls[i].at)
  }

  ghost predicate Ordered(calls: seq<Call>) {
    forall i, j :: 0 <= i <= j < |calls| ==> calls[i].at <= calls[j].at
  }

  predicate SamePair(a: Call, b: Call) {
    a.pub == b.pub && a.nonce == b.nonce
  }

  /** Call i was accepted, is for this nonce, and expires at e. */
  predicate Explains(calls: seq<Call>, i: nat, pub: string, nonce: string, e: int) {
    && i < |calls| && calls[i].pub == pub && calls[i].nonce == nonce && calls[i].at + REPLAY_KEEP == e
    && Accepted(calls, i)
  }

  /** Nothing in the cache is made up. */
  ghost predicate Justified(calls: seq<Call>, k: nat, c: Cache) {
    forall p, n :: n in NoncesOf(c, p) ==> exists i :: 0 <= i < k && Explains(calls, i, p, n, NoncesOf(c, p)[n])
  }

  /** The cache holds call i under its expiry. */
  predicate Holds(c: Cache, call: Call) {
    call.nonce in NoncesOf(c, call.pub) && NoncesOf(c, call.pub)[call.nonce] == call.at + REPLAY_KEEP
  }

  ghost function AcceptedCalls(calls: seq<Call>, k: nat): set<Call>
    requires k <= |calls|
  {
    set i | 0 <= i < k && Accepted(calls, i) :: calls[i]
  }

  /** The cache holds every accepted nonce that is still alive. */
  ghost predicate Complete(calls: seq<Call>, k: nat, c: Cache, now: int)
    requires k <= |calls|
  {
    forall e :: e in AcceptedCalls(calls, k) && now < e.at + REPLAY_KEEP ==> Holds(c, e)
  }

  /** No empty per-key map, and nothing that an earlier sweep should have taken. */
  ghost predicate Tidy(c: Cache) {
    && (forall p :: p in c.seen ==> c.seen[p] != map[])
    && (c.lastSweep.Some? ==> forall p, n :: p in c.seen && n in c.seen[p] ==> c.lastSweep.value < c.seen[p][n])
  }

  lemma CheckedEntries(c: Cache, pub: string, nonce: string, now: int)
    requires !Replayed(c, pub, nonce, now)
    ensures var c' := Checked(c, pub, nonce, now);
      && nonce in NoncesOf(c', pub) && NoncesOf(c', pub)[nonce] == now + REPLAY_KEEP
      && (forall p, n :: n in NoncesOf(c', p) && !(p == pub && n == nonce) ==>
            n in NoncesOf(c, p) && NoncesOf(c', p)[n] == NoncesOf(c, p)[n])
      && (forall p, n :: n in NoncesOf(c, p) && now < NoncesOf(c, p)[n] && !(p == pub && n == nonce) ==>
            n in NoncesOf(c', p) && NoncesOf(c', p)[n] == NoncesOf(c, p)[n])
  {
    var kept := Unexpired(NoncesOf(c, pub)[nonce := now + REPLAY_KEEP], now);
    assert nonce in kept && kept[nonce] == now + REPLAY_KEEP;
    var c1 := c.(seen := c.seen[pub := kept]);
    if SweepDue(c1, now) {
      forall p | p in c1.seen
        ensures forall n :: n in NoncesOf(Swept(c1, now), p) <==> n in Unexpired(c1.seen[p], now)
      {
      }
    }
  }

  lemma StepJustified(calls: seq<Call>, k: nat)
    requires k < |calls| && Justified(calls, k, After(calls, k))
    ensures Justified(calls, k + 1, After(calls, k + 1))
  {
    var c, c', call := After(calls, k), After(calls, k + 1), calls[k];
    if Accepted(calls, k) {
      CheckedEntries(c, call.pub, call.nonce, call.at);
      assert Explains(calls, k, call.pub, call.nonce, call.at + REPLAY_KEEP);
    }
    forall p, n | n in NoncesOf(c', p)
      ensures exists i :: 0 <= i < k + 1 && Explains(calls, i, p, n, NoncesOf(c', p)[n])
    {
      if !(Accepted(calls, k) && p == call.pub && n == call.nonce) {
        var i :| 0 <= i < k && Explains(calls, i, p, n, NoncesOf(c, p)[n]);
      }
    }
  }

  /** A live entry survives every call; an accepted one cannot be for the same nonce. */
  lemma LiveEntryStays(c: Cache, e: Call, call: Call)
    requires Holds(c, e) && call.at < e.at + REPLAY_KEEP
    ensures Holds(Checked(c, call.pub, call.nonce, call.at), e)
  {
    if !Replayed(c, call.pub, call.nonce, call.at) {
      CheckedEntries(c, call.pub, call.nonce, call.at);
    }
  }

  lemma CallIsHeld(c: Cache, call: Call)
    requires !Replayed(c, call.pub, call.nonce, call.at)
    ensures Holds(Checked(c, call.pub, call.nonce, call.at), call)
  {
    CheckedEntries(c, call.pub, call.nonce, call.at);
  }

  lemma StepComplete(calls: seq<Call>, k: nat)
    requires k < |calls| && Complete(calls, k, After(calls, k), calls[k].at)
    ensures Complete(calls, k + 1, After(calls, k + 1), calls[k].at)
  {
    var c, c', call := After(calls, k), After(calls, k + 1), calls[k];
    forall e: Call | Holds(c, e) && call.at < e.at + REPLAY_KEEP ensures Holds(c', e) {
      LiveEntryStays(c, e, call);
    }
    if Accepted(calls, k) {
      CallIsHeld(c, call);
    }
    forall e | e in AcceptedCalls(calls, k + 1) && call.at < e.at + REPLAY_KEEP ensures Holds(c', e) {
      OneMoreAccepted(calls, k, e);
    }
  }

  lemma OneMoreAccepted(calls: seq<Call>, k: nat, e: Call)
    requires k < |calls| && e in AcceptedCalls(calls, k + 1)
    ensures e in AcceptedCalls(calls, k) || (e == calls[k] && Accepted(calls, k))
  {
  }

  lemma CompleteLater(calls: seq<Call>, k: nat, c: Cache, now: int, later: int)
    requires k <= |calls| && Complete(calls, k, c, now) && now <= later
    ensures Complete(calls, k, c, later)
  {
  }

  lemma {:induction false} CacheJustified(calls: seq<Call>, k: nat)
    requires k <= |calls|
    ensures Justified(calls, k, After(calls, k))
  {
    if k > 0 {
      CacheJustified(calls, k - 1);
      StepJustified(calls, k - 1);
    }
  }

  lemma {:induction false} CacheComplete(calls: seq<Call>, k: nat, now: int)
    requires k <= |calls| && Ordered(calls) && (k > 0 ==> calls[k - 1].at <= now)
    ensures Complete(calls, k, After(calls, k), now)
  {
    if k > 0 {
      CacheComplete(calls, k - 1, calls[k - 1].at);
      StepComplete(calls, k - 1);
      CompleteLater(calls, k, After(calls, k), calls[k - 1].at, now);
    }
  }

  /**
   * A call is answered true exactly when no earlier accepted call for the same key and nonce
   * is younger than the retention, whatever has been pruned and swept in between.
   */
  lemma CheckAgreesWithLog(calls: seq<Call>, k: nat)
    requires k < |calls| && Ordered(calls)
    ensures Accepted(calls, k) <==>
      !exists i :: 0 <= i < k && Accepted(calls, i) && SamePair(calls[i], calls[k])
                   && calls[k].at < calls[i].at + 360_000
  {
    CacheJustified(calls, k);
    CacheComplete(calls, k, calls[k].at);
    var c, call := After(calls, k), calls[k];
    if !Accepted(calls, k) {
      var e := NoncesOf(c, call.pub)[call.nonce];
      var i :| 0 <= i < k && Explains(calls, i, call.pub, call.nonce, e);
      assert Accepted(calls, i) && SamePair(calls[i], call);
    }
  }

  // -------- housekeeping

  lemma CheckedTidy(c: Cache, pub: string, nonce: string, now: int)
    requires Tidy(c) && (c.lastSweep.Some? ==> c.lastSweep.value <= now)
    ensures var c' := Checked(c, pub, nonce, now);
      && Tidy(c') && (c'.lastSweep.Some? ==> c'.lastSweep.value <= now)
      && (!Replayed(c, pub, nonce, now) ==>
            c'.lastSweep.Some? && now - c'.lastSweep.value < SWEEP_EVERY
            && forall p, n :: p in c'.seen && n in c'.seen[p] ==> now - SWEEP_EVERY < c'.seen[p][n])
  {
    if !Replayed(c, pub, nonce, now) {
      var kept := Unexpired(NoncesOf(c, pub)[nonce := now + REPLAY_KEEP], now);
      assert nonce in kept;
      var c1 := c.(seen := c.seen[pub := kept]);
      assert Tidy(c1);
    }
  }

  /**
   * After every accepted call no key is left without nonces, and whatever is still held
   * expired less than one sweep interval ago, if at all.
   */
  lemma {:induction false} NoStaleEntries(calls: seq<Call>, k: nat)
    requires k <= |calls| && Ordered(calls)
    ensures Tidy(After(calls, k))
    ensures k > 0 && After(calls, k).lastSweep.Some? ==> After(calls, k).lastSweep.value <= calls[k - 1].at
    ensures k == 0 ==> After(calls, k).lastSweep.None?
    ensures k > 0 && Accepted(calls, k - 1) ==>
      forall p, n :: p in After(calls, k).seen && n in After(calls, k).seen[p] ==>
        calls[k - 1].at - 60_000 < After(calls, k).seen[p][n]
  {
    if k > 0 {
      NoStaleEntries(calls, k - 1);
      CheckedTidy(After(calls, k - 1), calls[k - 1].pub, calls[k - 1].nonce, calls[k - 1].at);
    }
  }

  // -------- hellos

  predicate TsFresh(ts: int, now: int) {
    var drift := if now - ts < 0 then ts - now else now - ts;
    drift <= TS_WINDOW
  }

  /** All checks of one hello against one reading of the clock. */
  function CheckHello(c: Cache, f: Hello, now: int): (Cache, Verdict) {
    if |f.nonce| < NONCE_MIN_LEN then (c, ShortNonce)
    else if !f.sigOk then (c, BadSignature)
    else if !TsFresh(f.ts, now) then (c, StaleTs)
    else (Checked(c, f.pub, f.nonce, now), if Replayed(c, f.pub, f.nonce, now) then ReplayedNonce else Welcome)
  }

  datatype Attempt = Attempt(f: Hello, at: int)

  function CacheAfter(tries: seq<Attempt>, k: nat): Cache
    requires k <= |tries|
  {
    if k == 0 then EMPTY_CACHE else CheckHello(CacheAfter(tries, k - 1), tries[k - 1].f, tries[k - 1].at).0
  }

  function VerdictOf(tries: seq<Attempt>, i: nat): Verdict
    requires i < |tries|
  {
    CheckHello(CacheAfter(tries, i), tries[i].f, tries[i].at).1
  }

  ghost predicate InOrder(tries: seq<Attempt>) {
    forall i, j :: 0 <= i <= j < |tries| ==> tries[i].at <= tries[j].at
  }

  /** The attempts among the first k that reach the nonce check. */
  predicate Reaches(f: Hello, now: int) {
    |f.nonce| >= NONCE_MIN_LEN && f.sigOk && TsFresh(f.ts, now)
  }

  /** A nonce accepted at step i stays in the cache, with its expiry, until it expires. */
  lemma {:induction false} AcceptedIsHeld(tries: seq<Attempt>, i: nat, k: nat)
    requires i < k <= |tries| && InOrder(tries) && VerdictOf(tries, i) == Welcome
    requires k < |tries| ==> tries[k].at < tries[i].at + REPLAY_KEEP
    requires tries[k - 1].at < tries[i].at + REPLAY_KEEP
    ensures var m := NoncesOf(CacheAfter(tries, k), tries[i].f.pub);
      tries[i].f.nonce in m && m[tries[i].f.nonce] == tries[i].at + REPLAY_KEEP
    decreases k
  {
    var last := tries[k - 1];
    var c := CacheAfter(tries, k - 1);
    if Reaches(last.f, last.at) && !Replayed(c, last.f.pub, last.f.nonce, last.at) {
      CheckedEntries(c, last.f.pub, last.f.nonce, last.at);
    }
    if k - 1 > i {
      AcceptedIsHeld(tries, i, k - 1);
    }
  }

  /** An earlier welcomed hello with this key and nonce, less than six minutes old. */
  ghost predicate Recent(tries: seq<Attempt>, k: nat, pub: string, nonce: string, now: int)
    requires k <= |tries|
  {
    exists i :: 0 <= i < k && IsRecent(tries, i, pub, nonce, now)
  }

  predicate IsRecent(tries: seq<Attempt>, i: nat, pub: string, nonce: string, now: int)
    requires i < |tries|
  {
    && VerdictOf(tries, i) == Welcome && tries[i].f.pub == pub && tries[i].f.nonce == nonce
    && now < tries[i].at + 360_000
  }

  /** Nothing is held but what was welcomed. */
  lemma {:induction false} HeldIsWelcomed(tries: seq<Attempt>, k: nat, pub: string, nonce: string)
    requires k <= |tries| && nonce in NoncesOf(CacheAfter(tries, k), pub)
    ensures exists i :: 0 <= i < k && VerdictOf(tries, i) == Welcome && tries[i].f.pub == pub
                        && tries[i].f.nonce == nonce
                        && NoncesOf(CacheAfter(tries, k), pub)[nonce] == tries[i].at + 360_000
  {
    if k > 0 {
      var last, c := tries[k - 1], CacheAfter(tries, k - 1);
      if VerdictOf(tries, k - 1) == Welcome {
        CheckedEntries(c, last.f.pub, last.f.nonce, last.at);
      }
      if !(VerdictOf(tries, k - 1) == Welcome && last.f.pub == pub && last.f.nonce == nonce) {
        HeldIsWelcomed(tries, k - 1, pub, nonce);
      }
    }
  }

  lemma ReplayedIsRecent(tries: seq<Attempt>, k: nat)
    requires k < |tries| && InOrder(tries)
    ensures Replayed(CacheAfter(tries, k), tries[k].f.pub, tries[k].f.nonce, tries[k].at) <==>
      Recent(tries, k, tries[k].f.pub, tries[k].f.nonce, tries[k].at)
  {
    var f, now := tries[k].f, tries[k].at;
    if Recent(tries, k, f.pub, f.nonce, now) {
      var i :| 0 <= i < k && IsRecent(tries, i, f.pub, f.nonce, now);
      AcceptedIsHeld(tries, i, k);
    }
    if Replayed(CacheAfter(tries, k), f.pub, f.nonce, now) {
      HeldIsWelcomed(tries, k, f.pub, f.nonce);
      var i :| 0 <= i < k && VerdictOf(tries, i) == Welcome && tries[i].f.pub == f.pub
               && tries[i].f.nonce == f.nonce
               && NoncesOf(CacheAfter(tries, k), f.pub)[f.nonce] == tries[i].at + 360_000;
      assert IsRecent(tries, i, f.pub, f.nonce, now);
    }
  }

  /**
   * Which answer a hello gets, over every history of attempts: the first of four faults it has, or a
   * welcome if it has none. Only a welcome changes the cache.
   */
  lemma VerdictExactly(tries: seq<Attempt>, k: nat)
    requires k < |tries| && InOrder(tries)
    ensures var f, now, v := tries[k].f, tries[k].at, VerdictOf(tries, k);
      var inWindow := -300_000 <= now - f.ts <= 300_000;
      && (v == ShortNonce <==> |f.nonce| < 16)
      && (v == BadSignature <==> |f.nonce| >= 16 && !f.sigOk)
      && (v == StaleTs <==> |f.nonce| >= 16 && f.sigOk && !inWindow)
      && (v == ReplayedNonce <==> |f.nonce| >= 16 && f.sigOk && inWindow && Recent(tries, k, f.pub, f.nonce, now))
      && (v == Welcome <==> |f.nonce| >= 16 && f.sigOk && inWindow && !Recent(tries, k, f.pub, f.nonce, now))
      && (v != Welcome ==> CacheAfter(tries, k + 1) == CacheAfter(tries, k))
  {
    ReplayedIsRecent(tries, k);
  }

  /**
   * A hello accepted with a timestamp less than a minute ahead of the hub is never accepted
   * again: while its timestamp is fresh, its nonce is held.
   */
  lemma HelloNeverReplayed(tries: seq<Attempt>, i: nat, j: nat)
    requires i < j < |tries| && InOrder(tries) && VerdictOf(tries, i) == Welcome
    requires tries[j].f == tries[i].f
    requires tries[i].f.ts < tries[i].at + 60_000
    ensures VerdictOf(tries, j) != Welcome
  {
    if TsFresh(tries[j].f.ts, tries[j].at) {
      AcceptedIsHeld(tries, i, j);
    }
  }

  /** The bound is exact: a hello can be accepted twice precisely when its timestamp is further ahead. */
  lemma ReplayBoundIsExact(f: Hello, now: int)
    requires Reaches(f, now)
    ensures f.ts >= now + 60_000 <==>
      exists later :: now <= later && VerdictOf([Attempt(f, now), Attempt(f, later)], 1) == Welcome
  {
    var again := [Attempt(f, now), Attempt(f, now + REPLAY_KEEP)];
    var c0 := CacheAfter(again, 0);
    assert !Replayed(EMPTY_CACHE, f.pub, f.nonce, now);
    CheckedEntries(EMPTY_CACHE, f.pub, f.nonce, now);
    assert CacheAfter(again, 1) == Checked(EMPTY_CACHE, f.pub, f.nonce, now);
    if f.ts >= now + (REPLAY_KEEP - TS_WINDOW) {
      assert VerdictOf(again, 1) == Welcome;
    } else {
      forall later | now <= later ensures VerdictOf([Attempt(f, now), Attempt(f, later)], 1) != Welcome {
        var two := [Attempt(f, now), Attempt(f, later)];
        assert VerdictOf(two, 0) == Welcome;
        HelloNeverReplayed(two, 0, 1);
      }
    }
  }
}
