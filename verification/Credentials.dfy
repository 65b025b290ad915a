/** Which issued secrets authenticate, over any run of enrolling, evicting and restarting. */
module Credentials {
  import opened HubState
  import Identities
  import Registry

  // -------- saving and loading

  lemma {:induction false} LoadOneName(m: map<Name, seq<string>>, name: Name, hashes: seq<string>, rest: seq<Record>)
    ensures LoadInto(m, RecordsOf(name, hashes) + rest)
         == LoadInto(if hashes == [] then m else m[name := HashesOf(m, name) + hashes], rest)
    decreases |hashes|
  {
    var rs := RecordsOf(name, hashes) + rest;
    if hashes == [] {
      assert rs == rest;
    } else {
      var m1 := m[name := HashesOf(m, name) + [hashes[0]]];
      assert rs[0] == Record(name, hashes[0]) && rs[1..] == RecordsOf(name, hashes[1..]) + rest;
      LoadOneName(m1, name, hashes[1..], rest);
      assert hashes == [hashes[0]] + hashes[1..];
      if hashes[1..] != [] {
        LoadTwice(m, name, [hashes[0]], hashes[1..]);
      } else {
        assert hashes == [hashes[0]];
      }
    }
  }

  lemma LoadTwice(m: map<Name, seq<string>>, name: Name, some: seq<string>, more: seq<string>)
    ensures var m1 := m[name := HashesOf(m, name) + some];
      m1[name := HashesOf(m1, name) + more] == m[name := HashesOf(m, name) + (some + more)]
  {
    assert (HashesOf(m, name) + some) + more == HashesOf(m, name) + (some + more);
  }

  /** r is m with the names of order added, bound as in secrets. */
  ghost predicate Adds(m: map<Name, seq<string>>, secrets: map<Name, seq<string>>, order: seq<Name>,
                       r: map<Name, seq<string>>) {
    && (forall n :: n in r <==> n in m || n in order)
    && (forall n :: n in r ==> r[n] == if n in order then HashesOf(secrets, n) else m[n])
  }

  lemma {:induction false} LoadRecords(m: map<Name, seq<string>>, secrets: map<Name, seq<string>>, order: seq<Name>)
    requires forall i, j :: 0 <= i < j < |order| ==> order[i] != order[j]
    requires forall n :: n in order ==> n in secrets && secrets[n] != [] && n !in m
    ensures Adds(m, secrets, order, LoadInto(m, Records(secrets, order)))
    decreases |order|
  {
    if order != [] {
      var first, rest := order[0], order[1..];
      var m1 := m[first := secrets[first]];
      LoadOneName(m, first, secrets[first], Records(secrets, rest));
      assert HashesOf(m, first) + secrets[first] == secrets[first];
      assert forall n :: n in order <==> n == first || n in rest;
      assert first !in rest;
      LoadRecords(m1, secrets, rest);
    }
  }

  ghost predicate NoneEmptyLists(secrets: map<Name, seq<string>>) {
    forall n :: n in secrets ==> secrets[n] != []
  }

  /** Whatever order the names were written in, loading restores the same map. */
  lemma LoadRestores(secrets: map<Name, seq<string>>, order: seq<Name>)
    requires IsOrder(order, secrets) && NoneEmptyLists(secrets)
    ensures Loaded(Records(secrets, order)) == secrets
  {
    forall n | n in order ensures n in secrets {
      assert n in set x | x in order;
    }
    LoadRecords(map[], secrets, order);
    forall n | n in secrets ensures n in order {
      assert n in set x | x in order;
    }
  }

  // -------- runs

  ghost predicate DiskOk(h: Hub) {
    NoneEmptyLists(h.secrets) && Loaded(h.disk) == h.secrets
  }

  lemma StepKeepsDisk(h: Hub, op: Op)
    requires DiskOk(h) && Enabled(h, op)
    ensures DiskOk(Apply(h, op))
  {
    match op
    case Evict(id, order) =>
      if LastHolder(h, id) && SecretsAfterEvict(h, id) != h.secrets {
        LoadRestores(SecretsAfterEvict(h, id), order);
      }
    case Enroll(c, hash, rotate, order) =>
      LoadRestores(SecretsAfterEnroll(h, h.conns[c].name, hash, rotate), order);
    case _ =>
  }

  lemma {:induction false} DiskInvariant(states: seq<Hub>, ops: seq<Op>, k: nat)
    requires IsRun(states, ops) && k <= |ops|
    ensures DiskOk(states[k])
  {
    if k > 0 {
      DiskInvariant(states, ops, k - 1);
      assert Follows(states[k - 1], ops[k - 1], states[k]);
      StepKeepsDisk(states[k - 1], ops[k - 1]);
    }
  }

  /** Step i issues hash to a connection that said hello as n. */
  ghost predicate IssuedAt(ops: seq<Op>, i: nat, n: Name, hash: string) {
    && i < |ops| && ops[i].Enroll? && ops[i].hash == hash
    && exists id :: Identities.Speaks(ops, i, ops[i].c, id, n)
  }

  /** Step j rotates the credentials of n, on a connection that said hello as n. */
  ghost predicate RotatedAt(ops: seq<Op>, j: nat, n: Name) {
    && j < |ops| && ops[j].Enroll? && ops[j].rotate
    && exists id :: Identities.Speaks(ops, j, ops[j].c, id, n)
  }

  /** Step j evicts an identity last registered as n while it is offline, and no other is registered as n. */
  ghost predicate LastEvictedAt(states: seq<Hub>, ops: seq<Op>, j: nat, n: Name)
    requires j < |ops| < |states|
  {
    && ops[j].Evict? && Identities.Known(states, ops, j, ops[j].id, n) && ops[j].id !in states[j].clients
    && forall other :: Identities.Known(states, ops, j, other, n) ==> other == ops[j].id
  }

  /** Step j rotates the credentials of n, or evicts the last registry holder of n. */
  ghost predicate RevokedAt(states: seq<Hub>, ops: seq<Op>, j: nat, n: Name) {
    j < |ops| < |states| && (RotatedAt(ops, j, n) || LastEvictedAt(states, ops, j, n))
  }

  /** The name an enrolling connection has is the one of its hello. */
  lemma EnrollsAs(states: seq<Hub>, ops: seq<Op>, j: nat, n: Name)
    requires IsRun(states, ops) && j < |ops| && ops[j].Enroll?
    ensures (exists id :: Identities.Speaks(ops, j, ops[j].c, id, n)) <==>
      ops[j].c in states[j].conns && states[j].conns[ops[j].c].name == n
  {
    var h, c := states[j], ops[j].c;
    assert Follows(h, ops[j], states[j + 1]);
    Registry.RegistryInvariant(states, ops, j);
    if exists id :: Identities.Speaks(ops, j, c, id, n) {
      var id :| Identities.Speaks(ops, j, c, id, n);
      Identities.HelloIsKept(states, ops, j, c, id, n);
    }
    Identities.HelloIsKept(states, ops, j, c, h.conns[c].agentId, n);
  }

  lemma RevokedAs(states: seq<Hub>, ops: seq<Op>, j: nat, n: Name)
    requires IsRun(states, ops) && j < |ops|
    ensures RevokedAt(states, ops, j, n) <==>
      || (ops[j].Enroll? && ops[j].rotate && ops[j].c in states[j].conns && states[j].conns[ops[j].c].name == n)
      || (ops[j].Evict? && LastHolder(states[j], ops[j].id) && states[j].agents[ops[j].id].name == n)
  {
    var h := states[j];
    if ops[j].Enroll? {
      EnrollsAs(states, ops, j, n);
    } else if ops[j].Evict? {
      forall other
        ensures Identities.Known(states, ops, j, other, n) <==> other in h.agents && h.agents[other].name == n
      {
        Identities.EntryIsLatest(states, ops, j, other, n);
      }
    }
  }

  /** Issued at i and not revoked between i and k. */
  ghost predicate StandsFrom(states: seq<Hub>, ops: seq<Op>, i: nat, k: nat, n: Name, hash: string) {
    i < k && IssuedAt(ops, i, n, hash) && forall j :: i < j < k ==> !RevokedAt(states, ops, j, n)
  }

  ghost predicate Stands(states: seq<Hub>, ops: seq<Op>, k: nat, n: Name, hash: string) {
    exists i: nat :: StandsFrom(states, ops, i, k, n, hash)
  }

  lemma OneStep(h: Hub, op: Op, n: Name, hash: string)
    requires DiskOk(h) && Enabled(h, op)
    ensures hash in HashesOf(Apply(h, op).secrets, n) <==>
      || (op.Enroll? && h.conns[op.c].name == n && op.hash == hash)
      || (hash in HashesOf(h.secrets, n)
          && !(op.Enroll? && op.rotate && h.conns[op.c].name == n)
          && !(op.Evict? && LastHolder(h, op.id) && h.agents[op.id].name == n))
  {
  }

  /** One more step: issued now, or standing before and not revoked now. */
  lemma StandsOneMore(states: seq<Hub>, ops: seq<Op>, k: nat, n: Name, hash: string)
    requires k > 0
    ensures Stands(states, ops, k, n, hash) <==>
      || IssuedAt(ops, k - 1, n, hash)
      || (Stands(states, ops, k - 1, n, hash) && !RevokedAt(states, ops, k - 1, n))
  {
    var before := k - 1;
    if IssuedAt(ops, before, n, hash) {
      assert StandsFrom(states, ops, before, k, n, hash);
    }
    if Stands(states, ops, before, n, hash) && !RevokedAt(states, ops, before, n) {
      var i: nat :| StandsFrom(states, ops, i, before, n, hash);
      assert StandsFrom(states, ops, i, k, n, hash);
    }
    if Stands(states, ops, k, n, hash) {
      var i: nat :| StandsFrom(states, ops, i, k, n, hash);
      if i < before {
        assert StandsFrom(states, ops, i, before, n, hash);
      }
    }
  }

  /**
   * A secret stands for name n exactly when it was issued for n and since then neither was n
   * rotated nor its last holder evicted. Restarts change nothing.
   */
  lemma {:induction false} SecretStands(states: seq<Hub>, ops: seq<Op>, k: nat, n: Name, hash: string)
    requires IsRun(states, ops) && k <= |ops|
    ensures hash in HashesOf(states[k].secrets, n) <==> Stands(states, ops, k, n, hash)
  {
    if k > 0 {
      SecretStands(states, ops, k - 1, n, hash);
      DiskInvariant(states, ops, k - 1);
      assert Follows(states[k - 1], ops[k - 1], states[k]);
      OneStep(states[k - 1], ops[k - 1], n, hash);
      StandsOneMore(states, ops, k, n, hash);
      RevokedAs(states, ops, k - 1, n);
      if ops[k - 1].Enroll? {
        EnrollsAs(states, ops, k - 1, n);
      }
    }
  }

  /** Every issue draws a new hash. */
  ghost predicate DistinctIssues(ops: seq<Op>) {
    forall i, j :: 0 <= i < j < |ops| && ops[i].Enroll? && ops[j].Enroll? ==> ops[i].hash != ops[j].hash
  }

  /** A secret stands for one name only, so the answer does not depend on the order of the search. */
  lemma OneName(states: seq<Hub>, ops: seq<Op>, k: nat, m: Name, n: Name, hash: string)
    requires IsRun(states, ops) && k <= |ops| && DistinctIssues(ops)
    requires hash in HashesOf(states[k].secrets, m) && hash in HashesOf(states[k].secrets, n)
    ensures m == n
  {
    SecretStands(states, ops, k, m, hash);
    SecretStands(states, ops, k, n, hash);
    var i: nat :| StandsFrom(states, ops, i, k, m, hash);
    var j: nat :| StandsFrom(states, ops, j, k, n, hash);
    assert i == j && Follows(states[i], ops[i], states[i + 1]);
    EnrollsAs(states, ops, i, m);
    EnrollsAs(states, ops, i, n);
  }

  /** Connection c was opened at step i with a secret that stood for name n then. */
  ghost predicate OpenedWith(states: seq<Hub>, ops: seq<Op>, i: nat, c: nat, n: Name) {
    && i < |ops| && ops[i].Open? && ops[i].c == c && ops[i].auth == Agent(n)
    && Stands(states, ops, i, n, ops[i].hash)
  }

  /**
   * A connection that came with an issued secret is registered under no other name than the
   * one its secret stood for when it was opened.
   */
  lemma NameIsAuthorised(states: seq<Hub>, ops: seq<Op>, k: nat, c: nat)
    requires IsRun(states, ops) && k <= |ops| && c in states[k].conns && states[k].conns[c].auth.Agent?
    ensures states[k].conns[c].authed ==> states[k].conns[c].name == states[k].conns[c].auth.bound
    ensures exists i: nat :: i < k && OpenedWith(states, ops, i, c, states[k].conns[c].auth.bound)
  {
    var cl := states[k].conns[c];
    Identities.AuthIsKept(states, ops, k, c, cl.auth);
    var i: nat :| Identities.CameWith(ops, i, k, c, cl.auth);
    assert Follows(states[i], ops[i], states[i + 1]);
    SecretStands(states, ops, i, cl.auth.bound, ops[i].hash);
    assert OpenedWith(states, ops, i, c, cl.auth.bound);
    if cl.authed {
      Identities.HelloIsKept(states, ops, k, c, cl.agentId, cl.name);
      SpeaksAsAllowed(states, ops, k, c, cl.agentId, cl.name);
    }
  }

  lemma SpeaksAsAllowed(states: seq<Hub>, ops: seq<Op>, k: nat, c: nat, id: Id, name: Name)
    requires IsRun(states, ops) && k <= |ops| && Identities.Speaks(ops, k, c, id, name)
    ensures c in states[k].conns && Identities.MayUse(states[k].conns[c].auth, name)
  {
    var j: nat :| Identities.SaidHello(ops, j, k, c, id, name);
    var auth :| Identities.Came(ops, j, c, auth) && Identities.MayUse(auth, name);
    var i: nat :| Identities.CameWith(ops, i, j, c, auth);
    assert Identities.CameWith(ops, i, k, c, auth);
    Identities.AuthIsKept(states, ops, k, c, auth);
  }

  /**
   * A token authenticates as name n exactly when it is not the master secret and stands for n: it
   * was issued for n and no later rotation of n and no eviction of the last holder of n followed.
   */
  lemma TokenAuthenticates(states: seq<Hub>, ops: seq<Op>, k: nat, master: string, token: string, digest: string,
                           r: Bearer, n: Name)
    requires IsRun(states, ops) && k <= |ops| && DistinctIssues(ops)
    requires IsAnswer(states[k].secrets, master, token, digest, r)
    ensures r == AgentBearer(n) <==> token != "" && token != master && Stands(states, ops, k, n, digest)
  {
    SecretStands(states, ops, k, n, digest);
    if r.AgentBearer? && digest in HashesOf(states[k].secrets, n) {
      OneName(states, ops, k, r.name, n, digest);
    }
  }

  /** A token is denied exactly when it is empty, or is neither the master secret nor stands for any name. */
  lemma TokenDenied(states: seq<Hub>, ops: seq<Op>, k: nat, master: string, token: string, digest: string, r: Bearer)
    requires IsRun(states, ops) && k <= |ops| && IsAnswer(states[k].secrets, master, token, digest, r)
    ensures r == Denied <==> token == "" || (token != master && forall n :: !Stands(states, ops, k, n, digest))
    ensures r == MasterBearer <==> token != "" && token == master
  {
    forall n ensures Stands(states, ops, k, n, digest) <==> digest in HashesOf(states[k].secrets, n) {
      SecretStands(states, ops, k, n, digest);
    }
  }
}
