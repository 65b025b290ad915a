/**
 * Who a connection is and whom the registry knows, read off the history alone: the hello a
 * connection was accepted with, the upgrade it came with, and the last register of an identity.
 */
module Identities {
  import opened HubState
  import Registry

  ghost predicate NoRestart(ops: seq<Op>, j: nat, k: nat)
    requires k <= |ops|
  {
    forall i :: j <= i < k ==> ops[i] != Restart
  }

  /** Connection c was opened at step j with this credential, and the hub has run on until k. */
  ghost predicate CameWith(ops: seq<Op>, j: nat, k: nat, c: nat, auth: Auth)
    requires k <= |ops|
  {
    j < k && ops[j].Open? && ops[j].c == c && ops[j].auth == auth && NoRestart(ops, j, k)
  }

  ghost predicate Came(ops: seq<Op>, k: nat, c: nat, auth: Auth)
    requires k <= |ops|
  {
    exists j: nat :: CameWith(ops, j, k, c, auth)
  }

  /** The credential lets the connection use the name. */
  predicate MayUse(auth: Auth, name: Name) {
    auth == Master || auth == Agent(name)
  }

  /** At step j connection c said hello as id under this name, and was accepted. */
  ghost predicate SaidHello(ops: seq<Op>, j: nat, k: nat, c: nat, id: Id, name: Name)
    requires k <= |ops|
  {
    && j < k && ops[j] == Hello(c, id, name) && NoRestart(ops, j, k)
    && exists auth :: Came(ops, j, c, auth) && MayUse(auth, name)
  }

  /** Connection c stands for id under this name. */
  ghost predicate Speaks(ops: seq<Op>, k: nat, c: nat, id: Id, name: Name)
    requires k <= |ops|
  {
    exists j: nat :: SaidHello(ops, j, k, c, id, name)
  }

  lemma CameOneMore(ops: seq<Op>, k: nat, c: nat, auth: Auth)
    requires 0 < k <= |ops|
    ensures Came(ops, k, c, auth) <==>
      ops[k - 1] != Restart
      && ((ops[k - 1].Open? && ops[k - 1].c == c && ops[k - 1].auth == auth) || Came(ops, k - 1, c, auth))
  {
    if ops[k - 1].Open? && ops[k - 1].c == c && ops[k - 1].auth == auth {
      assert CameWith(ops, k - 1, k, c, auth);
    }
    if Came(ops, k - 1, c, auth) && ops[k - 1] != Restart {
      var j: nat :| CameWith(ops, j, k - 1, c, auth);
      assert CameWith(ops, j, k, c, auth);
    }
    if Came(ops, k, c, auth) {
      var j: nat :| CameWith(ops, j, k, c, auth);
      if j < k - 1 {
        assert CameWith(ops, j, k - 1, c, auth);
      }
    }
  }

  lemma SpeaksOneMore(ops: seq<Op>, k: nat, c: nat, id: Id, name: Name)
    requires 0 < k <= |ops|
    ensures Speaks(ops, k, c, id, name) <==>
      ops[k - 1] != Restart
      && ((ops[k - 1] == Hello(c, id, name) && exists auth :: Came(ops, k - 1, c, auth) && MayUse(auth, name))
          || Speaks(ops, k - 1, c, id, name))
  {
    if ops[k - 1] == Hello(c, id, name) && exists auth :: Came(ops, k - 1, c, auth) && MayUse(auth, name) {
      assert SaidHello(ops, k - 1, k, c, id, name);
    }
    if Speaks(ops, k - 1, c, id, name) && ops[k - 1] != Restart {
      var j: nat :| SaidHello(ops, j, k - 1, c, id, name);
      assert SaidHello(ops, j, k, c, id, name);
    }
    if Speaks(ops, k, c, id, name) {
      var j: nat :| SaidHello(ops, j, k, c, id, name);
      if j < k - 1 {
        assert SaidHello(ops, j, k - 1, c, id, name);
      }
    }
  }

  /** A connection's credential is the one it came with. */
  lemma {:induction false} AuthIsKept(states: seq<Hub>, ops: seq<Op>, k: nat, c: nat, auth: Auth)
    requires IsRun(states, ops) && k <= |ops|
    ensures Came(ops, k, c, auth) <==> c in states[k].conns && states[k].conns[c].auth == auth
  {
    if k > 0 {
      AuthIsKept(states, ops, k - 1, c, auth);
      CameOneMore(ops, k, c, auth);
      assert Follows(states[k - 1], ops[k - 1], states[k]);
    }
  }

  lemma HelloStep(h: Hub, op: Op, c: nat, id: Id, name: Name)
    requires Enabled(h, op)
    ensures var h' := Apply(h, op);
      (c in h'.conns && h'.conns[c].authed && h'.conns[c].agentId == id && h'.conns[c].name == name) <==>
        op != Restart
        && ((op == Hello(c, id, name) && MayUse(h.conns[c].auth, name))
            || (c in h.conns && h.conns[c].authed && h.conns[c].agentId == id && h.conns[c].name == name))
  {
  }

  /** A connection is authenticated with exactly the id and the name of its accepted hello. */
  lemma {:induction false} HelloIsKept(states: seq<Hub>, ops: seq<Op>, k: nat, c: nat, id: Id, name: Name)
    requires IsRun(states, ops) && k <= |ops|
    ensures Speaks(ops, k, c, id, name) <==>
      c in states[k].conns && states[k].conns[c].authed
      && states[k].conns[c].agentId == id && states[k].conns[c].name == name
  {
    if k > 0 {
      HelloIsKept(states, ops, k - 1, c, id, name);
      SpeaksOneMore(ops, k, c, id, name);
      assert Follows(states[k - 1], ops[k - 1], states[k]);
      HelloStep(states[k - 1], ops[k - 1], c, id, name);
      HelloAuth(states, ops, k - 1, c, name);
    }
  }

  lemma HelloAuth(states: seq<Hub>, ops: seq<Op>, k: nat, c: nat, name: Name)
    requires IsRun(states, ops) && k <= |ops|
    ensures (exists auth :: Came(ops, k, c, auth) && MayUse(auth, name)) <==>
      c in states[k].conns && MayUse(states[k].conns[c].auth, name)
  {
    if auth :| Came(ops, k, c, auth) && MayUse(auth, name) {
      AuthIsKept(states, ops, k, c, auth);
    }
    if c in states[k].conns {
      AuthIsKept(states, ops, k, c, states[k].conns[c].auth);
    }
  }

  // -------- the registry

  /** Step j registers a connection that speaks for id under this name. */
  ghost predicate Installs(ops: seq<Op>, j: nat, c: nat, id: Id, name: Name) {
    j < |ops| && ops[j] == Register(c) && Speaks(ops, j, c, id, name)
  }

  ghost predicate InstallsSome(ops: seq<Op>, j: nat, id: Id) {
    exists c, name :: Installs(ops, j, c, id, name)
  }

  /** Step j removes the identity: an eviction while it is known and offline, or a restart. */
  predicate Removes(states: seq<Hub>, ops: seq<Op>, j: nat, id: Id)
    requires j < |ops| < |states|
  {
    ops[j] == Restart || (ops[j].Evict? && ops[j].id == id && id in states[j].agents && id !in states[j].clients)
  }

  /** Connection c was the last to be registered for id, at step j under this name, and id was not removed since. */
  ghost predicate LastIs(states: seq<Hub>, ops: seq<Op>, j: nat, k: nat, c: nat, id: Id, name: Name)
    requires k <= |ops| < |states|
  {
    && j < k && Installs(ops, j, c, id, name)
    && forall i :: j < i < k ==> !InstallsSome(ops, i, id) && !Removes(states, ops, i, id)
  }

  ghost predicate KnownBy(states: seq<Hub>, ops: seq<Op>, k: nat, c: nat, id: Id, name: Name)
    requires k <= |ops| < |states|
  {
    exists j: nat :: LastIs(states, ops, j, k, c, id, name)
  }

  /** And connection c has not been deregistered since. */
  ghost predicate OnlineSince(states: seq<Hub>, ops: seq<Op>, j: nat, k: nat, c: nat, id: Id, name: Name)
    requires k <= |ops| < |states|
  {
    LastIs(states, ops, j, k, c, id, name) && forall i :: j < i < k ==> ops[i] != Deregister(c)
  }

  ghost predicate OnlineBy(states: seq<Hub>, ops: seq<Op>, k: nat, c: nat, id: Id, name: Name)
    requires k <= |ops| < |states|
  {
    exists j: nat :: OnlineSince(states, ops, j, k, c, id, name)
  }

  lemma KnownOneMore(states: seq<Hub>, ops: seq<Op>, before: nat, c: nat, id: Id, name: Name)
    requires before < |ops| < |states|
    ensures KnownBy(states, ops, before + 1, c, id, name) <==>
      || Installs(ops, before, c, id, name)
      || (KnownBy(states, ops, before, c, id, name)
          && !InstallsSome(ops, before, id) && !Removes(states, ops, before, id))
  {
    if Installs(ops, before, c, id, name) {
      assert LastIs(states, ops, before, before + 1, c, id, name);
    }
    if && KnownBy(states, ops, before, c, id, name)
       && !InstallsSome(ops, before, id) && !Removes(states, ops, before, id) {
      var j: nat :| LastIs(states, ops, j, before, c, id, name);
      assert LastIs(states, ops, j, before + 1, c, id, name);
    }
    if KnownBy(states, ops, before + 1, c, id, name) {
      var j: nat :| LastIs(states, ops, j, before + 1, c, id, name);
      if j < before {
        assert LastIs(states, ops, j, before, c, id, name);
      }
    }
  }

  lemma OnlineOneMore(states: seq<Hub>, ops: seq<Op>, before: nat, c: nat, id: Id, name: Name)
    requires before < |ops| < |states|
    ensures OnlineBy(states, ops, before + 1, c, id, name) <==>
      || Installs(ops, before, c, id, name)
      || (OnlineBy(states, ops, before, c, id, name) && ops[before] != Deregister(c)
          && !InstallsSome(ops, before, id) && !Removes(states, ops, before, id))
  {
    if Installs(ops, before, c, id, name) {
      assert OnlineSince(states, ops, before, before + 1, c, id, name);
    }
    if && OnlineBy(states, ops, before, c, id, name) && ops[before] != Deregister(c)
       && !InstallsSome(ops, before, id) && !Removes(states, ops, before, id) {
      var j: nat :| OnlineSince(states, ops, j, before, c, id, name);
      assert OnlineSince(states, ops, j, before + 1, c, id, name);
    }
    if OnlineBy(states, ops, before + 1, c, id, name) {
      var j: nat :| OnlineSince(states, ops, j, before + 1, c, id, name);
      if j < before {
        assert OnlineSince(states, ops, j, before, c, id, name);
      }
    }
  }

  /** A register installs the identity and the name its connection speaks for. */
  lemma InstallsAs(states: seq<Hub>, ops: seq<Op>, k: nat, c: nat, id: Id, name: Name)
    requires IsRun(states, ops) && k < |ops|
    ensures Installs(ops, k, c, id, name) <==>
      && ops[k] == Register(c) && c in states[k].conns
      && states[k].conns[c].agentId == id && states[k].conns[c].name == name
  {
    assert Follows(states[k], ops[k], states[k + 1]);
    HelloIsKept(states, ops, k, c, id, name);
  }

  lemma InstallsSomeAs(states: seq<Hub>, ops: seq<Op>, k: nat, id: Id)
    requires IsRun(states, ops) && k < |ops|
    ensures InstallsSome(ops, k, id) <==>
      ops[k].Register? && ops[k].c in states[k].conns && states[k].conns[ops[k].c].agentId == id
  {
    assert Follows(states[k], ops[k], states[k + 1]);
    if c, name :| Installs(ops, k, c, id, name) {
      InstallsAs(states, ops, k, c, id, name);
    }
    if ops[k].Register? && states[k].conns[ops[k].c].agentId == id {
      InstallsAs(states, ops, k, ops[k].c, id, states[k].conns[ops[k].c].name);
    }
  }

  lemma AgentsStep(h: Hub, op: Op, id: Id, name: Name)
    requires Enabled(h, op)
    ensures var h' := Apply(h, op);
      (id in h'.agents && h'.agents[id].name == name) <==>
        if op.Register? && h.conns[op.c].agentId == id then h.conns[op.c].name == name
        else id in h.agents && h.agents[id].name == name
             && op != Restart && !(op.Evict? && op.id == id && id !in h.clients)
  {
  }

  ghost predicate Known(states: seq<Hub>, ops: seq<Op>, k: nat, id: Id, name: Name)
    requires k <= |ops| < |states|
  {
    exists c :: KnownBy(states, ops, k, c, id, name)
  }

  lemma KnownStep(states: seq<Hub>, ops: seq<Op>, before: nat, id: Id, name: Name)
    requires IsRun(states, ops) && before < |ops|
    ensures var h, op := states[before], ops[before];
      Known(states, ops, before + 1, id, name) <==>
        if op.Register? && op.c in h.conns && h.conns[op.c].agentId == id then h.conns[op.c].name == name
        else Known(states, ops, before, id, name) && !Removes(states, ops, before, id)
  {
    var h, op := states[before], ops[before];
    InstallsSomeAs(states, ops, before, id);
    if op.Register? && op.c in h.conns && h.conns[op.c].agentId == id {
      InstallsAs(states, ops, before, op.c, id, name);
      KnownOneMore(states, ops, before, op.c, id, name);
    }
    if Known(states, ops, before, id, name) {
      var c :| KnownBy(states, ops, before, c, id, name);
      KnownOneMore(states, ops, before, c, id, name);
    }
    if Known(states, ops, before + 1, id, name) {
      var c :| KnownBy(states, ops, before + 1, c, id, name);
      KnownOneMore(states, ops, before, c, id, name);
      InstallsAs(states, ops, before, c, id, name);
    }
  }

  /** The registry knows exactly the identities registered and not removed since, under their last name. */
  lemma {:induction false} EntryIsLatest(states: seq<Hub>, ops: seq<Op>, k: nat, id: Id, name: Name)
    requires IsRun(states, ops) && k <= |ops|
    ensures (id in states[k].agents && states[k].agents[id].name == name) <==> Known(states, ops, k, id, name)
  {
    if k > 0 {
      EntryIsLatest(states, ops, k - 1, id, name);
      assert Follows(states[k - 1], ops[k - 1], states[k]);
      AgentsStep(states[k - 1], ops[k - 1], id, name);
      KnownStep(states, ops, k - 1, id, name);
    }
  }

  lemma ClientsStep(h: Hub, op: Op, c: nat, id: Id)
    requires Registry.RegistryOk(h) && Enabled(h, op)
    ensures var h' := Apply(h, op);
      (id in h'.clients && h'.clients[id] == c) <==>
        if op.Register? && h.conns[op.c].agentId == id then op.c == c
        else id in h.clients && h.clients[id] == c && op != Restart && op != Deregister(c)
  {
  }

  ghost predicate Online(states: seq<Hub>, ops: seq<Op>, k: nat, c: nat, id: Id)
    requires k <= |ops| < |states|
  {
    exists name :: OnlineBy(states, ops, k, c, id, name)
  }

  lemma OnlineStep(states: seq<Hub>, ops: seq<Op>, before: nat, c: nat, id: Id)
    requires IsRun(states, ops) && before < |ops|
    ensures var h, op := states[before], ops[before];
      Online(states, ops, before + 1, c, id) <==>
        if op.Register? && op.c in h.conns && h.conns[op.c].agentId == id then op.c == c
        else Online(states, ops, before, c, id) && op != Deregister(c) && !Removes(states, ops, before, id)
  {
    var h, op := states[before], ops[before];
    InstallsSomeAs(states, ops, before, id);
    if op == Register(c) && c in h.conns && h.conns[c].agentId == id {
      InstallsAs(states, ops, before, c, id, h.conns[c].name);
      OnlineOneMore(states, ops, before, c, id, h.conns[c].name);
    }
    if Online(states, ops, before, c, id) {
      var name :| OnlineBy(states, ops, before, c, id, name);
      OnlineOneMore(states, ops, before, c, id, name);
    }
    if Online(states, ops, before + 1, c, id) {
      var name :| OnlineBy(states, ops, before + 1, c, id, name);
      OnlineOneMore(states, ops, before, c, id, name);
      InstallsAs(states, ops, before, c, id, name);
    }
  }

  /** The connection an identity is online on is the last one registered for it, until that is deregistered. */
  lemma {:induction false} ClientIsLatest(states: seq<Hub>, ops: seq<Op>, k: nat, c: nat, id: Id)
    requires IsRun(states, ops) && k <= |ops|
    ensures (id in states[k].clients && states[k].clients[id] == c) <==> Online(states, ops, k, c, id)
  {
    if k > 0 {
      ClientIsLatest(states, ops, k - 1, c, id);
      assert Follows(states[k - 1], ops[k - 1], states[k]);
      Registry.RegistryInvariant(states, ops, k - 1);
      ClientsStep(states[k - 1], ops[k - 1], c, id);
      OnlineStep(states, ops, k - 1, c, id);
    }
  }
}
