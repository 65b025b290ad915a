/** What the registry keeps in every run: who is online, on which connection, and who was dropped. */
module Registry {
  import opened HubState

  /** The connection is installed and has not gone through deregister. */
  predicate Alive(h: Hub, c: nat) {
    c in h.conns && h.conns[c].registered && !h.conns[c].ended
  }

  ghost predicate RegistryOk(h: Hub) {
    // online exactly when a connection is installed
    && (forall id :: id in h.clients <==> id in h.agents && h.agents[id].online)
    // the installed connection is live, authenticated and has that id
    && (forall id :: id in h.clients ==>
          Alive(h, h.clients[id]) && h.conns[h.clients[id]].authed && h.conns[h.clients[id]].agentId == id)
    // every other connection ever registered has been dropped
    && (forall c :: c in h.conns && h.conns[c].registered && !IsCurrent(h, c) ==> h.conns[c].dropped)
    && (forall c :: c in h.conns ==>
          && (h.conns[c].registered ==> h.conns[c].authed)
          && (h.conns[c].authed ==> h.conns[c].agentId != "")
          && (!h.conns[c].authed ==> h.conns[c].agentId == "")
          && (h.conns[c].ended ==> h.conns[c].dropped))
  }

  lemma StepKeepsRegistry(h: Hub, op: Op)
    requires RegistryOk(h) && Enabled(h, op)
    ensures RegistryOk(Apply(h, op))
  {
    match op
    case Register(c) => RegisterKeeps(h, c);
    case Deregister(c) => DeregisterKeeps(h, c);
    case Open(c, _, _) => OpenKeeps(h, op);
    case Hello(c, _, _) => HelloKeeps(h, op);
    case Drop(c) => DropKeeps(h, c);
    case Evict(_, _) => EvictKeeps(h, op);
    case _ => OthersKeep(h, op);
  }

  lemma OpenKeeps(h: Hub, op: Op)
    requires RegistryOk(h) && Enabled(h, op) && op.Open?
    ensures RegistryOk(Apply(h, op))
  {
    assert forall id :: id in h.clients ==> h.clients[id] != op.c;
  }

  lemma HelloKeeps(h: Hub, op: Op)
    requires RegistryOk(h) && Enabled(h, op) && op.Hello?
    ensures RegistryOk(Apply(h, op))
  {
    assert forall id :: id in h.clients ==> h.clients[id] != op.c;
  }

  lemma DropKeeps(h: Hub, c: nat)
    requires RegistryOk(h) && Enabled(h, Op.Drop(c))
    ensures RegistryOk(Apply(h, Op.Drop(c)))
  {
  }

  lemma EvictKeeps(h: Hub, op: Op)
    requires RegistryOk(h) && Enabled(h, op) && op.Evict?
    ensures RegistryOk(Apply(h, op))
  {
  }

  lemma OthersKeep(h: Hub, op: Op)
    requires RegistryOk(h) && Enabled(h, op) && (op.Enroll? || op.Enqueue? || op.Drain? || op.Restart?)
    ensures RegistryOk(Apply(h, op))
  {
  }

  /** After a register the other connections of that id have been dropped. */
  lemma OthersDropped(h: Hub, c: nat, o: nat)
    requires RegistryOk(h) && Enabled(h, Register(c))
    requires var h' := Registered(h, c); o in h'.conns && h'.conns[o].registered && !IsCurrent(h', o)
    ensures Registered(h, c).conns[o].dropped
  {
    assert o != c && o in h.conns;
    if IsCurrent(h, o) {
      assert h.clients[h.conns[c].agentId] == o;
    }
  }

  /** Who is online after a register, and on which connection. */
  lemma RegisterInstalls(h: Hub, c: nat)
    requires RegistryOk(h) && Enabled(h, Register(c))
    ensures var h' := Registered(h, c);
      && (forall id :: id in h'.clients <==> id in h'.agents && h'.agents[id].online)
      && (forall id :: id in h'.clients ==>
            Alive(h', h'.clients[id]) && h'.conns[h'.clients[id]].authed && h'.conns[h'.clients[id]].agentId == id)
  {
    assert forall i :: i in h.clients ==> h.clients[i] != c;
  }

  lemma RegisterKeeps(h: Hub, c: nat)
    requires RegistryOk(h) && Enabled(h, Register(c))
    ensures RegistryOk(Registered(h, c))
  {
    var h' := Registered(h, c);
    RegisterInstalls(h, c);
    forall o | o in h'.conns && h'.conns[o].registered && !IsCurrent(h', o) ensures h'.conns[o].dropped {
      OthersDropped(h, c, o);
    }
  }

  /** Which connections are current after a deregister: the others, as before. */
  lemma CurrentAfterDeregister(h: Hub, c: nat, o: nat)
    requires RegistryOk(h) && Enabled(h, Deregister(c)) && o in h.conns && o != c
    ensures var h' := Deregistered(h, c); o in h'.conns && h'.conns[o] == h.conns[o]
    ensures IsCurrent(Deregistered(h, c), o) <==> IsCurrent(h, o)
  {
  }

  lemma DeregisterKeeps(h: Hub, c: nat)
    requires RegistryOk(h) && Enabled(h, Deregister(c))
    ensures RegistryOk(Deregistered(h, c))
  {
    var h' := Deregistered(h, c);
    forall o | o in h'.conns && h'.conns[o].registered && !IsCurrent(h', o) ensures h'.conns[o].dropped {
      if o != c {
        CurrentAfterDeregister(h, c, o);
      }
    }
    forall id | id in h'.clients
      ensures Alive(h', h'.clients[id]) && h'.conns[h'.clients[id]].authed && h'.conns[h'.clients[id]].agentId == id
    {
      assert id in h.clients && h.clients[id] == h'.clients[id] && h.clients[id] != c;
    }
  }

  lemma {:induction false} RegistryInvariant(states: seq<Hub>, ops: seq<Op>, k: nat)
    requires IsRun(states, ops) && k <= |ops|
    ensures RegistryOk(states[k])
  {
    if k > 0 {
      RegistryInvariant(states, ops, k - 1);
      assert Follows(states[k - 1], ops[k - 1], states[k]);
      StepKeepsRegistry(states[k - 1], ops[k - 1]);
    }
  }

  /** Deregistering never meets a missing identity record. */
  lemma DeregisterFindsRecord(states: seq<Hub>, ops: seq<Op>, k: nat, c: nat)
    requires IsRun(states, ops) && k < |ops| && ops[k] == Deregister(c)
    ensures Follows(states[k], ops[k], states[k + 1]) && c in states[k].conns
    ensures IsCurrent(states[k], c) ==> states[k].conns[c].agentId in states[k].agents
  {
    RegistryInvariant(states, ops, k);
    assert Follows(states[k], ops[k], states[k + 1]);
  }

  /**
   * A connection that lost its place to a newer one stays out for good: it is dropped, and its
   * late deregister changes nothing in the registry.
   */
  lemma LateDeregisterIsHarmless(states: seq<Hub>, ops: seq<Op>, k: nat, j: nat, c: nat, newer: nat)
    requires IsRun(states, ops) && k < j < |ops|
    requires Alive(states[k], c) && ops[k] == Register(newer) && newer in states[k].conns && newer != c
    requires states[k].conns[newer].agentId == states[k].conns[c].agentId
    requires forall i :: k <= i < j ==> ops[i] != Restart
    requires ops[j] == Deregister(c)
    ensures var h, h' := states[j], states[j + 1];
      c in h.conns && h.conns[c].dropped && h'.clients == h.clients && h'.agents == h.agents
  {
    RegistryInvariant(states, ops, k);
    assert Follows(states[k], ops[k], states[k + 1]);
    RegisterReplaces(states[k], c, newer);
    StaysReplaced(states, ops, k + 1, j, c);
    RegistryInvariant(states, ops, j);
    assert Follows(states[j], ops[j], states[j + 1]);
  }

  /** Once registered and out of place, a connection stays so until the hub restarts. */
  lemma ReplacedStep(h: Hub, op: Op, c: nat)
    requires RegistryOk(h) && Enabled(h, op) && op != Restart
    requires c in h.conns && h.conns[c].registered && !IsCurrent(h, c)
    ensures var h' := Apply(h, op); c in h'.conns && h'.conns[c].registered && !IsCurrent(h', c)
  {
  }

  lemma RegisterReplaces(h: Hub, c: nat, newer: nat)
    requires RegistryOk(h) && Enabled(h, Register(newer)) && Alive(h, c) && newer != c
    requires h.conns[newer].agentId == h.conns[c].agentId
    ensures var h' := Registered(h, newer); c in h'.conns && h'.conns[c].registered && !IsCurrent(h', c)
  {
  }

  lemma {:induction false} StaysReplaced(states: seq<Hub>, ops: seq<Op>, k: nat, j: nat, c: nat)
    requires IsRun(states, ops) && k <= j <= |ops| && (forall i :: k <= i < j ==> ops[i] != Restart)
    requires c in states[k].conns && states[k].conns[c].registered && !IsCurrent(states[k], c)
    ensures c in states[j].conns && states[j].conns[c].registered && !IsCurrent(states[j], c)
    decreases j
  {
    if k < j {
      StaysReplaced(states, ops, k, j - 1, c);
      RegistryInvariant(states, ops, j - 1);
      assert Follows(states[j - 1], ops[j - 1], states[j]) && ops[j - 1] != Restart;
      ReplacedStep(states[j - 1], ops[j - 1], c);
    }
  }
}
