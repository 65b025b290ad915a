/** The hub's critical sections as they run: maps updated in place under the hub lock. */
module HubCore {
  import opened HubState

  /** What is handed to a connection, in order. */
  datatype Out = Queued(f: Frame) | MailboxFull | Flushed(count: nat)

  function QueuedAll(q: seq<Frame>): seq<Out> {
    seq(|q|, i requires 0 <= i < |q| => Queued(q[i]))
  }

  /** rest is what is left of the registry without id. */
  lemma OthersHold(h: Hub, id: Id, rest: map<Id, Entry>)
    requires id in h.agents && rest == h.agents - {id}
    ensures (exists o :: o in rest && rest[o].name == h.agents[id].name) <==> SharedName(h, id)
  {
    if SharedName(h, id) {
      var o :| o in h.agents && o != id && h.agents[o].name == h.agents[id].name;
      assert o in rest;
    }
  }

  /** The credentials an eviction leaves: all but the name's, when it held some and nobody shares it. */
  lemma EvictedSecrets(h: Hub, id: Id, held: bool, shared: bool)
    requires EvictAllowed(h, id)
    requires held == (h.agents[id].name in h.secrets)
    requires shared <==> SharedName(h, id)
    ensures SecretsAfterEvict(h, id) == if held && !shared then h.secrets - {h.agents[id].name} else h.secrets
    ensures held && !shared ==> SecretsAfterEvict(h, id) != h.secrets
  {
    if held {
      assert h.agents[id].name !in h.secrets - {h.agents[id].name};
    } else {
      assert h.secrets - {h.agents[id].name} == h.secrets;
    }
  }

  class HubCore {
    var conns: map<nat, Conn>
    var clients: map<Id, nat>
    var agents: map<Id, Entry>
    var mailbox: map<Id, seq<Frame>>
    var overflow: set<Id>
    var secrets: map<Name, seq<string>>
    var disk: seq<Record>
    const masterSecret: string

    ghost function State(): Hub
      reads this
    {
      Hub(conns, clients, agents, mailbox, overflow, secrets, disk)
    }

    constructor (master: string)
      ensures State() == EMPTY_HUB && masterSecret == master
    {
      conns, clients, agents, mailbox := map[], map[], map[], map[];
      overflow, secrets, disk := {}, map[], [];
      masterSecret := master;
    }

    /** Installs an authenticated connection; the agent's previous one is dropped. */
    method Register(c: nat)
      requires c in conns
      modifies this`conns, this`clients, this`agents
      ensures State() == Registered(old(State()), c)
    {
      var id := conns[c].agentId;
      if id in clients && clients[id] != c {
        var previous := clients[id];
        if previous in conns {
          conns := conns[previous := conns[previous].(dropped := true)];
        }
      }
      conns := conns[c := conns[c].(registered := true)];
      clients := clients[id := c];
      agents := agents[id := Entry(conns[c].name, true)];
    }

    /** Ends a checked hello: the name must be the enrolled one, then the connection is installed. */
    method Welcome(c: nat, id: Id, name: Name) returns (ok: bool)
      requires c in conns
      modifies this`conns, this`clients, this`agents
      ensures ok <==> !Misnamed(old(conns)[c], name)
      ensures State() ==
        if ok then Registered(Greeted(old(State()), c, id, name), c) else Greeted(old(State()), c, id, name)
      ensures ok ==>
        && conns[c].authed && conns[c].registered && conns[c].name == name && conns[c].agentId == id
        && clients == old(clients)[id := c] && agents == old(agents)[id := Entry(name, true)]
      ensures ok && id in old(clients) && old(clients)[id] != c && old(clients)[id] in conns ==>
        conns[old(clients)[id]].dropped
      ensures !ok ==> conns[c] == old(conns)[c].(dropped := true) && clients == old(clients) && agents == old(agents)
    {
      var cl := conns[c];
      if cl.auth.Agent? && name != cl.auth.bound {
        conns := conns[c := cl.(dropped := true)];
        return false;
      }
      conns := conns[c := cl.(authed := true, agentId := id, name := name)];
      Register(c);
      return true;
    }

    /** Removes a dead connection unless a newer one has replaced it. */
    method Deregister(c: nat)
      requires c in conns
      requires IsCurrent(State(), c) ==> conns[c].agentId in agents
      modifies this`conns, this`clients, this`agents
      ensures State() == Deregistered(old(State()), c)
    {
      conns := conns[c := conns[c].(dropped := true, ended := true)];
      var id := conns[c].agentId;
      if !(id in clients && clients[id] == c) {
        return;
      }
      clients := clients - {id};
      agents := agents[id := agents[id].(online := false)];
    }

    /** Whether some registry entry holds the name. */
    method NameHeld(name: Name) returns (shared: bool)
      ensures shared <==> exists other :: other in agents && agents[other].name == name
    {
      shared := false;
      var todo := agents.Keys;
      while todo != {} && !shared
        invariant todo <= agents.Keys
        invariant shared ==> exists other :: other in agents && agents[other].name == name
        invariant !shared ==> forall other :: other in agents && agents[other].name == name ==> other in todo
        decreases |todo|, !shared
      {
        var other :| other in todo;
        todo := todo - {other};
        if agents[other].name == name {
          shared := true;
        }
      }
    }

    /** Removes an offline identity, its mailbox and, with the last holder of a name, its secrets. */
    method Evict(id: Id) returns (ghost order: seq<Name>)
      modifies this
      ensures IsOrder(order, SecretsAfterEvict(old(State()), id))
      ensures State() == Evicted(old(State()), id, order)
    {
      ghost var h := State();
      if id !in agents || id in clients {
        order := SomeOrder(secrets);
        return;
      }
      var name := agents[id].name;
      agents := agents - {id};
      mailbox := mailbox - {id};
      overflow := overflow - {id};
      var held := name in secrets;
      var shared := NameHeld(name);
      OthersHold(h, id, agents);
      EvictedSecrets(h, id, held, shared);
      if held && !shared {
        secrets := secrets - {name};
        order := PersistSecrets();
      } else {
        order := SomeOrder(secrets);
      }
    }

    /**
     * Adds the hash of a fresh secret to the connection's name, or replaces all it has. Only a
     * connection that came with the master secret may.
     */
    method Enroll(c: nat, hash: string, rotate: bool) returns (ok: bool, ghost order: seq<Name>)
      requires c in conns
      modifies this`secrets, this`disk
      ensures ok <==> conns[c].auth == Master
      ensures ok ==> IsOrder(order, secrets) && State() == Enrolled(old(State()), conns[c].name, hash, rotate, order)
      ensures !ok ==> State() == old(State())
    {
      order := [];
      if conns[c].auth != Master {
        return false, order;
      }
      var name := conns[c].name;
      if rotate {
        secrets := secrets[name := [hash]];
      } else {
        secrets := secrets[name := (if name in secrets then secrets[name] else []) + [hash]];
      }
      order := PersistSecrets();
      ok := true;
    }

    /** Writes one record per hash, names in whatever order the map gives them. */
    method PersistSecrets() returns (ghost order: seq<Name>)
      modifies this`disk
      ensures IsOrder(order, secrets) && disk == Records(secrets, order)
    {
      var records: seq<Record> := [];
      order := [];
      var todo := secrets.Keys;
      while todo != {}
        invariant todo <= secrets.Keys
        invariant (set n | n in order) == secrets.Keys - todo
        invariant forall i, j :: 0 <= i < j < |order| ==> order[i] != order[j]
        invariant records == Records(secrets, order)
        decreases |todo|
      {
        var name :| name in todo;
        var hashes := secrets[name];
        var i := 0;
        while i < |hashes|
          invariant 0 <= i <= |hashes|
          invariant records == Records(secrets, order) + RecordsOf(name, hashes[..i])
        {
          records := records + [Record(name, hashes[i])];
          i := i + 1;
        }
        assert hashes[..i] == hashes;
        RecordsAppend(secrets, order, name);
        assert forall k :: 0 <= k < |order| ==> order[k] in set n | n in order;
        assert (set n | n in order + [name]) == (set n | n in order) + {name};
        order := order + [name];
        todo := todo - {name};
      }
      disk := records;
    }

    /** Restores the secrets from the file. */
    method LoadSecrets()
      modifies this`secrets
      ensures secrets == Loaded(disk)
    {
      var loaded: map<Name, seq<string>> := map[];
      var i := 0;
      while i < |disk|
        invariant 0 <= i <= |disk|
        invariant LoadInto(loaded, disk[i..]) == Loaded(disk)
      {
        var rec := disk[i];
        loaded := loaded[rec.name := (if rec.name in loaded then loaded[rec.name] else []) + [rec.hash]];
        i := i + 1;
      }
      secrets := loaded;
    }

    /** The enrolled name a hash is stored under, if any. */
    method AgentForSecret(want: string) returns (name: Name, ok: bool)
      ensures ok ==> want in HashesOf(secrets, name)
      ensures !ok ==> forall n :: want !in HashesOf(secrets, n)
    {
      var todo := secrets.Keys;
      while todo != {}
        invariant todo <= secrets.Keys
        invariant forall n :: n in secrets && n !in todo ==> want !in secrets[n]
        decreases |todo|
      {
        name :| name in todo;
        var hashes := secrets[name];
        var i := 0;
        while i < |hashes|
          invariant 0 <= i <= |hashes|
          invariant want !in hashes[..i]
        {
          if hashes[i] == want {
            return name, true;
          }
          i := i + 1;
        }
        todo := todo - {name};
      }
      return "", false;
    }

    /** Classifies an upgrade token; the empty token matches nothing. hash is the digest. */
    method MatchBearer(token: string, hash: string -> string) returns (r: Bearer)
      ensures IsAnswer(secrets, masterSecret, token, hash(token), r)
    {
      if token != "" && masterSecret != "" && token == masterSecret {
        return MasterBearer;
      }
      if token == "" {
        return Denied;
      }
      var name, ok := AgentForSecret(hash(token));
      r := if ok then AgentBearer(name) else Denied;
    }

    /** Buffers a frame for an offline agent, dropping the oldest over the cap. */
    method EnqueueMail(id: Id, f: Frame) returns (size: nat)
      modifies this`mailbox, this`overflow
      ensures State() == Enqueued(old(State()), id, f)
      ensures size == |MailOf(State(), id)|
    {
      var q := (if id in mailbox then mailbox[id] else []) + [f];
      if |q| > MAILBOX_CAP {
        q := q[|q| - MAILBOX_CAP..];
        overflow := overflow + {id};
      }
      mailbox := mailbox[id := q];
      size := |q|;
    }

    method DrainMail(id: Id) returns (q: seq<Frame>, dropped: bool)
      modifies this`mailbox, this`overflow
      ensures State() == Drained(old(State()), id)
      ensures q == MailOf(old(State()), id) && (dropped <==> id in old(overflow))
    {
      q := if id in mailbox then mailbox[id] else [];
      dropped := id in overflow;
      mailbox := mailbox - {id};
      overflow := overflow - {id};
    }

    /** Hands the queued frames over in order, reports overflow once, confirms with the count. */
    method HandleFlush(id: Id) returns (handed: seq<Out>)
      modifies this`mailbox, this`overflow
      ensures State() == Drained(old(State()), id)
      ensures var q := MailOf(old(State()), id);
        handed == QueuedAll(q) + (if id in old(overflow) then [MailboxFull] else []) + [Flushed(|q|)]
    {
      var q, dropped := DrainMail(id);
      handed := [];
      var i := 0;
      while i < |q|
        invariant 0 <= i <= |q|
        invariant handed == QueuedAll(q[..i])
        invariant State() == Drained(old(State()), id)
      {
        handed := handed + [Queued(q[i])];
        i := i + 1;
      }
      assert q[..i] == q;
      if dropped {
        handed := handed + [MailboxFull];
      }
      handed := handed + [Flushed(|q|)];
    }
  }

  lemma {:induction false} RecordsAppend(secrets: map<Name, seq<string>>, order: seq<Name>, name: Name)
    ensures Records(secrets, order + [name]) == Records(secrets, order) + RecordsOf(name, HashesOf(secrets, name))
  {
    if order == [] {
      assert [name][1..] == [] && order + [name] == [name];
    } else {
      assert (order + [name])[1..] == order[1..] + [name];
      RecordsAppend(secrets, order[1..], name);
    }
  }

  lemma SomeOrder(secrets: map<Name, seq<string>>) returns (order: seq<Name>)
    ensures IsOrder(order, secrets)
  {
    order := [];
    var todo := secrets.Keys;
    while todo != {}
      invariant todo <= secrets.Keys
      invariant (set n | n in order) == secrets.Keys - todo
      invariant forall i, j :: 0 <= i < j < |order| ==> order[i] != order[j]
      decreases |todo|
    {
      var name :| name in todo;
      assert forall k :: 0 <= k < |order| ==> order[k] in set n | n in order;
      assert (set n | n in order + [name]) == (set n | n in order) + {name};
      order := order + [name];
      todo := todo - {name};
    }
  }
}
