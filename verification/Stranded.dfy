/**
 * Mail for an identity that is not registered: it needs an eviction, the deliveries in flight
 * decide exactly whether they bring it about, and both kinds of delivery do in some run.
 */
module Stranded {
  import opened HubState
  import opened Delivery
  import Channels
  import Registry

  // -------- without an eviction there is none

  predicate Evicts(h: Hub, s: Step, id: Id) {
    s.Change? && s.op.Evict? && s.op.id == id && EvictAllowed(h, id)
  }

  /** The task will, or may, hand a frame to the mailbox of id; it has looked id up. */
  predicate Aims(task: Task, id: Id) {
    match task
    case Dm(to, _, dm) => to == id && (dm.Known? || dm.Pushing? || dm.Storing?)
    case Cast(_, _, _, _, _, cast) => cast.Fanning? && id in cast.snap.order
    case Flush(_, _, _) => false
  }

  ghost predicate IsMember(channels: map<Name, Channels.Channel>, id: Id) {
    exists name :: name in channels && id in channels[name].members
  }

  /** Whatever refers to id implies that it is registered. */
  ghost predicate Anchored(w: World, id: Id) {
    && (MailOf(w.hub, id) != [] ==> id in w.hub.agents)
    && (IsMember(w.channels, id) ==> id in w.hub.agents)
    && (forall t :: 0 <= t < |w.tasks| && Aims(w.tasks[t], id) ==> id in w.hub.agents)
    && (forall c :: Belongs(w.hub, c, id) ==> id in w.hub.agents)
  }

  lemma OpKeepsAgents(h: Hub, op: Op, id: Id)
    requires Registry.RegistryOk(h) && Enabled(h, op) && op != Restart
    requires !(op.Evict? && op.id == id && EvictAllowed(h, id))
    ensures id in h.agents ==> id in Apply(h, op).agents
    ensures forall c :: Belongs(Apply(h, op), c, id) ==> Belongs(h, c, id) || id in Apply(h, op).agents
  {
  }

  lemma StepKeepsAgents(w: World, s: Step, id: Id)
    requires Registry.RegistryOk(w.hub) && CanStep(w, s) && !Evicts(w.hub, s, id)
    ensures id in w.hub.agents ==> id in Do(w, s).hub.agents
    ensures forall c :: Belongs(Do(w, s).hub, c, id) ==> Belongs(w.hub, c, id) || id in Do(w, s).hub.agents
  {
    if s.Change? {
      OpKeepsAgents(w.hub, s.op, id);
    }
  }

  lemma MemberAfter(w: World, s: Step, id: Id)
    requires CanStep(w, s) && IsMember(Do(w, s).channels, id)
    ensures IsMember(w.channels, id) || (s.JoinChannel? && Belongs(w.hub, s.c, id))
  {
    var name :| name in Do(w, s).channels && id in Do(w, s).channels[name].members;
    assert name in w.channels && id in w.channels[name].members ==> IsMember(w.channels, id);
  }

  lemma AimAfter(w: World, s: Step, id: Id, t: nat)
    requires CanStep(w, s) && t < |Do(w, s).tasks| && Aims(Do(w, s).tasks[t], id)
    ensures (t < |w.tasks| && Aims(w.tasks[t], id)) || id in w.hub.agents || IsMember(w.channels, id)
  {
    if s.Resolve? && s.t == t {
      var task := w.tasks[t];
      assert Verdict(w, task).Ok?;
      assert id in s.online || id in s.offline;
      assert task.channel in w.channels && id in w.channels[task.channel].members;
    }
  }

  lemma StepKeepsAnchored(w: World, s: Step, id: Id)
    requires Registry.RegistryOk(w.hub) && Anchored(w, id) && CanStep(w, s) && !Evicts(w.hub, s, id)
    ensures Anchored(Do(w, s), id)
  {
    var w' := Do(w, s);
    StepKeepsAgents(w, s, id);
    if IsMember(w'.channels, id) {
      MemberAfter(w, s, id);
    }
    forall t | 0 <= t < |w'.tasks| && Aims(w'.tasks[t], id) ensures id in w'.hub.agents {
      AimAfter(w, s, id, t);
    }
    MailAfter(w, s, id);
    if s.Store? && NextHandOver(w.tasks[s.t]).id == id {
      assert Aims(w.tasks[s.t], id);
    }
  }

  ghost predicate NeverEvicts(w: World, steps: seq<Step>, id: Id)
    requires AllCan(w, steps)
    decreases |steps|
  {
    steps == [] || (!Evicts(w.hub, steps[0], id) && NeverEvicts(Do(w, steps[0]), steps[1..], id))
  }

  lemma {:induction false} RunKeepsAnchored(w: World, steps: seq<Step>, id: Id)
    requires Registry.RegistryOk(w.hub) && Anchored(w, id) && AllCan(w, steps) && NeverEvicts(w, steps, id)
    ensures Anchored(Run(w, steps), id)
    decreases |steps|
  {
    if steps != [] {
      StepKeepsAnchored(w, steps[0], id);
      KeepsRegistry(w, steps[0]);
      RunKeepsAnchored(Do(w, steps[0]), steps[1..], id);
    }
  }

  /** Mail waits only for registered identities, unless the identity has been evicted. */
  lemma StrandedNeedsEviction(steps: seq<Step>, id: Id)
    requires AllCan(START, steps) && MailOf(Run(START, steps).hub, id) != [] && id !in Run(START, steps).hub.agents
    ensures !NeverEvicts(START, steps, id)
  {
    if NeverEvicts(START, steps, id) {
      RunKeepsAnchored(START, steps, id);
    }
  }

  // -------- what the deliveries in flight bring about

  /** The task can still hand a frame to the mailbox of id, which is not registered. */
  ghost predicate MayStrand(w: World, task: Task, id: Id) {
    match task
    case Dm(to, _, dm) => to == id && (dm.Known? || dm.Pushing? || dm.Storing?)
    case Cast(_, channel, _, _, _, cast) =>
      if cast.Asked? then Verdict(w, task).Ok? && id in w.channels[channel].members
      else cast.Fanning? && StillToStore(cast.snap, cast.done, id)
    case Flush(_, _, _) => false
  }

  /** id had no connection when the recipients were resolved, and its turn is still to come. */
  ghost predicate StillToStore(snap: Snapshot, done: nat, id: Id) {
    id !in snap.clients && exists i :: done <= i < |snap.order| && snap.order[i] == id
  }

  ghost predicate SomeStrand(w: World, id: Id) {
    exists t :: 0 <= t < |w.tasks| && MayStrand(w, w.tasks[t], id)
  }

  /** A step of a task that has arrived. */
  predicate InFlight(s: Step) {
    s.LookUp? || s.FindConn? || s.Resolve? || s.TakeMail? || s.Push? || s.Store?
  }

  /** id is not registered and has no mail, and no task in flight will change that. */
  ghost predicate Quiet(w: World, id: Id) {
    Registry.RegistryOk(w.hub) && id !in w.hub.agents && MailOf(w.hub, id) == [] && !SomeStrand(w, id)
  }

  lemma TaskStaysQuiet(w: World, s: Step, id: Id, t: nat)
    requires Quiet(w, id) && CanStep(w, s) && InFlight(s) && t < |w.tasks|
    ensures t < |Do(w, s).tasks| && !MayStrand(Do(w, s), Do(w, s).tasks[t], id)
  {
    assert !MayStrand(w, w.tasks[t], id);
    if s.Resolve? && s.t == t && Verdict(w, w.tasks[t]).Ok? {
      var order := s.online + s.offline;
      assert forall i :: 0 <= i < |order| ==> order[i] in s.online || order[i] in s.offline;
    }
  }

  lemma StepStaysQuiet(w: World, s: Step, id: Id)
    requires Quiet(w, id) && CanStep(w, s) && InFlight(s)
    ensures Quiet(Do(w, s), id)
  {
    KeepsRegistry(w, s);
    MailAfter(w, s, id);
    if s.Store? && NextHandOver(w.tasks[s.t]).id == id {
      StoreMeansStrand(w, s.t, id);
    }
    forall t | 0 <= t < |Do(w, s).tasks| ensures !MayStrand(Do(w, s), Do(w, s).tasks[t], id) {
      TaskStaysQuiet(w, s, id, t);
    }
  }

  lemma StoreMeansStrand(w: World, t: nat, id: Id)
    requires t < |w.tasks| && NextHandOver(w.tasks[t]).PutAway? && NextHandOver(w.tasks[t]).id == id
    ensures SomeStrand(w, id)
  {
    assert MayStrand(w, w.tasks[t], id);
  }

  lemma {:induction false} RunStaysQuiet(w: World, steps: seq<Step>, id: Id)
    requires Quiet(w, id) && AllCan(w, steps) && forall i :: 0 <= i < |steps| ==> InFlight(steps[i])
    ensures Quiet(Run(w, steps), id)
    decreases |steps|
  {
    if steps != [] {
      StepStaysQuiet(w, steps[0], id);
      RunStaysQuiet(Do(w, steps[0]), steps[1..], id);
    }
  }

  /** Steps of tasks in flight that end with mail for id. */
  ghost predicate Strands(w: World, steps: seq<Step>, id: Id) {
    AllCan(w, steps) && (forall i :: 0 <= i < |steps| ==> InFlight(steps[i])) && MailOf(Run(w, steps).hub, id) != []
  }

  lemma StrandsAfter(w: World, s: Step, steps: seq<Step>, id: Id)
    requires CanStep(w, s) && InFlight(s) && Strands(Do(w, s), steps, id)
    ensures Strands(w, [s] + steps, id)
  {
    assert ([s] + steps)[1..] == steps;
  }

  lemma StoreStrands(w: World, t: nat, id: Id)
    requires t < |w.tasks| && NextHandOver(w.tasks[t]).PutAway? && NextHandOver(w.tasks[t]).id == id
    ensures Strands(w, [Store(t)], id)
  {
    var w' := Do(w, Store(t));
    assert [Store(t)][1..] == [] && AllCan(w', []) && Run(w', []) == w' && Run(w, [Store(t)]) == w';
  }

  lemma DmStrands(w: World, t: nat, id: Id) returns (steps: seq<Step>)
    requires Registry.RegistryOk(w.hub) && id !in w.hub.agents && t < |w.tasks|
    requires w.tasks[t].Dm? && MayStrand(w, w.tasks[t], id)
    ensures Strands(w, steps, id)
  {
    match w.tasks[t].dm
    case Storing =>
      StoreStrands(w, t, id);
      steps := [Store(t)];
    case Known =>
      StoreStrands(Do(w, FindConn(t)), t, id);
      StrandsAfter(w, FindConn(t), [Store(t)], id);
      steps := [FindConn(t)] + [Store(t)];
    case Pushing(_) =>
      StoreStrands(Do(w, Push(t, false)), t, id);
      StrandsAfter(w, Push(t, false), [Store(t)], id);
      steps := [Push(t, false)] + [Store(t)];
  }

  lemma {:induction false} FanOutStrands(w: World, t: nat, i: nat, id: Id) returns (steps: seq<Step>)
    requires t < |w.tasks| && w.tasks[t].Cast? && w.tasks[t].cast.Fanning?
    requires var cast := w.tasks[t].cast;
      cast.done <= i < |cast.snap.order| && cast.snap.order[i] == id && id !in cast.snap.clients
    ensures Strands(w, steps, id)
    decreases i - w.tasks[t].cast.done
  {
    if i == w.tasks[t].cast.done {
      StoreStrands(w, t, id);
      steps := [Store(t)];
    } else {
      var s := if NextHandOver(w.tasks[t]).Give? then Push(t, true) else Store(t);
      var rest := FanOutStrands(Do(w, s), t, i, id);
      StrandsAfter(w, s, rest, id);
      steps := [s] + rest;
    }
  }

  /** Members can always be put in some order, connections first. */
  lemma SplitExists(members: set<Id>, clients: map<Id, nat>) returns (online: seq<Id>, offline: seq<Id>)
    ensures Channels.IsSplit(members, clients, online, offline)
  {
    online, offline := [], [];
    var todo := members;
    while todo != {}
      invariant todo <= members && Channels.IsSplit(members - todo, clients, online, offline)
      decreases |todo|
    {
      var id :| id in todo;
      todo := todo - {id};
      if id in clients {
        online := online + [id];
      } else {
        offline := offline + [id];
      }
    }
    assert members - todo == members;
  }

  lemma AskedStrands(w: World, t: nat, id: Id) returns (steps: seq<Step>)
    requires Registry.RegistryOk(w.hub) && id !in w.hub.agents && t < |w.tasks|
    requires w.tasks[t].Cast? && w.tasks[t].cast.Asked? && MayStrand(w, w.tasks[t], id)
    ensures Strands(w, steps, id)
  {
    var members := w.channels[w.tasks[t].channel].members;
    var online, offline := SplitExists(members, w.hub.clients);
    var s := Resolve(t, online, offline);
    var w' := Do(w, s);
    assert id in offline;
    var k :| 0 <= k < |offline| && offline[k] == id;
    assert (online + offline)[|online| + k] == id;
    var rest := FanOutStrands(w', t, |online| + k, id);
    StrandsAfter(w, s, rest, id);
    steps := [s] + rest;
  }

  /**
   * An unregistered identity without mail can get some from the deliveries in flight exactly when
   * one of them has looked it up, or is a fan-out with a storing turn for it still to come.
   */
  lemma StrandsExactly(w: World, id: Id)
    requires Registry.RegistryOk(w.hub) && id !in w.hub.agents && MailOf(w.hub, id) == []
    ensures (exists steps: seq<Step> :: Strands(w, steps, id)) <==> SomeStrand(w, id)
  {
    if SomeStrand(w, id) {
      var t :| 0 <= t < |w.tasks| && MayStrand(w, w.tasks[t], id);
      var steps: seq<Step>;
      if w.tasks[t].Dm? {
        steps := DmStrands(w, t, id);
      } else if w.tasks[t].cast.Asked? {
        steps := AskedStrands(w, t, id);
      } else {
        var snap, done := w.tasks[t].cast.snap, w.tasks[t].cast.done;
        var i :| done <= i < |snap.order| && snap.order[i] == id;
        steps := FanOutStrands(w, t, i, id);
      }
      assert Strands(w, steps, id);
    } else {
      forall steps: seq<Step> | AllCan(w, steps) && (forall i :: 0 <= i < |steps| ==> InFlight(steps[i]))
        ensures MailOf(Run(w, steps).hub, id) == []
      {
        RunStaysQuiet(w, steps, id);
      }
    }
  }

  // -------- two runs that end so

  ghost predicate Reachable(w: World) {
    exists steps: seq<Step> :: LeadsTo(steps, w)
  }

  ghost predicate LeadsTo(steps: seq<Step>, w: World) {
    AllCan(START, steps) && Run(START, steps) == w
  }

  lemma {:induction false} RunOneMore(w: World, steps: seq<Step>, s: Step)
    requires AllCan(w, steps) && CanStep(Run(w, steps), s)
    ensures AllCan(w, steps + [s]) && Run(w, steps + [s]) == Do(Run(w, steps), s)
    decreases |steps|
  {
    if steps == [] {
      var w' := Do(w, s);
      assert [] + [s] == [s] && [s][1..] == [] && AllCan(w', []) && Run(w', []) == w';
    } else {
      assert (steps + [s])[1..] == steps[1..] + [s];
      RunOneMore(Do(w, steps[0]), steps[1..], s);
    }
  }

  lemma Next(w: World, s: Step) returns (w': World)
    requires Reachable(w) && CanStep(w, s)
    ensures w' == Do(w, s) && Reachable(w')
  {
    var steps :| LeadsTo(steps, w);
    RunOneMore(START, steps, s);
    w' := Do(w, s);
    assert LeadsTo(steps + [s], w');
  }

  /** A connection with the master secret has said hello as id and is registered. */
  lemma Arrives(w: World, c: nat, id: Id) returns (w': World)
    requires Reachable(w) && c !in w.hub.conns && id != "" && id !in w.hub.clients && w.hub.secrets == map[]
    ensures Reachable(w') && w'.hub.conns == w.hub.conns[c := Conn(Master, true, id, "", true, false, false)]
    ensures w'.hub.clients == w.hub.clients[id := c] && w'.hub.agents == w.hub.agents[id := Entry("", true)]
    ensures w' == w.(hub := w.hub.(conns := w'.hub.conns, clients := w'.hub.clients, agents := w'.hub.agents))
  {
    var w2 := SaysHello(w, c, id);
    w' := Next(w2, Change(Register(c)));
    assert w'.hub.conns == w.hub.conns[c := Conn(Master, true, id, "", true, false, false)];
    assert w'.log == w.log;
  }

  lemma SaysHello(w: World, c: nat, id: Id) returns (w': World)
    requires Reachable(w) && c !in w.hub.conns && id != ""
    ensures Reachable(w')
    ensures w' == w.(hub := w.hub.(conns := w.hub.conns[c := Conn(Master, true, id, "", false, false, false)]))
  {
    var w1 := Next(w, Change(Open(c, Master, "")));
    w' := Next(w1, Change(Hello(c, id, "")));
    assert w'.hub.conns == w.hub.conns[c := Conn(Master, true, id, "", false, false, false)];
    assert w1.log == w.log && w'.log == w.log;
  }

  lemma NoSecretsOrder(h: Hub, id: Id)
    requires h.secrets == map[]
    ensures IsOrder([], SecretsAfterEvict(h, id))
  {
    assert SecretsAfterEvict(h, id) == map[];
    var none: seq<Name> := [];
    assert (set n | n in none) == {};
  }

  /** The connection ends and the identity is evicted. */
  lemma Leaves(w: World, c: nat, id: Id) returns (w': World)
    requires Reachable(w) && c in w.hub.conns && w.hub.conns[c].registered && !w.hub.conns[c].ended
    requires w.hub.conns[c].agentId == id && id in w.hub.clients && w.hub.clients[id] == c && id in w.hub.agents
    requires w.hub.secrets == map[]
    ensures Reachable(w') && w'.tasks == w.tasks && w'.channels == w.channels && w'.hub.secrets == map[]
    ensures w'.hub.clients == w.hub.clients - {id} && w'.hub.agents == w.hub.agents - {id}
    ensures MailOf(w'.hub, id) == []
    ensures w'.hub.conns.Keys == w.hub.conns.Keys
  {
    var w1 := Next(w, Change(Deregister(c)));
    NoSecretsOrder(w1.hub, id);
    assert EvictAllowed(w1.hub, id);
    w' := Next(w1, Change(Evict(id, [])));
    assert w'.hub.agents == w.hub.agents - {id};
  }

  /** Mail waits for an identity that is not registered. */
  ghost predicate Stranded(w: World, id: Id, f: Frame) {
    id !in w.hub.agents && MailOf(w.hub, id) == [f]
  }

  /** A direct message between its two lookups when the recipient is evicted: no channel is needed. */
  lemma MailOutlivesIdentity(id: Id, f: Frame)
    requires id != ""
    ensures exists w :: Reachable(w) && Stranded(w, id, f) && w.channels == map[]
  {
    assert LeadsTo([], START);
    var w1 := Arrives(START, 0, id);
    var w2 := Next(w1, Arrive(Dm(id, f, Lookup)));
    assert w2.tasks == [Dm(id, f, Lookup)];
    var w3 := Next(w2, LookUp(0));
    assert w3.tasks == [Dm(id, f, Known)];
    var w4 := Leaves(w3, 0, id);
    var w5 := Next(w4, FindConn(0));
    assert w5.tasks == [Dm(id, f, Storing)] && w5.hub == w4.hub;
    var w6 := Next(w5, Store(0));
    assert Stranded(w6, id, f);
  }

  /** Later deliveries alone, with no change of the registry, leave mail for id. */
  ghost predicate SendsStrand(w: World, steps: seq<Step>, id: Id, f: Frame) {
    && AllCan(w, steps) && (forall i :: 0 <= i < |steps| ==> steps[i].Arrive? || InFlight(steps[i]))
    && Stranded(Run(w, steps), id, f)
  }

  lemma SendFirst(w: World, s: Step, rest: seq<Step>, id: Id, f: Frame)
    requires CanStep(w, s) && (s.Arrive? || InFlight(s)) && SendsStrand(Do(w, s), rest, id, f)
    ensures SendsStrand(w, [s] + rest, id, f)
  {
    assert ([s] + rest)[1..] == rest;
  }

  /** A channel keeps an evicted member: a fan-out that arrives when all is quiet still stores mail for it. */
  lemma MembershipOutlivesIdentity(id: Id, other: Id, name: Name, f: Frame)
    requires id != "" && other != "" && id != other
    ensures exists w, steps :: Reachable(w) && Quiet(w, id) && w.tasks == [] && SendsStrand(w, steps, id, f)
  {
    assert LeadsTo([], START);
    var w1 := Arrives(START, 0, id);
    var w2 := Next(w1, JoinChannel(0, "", name));
    assert {} + {id} == {id} && w2.channels == map[name := Channels.Channel([], {id})];
    var w3 := Leaves(w2, 0, id);
    var w4 := Arrives(w3, 1, other);
    var w5 := Next(w4, JoinChannel(1, "", name));
    assert {id} + {other} == {id, other} && w5.channels == map[name := Channels.Channel([], {id, other})];
    ReachableRegistryOk(w5);
    var steps := FanOutToEvicted(w5, id, other, name, f);
  }

  lemma ReachableRegistryOk(w: World)
    requires Reachable(w)
    ensures Registry.RegistryOk(w.hub)
  {
    var steps :| LeadsTo(steps, w);
    RunKeepsRegistry(START, steps);
  }

  lemma {:induction false} RunKeepsRegistry(w: World, steps: seq<Step>)
    requires Registry.RegistryOk(w.hub) && AllCan(w, steps)
    ensures Registry.RegistryOk(Run(w, steps).hub)
    decreases |steps|
  {
    if steps != [] {
      KeepsRegistry(w, steps[0]);
      RunKeepsRegistry(Do(w, steps[0]), steps[1..]);
    }
  }

  lemma FanOutToEvicted(w: World, id: Id, other: Id, name: Name, f: Frame) returns (steps: seq<Step>)
    requires id != other && w.tasks == []
    requires w.channels == map[name := Channels.Channel([], {id, other})]
    requires w.hub.clients == map[other := 1] && Belongs(w.hub, 1, other) && id !in w.hub.agents
    requires MailOf(w.hub, id) == []
    ensures SendsStrand(w, steps, id, f)
  {
    var cast := Cast(1, name, other, "", f, Asked);
    var arrive, resolve := Arrive(cast), Resolve(0, [other], [id]);
    var w6 := Do(w, arrive);
    assert w6.tasks == [cast] && Verdict(w6, cast).Ok?;
    assert Channels.IsSplit({id, other}, map[other := 1], [other], [id]);
    assert [other] + [id] == [other, id];
    var rest := HandedOver(Do(w6, resolve), id, other, f);
    SendFirst(w6, resolve, rest, id, f);
    SendFirst(w, arrive, [resolve] + rest, id, f);
    steps := [arrive] + ([resolve] + rest);
  }

  lemma HandedOver(w: World, id: Id, other: Id, f: Frame) returns (steps: seq<Step>)
    requires |w.tasks| == 1 && NextHandOver(w.tasks[0]) == Give(1, f)
    requires w.tasks[0].Cast? && w.tasks[0].f == f && w.tasks[0].cast.Fanning? && w.tasks[0].cast.done == 0
    requires w.tasks[0].cast.snap.order == [other, id] && id !in w.tasks[0].cast.snap.clients
    requires id !in w.hub.agents && MailOf(w.hub, id) == []
    ensures SendsStrand(w, steps, id, f)
  {
    var push, store := Push(0, true), Store(0);
    var w8 := Do(w, push);
    assert NextHandOver(w8.tasks[0]) == PutAway(id, f) && w8.hub == w.hub;
    var w9 := Do(w8, store);
    assert Stranded(w9, id, f) && AllCan(w9, []) && Run(w9, []) == w9;
    SendFirst(w8, store, [], id, f);
    SendFirst(w, push, [store] + [], id, f);
    steps := [push] + ([store] + []);
  }
}
