/**
 * Deliveries in flight: direct messages, channel fan-outs and mailbox flushes, each a sequence
 * of critical sections, interleaved with each other and with everything else that changes the
 * registry. Every hand-over is written to a log, and the log is proved to say where each
 * message went, exactly once, and to agree with the queues and the mailboxes.
 */
module Delivery {
  import opened HubState
  import Channels
  import Mailbox
  import Registry

  /** Refused: the push came back false and the connection is gone. */
  datatype Place = Queue(c: nat) | Refused(c: nat) | Mail(id: Id)

  datatype Event = Placed(task: nat, f: Frame, place: Place) | Emptied(id: Id)

  /** Where a direct message stands. */
  datatype DmState =
    | Lookup           // the recipient's identity is still to be checked
    | Known            // it exists; its connection is still to be read
    | Pushing(c: nat)
    | Storing          // no connection, or the push failed
    | Unknown          // rejected
    | Online(c: nat)   // accepted: in the connection's queue
    | Stored           // accepted: in the mailbox

  /** The members and the connections when the recipients were resolved, and the order used. */
  datatype Snapshot = Snapshot(members: set<Id>, clients: map<Id, nat>, order: seq<Id>)

  datatype CastState = Asked | Rejected | Fanning(snap: Snapshot, done: nat)

  datatype FlushState = Waiting | Handing(mail: seq<Frame>, done: nat)

  datatype Task =
    | Dm(to: Id, f: Frame, dm: DmState)
    | Cast(sender: nat, channel: Name, from: Id, pubkey: string, f: Frame, cast: CastState)
    | Flush(c: nat, id: Id, flush: FlushState)

  /** sent: all that was ever put into each connection's queue. */
  datatype World = World(
    hub: Hub,
    channels: map<Name, Channels.Channel>,
    sent: map<nat, seq<Frame>>,
    tasks: seq<Task>,
    log: seq<Event>)

  const START := World(EMPTY_HUB, map[], map[], [], [])

  function SentTo(sent: map<nat, seq<Frame>>, c: nat): seq<Frame> {
    if c in sent then sent[c] else []
  }

  // -------- what a task does next

  datatype HandOver = Nothing | Give(c: nat, f: Frame) | PutAway(id: Id, f: Frame)

  /** A member with a connection gets a push, any other a mailbox entry. */
  function TargetOf(clients: map<Id, nat>, id: Id, f: Frame): HandOver {
    if id in clients then Give(clients[id], f) else PutAway(id, f)
  }

  function NextHandOver(task: Task): HandOver {
    match task
    case Dm(to, f, dm) => if dm.Pushing? then Give(dm.c, f) else if dm.Storing? then PutAway(to, f) else Nothing
    case Cast(_, _, _, _, f, cast) =>
      if cast.Fanning? && cast.done < |cast.snap.order| then TargetOf(cast.snap.clients, cast.snap.order[cast.done], f)
      else Nothing
    case Flush(c, _, flush) =>
      if flush.Handing? && flush.done < |flush.mail| then Give(c, flush.mail[flush.done]) else Nothing
  }

  /** The task after its hand-over; only a direct message looks at the outcome of a push. */
  function Moved(task: Task, ok: bool): Task
    requires NextHandOver(task) != Nothing
  {
    match task
    case Dm(_, _, dm) => task.(dm := if dm.Storing? then Stored else if ok then Online(dm.c) else Storing)
    case Cast(_, _, _, _, _, cast) => task.(cast := cast.(done := cast.done + 1))
    case Flush(_, _, flush) => task.(flush := flush.(done := flush.done + 1))
  }

  // -------- steps

  datatype Step =
    | Change(op: Op)
    | JoinChannel(c: nat, pubkey: string, name: Name)
    | SetAcl(name: Name, allowed: seq<string>)
    | Arrive(task: Task)
    | LookUp(t: nat)
    | FindConn(t: nat)
    | Resolve(t: nat, online: seq<Id>, offline: seq<Id>)
    | TakeMail(t: nat)
    | Push(t: nat, ok: bool)
    | Store(t: nat)

  predicate Belongs(h: Hub, c: nat, id: Id) {
    c in h.conns && h.conns[c].registered && h.conns[c].agentId == id
  }

  predicate IsNew(h: Hub, task: Task) {
    match task
    case Dm(_, _, dm) => dm.Lookup?
    case Cast(sender, _, from, _, _, cast) => cast.Asked? && Belongs(h, sender, from)
    case Flush(c, id, flush) => flush.Waiting? && Belongs(h, c, id)
  }

  ghost predicate CanStep(w: World, s: Step) {
    match s
    case Change(op) => Enabled(w.hub, op) && !op.Restart? && !op.Enqueue? && !op.Drain?
    case JoinChannel(c, _, _) => c in w.hub.conns && w.hub.conns[c].registered && !w.hub.conns[c].ended
    case SetAcl(_, _) => true
    case Arrive(task) => IsNew(w.hub, task)
    case LookUp(t) => t < |w.tasks| && w.tasks[t].Dm? && w.tasks[t].dm.Lookup?
    case FindConn(t) => t < |w.tasks| && w.tasks[t].Dm? && w.tasks[t].dm.Known?
    case Resolve(t, online, offline) =>
      && t < |w.tasks| && w.tasks[t].Cast? && w.tasks[t].cast.Asked?
      && (Verdict(w, w.tasks[t]).Ok? ==>
            Channels.IsSplit(w.channels[w.tasks[t].channel].members, w.hub.clients, online, offline))
    case TakeMail(t) => t < |w.tasks| && w.tasks[t].Flush? && w.tasks[t].flush.Waiting?
    case Push(t, _) => t < |w.tasks| && NextHandOver(w.tasks[t]).Give?
    case Store(t) => t < |w.tasks| && NextHandOver(w.tasks[t]).PutAway?
  }

  function Verdict(w: World, task: Task): Channels.SendCheck
    requires task.Cast?
  {
    Channels.CheckSender(w.channels, task.channel, task.from, task.pubkey)
  }

  function WithTask(w: World, t: nat, task: Task): World
    requires t < |w.tasks|
  {
    w.(tasks := w.tasks[t := task])
  }

  function EmptiedBy(h: Hub, op: Op): seq<Event> {
    if op.Evict? && EvictAllowed(h, op.id) then [Emptied(op.id)] else []
  }

  ghost function Do(w: World, s: Step): World
    requires CanStep(w, s)
  {
    match s
    case Change(op) => w.(hub := Apply(w.hub, op), log := w.log + EmptiedBy(w.hub, op))
    case JoinChannel(c, pubkey, name) =>
      var cl := w.hub.conns[c];
      w.(channels := if Channels.MayJoin(w.channels, cl.auth, pubkey, name)
                     then Channels.WithMember(w.channels, name, cl.agentId) else w.channels)
    case SetAcl(name, allowed) => w.(channels := Channels.WithAcl(w.channels, name, allowed))
    case Arrive(task) => w.(tasks := w.tasks + [task])
    case LookUp(t) =>
      WithTask(w, t, w.tasks[t].(dm := if w.tasks[t].to in w.hub.agents then Known else Unknown))
    case FindConn(t) =>
      var to := w.tasks[t].to;
      WithTask(w, t, w.tasks[t].(dm := if to in w.hub.clients then Pushing(w.hub.clients[to]) else Storing))
    case Resolve(t, online, offline) =>
      var task := w.tasks[t];
      WithTask(w, t, task.(cast :=
        if Verdict(w, task).Ok?
        then Fanning(Snapshot(w.channels[task.channel].members, w.hub.clients, online + offline), 0)
        else Rejected))
    case TakeMail(t) =>
      var id := w.tasks[t].id;
      WithTask(w, t, w.tasks[t].(flush := Handing(MailOf(w.hub, id), 0)))
      .(hub := Drained(w.hub, id), log := w.log + [Emptied(id)])
    case Push(t, ok) =>
      var n := NextHandOver(w.tasks[t]);
      var moved := WithTask(w, t, Moved(w.tasks[t], ok));
      if ok
      then moved.(sent := w.sent[n.c := SentTo(w.sent, n.c) + [n.f]], log := w.log + [Placed(t, n.f, Queue(n.c))])
      else moved.(hub := w.hub.(conns := Dropped(w.hub.conns, n.c)), log := w.log + [Placed(t, n.f, Refused(n.c))])
    case Store(t) =>
      var n := NextHandOver(w.tasks[t]);
      WithTask(w, t, Moved(w.tasks[t], true))
      .(hub := Enqueued(w.hub, n.id, n.f), log := w.log + [Placed(t, n.f, Mail(n.id))])
  }

  ghost predicate AllCan(w: World, steps: seq<Step>)
    decreases |steps|
  {
    steps == [] || (CanStep(w, steps[0]) && AllCan(Do(w, steps[0]), steps[1..]))
  }

  ghost function Run(w: World, steps: seq<Step>): World
    requires AllCan(w, steps)
    decreases |steps|
  {
    if steps == [] then w else Run(Do(w, steps[0]), steps[1..])
  }

  // -------- reading the log

  predicate IsFor(e: Event, t: nat) {
    e.Placed? && e.task == t
  }

  /** Task t's hand-overs, in order. */
  function HandOvers(log: seq<Event>, t: nat): seq<Event> {
    if log == [] then []
    else HandOvers(log[..|log| - 1], t) + if IsFor(log[|log| - 1], t) then [log[|log| - 1]] else []
  }

  function QueuedIn(log: seq<Event>, c: nat): seq<Frame> {
    if log == [] then []
    else
      var e := log[|log| - 1];
      QueuedIn(log[..|log| - 1], c) + if e.Placed? && e.place == Queue(c) then [e.f] else []
  }

  /** What was mailed to id since its mailbox was last emptied. */
  function MailedSince(log: seq<Event>, id: Id): seq<Frame> {
    if log == [] || log[|log| - 1] == Emptied(id) then []
    else
      var e := log[|log| - 1];
      MailedSince(log[..|log| - 1], id) + if e.Placed? && e.place == Mail(id) then [e.f] else []
  }

  lemma LogGrows(log: seq<Event>, e: Event, t: nat, c: nat, id: Id)
    ensures HandOvers(log + [e], t) == if IsFor(e, t) then HandOvers(log, t) + [e] else HandOvers(log, t)
    ensures QueuedIn(log + [e], c) == QueuedIn(log, c) + if e.Placed? && e.place == Queue(c) then [e.f] else []
    ensures MailedSince(log + [e], id) ==
      if e == Emptied(id) then [] else MailedSince(log, id) + if e.Placed? && e.place == Mail(id) then [e.f] else []
  {
    assert (log + [e])[..|log|] == log;
  }

  // -------- the invariant

  predicate IsRefusal(h: Hub, t: nat, to: Id, f: Frame, e: Event) {
    e.Placed? && e.place.Refused? && e == Placed(t, f, Refused(e.place.c)) && Belongs(h, e.place.c, to)
  }

  /** At most a failed push. */
  predicate NotPlaced(h: Hub, t: nat, to: Id, f: Frame, es: seq<Event>) {
    es == [] || (|es| == 1 && IsRefusal(h, t, to, f, es[0]))
  }

  predicate DmOk(h: Hub, t: nat, to: Id, f: Frame, dm: DmState, es: seq<Event>) {
    match dm
    case Lookup => es == []
    case Known => es == []
    case Unknown => es == []
    case Pushing(c) => es == [] && Belongs(h, c, to)
    case Storing => NotPlaced(h, t, to, f, es)
    case Online(c) => es == [Placed(t, f, Queue(c))] && Belongs(h, c, to)
    case Stored => es != [] && es[|es| - 1] == Placed(t, f, Mail(to)) && NotPlaced(h, t, to, f, es[..|es| - 1])
  }

  /** e carries out the hand-over. */
  predicate Meets(e: Event, t: nat, n: HandOver) {
    match n
    case Nothing => false
    case Give(c, f) => e == Placed(t, f, Queue(c)) || e == Placed(t, f, Refused(c))
    case PutAway(id, f) => e == Placed(t, f, Mail(id))
  }

  ghost predicate SnapshotOk(snap: Snapshot) {
    && (forall id :: id in snap.order <==> id in snap.members)
    && (forall i, j :: 0 <= i < j < |snap.order| ==> snap.order[i] != snap.order[j])
    && (forall a, b :: a in snap.clients && b in snap.clients && snap.clients[a] == snap.clients[b] ==> a == b)
  }

  ghost predicate CastOk(t: nat, f: Frame, cast: CastState, es: seq<Event>) {
    match cast
    case Asked => es == []
    case Rejected => es == []
    case Fanning(snap, done) =>
      && SnapshotOk(snap) && |es| == done <= |snap.order|
      && forall i :: 0 <= i < done ==> Meets(es[i], t, TargetOf(snap.clients, snap.order[i], f))
  }

  predicate FlushOk(h: Hub, t: nat, c: nat, id: Id, flush: FlushState, es: seq<Event>) {
    && Belongs(h, c, id)
    && match flush
       case Waiting => es == []
       case Handing(mail, done) =>
         |es| == done <= |mail| && forall i :: 0 <= i < done ==> Meets(es[i], t, Give(c, mail[i]))
  }

  ghost predicate TaskOk(h: Hub, t: nat, task: Task, es: seq<Event>) {
    match task
    case Dm(to, f, dm) => DmOk(h, t, to, f, dm, es)
    case Cast(_, _, _, _, f, cast) => CastOk(t, f, cast, es)
    case Flush(c, id, flush) => FlushOk(h, t, c, id, flush, es)
  }

  ghost predicate TasksOk(w: World) {
    forall t :: 0 <= t < |w.tasks| ==> TaskOk(w.hub, t, w.tasks[t], HandOvers(w.log, t))
  }

  ghost predicate NothingBeyond(w: World) {
    forall t: nat :: |w.tasks| <= t ==> HandOvers(w.log, t) == []
  }

  ghost predicate QueuesMatch(w: World) {
    forall c: nat :: SentTo(w.sent, c) == QueuedIn(w.log, c)
  }

  ghost predicate MailMatches(w: World) {
    forall id ::
      && MailOf(w.hub, id) == LastOf(MailedSince(w.log, id), MAILBOX_CAP)
      && (id in w.hub.overflow <==> |MailedSince(w.log, id)| > MAILBOX_CAP)
  }

  ghost predicate Inv(w: World) {
    Registry.RegistryOk(w.hub) && TasksOk(w) && NothingBeyond(w) && QueuesMatch(w) && MailMatches(w)
  }

  // -------- each part of the invariant, step by step

  lemma KeepsRegistry(w: World, s: Step)
    requires Registry.RegistryOk(w.hub) && CanStep(w, s)
    ensures Registry.RegistryOk(Do(w, s).hub)
  {
    match s
    case Change(op) => Registry.StepKeepsRegistry(w.hub, op);
    case TakeMail(t) => Registry.StepKeepsRegistry(w.hub, Drain(w.tasks[t].id));
    case Push(t, ok) =>
      var c := NextHandOver(w.tasks[t]).c;
      if c in w.hub.conns {
        Registry.StepKeepsRegistry(w.hub, Drop(c));
      }
    case Store(t) =>
      var n := NextHandOver(w.tasks[t]);
      Registry.StepKeepsRegistry(w.hub, Enqueue(n.id, n.f));
    case _ =>
  }

  /** A connection keeps its identity. */
  lemma OpKeepsOwner(h: Hub, op: Op, c: nat, id: Id)
    requires Registry.RegistryOk(h) && Enabled(h, op) && op != Restart && Belongs(h, c, id)
    ensures Belongs(Apply(h, op), c, id)
  {
  }

  lemma KeepsOwner(w: World, s: Step, c: nat, id: Id)
    requires Registry.RegistryOk(w.hub) && CanStep(w, s) && Belongs(w.hub, c, id)
    ensures Belongs(Do(w, s).hub, c, id)
  {
    if s.Change? {
      OpKeepsOwner(w.hub, s.op, c, id);
    }
  }

  lemma OthersOk(w: World, s: Step, t: nat, task: Task, es: seq<Event>)
    requires Registry.RegistryOk(w.hub) && CanStep(w, s) && TaskOk(w.hub, t, task, es)
    ensures TaskOk(Do(w, s).hub, t, task, es)
  {
    match task
    case Dm(to, f, dm) =>
      forall c | Belongs(w.hub, c, to) ensures Belongs(Do(w, s).hub, c, to) {
        KeepsOwner(w, s, c, to);
      }
    case Cast(_, _, _, _, _, _) =>
    case Flush(c, id, _) => KeepsOwner(w, s, c, id);
  }

  /** What a step writes to the log. */
  ghost function Written(w: World, s: Step): seq<Event>
    requires CanStep(w, s)
  {
    match s
    case Change(op) => EmptiedBy(w.hub, op)
    case TakeMail(t) => [Emptied(w.tasks[t].id)]
    case Push(t, ok) =>
      var n := NextHandOver(w.tasks[t]);
      [Placed(t, n.f, if ok then Queue(n.c) else Refused(n.c))]
    case Store(t) =>
      var n := NextHandOver(w.tasks[t]);
      [Placed(t, n.f, Mail(n.id))]
    case _ => []
  }

  /** The task a step belongs to. */
  predicate Moves(s: Step, t: nat) {
    match s
    case LookUp(u) => u == t
    case FindConn(u) => u == t
    case Resolve(u, _, _) => u == t
    case TakeMail(u) => u == t
    case Push(u, _) => u == t
    case Store(u) => u == t
    case _ => false
  }

  lemma LogAfter(w: World, s: Step, t: nat, c: nat, id: Id)
    requires CanStep(w, s)
    ensures var e := Written(w, s);
      && |e| <= 1 && Do(w, s).log == w.log + e
      && HandOvers(w.log + e, t) == HandOvers(w.log, t) + (if Moves(s, t) && (s.Push? || s.Store?) then e else [])
      && QueuedIn(w.log + e, c) == QueuedIn(w.log, c)
           + (if s.Push? && s.ok && NextHandOver(w.tasks[s.t]).c == c then [e[0].f] else [])
      && MailedSince(w.log + e, id) ==
           if e == [Emptied(id)] then []
           else MailedSince(w.log, id) + if s.Store? && NextHandOver(w.tasks[s.t]).id == id then [e[0].f] else []
  {
    var e := Written(w, s);
    if e == [] {
      assert w.log + e == w.log;
    } else {
      LogGrows(w.log, e[0], t, c, id);
      assert e == [e[0]];
    }
  }

  lemma KeepsQueues(w: World, s: Step)
    requires QueuesMatch(w) && CanStep(w, s)
    ensures QueuesMatch(Do(w, s))
  {
    forall c: nat ensures SentTo(Do(w, s).sent, c) == QueuedIn(Do(w, s).log, c) {
      LogAfter(w, s, 0, c, "");
      assert SentTo(w.sent, c) == QueuedIn(w.log, c);
    }
  }

  /** Registry operations other than an eviction leave every mailbox alone. */
  lemma OpKeepsMail(h: Hub, op: Op, id: Id)
    requires Enabled(h, op) && !op.Restart? && !op.Enqueue? && !op.Drain?
    ensures EmptiedBy(h, op) == [Emptied(id)] ==> MailOf(Apply(h, op), id) == [] && id !in Apply(h, op).overflow
    ensures EmptiedBy(h, op) != [Emptied(id)] ==>
      MailOf(Apply(h, op), id) == MailOf(h, id) && (id in Apply(h, op).overflow <==> id in h.overflow)
  {
  }

  /** A mailbox changes by the step's log entry alone. */
  lemma MailAfter(w: World, s: Step, id: Id)
    requires CanStep(w, s)
    ensures var h, e := Do(w, s).hub, Written(w, s);
      if e == [Emptied(id)] then MailOf(h, id) == [] && id !in h.overflow
      else if s.Store? && NextHandOver(w.tasks[s.t]).id == id then h == Enqueued(w.hub, id, e[0].f)
      else MailOf(h, id) == MailOf(w.hub, id) && (id in h.overflow <==> id in w.hub.overflow)
  {
    if s.Change? {
      OpKeepsMail(w.hub, s.op, id);
    }
  }

  lemma KeepsMailOf(w: World, s: Step, id: Id)
    requires MailMatches(w) && CanStep(w, s)
    ensures MailOf(Do(w, s).hub, id) == LastOf(MailedSince(Do(w, s).log, id), MAILBOX_CAP)
    ensures id in Do(w, s).hub.overflow <==> |MailedSince(Do(w, s).log, id)| > MAILBOX_CAP
  {
    LogAfter(w, s, 0, 0, id);
    MailAfter(w, s, id);
    var before, after := w.hub, Do(w, s).hub;
    assert MailOf(before, id) == LastOf(MailedSince(w.log, id), MAILBOX_CAP);
    if s.Store? {
      Mailbox.TailGrows(MailedSince(w.log, id), NextHandOver(w.tasks[s.t]).f);
    }
  }

  lemma KeepsMail(w: World, s: Step)
    requires MailMatches(w) && CanStep(w, s)
    ensures MailMatches(Do(w, s))
  {
    forall id ensures
      && MailOf(Do(w, s).hub, id) == LastOf(MailedSince(Do(w, s).log, id), MAILBOX_CAP)
      && (id in Do(w, s).hub.overflow <==> |MailedSince(Do(w, s).log, id)| > MAILBOX_CAP)
    {
      KeepsMailOf(w, s, id);
    }
  }

  lemma KeepsNothingBeyond(w: World, s: Step)
    requires NothingBeyond(w) && CanStep(w, s)
    ensures NothingBeyond(Do(w, s))
  {
    forall t: nat | |Do(w, s).tasks| <= t ensures HandOvers(Do(w, s).log, t) == [] {
      LogAfter(w, s, t, 0, "");
    }
  }

  lemma MoverOk(w: World, s: Step, t: nat)
    requires Registry.RegistryOk(w.hub) && TasksOk(w) && CanStep(w, s) && Moves(s, t)
    ensures t < |w.tasks| && t < |Do(w, s).tasks|
    ensures TaskOk(Do(w, s).hub, t, Do(w, s).tasks[t],
                   HandOvers(w.log, t) + if s.Push? || s.Store? then Written(w, s) else [])
  {
    assert forall es: seq<Event> :: es + [] == es;
    match s
    case Resolve(_, online, offline) => ResolveKeeps(w, t, online, offline);
    case Push(_, ok) => HandOverKeeps(w, s, t);
    case Store(_) => HandOverKeeps(w, s, t);
    case _ => BeginKeeps(w, s, t);
  }

  lemma BystanderOk(w: World, s: Step, t: nat)
    requires Registry.RegistryOk(w.hub) && TasksOk(w) && NothingBeyond(w) && CanStep(w, s) && !Moves(s, t)
    requires t < |Do(w, s).tasks|
    ensures TaskOk(Do(w, s).hub, t, Do(w, s).tasks[t], HandOvers(w.log, t))
  {
    if t < |w.tasks| {
      assert TaskOk(w.hub, t, w.tasks[t], HandOvers(w.log, t));
      OthersOk(w, s, t, w.tasks[t], HandOvers(w.log, t));
    }
  }

  lemma KeepsTask(w: World, s: Step, t: nat)
    requires Registry.RegistryOk(w.hub) && TasksOk(w) && NothingBeyond(w) && CanStep(w, s)
    requires t < |Do(w, s).tasks|
    ensures TaskOk(Do(w, s).hub, t, Do(w, s).tasks[t], HandOvers(Do(w, s).log, t))
  {
    LogAfter(w, s, t, 0, "");
    if Moves(s, t) {
      MoverOk(w, s, t);
    } else {
      BystanderOk(w, s, t);
      assert HandOvers(w.log, t) + [] == HandOvers(w.log, t);
    }
  }

  lemma BeginKeeps(w: World, s: Step, t: nat)
    requires Registry.RegistryOk(w.hub) && TasksOk(w) && CanStep(w, s)
    requires (s.LookUp? || s.FindConn? || s.TakeMail?) && s.t == t
    ensures TaskOk(Do(w, s).hub, t, Do(w, s).tasks[t], HandOvers(w.log, t))
  {
    assert TaskOk(w.hub, t, w.tasks[t], HandOvers(w.log, t));
  }

  lemma SplitGivesSnapshot(h: Hub, members: set<Id>, online: seq<Id>, offline: seq<Id>)
    requires Registry.RegistryOk(h) && Channels.IsSplit(members, h.clients, online, offline)
    ensures SnapshotOk(Snapshot(members, h.clients, online + offline))
  {
    var order := online + offline;
    forall i, j | 0 <= i < j < |order| ensures order[i] != order[j] {
      assert order[i] in online || order[i] in offline;
    }
  }

  lemma ResolveKeeps(w: World, t: nat, online: seq<Id>, offline: seq<Id>)
    requires Registry.RegistryOk(w.hub) && TasksOk(w) && CanStep(w, Resolve(t, online, offline))
    ensures var s := Resolve(t, online, offline);
      TaskOk(Do(w, s).hub, t, Do(w, s).tasks[t], HandOvers(w.log, t))
  {
    var task := w.tasks[t];
    assert TaskOk(w.hub, t, task, HandOvers(w.log, t));
    if Verdict(w, task).Ok? {
      SplitGivesSnapshot(w.hub, w.channels[task.channel].members, online, offline);
    }
  }

  lemma TaskMoves(h: Hub, t: nat, task: Task, es: seq<Event>, e: Event, ok: bool)
    requires TaskOk(h, t, task, es) && NextHandOver(task) != Nothing
    requires match NextHandOver(task)
             case Give(c, f) => e == Placed(t, f, if ok then Queue(c) else Refused(c))
             case PutAway(id, f) => e == Placed(t, f, Mail(id))
    ensures TaskOk(h, t, Moved(task, ok), es + [e])
  {
    match task
    case Dm(to, f, dm) =>
      assert (es + [e])[..|es|] == es;
    case Cast(_, _, _, _, _, _) =>
    case Flush(_, _, _) =>
  }

  lemma HandOverKeeps(w: World, s: Step, t: nat)
    requires Registry.RegistryOk(w.hub) && TasksOk(w) && CanStep(w, s)
    requires (s.Push? || s.Store?) && s.t == t
    ensures TaskOk(Do(w, s).hub, t, Do(w, s).tasks[t], HandOvers(w.log, t) + Written(w, s))
  {
    var es := HandOvers(w.log, t);
    assert TaskOk(w.hub, t, w.tasks[t], es);
    OthersOk(w, s, t, w.tasks[t], es);
    TaskMoves(Do(w, s).hub, t, w.tasks[t], es, Written(w, s)[0], if s.Push? then s.ok else true);
  }

  lemma StepKeepsInv(w: World, s: Step)
    requires Inv(w) && CanStep(w, s)
    ensures Inv(Do(w, s))
  {
    KeepsRegistry(w, s);
    KeepsQueues(w, s);
    KeepsMail(w, s);
    KeepsNothingBeyond(w, s);
    forall t | 0 <= t < |Do(w, s).tasks|
      ensures TaskOk(Do(w, s).hub, t, Do(w, s).tasks[t], HandOvers(Do(w, s).log, t))
    {
      KeepsTask(w, s, t);
    }
  }

  lemma {:induction false} RunKeepsInv(w: World, steps: seq<Step>)
    requires Inv(w) && AllCan(w, steps)
    ensures Inv(Run(w, steps))
    decreases |steps|
  {
    if steps != [] {
      StepKeepsInv(w, steps[0]);
      RunKeepsInv(Do(w, steps[0]), steps[1..]);
    }
  }

  // -------- main results

  /** The hand-overs that were not refused. */
  function Kept(es: seq<Event>): seq<Event> {
    if es == [] then []
    else (if es[0].Placed? && es[0].place.Refused? then [] else [es[0]]) + Kept(es[1..])
  }

  lemma Reached(steps: seq<Step>)
    requires AllCan(START, steps)
    ensures Inv(Run(START, steps))
  {
    RunKeepsInv(START, steps);
  }

  lemma KeptOfDm(h: Hub, t: nat, to: Id, f: Frame, dm: DmState, es: seq<Event>)
    requires DmOk(h, t, to, f, dm, es)
    ensures Kept(es) ==
      if dm.Online? then [Placed(t, f, Queue(dm.c))] else if dm.Stored? then [Placed(t, f, Mail(to))] else []
  {
    if |es| == 1 {
      assert es[1..] == [];
      assert Kept(es) == if es[0].place.Refused? then [] else [es[0]];
    } else if |es| == 2 {
      assert es[..1] == [es[0]];
      assert es[1..] == [es[1]] && es[1..][1..] == [];
      assert Kept(es[1..]) == [es[1]];
    }
  }

  /** Where a direct message has been put: once, if it was accepted. */
  ghost predicate DmPlaced(w: World, t: nat)
    requires t < |w.tasks| && w.tasks[t].Dm?
  {
    var task := w.tasks[t];
    && Kept(HandOvers(w.log, t)) ==
         (if task.dm.Online? then [Placed(t, task.f, Queue(task.dm.c))]
          else if task.dm.Stored? then [Placed(t, task.f, Mail(task.to))]
          else [])
    && (task.dm.Online? ==> Belongs(w.hub, task.dm.c, task.to))
  }

  lemma DmIsPlaced(w: World, t: nat)
    requires Inv(w) && t < |w.tasks| && w.tasks[t].Dm?
    ensures DmPlaced(w, t)
  {
    var es := HandOvers(w.log, t);
    assert TaskOk(w.hub, t, w.tasks[t], es);
    KeptOfDm(w.hub, t, w.tasks[t].to, w.tasks[t].f, w.tasks[t].dm, es);
  }

  /**
   * Whatever runs beside it, an accepted direct message is placed exactly once: in the queue of
   * a connection of the recipient's, or in the recipient's mailbox. A rejected one is placed
   * nowhere.
   */
  lemma DirectMessageOnce(steps: seq<Step>, t: nat)
    requires AllCan(START, steps) && t < |Run(START, steps).tasks| && Run(START, steps).tasks[t].Dm?
    ensures DmPlaced(Run(START, steps), t)
  {
    Reached(steps);
    DmIsPlaced(Run(START, steps), t);
  }

  /** Task t has one hand-over, and no more, that carries out n. */
  ghost predicate MetOnce(es: seq<Event>, t: nat, n: HandOver) {
    exists i :: 0 <= i < |es| && Meets(es[i], t, n) && forall j :: 0 <= j < |es| && Meets(es[j], t, n) ==> j == i
  }

  lemma TargetsDiffer(snap: Snapshot, t: nat, f: Frame, e: Event, i: nat, j: nat)
    requires SnapshotOk(snap) && i < |snap.order| && j < |snap.order|
    requires Meets(e, t, TargetOf(snap.clients, snap.order[i], f))
    requires Meets(e, t, TargetOf(snap.clients, snap.order[j], f))
    ensures i == j
  {
  }

  /** Every member of the snapshot has its one hand-over, and nobody else has any. */
  ghost predicate CastPlaced(w: World, t: nat)
    requires t < |w.tasks| && w.tasks[t].Cast? && w.tasks[t].cast.Fanning?
  {
    var es, f, snap := HandOvers(w.log, t), w.tasks[t].f, w.tasks[t].cast.snap;
    && (forall id :: id in snap.members ==> MetOnce(es, t, TargetOf(snap.clients, id, f)))
    && (forall e :: e in es ==> exists id :: id in snap.members && Meets(e, t, TargetOf(snap.clients, id, f)))
  }

  lemma CastIsPlaced(w: World, t: nat)
    requires Inv(w) && t < |w.tasks| && w.tasks[t].Cast? && w.tasks[t].cast.Fanning?
    requires NextHandOver(w.tasks[t]) == Nothing
    ensures CastPlaced(w, t)
  {
    var es, f, snap := HandOvers(w.log, t), w.tasks[t].f, w.tasks[t].cast.snap;
    assert TaskOk(w.hub, t, w.tasks[t], es);
    forall id | id in snap.members ensures MetOnce(es, t, TargetOf(snap.clients, id, f)) {
      var i :| 0 <= i < |snap.order| && snap.order[i] == id;
      assert Meets(es[i], t, TargetOf(snap.clients, id, f));
      forall j | 0 <= j < |es| && Meets(es[j], t, TargetOf(snap.clients, id, f)) ensures j == i {
        TargetsDiffer(snap, t, f, es[j], i, j);
      }
    }
    forall e | e in es ensures exists id :: id in snap.members && Meets(e, t, TargetOf(snap.clients, id, f)) {
      var i :| 0 <= i < |es| && es[i] == e;
      assert snap.order[i] in snap.members;
    }
  }

  /**
   * A finished fan-out has made exactly one hand-over for every member of the snapshot (one
   * push if it had a connection, one mailbox entry if not) and none for anybody else.
   */
  lemma FanOutOnce(steps: seq<Step>, t: nat)
    requires AllCan(START, steps) && t < |Run(START, steps).tasks|
    requires var task := Run(START, steps).tasks[t];
      task.Cast? && task.cast.Fanning? && NextHandOver(task) == Nothing
    ensures CastPlaced(Run(START, steps), t)
  {
    Reached(steps);
    CastIsPlaced(Run(START, steps), t);
  }

  /** A flush hands what it took from the mailbox to its own connection, each frame once, in order. */
  lemma FlushInOrder(steps: seq<Step>, t: nat)
    requires AllCan(START, steps) && t < |Run(START, steps).tasks|
    requires var task := Run(START, steps).tasks[t]; task.Flush? && task.flush.Handing?
    ensures var w := Run(START, steps);
      var task, es := w.tasks[t], HandOvers(w.log, t);
      && Belongs(w.hub, task.c, task.id) && |es| == task.flush.done <= |task.flush.mail|
      && (forall i :: 0 <= i < |es| ==> Meets(es[i], t, Give(task.c, task.flush.mail[i])))
      && (NextHandOver(task) == Nothing ==> |es| == |task.flush.mail|)
  {
    Reached(steps);
    var w := Run(START, steps);
    assert TaskOk(w.hub, t, w.tasks[t], HandOvers(w.log, t));
  }

  /** The log is the truth: every queue and every mailbox holds what it says, and nothing else. */
  lemma LogIsTruth(steps: seq<Step>, c: nat, id: Id)
    requires AllCan(START, steps)
    ensures var w := Run(START, steps);
      && SentTo(w.sent, c) == QueuedIn(w.log, c)
      && MailOf(w.hub, id) == LastOf(MailedSince(w.log, id), MAILBOX_CAP)
  {
    Reached(steps);
  }
}
