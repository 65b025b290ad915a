/**
 * The hub's registry, mailboxes and credentials as one state, and its operations as the
 * critical sections that change it. Connections are numbered; a map entry that holds a number
 * holds that very connection.
 */
module HubState {

  type Id = string
  type Name = string
  type Frame = string

  const MAILBOX_CAP := 100

  datatype Auth = Master | Agent(bound: Name)

  /**
   * authed: hello accepted and identity set; registered: register has run; dropped: the close
   * has been triggered; ended: deregister has run.
   */
  datatype Conn = Conn(auth: Auth, authed: bool, agentId: Id, name: Name, registered: bool, dropped: bool, ended: bool)

  datatype Entry = Entry(name: Name, online: bool)

  datatype Record = Record(name: Name, hash: string)

  datatype Hub = Hub(
    conns: map<nat, Conn>,
    clients: map<Id, nat>,
    agents: map<Id, Entry>,
    mailbox: map<Id, seq<Frame>>,
    overflow: set<Id>,
    secrets: map<Name, seq<string>>,
    disk: seq<Record>)

  const EMPTY_HUB := Hub(map[], map[], map[], map[], {}, map[], [])

  /** How an upgrade token is classified. */
  datatype Bearer = MasterBearer | AgentBearer(name: Name) | Denied

  /** r is a right answer for the token and its digest; which name it is may depend on the search. */
  ghost predicate IsAnswer(secrets: map<Name, seq<string>>, master: string, token: string, digest: string, r: Bearer) {
    && (r == MasterBearer <==> token != "" && token == master)
    && (r.AgentBearer? ==> token != "" && digest in HashesOf(secrets, r.name))
    && (r == Denied ==> token == "" || (token != master && forall n :: digest !in HashesOf(secrets, n)))
  }

  // -------- credentials on disk

  function HashesOf(secrets: map<Name, seq<string>>, name: Name): seq<string> {
    if name in secrets then secrets[name] else []
  }

  /** order is one of the orders in which the map may be iterated. */
  predicate IsOrder(order: seq<Name>, secrets: map<Name, seq<string>>) {
    && (forall i, j :: 0 <= i < j < |order| ==> order[i] != order[j])
    && (set n | n in order) == secrets.Keys
  }

  function RecordsOf(name: Name, hashes: seq<string>): seq<Record> {
    seq(|hashes|, i requires 0 <= i < |hashes| => Record(name, hashes[i]))
  }

  function Records(secrets: map<Name, seq<string>>, order: seq<Name>): seq<Record> {
    if order == [] then []
    else RecordsOf(order[0], HashesOf(secrets, order[0])) + Records(secrets, order[1..])
  }

  function LoadInto(m: map<Name, seq<string>>, records: seq<Record>): map<Name, seq<string>>
    decreases |records|
  {
    if records == [] then m
    else LoadInto(m[records[0].name := HashesOf(m, records[0].name) + [records[0].hash]], records[1..])
  }

  function Loaded(records: seq<Record>): map<Name, seq<string>> {
    LoadInto(map[], records)
  }

  // -------- operations

  datatype Op =
    | Open(c: nat, auth: Auth, hash: string)
    | Hello(c: nat, id: Id, name: Name)
    | Register(c: nat)
    | Drop(c: nat)
    | Deregister(c: nat)
    | Evict(id: Id, order: seq<Name>)
    | Enroll(c: nat, hash: string, rotate: bool, order: seq<Name>)
    | Enqueue(id: Id, f: Frame)
    | Drain(id: Id)
    | Restart

  predicate IsConn(h: Hub, c: nat) {
    c in h.conns && !h.conns[c].ended
  }

  /**
   * What the code before the critical section guarantees. An upgrade with an issued secret
   * binds the connection to a name its hash is stored under. A hello is accepted once per
   * connection, with a derived, non-empty id; register follows it on the same goroutine.
   */
  predicate Enabled(h: Hub, op: Op) {
    match op
    case Open(c, auth, hash) => c !in h.conns && (auth.Agent? ==> hash in HashesOf(h.secrets, auth.bound))
    case Hello(c, id, _) => IsConn(h, c) && !h.conns[c].authed && id != ""
    case Register(c) => IsConn(h, c) && h.conns[c].authed && !h.conns[c].registered
    case Drop(c) => c in h.conns
    case Deregister(c) => IsConn(h, c) && (h.conns[c].authed ==> h.conns[c].registered)
    case Evict(id, order) => IsOrder(order, SecretsAfterEvict(h, id))
    case Enroll(c, hash, rotate, order) =>
      && IsConn(h, c) && h.conns[c].registered && h.conns[c].auth == Master
      && IsOrder(order, SecretsAfterEnroll(h, h.conns[c].name, hash, rotate))
    case Enqueue(_, _) => true
    case Drain(_) => true
    case Restart => true
  }

  function Dropped(conns: map<nat, Conn>, c: nat): map<nat, Conn> {
    if c in conns then conns[c := conns[c].(dropped := true)] else conns
  }

  /** An issued secret speaks for its enrolled name only. */
  predicate Misnamed(cl: Conn, name: Name) {
    cl.auth.Agent? && name != cl.auth.bound
  }

  /** A hello under another name is refused and the connection dropped. */
  function Greeted(h: Hub, c: nat, id: Id, name: Name): Hub
    requires c in h.conns
  {
    var cl := h.conns[c];
    h.(conns := h.conns[c := if Misnamed(cl, name) then cl.(dropped := true)
                             else cl.(authed := true, agentId := id, name := name)])
  }

  function Registered(h: Hub, c: nat): Hub
    requires c in h.conns
  {
    var cl := h.conns[c];
    var id := cl.agentId;
    var conns := if id in h.clients && h.clients[id] != c then Dropped(h.conns, h.clients[id]) else h.conns;
    h.(conns := conns[c := cl.(registered := true)],
       clients := h.clients[id := c],
       agents := h.agents[id := Entry(cl.name, true)])
  }

  /** Whether the dying connection is still the agent's current one. */
  predicate IsCurrent(h: Hub, c: nat)
    requires c in h.conns
  {
    h.conns[c].agentId in h.clients && h.clients[h.conns[c].agentId] == c
  }

  function Deregistered(h: Hub, c: nat): Hub
    requires c in h.conns
  {
    var id := h.conns[c].agentId;
    var gone := h.(conns := h.conns[c := h.conns[c].(dropped := true, ended := true)]);
    if !IsCurrent(h, c) then gone
    else gone.(clients := h.clients - {id},
               agents := if id in h.agents then h.agents[id := h.agents[id].(online := false)] else h.agents)
  }

  predicate EvictAllowed(h: Hub, id: Id) {
    id in h.agents && id !in h.clients
  }

  /** Another registry entry holds the name. */
  predicate SharedName(h: Hub, id: Id)
    requires id in h.agents
  {
    exists other :: other in h.agents && other != id && h.agents[other].name == h.agents[id].name
  }

  predicate LastHolder(h: Hub, id: Id) {
    EvictAllowed(h, id) && !SharedName(h, id)
  }

  function SecretsAfterEvict(h: Hub, id: Id): map<Name, seq<string>> {
    if LastHolder(h, id) then h.secrets - {h.agents[id].name} else h.secrets
  }

  function Evicted(h: Hub, id: Id, order: seq<Name>): Hub {
    if !EvictAllowed(h, id) then h
    else
      var secrets := SecretsAfterEvict(h, id);
      h.(agents := h.agents - {id}, mailbox := h.mailbox - {id}, overflow := h.overflow - {id},
         secrets := secrets,
         disk := if secrets == h.secrets then h.disk else Records(secrets, order))
  }

  function SecretsAfterEnroll(h: Hub, name: Name, hash: string, rotate: bool): map<Name, seq<string>> {
    h.secrets[name := if rotate then [hash] else HashesOf(h.secrets, name) + [hash]]
  }

  function Enrolled(h: Hub, name: Name, hash: string, rotate: bool, order: seq<Name>): Hub {
    var secrets := SecretsAfterEnroll(h, name, hash, rotate);
    h.(secrets := secrets, disk := Records(secrets, order))
  }

  function MailOf(h: Hub, id: Id): seq<Frame> {
    if id in h.mailbox then h.mailbox[id] else []
  }

  /** The newest cap elements. */
  function LastOf<T>(q: seq<T>, cap: nat): seq<T> {
    if |q| > cap then q[|q| - cap..] else q
  }

  function Enqueued(h: Hub, id: Id, f: Frame): Hub {
    var q := MailOf(h, id) + [f];
    h.(mailbox := h.mailbox[id := LastOf(q, MAILBOX_CAP)],
       overflow := if |q| > MAILBOX_CAP then h.overflow + {id} else h.overflow)
  }

  function Drained(h: Hub, id: Id): Hub {
    h.(mailbox := h.mailbox - {id}, overflow := h.overflow - {id})
  }

  function Apply(h: Hub, op: Op): Hub
    requires Enabled(h, op)
  {
    match op
    case Open(c, auth, _) => h.(conns := h.conns[c := Conn(auth, false, "", "", false, false, false)])
    case Hello(c, id, name) => Greeted(h, c, id, name)
    case Register(c) => Registered(h, c)
    case Drop(c) => h.(conns := Dropped(h.conns, c))
    case Deregister(c) => Deregistered(h, c)
    case Evict(id, order) => Evicted(h, id, order)
    case Enroll(c, hash, rotate, order) => Enrolled(h, h.conns[c].name, hash, rotate, order)
    case Enqueue(id, f) => Enqueued(h, id, f)
    case Drain(id) => Drained(h, id)
    // only the secrets file survives the process
    case Restart => EMPTY_HUB.(secrets := Loaded(h.disk), disk := h.disk)
  }

  /** A run from an empty hub: states[i + 1] is the result of ops[i] at states[i]. */
  ghost predicate IsRun(states: seq<Hub>, ops: seq<Op>) {
    && |states| == |ops| + 1 && states[0] == EMPTY_HUB
    && forall i :: 0 <= i < |ops| ==> Follows(states[i], ops[i], states[i + 1])
  }

  predicate Follows(h: Hub, op: Op, h': Hub) {
    Enabled(h, op) && h' == Apply(h, op)
  }
}
