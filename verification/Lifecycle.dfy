/**
 * The plugin client's connection: dialing, backoff, stop and retarget, and what sockets that were
 * left behind may still report. Sockets and timers are numbered; a socket's events come in any
 * order until its close.
 */
module Lifecycle {
  import opened Basics

  datatype Source = FromEnv | FromConfig | FromMaster | NoSecret

  /** The two environment variables a dial reads. */
  datatype Env = Env(client: Option<string>, master: Option<string>)

  /**
   * Hung: the upgrade was answered with something other than 101 and nobody has closed the socket.
   * Ending: close or terminate was called; the close event is still to come.
   */
  datatype Socket = Dialing | Hung | Open | Ending(wasOpen: bool) | Closed

  /** Credentials: where the current dial's token came from, the token, and the cached secret. */
  datatype Dial = Dial(source: Source, token: string, enrollMode: bool, reEnrolled: bool, secret: Option<string>)

  /**
   * running: started and not stopped since. waits: the waits since the last welcome or retarget.
   * purges: how often the cached secret was dropped.
   */
  datatype Past = Past(running: bool, waits: seq<nat>, purges: nat)

  /** Backoff: the limits and the next wait. */
  datatype Pace = Pace(initialMs: nat, maxMs: nat, delay: nat)

  /** The runtime's live timers, by wait, and the one the client remembers. */
  datatype Timers = Timers(live: map<nat, nat>, next: nat, retry: Option<nat>)

  /** watched: the socket the keepalive watchdog was last started on, unless stopped. */
  datatype Client = Client(
    ws: Option<nat>, sockets: seq<Socket>, timers: Timers, pace: Pace, welcomed: bool, stopped: bool,
    watched: Option<nat>, dial: Dial, past: Past)

  function New(initialMs: nat, maxMs: nat, secret: Option<string>): Client {
    Client(None, [], Timers(map[], 0, None), Pace(initialMs, maxMs, initialMs), false, false, None,
           Dial(NoSecret, "", false, false, secret), Past(false, [], 0))
  }

  datatype Event =
    | Start(env: Env)
    | Stop
    | Retarget(env: Env)
    | TimerFires(h: nat, env: Env)
    | SocketOpens(i: nat)
    | SocketWelcomes(i: nat)
    | SocketEnrolls(i: nat, secret: string)
    | SocketRejects(i: nat, status: nat, env: Env)
    | SocketFails(i: nat)
    | SocketCloses(i: nat)

  // -------- the operations

  /** The token's source, first match: the environment's secret, the cached one, the master secret. */
  function SourceOf(secret: Option<string>, env: Env): Source {
    if env.client.Some? then FromEnv
    else if secret.Some? then FromConfig
    else if env.master.Some? then FromMaster
    else NoSecret
  }

  /** The token of that source; a dial without one sends no header. */
  function TokenOf(secret: Option<string>, env: Env): string {
    if env.client.Some? then env.client.value
    else if secret.Some? then secret.value
    else if env.master.Some? then env.master.value
    else ""
  }

  function Connected(c: Client, env: Env): Client {
    if c.stopped then c
    else
      var source := SourceOf(c.dial.secret, env);
      c.(dial := c.dial.(source := source, token := TokenOf(c.dial.secret, env), enrollMode := source == FromMaster),
         ws := Some(|c.sockets|), sockets := c.sockets + [Dialing])
  }

  /** The remembered timer is cancelled; the memory of it stays. */
  function Cancelled(t: Timers): Timers {
    if t.retry.Some? then t.(live := t.live - {t.retry.value}) else t
  }

  /** A socket after close or terminate was called on it. */
  function Ended(s: Socket): Socket {
    match s
    case Dialing => Ending(false)
    case Hung => Ending(false)
    case Open => Ending(true)
    case _ => s
  }

  function EndedAt(sockets: seq<Socket>, ws: Option<nat>): seq<Socket> {
    if ws.Some? && ws.value < |sockets| then sockets[ws.value := Ended(sockets[ws.value])] else sockets
  }

  /** The timer is cancelled and the current socket closed and left behind. */
  function Halted(c: Client): Client {
    c.(timers := Cancelled(c.timers), sockets := EndedAt(c.sockets, c.ws), ws := None, watched := None)
  }

  function Stopped(c: Client): Client {
    Halted(c).(stopped := true, past := c.past.(running := false))
  }

  /** Everything a retarget resets before it dials. */
  function Cleared(c: Client): Client {
    Halted(c).(timers := Cancelled(c.timers).(retry := None), welcomed := false, stopped := false,
               pace := c.pace.(delay := c.pace.initialMs), past := c.past.(running := true, waits := []))
  }

  function Retargeted(c: Client, env: Env): Client {
    Connected(Cleared(c), env)
  }

  function Revived(c: Client): Client {
    c.(stopped := false, past := c.past.(running := true))
  }

  function Min(a: nat, b: nat): nat {
    if a < b then a else b
  }

  function Set(t: Timers, wait: nat): Timers {
    Timers(t.live[t.next := wait], t.next + 1, Some(t.next))
  }

  /** A timer is armed for the current wait, and the next wait is twice as long, up to the cap. */
  function Rearmed(c: Client): Client {
    var wait := c.pace.delay;
    c.(pace := c.pace.(delay := Min(wait * 2, c.pace.maxMs)), timers := Set(c.timers, wait),
       past := c.past.(waits := c.past.waits + [wait]))
  }

  function Unwatched(c: Client): Client {
    c.(welcomed := false, watched := None)
  }

  function Disconnected(c: Client): Client {
    if c.stopped then Unwatched(c) else Rearmed(Unwatched(c))
  }

  function Welcomed(c: Client): Client {
    c.(welcomed := true, pace := c.pace.(delay := c.pace.initialMs), past := c.past.(waits := []))
  }

  /** A refused upgrade purges the cached secret when that is what was refused, once. */
  predicate Purges(c: Client, status: nat, env: Env) {
    status == 401 && c.dial.source == FromConfig && !c.dial.reEnrolled && env.master.Some?
  }

  function Purged(c: Client, status: nat, env: Env): Client {
    if Purges(c, status, env)
    then c.(dial := c.dial.(reEnrolled := true, secret := None), past := c.past.(purges := c.past.purges + 1))
    else c
  }

  function Terminated(c: Client): Client {
    c.(sockets := EndedAt(c.sockets, c.ws))
  }

  // -------- the listeners of socket i, each with its own check that i is current

  function OnOpen(c: Client, i: nat): Client {
    if c.ws != Some(i) then c else c.(watched := Some(i))
  }

  function OnWelcome(c: Client, i: nat): Client {
    if c.ws == Some(i) then Welcomed(c) else c
  }

  function OnEnrolled(c: Client, i: nat, secret: string): Client {
    if c.ws == Some(i) then
      if secret == "" then c else c.(dial := c.dial.(secret := Some(secret), enrollMode := false))
    else c
  }

  function OnClose(c: Client, i: nat): Client {
    if c.ws == Some(i) then Disconnected(c) else c
  }

  /** Only a 401 is acted on; any other answer is left as it is. */
  function OnRejected(c: Client, i: nat, status: nat, env: Env): Client {
    if c.ws != Some(i) then c
    else if status != 401 then c
    else Terminated(Purged(c, status, env))
  }

  /** The socket an event comes from. */
  function SocketOf(e: Event): Option<nat> {
    match e
    case SocketOpens(i) => Some(i)
    case SocketWelcomes(i) => Some(i)
    case SocketEnrolls(i, _) => Some(i)
    case SocketRejects(i, _, _) => Some(i)
    case SocketFails(i) => Some(i)
    case SocketCloses(i) => Some(i)
    case _ => None
  }

  predicate CanClose(s: Socket) {
    s.Dialing? || s.Open? || s.Ending?
  }

  /** A socket that was never answered; one that is being closed may still be, if it was left behind. */
  predicate MayAnswer(c: Client, i: nat) {
    i < |c.sockets| && (c.sockets[i].Dialing? || (c.sockets[i] == Ending(false) && c.ws != Some(i)))
  }

  predicate MayTalk(c: Client, i: nat) {
    i < |c.sockets| && (c.sockets[i].Open? || c.sockets[i] == Ending(true))
  }

  predicate Enabled(c: Client, e: Event) {
    match e
    case Start(_) => !c.past.running
    case TimerFires(h, _) => h in c.timers.live
    case SocketOpens(i) => MayAnswer(c, i)
    case SocketRejects(i, _, _) => MayAnswer(c, i)
    case SocketWelcomes(i) => MayTalk(c, i)
    case SocketEnrolls(i, _) => MayTalk(c, i)
    case SocketFails(i) => i < |c.sockets| && !c.sockets[i].Closed?
    case SocketCloses(i) => i < |c.sockets| && CanClose(c.sockets[i])
    case _ => true
  }

  /** The socket's own part of an event. */
  function SocketAfter(c: Client, e: Event): Client
    requires Enabled(c, e)
  {
    match e
    case SocketOpens(i) => c.(sockets := c.sockets[i := if c.sockets[i].Dialing? then Open else Ending(true)])
    case SocketRejects(i, _, _) => c.(sockets := c.sockets[i := if c.sockets[i].Dialing? then Hung else c.sockets[i]])
    case SocketCloses(i) => c.(sockets := c.sockets[i := Closed])
    case _ => c
  }

  function Step(c: Client, e: Event): Client
    requires Enabled(c, e)
  {
    match e
    case Start(env) => Connected(Revived(c), env)
    case Stop => Stopped(c)
    case Retarget(env) => Retargeted(c, env)
    case TimerFires(h, env) => Connected(c.(timers := c.timers.(live := c.timers.live - {h})), env)
    case SocketOpens(i) => OnOpen(SocketAfter(c, e), i)
    case SocketWelcomes(i) => OnWelcome(c, i)
    case SocketEnrolls(i, secret) => OnEnrolled(c, i, secret)
    case SocketRejects(i, status, env) => OnRejected(SocketAfter(c, e), i, status, env)
    // a late error is recorded for an open current socket only, and never acted on
    case SocketFails(_) => c
    case SocketCloses(i) => OnClose(SocketAfter(c, e), i)
  }

  // -------- the client in place

  class DapClient {
    const initialMs: nat
    const maxMs: nat
    var ws: Option<nat>
    var sockets: seq<Socket>
    var timers: map<nat, nat>
    var nextTimer: nat
    var retryTimer: Option<nat>
    var delay: nat
    var welcomed: bool
    var stopped: bool
    var watched: Option<nat>
    var dialSource: Source
    ghost var token: string
    var enrollMode: bool
    var reEnrolled: bool
    var clientSecret: Option<string>
    ghost var running: bool
    ghost var waits: seq<nat>
    ghost var purges: nat

    ghost function State(): Client
      reads this
    {
      Client(ws, sockets, Timers(timers, nextTimer, retryTimer), Pace(initialMs, maxMs, delay),
             welcomed, stopped, watched,
             Dial(dialSource, token, enrollMode, reEnrolled, clientSecret), Past(running, waits, purges))
    }

    constructor (initialMs: nat, maxMs: nat, secret: Option<string>)
      ensures State() == New(initialMs, maxMs, secret)
    {
      this.initialMs, this.maxMs := initialMs, maxMs;
      ws, sockets, timers, nextTimer, retryTimer := None, [], map[], 0, None;
      delay, welcomed, stopped, watched := initialMs, false, false, None;
      dialSource, token, enrollMode, reEnrolled, clientSecret := NoSecret, "", false, false, secret;
      running, waits, purges := false, [], 0;
    }

    method Start(env: Env)
      modifies this
      ensures State() == Connected(Revived(old(State())), env)
    {
      stopped := false;
      running := true;
      Connect(env);
    }

    /** Closes or terminates the current socket. */
    method EndSocket()
      modifies this`sockets
      ensures sockets == EndedAt(old(sockets), ws)
    {
      if ws.Some? && ws.value < |sockets| {
        sockets := sockets[ws.value := Ended(sockets[ws.value])];
      }
    }

    method Halt()
      modifies this`timers, this`sockets, this`ws, this`watched
      ensures State() == Halted(old(State()))
    {
      watched := None;
      if retryTimer.Some? {
        timers := timers - {retryTimer.value};
      }
      EndSocket();
      ws := None;
    }

    method Stop()
      modifies this
      ensures State() == Stopped(old(State()))
    {
      stopped := true;
      Halt();
      running := false;
    }

    method Retarget(env: Env)
      modifies this
      ensures State() == Retargeted(old(State()), env)
    {
      Reset();
      Connect(env);
    }

    method Reset()
      modifies this
      ensures State() == Cleared(old(State()))
    {
      Halt();
      retryTimer, welcomed, stopped := None, false, false;
      delay := initialMs;
      running, waits := true, [];
    }

    /** The token of a dial: the environment's secret, the cached one, the master secret, or none. */
    method DialAuth(env: Env) returns (secret: string, enroll: bool, source: Source)
      ensures source == SourceOf(clientSecret, env) && secret == TokenOf(clientSecret, env)
      ensures source == FromEnv <==> env.client.Some?
      ensures source == FromConfig <==> env.client.None? && clientSecret.Some?
      ensures enroll <==> env.client.None? && clientSecret.None? && env.master.Some?
      ensures source == FromMaster <==> enroll
      ensures source == FromEnv ==> secret == env.client.value
      ensures source == FromConfig ==> secret == clientSecret.value
      ensures enroll ==> secret == env.master.value
    {
      if env.client.Some? {
        return env.client.value, false, FromEnv;
      }
      if clientSecret.Some? {
        return clientSecret.value, false, FromConfig;
      }
      if env.master.Some? {
        return env.master.value, true, FromMaster;
      }
      return "", false, NoSecret;
    }

    method Connect(env: Env)
      modifies this
      ensures State() == Connected(old(State()), env)
    {
      if stopped {
        return;
      }
      var secret: string;
      secret, enrollMode, dialSource := DialAuth(env);
      token := secret;
      ws := Some(|sockets|);
      sockets := sockets + [Dialing];
    }

    method OnTimer(h: nat, env: Env)
      requires h in timers
      modifies this
      ensures State() == Step(old(State()), TimerFires(h, env))
    {
      timers := timers - {h};
      Connect(env);
    }

    method OnDisconnect()
      modifies this
      ensures State() == Disconnected(old(State()))
    {
      watched := None;
      welcomed := false;
      if !stopped {
        Rearm();
      }
    }

    method Rearm()
      modifies this`delay, this`timers, this`retryTimer, this`nextTimer, this`waits
      ensures State() == Rearmed(old(State()))
    {
      var wait := delay;
      delay := Min(delay * 2, maxMs);
      timers := timers[nextTimer := wait];
      retryTimer := Some(nextTimer);
      nextTimer := nextTimer + 1;
      waits := waits + [wait];
    }

    method OnSocketOpen(i: nat)
      modifies this`watched
      ensures State() == OnOpen(old(State()), i)
    {
      if ws != Some(i) {
        return;
      }
      watched := Some(i);
    }

    /** A 401 drops a stale cached secret and terminates the socket; any other status returns early. */
    method OnUnexpectedResponse(i: nat, status: nat, env: Env)
      modifies this
      ensures State() == OnRejected(old(State()), i, status, env)
    {
      if ws != Some(i) {
        return;
      }
      if status != 401 {
        return;
      }
      if dialSource == FromConfig && !reEnrolled && env.master.Some? {
        reEnrolled := true;
        clientSecret := None;
        purges := purges + 1;
      }
      EndSocket();
    }

    method OnSocketClose(i: nat)
      modifies this
      ensures State() == OnClose(old(State()), i)
    {
      if ws == Some(i) {
        OnDisconnect();
      }
    }

    method OnWelcomeFrame(i: nat)
      modifies this
      ensures State() == OnWelcome(old(State()), i)
    {
      if ws != Some(i) {
        return;
      }
      welcomed := true;
      delay := initialMs;
      waits := [];
    }

    method OnEnrolledFrame(i: nat, secret: string)
      modifies this
      ensures State() == OnEnrolled(old(State()), i, secret)
    {
      if ws != Some(i) || secret == "" {
        return;
      }
      clientSecret := Some(secret);
      enrollMode := false;
    }
  }

  // -------- the invariant

  /** The current socket has not closed. */
  predicate HasSocket(c: Client) {
    c.ws.Some? && c.ws.value < |c.sockets| && !c.sockets[c.ws.value].Closed?
  }

  /** At most one timer, and it is the one the client knows. */
  ghost predicate OneTimer(t: Timers) {
    && (forall h :: h in t.live ==> t.retry == Some(h))
    && (t.retry.Some? ==> t.retry.value < t.next)
  }

  /** A running client has either an unclosed current socket or an armed timer; any other client has neither. */
  ghost predicate EitherOr(c: Client) {
    && (c.past.running ==> !c.stopped && c.ws.Some? && c.ws.value < |c.sockets|)
    && (c.past.running ==> (HasSocket(c) <==> c.timers.live == map[]))
    && (!c.past.running ==> c.ws.None? && c.timers.live == map[])
  }

  function Pow2(k: nat): nat {
    if k == 0 then 1 else 2 * Pow2(k - 1)
  }

  /** The k-th wait of a row of failures, k from 0: only the first can exceed the maximum. */
  function Backoff(initialMs: nat, maxMs: nat, k: nat): nat {
    if k == 0 then initialMs else Min(initialMs * Pow2(k), maxMs)
  }

  ghost predicate BackoffOk(pace: Pace, waits: seq<nat>) {
    && pace.delay == Backoff(pace.initialMs, pace.maxMs, |waits|)
    && forall k :: 0 <= k < |waits| ==> waits[k] == Backoff(pace.initialMs, pace.maxMs, k)
  }

  ghost predicate ClientOk(c: Client) {
    && OneTimer(c.timers) && EitherOr(c) && BackoffOk(c.pace, c.past.waits)
    && c.past.purges == (if c.dial.reEnrolled then 1 else 0)
    && WatchOk(c) && LeftBehindOk(c)
  }

  /** Exactly an open current socket is watched. */
  ghost predicate WatchOk(c: Client) {
    forall i :: c.watched == Some(i) <==> c.ws == Some(i) && i < |c.sockets| && c.sockets[i].Open?
  }

  /** Every socket but the current one has been told to close, or has closed. */
  ghost predicate LeftBehindOk(c: Client) {
    forall i :: 0 <= i < |c.sockets| && c.ws != Some(i) ==> c.sockets[i].Ending? || c.sockets[i].Closed?
  }

  lemma BackoffDoubles(initialMs: nat, maxMs: nat, k: nat)
    ensures Min(Backoff(initialMs, maxMs, k) * 2, maxMs) == Backoff(initialMs, maxMs, k + 1)
  {
    assert initialMs * Pow2(k + 1) == initialMs * Pow2(k) * 2;
  }

  lemma CancelLeavesNone(t: Timers)
    requires OneTimer(t)
    ensures OneTimer(Cancelled(t)) && Cancelled(t).live == map[]
  {
  }

  lemma FiredLeavesNone(t: Timers, h: nat)
    requires OneTimer(t) && h in t.live
    ensures t.live - {h} == map[]
  {
  }

  lemma SetArmsOne(t: Timers, wait: nat)
    requires OneTimer(t) && t.live == map[]
    ensures OneTimer(Set(t, wait)) && Set(t, wait).live == map[t.next := wait] && Set(t, wait).live != map[]
  {
    assert t.next in Set(t, wait).live;
  }

  lemma CloseKeepsTimers(c: Client, i: nat)
    requires OneTimer(c.timers) && EitherOr(c) && Enabled(c, SocketCloses(i))
    ensures OneTimer(Step(c, SocketCloses(i)).timers) && EitherOr(Step(c, SocketCloses(i)))
  {
    if c.ws == Some(i) {
      SetArmsOne(c.timers, c.pace.delay);
    }
  }

  lemma StepKeepsTimers(c: Client, e: Event)
    requires OneTimer(c.timers) && EitherOr(c) && Enabled(c, e)
    ensures OneTimer(Step(c, e).timers) && EitherOr(Step(c, e))
  {
    if e.SocketCloses? {
      CloseKeepsTimers(c, e.i);
    } else if e.TimerFires? {
      FiredLeavesNone(c.timers, e.h);
    } else if SocketOf(e).None? {
      CancelLeavesNone(c.timers);
    }
  }

  /**
   * A start of a client that runs already, which its callers never do, arms nothing and cancels
   * nothing: it keeps the invariant exactly when no timer is armed.
   */
  lemma SecondStartKeepsExactly(c: Client, env: Env)
    requires OneTimer(c.timers) && EitherOr(c)
    ensures var c' := Connected(Revived(c), env);
      OneTimer(c'.timers) && EitherOr(c') <==> c.timers.live == map[]
  {
    assert HasSocket(Connected(Revived(c), env));
  }

  lemma StepKeepsBackoff(c: Client, e: Event)
    requires BackoffOk(c.pace, c.past.waits) && Enabled(c, e)
    ensures BackoffOk(Step(c, e).pace, Step(c, e).past.waits)
  {
    BackoffDoubles(c.pace.initialMs, c.pace.maxMs, |c.past.waits|);
  }

  /** The limits are fixed, and the one re-enrolment stays spent. */
  lemma StepKeepsLimits(c: Client, e: Event)
    requires Enabled(c, e)
    ensures Step(c, e).pace.initialMs == c.pace.initialMs && Step(c, e).pace.maxMs == c.pace.maxMs
    ensures c.dial.reEnrolled ==> Step(c, e).dial.reEnrolled
    ensures Step(c, e).past.purges - c.past.purges ==
      if Step(c, e).dial.reEnrolled && !c.dial.reEnrolled then 1 else 0
  {
  }

  /** The watchdog watches the current socket from its opening to its end. */
  lemma StepKeepsWatch(c: Client, e: Event)
    requires EitherOr(c) && OneTimer(c.timers) && Enabled(c, e) && WatchOk(c)
    ensures WatchOk(Step(c, e))
  {
    if e.TimerFires? {
      assert e.h in c.timers.live;
    }
  }

  lemma StepKeepsLeftBehind(c: Client, e: Event)
    requires EitherOr(c) && OneTimer(c.timers) && Enabled(c, e) && LeftBehindOk(c)
    ensures LeftBehindOk(Step(c, e))
  {
    if e.TimerFires? {
      assert e.h in c.timers.live;
    }
  }

  lemma StepKeepsOk(c: Client, e: Event)
    requires ClientOk(c) && Enabled(c, e)
    ensures ClientOk(Step(c, e))
  {
    StepKeepsTimers(c, e);
    StepKeepsBackoff(c, e);
    StepKeepsLimits(c, e);
    StepKeepsWatch(c, e);
    StepKeepsLeftBehind(c, e);
  }

  // -------- whole runs

  ghost predicate IsRun(states: seq<Client>, events: seq<Event>) {
    && |states| == |events| + 1
    && states[0] == New(states[0].pace.initialMs, states[0].pace.maxMs, states[0].dial.secret)
    && forall i :: 0 <= i < |events| ==> Follows(states[i], events[i], states[i + 1])
  }

  predicate Follows(c: Client, e: Event, c': Client) {
    Enabled(c, e) && c' == Step(c, e)
  }

  lemma {:induction false} RunIsOk(states: seq<Client>, events: seq<Event>, k: nat)
    requires IsRun(states, events) && k <= |events|
    ensures ClientOk(states[k])
    ensures states[k].pace.initialMs == states[0].pace.initialMs && states[k].pace.maxMs == states[0].pace.maxMs
  {
    if k > 0 {
      RunIsOk(states, events, k - 1);
      assert Follows(states[k - 1], events[k - 1], states[k]);
      StepKeepsOk(states[k - 1], events[k - 1]);
      StepKeepsLimits(states[k - 1], events[k - 1]);
    }
  }

  /**
   * An armed retry timer and an unclosed current socket never coexist, whatever retired sockets
   * still report. A client that is not stopped has a timer, or a current socket that will close, or
   * one that hangs on a refused upgrade.
   */
  lemma TimerOrSocket(states: seq<Client>, events: seq<Event>, k: nat)
    requires IsRun(states, events) && k <= |events|
    ensures var c := states[k];
      && !(c.timers.live != map[] && HasSocket(c))
      && (c.past.running ==> c.timers.live != map[] || (HasSocket(c) && (CanClose(Current(c)) || Current(c).Hung?)))
      && (forall g, h :: g in c.timers.live && h in c.timers.live ==> g == h)
  {
    RunIsOk(states, events, k);
  }

  function Current(c: Client): Socket
    requires c.ws.Some? && c.ws.value < |c.sockets|
  {
    c.sockets[c.ws.value]
  }

  /** At any time the watchdog watches the current socket if that is open, and nothing otherwise. */
  lemma WatchesCurrent(states: seq<Client>, events: seq<Event>, k: nat, i: nat)
    requires IsRun(states, events) && k <= |events|
    ensures var c := states[k]; c.watched == Some(i) <==> c.ws == Some(i) && i < |c.sockets| && c.sockets[i].Open?
  {
    RunIsOk(states, events, k);
  }

  /** No socket is left open: whichever is not current has been closed, or its close has been asked for. */
  lemma NoneLeftOpen(states: seq<Client>, events: seq<Event>, k: nat, i: nat)
    requires IsRun(states, events) && k <= |events| && i < |states[k].sockets| && states[k].ws != Some(i)
    ensures states[k].sockets[i].Ending? || states[k].sockets[i].Closed?
  {
    RunIsOk(states, events, k);
  }

  // -------- whether it is connected

  /** Step j is a welcome on the then current socket. */
  predicate WelcomedAt(states: seq<Client>, events: seq<Event>, j: nat) {
    j < |events| && j < |states| && events[j].SocketWelcomes? && states[j].ws == Some(events[j].i)
  }

  /** Step j is a retarget, or the close of the then current socket. */
  predicate UnwelcomedAt(states: seq<Client>, events: seq<Event>, j: nat) {
    && j < |events| && j < |states|
    && (events[j].Retarget? || (events[j].SocketCloses? && states[j].ws == Some(events[j].i)))
  }

  ghost predicate WelcomedSince(states: seq<Client>, events: seq<Event>, j: nat, k: nat) {
    j < k && WelcomedAt(states, events, j) && forall i :: j < i < k ==> !UnwelcomedAt(states, events, i)
  }

  lemma WelcomeStep(c: Client, e: Event, c': Client)
    requires Follows(c, e, c')
    ensures c'.welcomed <==>
      || (e.SocketWelcomes? && c.ws == Some(e.i))
      || (c.welcomed && !e.Retarget? && !(e.SocketCloses? && c.ws == Some(e.i)))
  {
  }

  /** The flag is set exactly when there was a welcome and then no retarget and no close of the current socket. */
  lemma {:induction false} WelcomedExactly(states: seq<Client>, events: seq<Event>, k: nat)
    requires IsRun(states, events) && k <= |events|
    ensures states[k].welcomed <==> exists j: nat :: WelcomedSince(states, events, j, k)
  {
    if k > 0 {
      var before := k - 1;
      WelcomedExactly(states, events, before);
      assert Follows(states[before], events[before], states[k]);
      WelcomeStep(states[before], events[before], states[k]);
      if WelcomedAt(states, events, before) {
        assert WelcomedSince(states, events, before, k);
      }
      if states[before].welcomed && !UnwelcomedAt(states, events, before) {
        var j: nat :| WelcomedSince(states, events, j, before);
        assert WelcomedSince(states, events, j, k);
      }
      if exists j: nat :: WelcomedSince(states, events, j, k) {
        var j: nat :| WelcomedSince(states, events, j, k);
        if j < before {
          assert WelcomedSince(states, events, j, before);
        }
      }
    }
  }

  /** What the client reports: welcomed, and the current socket open. */
  predicate ReportsConnected(c: Client) {
    c.welcomed && c.ws.Some? && c.ws.value < |c.sockets| && Current(c).Open?
  }

  /** A stop does not clear the flag: started again and open again, the client reports what is not so yet. */
  lemma ReportsTooEarly(initialMs: nat, maxMs: nat, env: Env)
    ensures var es := [Start(env), SocketOpens(0), SocketWelcomes(0), Stop, Start(env), SocketOpens(1)];
      AllEnabled(New(initialMs, maxMs, None), es) && ReportsConnected(Run(New(initialMs, maxMs, None), es))
  {
    var c0 := New(initialMs, maxMs, None);
    var c1 := Step(c0, Start(env));
    var c2 := Step(c1, SocketOpens(0));
    var c3 := Step(c2, SocketWelcomes(0));
    var c4 := Step(c3, Stop);
    assert c4.sockets == [Ending(true)] && c4.welcomed;
    var c5 := Step(c4, Start(env));
    assert c5.sockets == [Ending(true), Dialing];
    var c6 := Step(c5, SocketOpens(1));
    assert AllEnabled(c6, []) && Run(c6, []) == c6;
    RunFrom(c5, SocketOpens(1), []);
    RunFrom(c4, Start(env), [SocketOpens(1)]);
    RunFrom(c3, Stop, [Start(env), SocketOpens(1)]);
    RunFrom(c2, SocketWelcomes(0), [Stop, Start(env), SocketOpens(1)]);
    RunFrom(c1, SocketOpens(0), [SocketWelcomes(0), Stop, Start(env), SocketOpens(1)]);
    RunFrom(c0, Start(env), [SocketOpens(0), SocketWelcomes(0), Stop, Start(env), SocketOpens(1)]);
  }

  lemma RunFrom(c: Client, e: Event, rest: seq<Event>)
    requires Enabled(c, e) && AllEnabled(Step(c, e), rest)
    ensures AllEnabled(c, [e] + rest) && Run(c, [e] + rest) == Run(Step(c, e), rest)
  {
    assert ([e] + rest)[1..] == rest;
  }

  // -------- a refused upgrade

  /** What the user does. */
  predicate ByUser(e: Event) {
    e.Start? || e.Stop? || e.Retarget?
  }

  predicate AllEnabled(c: Client, es: seq<Event>)
    decreases |es|
  {
    es == [] || (Enabled(c, es[0]) && AllEnabled(Step(c, es[0]), es[1..]))
  }

  function Run(c: Client, es: seq<Event>): Client
    requires AllEnabled(c, es)
    decreases |es|
  {
    if es == [] then c else Run(Step(c, es[0]), es[1..])
  }

  /** A running client on a hung socket, without a timer. */
  predicate Hangs(c: Client) {
    c.past.running && c.ws.Some? && c.ws.value < |c.sockets| && Current(c).Hung? && c.timers.live == map[]
  }

  lemma HangStep(c: Client, e: Event)
    requires Hangs(c) && Enabled(c, e) && !ByUser(e)
    ensures Hangs(Step(c, e)) && Step(c, e).ws == c.ws
  {
  }

  /** Nothing but the user ends it: no event of the network or the runtime ever dials again. */
  lemma {:induction false} HangsForever(c: Client, es: seq<Event>)
    requires Hangs(c) && AllEnabled(c, es) && forall i :: 0 <= i < |es| ==> !ByUser(es[i])
    ensures Hangs(Run(c, es)) && Run(c, es).ws == c.ws
    decreases |es|
  {
    if es != [] {
      HangStep(c, es[0]);
      HangsForever(Step(c, es[0]), es[1..]);
    }
  }

  /** Without the user, some way leads to an armed retry timer. */
  ghost predicate WillRetry(c: Client) {
    exists es: seq<Event> :: RetriesBy(c, es)
  }

  ghost predicate RetriesBy(c: Client, es: seq<Event>) {
    AllEnabled(c, es) && (forall i :: 0 <= i < |es| ==> !ByUser(es[i])) && Run(c, es).timers.live != map[]
  }

  /** After the hub refuses the current dial, a close and with it a retry is still to come exactly on a 401. */
  lemma RefusedDialRetries(c: Client, i: nat, status: nat, env: Env)
    requires ClientOk(c) && c.past.running && c.ws == Some(i) && i < |c.sockets| && c.sockets[i].Dialing?
    ensures var c' := Step(c, SocketRejects(i, status, env));
      && (WillRetry(c') <==> status == 401)
      && (status == 401 ==> Enabled(c', SocketCloses(i)))
      && (status != 401 ==> Hangs(c'))
  {
    var c' := Step(c, SocketRejects(i, status, env));
    if status == 401 {
      var close := SocketCloses(i);
      var c2 := Step(c', close);
      assert c'.sockets[i] == Ending(false) && c'.timers == c.timers;
      SetArmsOne(c.timers, c'.pace.delay);
      assert [close][1..] == [] && AllEnabled(c2, []) && Run(c', [close]) == c2;
      assert RetriesBy(c', [close]);
    } else {
      forall es: seq<Event> | AllEnabled(c', es) && (forall k :: 0 <= k < |es| ==> !ByUser(es[k]))
        ensures Run(c', es).timers.live == map[]
      {
        HangsForever(c', es);
      }
    }
  }

  /** Started, and refused with a 502: the client hangs. */
  lemma HangingRun(initialMs: nat, maxMs: nat, env: Env)
    ensures var es := [Start(env), SocketRejects(0, 502, env)];
      var c := New(initialMs, maxMs, None);
      AllEnabled(c, es) && Hangs(Run(c, es))
  {
    var c, reject := New(initialMs, maxMs, None), SocketRejects(0, 502, env);
    var es := [Start(env), reject];
    var c1 := Step(c, es[0]);
    assert c1.sockets == [Dialing] && Enabled(c1, reject);
    var c2 := Step(c1, reject);
    assert es[1..] == [reject] && [reject][1..] == [];
    assert AllEnabled(c2, []) && Run(c2, []) == c2 && AllEnabled(c1, [reject]) && Run(c1, [reject]) == c2;
  }

  // -------- sockets left behind

  predicate FromRetired(c: Client, e: Event) {
    SocketOf(e).Some? && c.ws != SocketOf(e)
  }

  /** The two differ at most in the states of sockets that were left behind. */
  predicate SameClient(c: Client, d: Client) {
    && c.(sockets := []) == d.(sockets := []) && |c.sockets| == |d.sockets|
    && (c.ws.Some? && c.ws.value < |c.sockets| ==> c.sockets[c.ws.value] == d.sockets[c.ws.value])
  }

  lemma RetiredStepInvisible(c: Client, e: Event)
    requires Enabled(c, e) && FromRetired(c, e)
    ensures SameClient(c, Step(c, e))
  {
  }

  lemma SameSocketStep(c: Client, d: Client, e: Event)
    requires SameClient(c, d) && Enabled(c, e) && SocketOf(e).Some? && c.ws == SocketOf(e)
    ensures Enabled(d, e) && SameClient(Step(c, e), Step(d, e))
  {
    assert c == d.(sockets := c.sockets);
  }

  lemma SameStep(c: Client, d: Client, e: Event)
    requires SameClient(c, d) && Enabled(c, e) && !FromRetired(c, e)
    ensures Enabled(d, e) && SameClient(Step(c, e), Step(d, e))
  {
    assert c == d.(sockets := c.sockets);
    if SocketOf(e).Some? {
      SameSocketStep(c, d, e);
    }
  }

  /** The events of a run without those of sockets that had been left behind by then. */
  function Erased(c: Client, es: seq<Event>): seq<Event>
    requires AllEnabled(c, es)
    decreases |es|
  {
    if es == [] then []
    else (if FromRetired(c, es[0]) then [] else [es[0]]) + Erased(Step(c, es[0]), es[1..])
  }

  /**
   * Whatever sockets left behind report, and whenever, the client does what it would have done
   * without those reports.
   */
  lemma {:induction false} RetiredSocketIsIgnored(c: Client, d: Client, es: seq<Event>)
    requires SameClient(c, d) && AllEnabled(c, es)
    ensures AllEnabled(d, Erased(c, es)) && SameClient(Run(c, es), Run(d, Erased(c, es)))
    decreases |es|
  {
    if es != [] {
      var e, c1 := es[0], Step(c, es[0]);
      var rest := Erased(c1, es[1..]);
      if FromRetired(c, e) {
        RetiredStepInvisible(c, e);
        assert [] + rest == rest;
        RetiredSocketIsIgnored(c1, d, es[1..]);
      } else {
        SameStep(c, d, e);
        assert ([e] + rest)[1..] == rest;
        RetiredSocketIsIgnored(c1, Step(d, e), es[1..]);
      }
    }
  }

  lemma RetiredStep(c: Client, e: Event, i: nat)
    requires Enabled(c, e) && i < |c.sockets| && c.ws != Some(i)
    ensures i < |Step(c, e).sockets| && Step(c, e).ws != Some(i)
  {
  }

  /** Once left behind, a socket never becomes current again. */
  lemma {:induction false} RetiredForGood(states: seq<Client>, events: seq<Event>, i: nat, j: nat, k: nat)
    requires IsRun(states, events) && j <= k <= |events|
    requires i < |states[j].sockets| && states[j].ws != Some(i)
    ensures i < |states[k].sockets| && states[k].ws != Some(i)
    decreases k
  {
    if j < k {
      RetiredForGood(states, events, i, j, k - 1);
      assert Follows(states[k - 1], events[k - 1], states[k]);
      RetiredStep(states[k - 1], events[k - 1], i);
    }
  }

  /**
   * The k-th consecutive wait since the last welcome or retarget, counted from 0, is the initial
   * wait doubled k times and capped; the very first one is not capped.
   */
  lemma WaitsDouble(states: seq<Client>, events: seq<Event>, n: nat, k: nat)
    requires IsRun(states, events) && n <= |events| && k < |states[n].past.waits|
    ensures var initial, max := states[0].pace.initialMs, states[0].pace.maxMs;
      && states[n].past.waits[k] == (if k == 0 then initial else Min(initial * Pow2(k), max))
      && (initial <= max ==> states[n].past.waits[k] == Min(initial * Pow2(k), max))
  {
    RunIsOk(states, events, n);
  }

  /**
   * The list of waits is what was armed: a close of the current socket arms the next one, a
   * welcome or a retarget starts over, and nothing else arms a timer.
   */
  lemma WaitsAreArmed(c: Client, e: Event)
    requires OneTimer(c.timers) && EitherOr(c) && Enabled(c, e)
    ensures var c' := Step(c, e);
      if e.SocketCloses? && c.ws == SocketOf(e)
      then c'.past.waits == c.past.waits + [c.pace.delay] && c'.timers.live == map[c.timers.next := c.pace.delay]
      else && c'.past.waits == (if e.Retarget? || (e.SocketWelcomes? && c.ws == SocketOf(e)) then [] else c.past.waits)
           && forall h :: h in c'.timers.live ==> h in c.timers.live && c'.timers.live[h] == c.timers.live[h]
  {
    if e.SocketCloses? && c.ws == SocketOf(e) {
      SetArmsOne(c.timers, c.pace.delay);
    }
  }

  /**
   * A close of the current socket arms one timer, for the initial wait doubled as often as waits
   * have been armed since the last welcome or retarget, capped from the second on.
   */
  lemma RetryWaits(states: seq<Client>, events: seq<Event>, k: nat)
    requires IsRun(states, events) && k < |events| && events[k].SocketCloses? && states[k].ws == Some(events[k].i)
    ensures var initial, max, n := states[0].pace.initialMs, states[0].pace.maxMs, |states[k].past.waits|;
      states[k + 1].timers.live ==
        map[states[k].timers.next := if n == 0 then initial else Min(initial * Pow2(n), max)]
  {
    RunIsOk(states, events, k);
    assert Follows(states[k], events[k], states[k + 1]);
    WaitsAreArmed(states[k], events[k]);
  }

  /** The step drops the cached secret. */
  predicate DropsSecret(c: Client, e: Event)
    requires Enabled(c, e)
  {
    c.dial.secret.Some? && Step(c, e).dial.secret.None?
  }

  /** That takes a 401 for the current dial, made with the cached secret, and a master secret at hand. */
  lemma DropNeedsRefusal(c: Client, e: Event)
    requires Enabled(c, e) && DropsSecret(c, e)
    ensures e.SocketRejects? && c.ws == Some(e.i) && e.status == 401
    ensures c.dial.source == FromConfig && e.env.master.Some? && !c.dial.reEnrolled && Step(c, e).dial.reEnrolled
  {
  }

  /** The environment a dial reads, for the events that dial. */
  function EnvOf(e: Event): Option<Env> {
    match e
    case Start(env) => Some(env)
    case Retarget(env) => Some(env)
    case TimerFires(_, env) => Some(env)
    case _ => None
  }

  lemma EnvStep(c: Client, e: Event)
    requires Enabled(c, e) && c.dial.source != FromConfig && (EnvOf(e).Some? ==> EnvOf(e).value.client.Some?)
    ensures Step(c, e).dial.source != FromConfig && (c.dial.secret.Some? ==> Step(c, e).dial.secret.Some?)
  {
  }

  /** While every dial finds a secret in the environment, the cached one survives whatever the hub answers. */
  lemma {:induction false} EnvSecretIsKept(states: seq<Client>, events: seq<Event>, j: nat, k: nat)
    requires IsRun(states, events) && j <= k <= |events|
    requires states[j].dial.source != FromConfig && states[j].dial.secret.Some?
    requires forall i :: j <= i < k && EnvOf(events[i]).Some? ==> EnvOf(events[i]).value.client.Some?
    ensures states[k].dial.secret.Some? && states[k].dial.source != FromConfig
    decreases k
  {
    if j < k {
      EnvSecretIsKept(states, events, j, k - 1);
      assert Follows(states[k - 1], events[k - 1], states[k]);
      EnvStep(states[k - 1], events[k - 1]);
    }
  }

  /** The hub issues a new secret on the current socket. */
  predicate Issues(c: Client, e: Event) {
    e.SocketEnrolls? && c.ws == Some(e.i) && e.secret != ""
  }

  lemma NoSecretStep(c: Client, e: Event, c': Client)
    requires Follows(c, e, c') && c.dial.secret.None? && !Issues(c, e)
    ensures c'.dial.secret.None?
  {
  }

  lemma SecretStaysDropped(states: seq<Client>, events: seq<Event>, j: nat, k: nat)
    requires IsRun(states, events) && j <= k <= |events| && states[j].dial.secret.None?
    requires forall i :: j <= i < k ==> !Issues(states[i], events[i])
    ensures states[k].dial.secret.None?
  {
    forall i | j <= i < k && states[i].dial.secret == None ensures states[i + 1].dial.secret == None {
      NoSecretStep(states[i], events[i], states[i + 1]);
    }
    SecretThroughout(states, j, k, None);
  }

  /**
   * After the cached secret is dropped and until the hub issues a new one, every dial whose
   * environment has a master secret and no client secret enrolls.
   */
  lemma DropLeadsToEnrollment(states: seq<Client>, events: seq<Event>, j: nat, k: nat)
    requires IsRun(states, events) && j < k < |events|
    requires Follows(states[j], events[j], states[j + 1]) && DropsSecret(states[j], events[j])
    requires forall i :: j < i < k ==> !Issues(states[i], events[i])
    requires EnvOf(events[k]).Some? && EnvOf(events[k]).value.client.None? && EnvOf(events[k]).value.master.Some?
    ensures states[k + 1].dial.source == FromMaster && states[k + 1].dial.enrollMode
    ensures states[k + 1].dial.token == EnvOf(events[k]).value.master.value
    ensures states[k + 1].ws == Some(|states[k].sockets|) && states[k + 1].sockets[|states[k].sockets|..] == [Dialing]
  {
    SecretStaysDropped(states, events, j + 1, k);
    RunIsOk(states, events, k);
    assert Follows(states[k], events[k], states[k + 1]);
    DialStep(states[k], events[k], states[k + 1]);
  }

  lemma KeepsSecretStep(c: Client, e: Event, c': Client, secret: string)
    requires Follows(c, e, c') && c.dial.secret == Some(secret) && !Issues(c, e) && !DropsSecret(c, e)
    ensures c'.dial.secret == Some(secret)
  {
  }

  lemma IssueStep(c: Client, e: Event, c': Client)
    requires Follows(c, e, c') && Issues(c, e)
    ensures c'.dial.secret == Some(e.secret)
  {
  }

  lemma {:induction false} SecretThroughout(states: seq<Client>, j: nat, k: nat, secret: Option<string>)
    requires j <= k < |states| && states[j].dial.secret == secret
    requires forall i :: j <= i < k && states[i].dial.secret == secret ==> states[i + 1].dial.secret == secret
    ensures states[k].dial.secret == secret
    decreases k
  {
    if j < k {
      SecretThroughout(states, j, k - 1, secret);
    }
  }

  /** An issued secret is cached until it is dropped or another is issued. */
  lemma IssuedIsCached(states: seq<Client>, events: seq<Event>, j: nat, k: nat)
    requires IsRun(states, events) && j < k <= |events|
    requires Follows(states[j], events[j], states[j + 1]) && Issues(states[j], events[j])
    requires forall i :: j < i < k ==>
      Follows(states[i], events[i], states[i + 1])
      && !Issues(states[i], events[i]) && !DropsSecret(states[i], events[i])
    ensures states[k].dial.secret == Some(events[j].secret)
  {
    var secret := events[j].secret;
    IssueStep(states[j], events[j], states[j + 1]);
    forall i | j + 1 <= i < k && states[i].dial.secret == Some(secret)
      ensures states[i + 1].dial.secret == Some(secret)
    {
      KeepsSecretStep(states[i], events[i], states[i + 1], secret);
    }
    SecretThroughout(states, j + 1, k, Some(secret));
  }

  lemma DialStep(c: Client, e: Event, c': Client)
    requires Follows(c, e, c') && ClientOk(c) && EnvOf(e).Some?
    ensures var env := EnvOf(e).value;
      && c'.ws == Some(|c.sockets|) && c'.sockets[|c.sockets|..] == [Dialing] && c'.dial.secret == c.dial.secret
      && (env.client.None? && c.dial.secret.Some? ==>
            c'.dial.source == FromConfig && c'.dial.token == c.dial.secret.value && !c'.dial.enrollMode)
      && (env.client.Some? ==>
            c'.dial.source == FromEnv && c'.dial.token == env.client.value && !c'.dial.enrollMode)
      && (env.client.None? && c.dial.secret.None? && env.master.Some? ==>
            c'.dial.source == FromMaster && c'.dial.token == env.master.value && c'.dial.enrollMode)
  {
    if e.TimerFires? {
      assert e.h in c.timers.live;
    }
  }

  /**
   * After the hub has issued a secret, and until it is dropped or another is issued, every dial that
   * finds no client secret in the environment uses that very secret and does not enroll, whether or
   * not there is a master secret.
   */
  lemma IssuedSecretIsUsed(states: seq<Client>, events: seq<Event>, j: nat, k: nat)
    requires IsRun(states, events) && j < k < |events|
    requires Follows(states[j], events[j], states[j + 1]) && Issues(states[j], events[j])
    requires forall i :: j < i < k ==>
      Follows(states[i], events[i], states[i + 1])
      && !Issues(states[i], events[i]) && !DropsSecret(states[i], events[i])
    requires EnvOf(events[k]).Some? && EnvOf(events[k]).value.client.None?
    ensures var c := states[k + 1];
      && c.ws == Some(|states[k].sockets|) && c.sockets[|states[k].sockets|..] == [Dialing]
      && c.dial.source == FromConfig && c.dial.token == events[j].secret && !c.dial.enrollMode
  {
    IssuedIsCached(states, events, j, k);
    RunIsOk(states, events, k);
    assert Follows(states[k], events[k], states[k + 1]);
    DialStep(states[k], events[k], states[k + 1]);
  }

  /** Step j dials with the master secret, and up to k there was no other dial and no secret issued. */
  ghost predicate EnrollsSince(states: seq<Client>, events: seq<Event>, j: nat, k: nat)
    requires k <= |events| < |states|
  {
    && j < k && EnvOf(events[j]).Some? && states[j + 1].dial.source == FromMaster
    && forall i :: j < i < k ==> EnvOf(events[i]).None? && !Issues(states[i], events[i])
  }

  ghost predicate EnrollDue(states: seq<Client>, events: seq<Event>, k: nat)
    requires k <= |events| < |states|
  {
    exists j: nat :: EnrollsSince(states, events, j, k)
  }

  lemma EnrollStep(c: Client, e: Event, c': Client)
    requires Follows(c, e, c') && ClientOk(c)
    ensures c'.dial.enrollMode <==>
      if EnvOf(e).Some? then c'.dial.source == FromMaster else c.dial.enrollMode && !Issues(c, e)
  {
    if EnvOf(e).Some? {
      DialStep(c, e, c');
    }
  }

  /** An enrollment is due exactly from a dial with the master secret until a secret is issued or the next dial. */
  lemma {:induction false} EnrollmentIsDue(states: seq<Client>, events: seq<Event>, k: nat)
    requires IsRun(states, events) && k <= |events|
    ensures states[k].dial.enrollMode <==> EnrollDue(states, events, k)
  {
    if k > 0 {
      var before := k - 1;
      EnrollmentIsDue(states, events, before);
      RunIsOk(states, events, before);
      assert Follows(states[before], events[before], states[k]);
      EnrollStep(states[before], events[before], states[k]);
      EnrollsOneMore(states, events, before);
    }
  }

  lemma EnrollsOneMore(states: seq<Client>, events: seq<Event>, before: nat)
    requires before < |events| < |states|
    ensures EnrollDue(states, events, before + 1) <==>
      if EnvOf(events[before]).Some? then states[before + 1].dial.source == FromMaster
      else EnrollDue(states, events, before) && !Issues(states[before], events[before])
  {
    if EnvOf(events[before]).Some? && states[before + 1].dial.source == FromMaster {
      assert EnrollsSince(states, events, before, before + 1);
    }
    if EnrollDue(states, events, before) {
      var j: nat :| EnrollsSince(states, events, j, before);
      if EnvOf(events[before]).None? && !Issues(states[before], events[before]) {
        assert EnrollsSince(states, events, j, before + 1);
      }
    }
    if EnrollDue(states, events, before + 1) {
      var j: nat :| EnrollsSince(states, events, j, before + 1);
      if j < before {
        assert EnrollsSince(states, events, j, before);
      }
    }
  }

  lemma {:induction false} ReEnrolledStays(states: seq<Client>, events: seq<Event>, j: nat, k: nat)
    requires IsRun(states, events) && j <= k <= |events| && states[j].dial.reEnrolled
    ensures states[k].dial.reEnrolled
    decreases k
  {
    if j < k {
      ReEnrolledStays(states, events, j, k - 1);
      assert Follows(states[k - 1], events[k - 1], states[k]);
      StepKeepsLimits(states[k - 1], events[k - 1]);
    }
  }

  /** The cached secret is dropped at most once in the client's life. */
  lemma SecretDroppedOnce(states: seq<Client>, events: seq<Event>, i: nat, j: nat)
    requires IsRun(states, events) && i < |events| && j < |events|
    requires Follows(states[i], events[i], states[i + 1]) && DropsSecret(states[i], events[i])
    requires Follows(states[j], events[j], states[j + 1]) && DropsSecret(states[j], events[j])
    ensures i == j
  {
    DropNeedsRefusal(states[i], events[i]);
    DropNeedsRefusal(states[j], events[j]);
    if i < j {
      ReEnrolledStays(states, events, i + 1, j);
    } else if j < i {
      ReEnrolledStays(states, events, j + 1, i);
    }
  }

  // -------- the bridge client, whose listeners do not look at which socket they serve

  /** deaf: sockets whose listeners have been removed. */
  datatype Bridge = Bridge(client: Client, deaf: set<nat>)

  function NewBridge(initialMs: nat, maxMs: nat, secret: Option<string>): Bridge {
    Bridge(New(initialMs, maxMs, secret), {})
  }

  /** What a listening socket's event does to the client, whichever socket is current. */
  function BridgeReaction(c: Client, e: Event): Client {
    match e
    // with no current socket the start stops the watchdog and then throws on the null socket
    case SocketOpens(_) => c.(watched := c.ws)
    case SocketWelcomes(_) => Welcomed(c)
    case SocketEnrolls(_, secret) =>
      if !c.dial.enrollMode || secret == "" then c else c.(dial := c.dial.(secret := Some(secret), enrollMode := false))
    // whatever the status, the current socket is terminated
    case SocketRejects(_, status, env) => Terminated(Purged(c, status, env))
    case SocketCloses(_) => Disconnected(c)
    case _ => c
  }

  /** A retarget, and only that, silences the old socket. */
  function BridgeStep(b: Bridge, e: Event): Bridge
    requires Enabled(b.client, e)
  {
    var c := b.client;
    match e
    case Start(_) => b.(client := Step(c, e))
    case TimerFires(_, _) => b.(client := Step(c, e))
    case Stop =>
      var c1 := Stopped(c);
      b.(client := c1.(timers := c1.timers.(retry := None)))
    case Retarget(env) => Bridge(Retargeted(c, env), if c.ws.Some? then b.deaf + {c.ws.value} else b.deaf)
    case _ =>
      var c1 := SocketAfter(c, e);
      b.(client := if SocketOf(e).Some? && SocketOf(e).value in b.deaf then c1 else BridgeReaction(c1, e))
  }

  /** The plugin's invariant, a listening current socket, and no listener left to fire before the first start. */
  ghost predicate BridgeOk(b: Bridge) {
    && OneTimer(b.client.timers) && EitherOr(b.client)
    && (!b.client.past.running ==> b.client.stopped || b.client.sockets == [])
    && (b.client.ws.Some? ==> b.client.ws.value < |b.client.sockets| && b.client.ws.value !in b.deaf)
    && (forall i :: i in b.deaf ==> i < |b.client.sockets|)
  }

  predicate Coexist(c: Client) {
    c.timers.live != map[] && HasSocket(c)
  }

  ghost predicate TwoTimers(c: Client) {
    exists g, h :: g in c.timers.live && h in c.timers.live && g != h
  }

  /** A listening socket that was left behind closes while the client runs. */
  predicate StrayClose(b: Bridge, e: Event) {
    e.SocketCloses? && b.client.ws != Some(e.i) && e.i !in b.deaf && b.client.past.running
  }

  /** Every step keeps the invariant, except exactly a stray close, which arms a timer too many. */
  lemma BridgeBreaksExactly(b: Bridge, e: Event)
    requires BridgeOk(b) && Enabled(b.client, e)
    ensures BridgeOk(BridgeStep(b, e)) <==> !StrayClose(b, e)
    ensures StrayClose(b, e) ==> Coexist(BridgeStep(b, e).client) || TwoTimers(BridgeStep(b, e).client)
  {
    if e.SocketCloses? {
      CloseBreaksExactly(b, e);
    } else if SocketOf(e).Some? {
      SocketKeepsBridge(b, e);
    } else {
      UserKeepsBridge(b, e);
    }
  }

  lemma SocketKeepsBridge(b: Bridge, e: Event)
    requires BridgeOk(b) && Enabled(b.client, e) && SocketOf(e).Some? && !e.SocketCloses?
    ensures BridgeOk(BridgeStep(b, e))
  {
  }

  lemma UserKeepsBridge(b: Bridge, e: Event)
    requires BridgeOk(b) && Enabled(b.client, e) && SocketOf(e).None?
    ensures BridgeOk(BridgeStep(b, e))
  {
    CancelLeavesNone(b.client.timers);
    if e.TimerFires? {
      FiredLeavesNone(b.client.timers, e.h);
    }
  }

  lemma CloseBreaksExactly(b: Bridge, e: Event)
    requires BridgeOk(b) && Enabled(b.client, e) && e.SocketCloses?
    ensures BridgeOk(BridgeStep(b, e)) <==> !StrayClose(b, e)
    ensures StrayClose(b, e) ==> Coexist(BridgeStep(b, e).client) || TwoTimers(BridgeStep(b, e).client)
  {
    var c, t := b.client, b.client.timers;
    if StrayClose(b, e) {
      var live := Set(t, c.pace.delay).live;
      assert t.next in live && t.next !in t.live;
      if !HasSocket(c) {
        var h :| h in t.live;
        assert h in live && h != t.next;
      }
    } else if c.ws == Some(e.i) && c.past.running {
      SetArmsOne(t, c.pace.delay);
    }
  }

  ghost predicate IsBridgeRun(states: seq<Bridge>, events: seq<Event>) {
    && |states| == |events| + 1
    && (var c := states[0].client; states[0] == NewBridge(c.pace.initialMs, c.pace.maxMs, c.dial.secret))
    && forall i :: 0 <= i < |events| ==> BridgeFollows(states[i], events[i], states[i + 1])
  }

  predicate BridgeFollows(b: Bridge, e: Event, b': Bridge) {
    Enabled(b.client, e) && b' == BridgeStep(b, e)
  }

  lemma {:induction false} BridgeRunIsOk(states: seq<Bridge>, events: seq<Event>, k: nat)
    requires IsBridgeRun(states, events) && k <= |events|
    requires forall i :: 0 <= i < k ==> !StrayClose(states[i], events[i])
    ensures BridgeOk(states[k])
  {
    if k > 0 {
      BridgeRunIsOk(states, events, k - 1);
      assert BridgeFollows(states[k - 1], events[k - 1], states[k]);
      BridgeBreaksExactly(states[k - 1], events[k - 1]);
    }
  }

  /**
   * Before the first stray close of a bridge run no timer coexists with an unclosed
   * current socket; right after it one does, or a second timer is live.
   */
  lemma BridgeHoldsUntilStrayClose(states: seq<Bridge>, events: seq<Event>, k: nat)
    requires IsBridgeRun(states, events) && k <= |events|
    requires forall i :: 0 <= i < k ==> !StrayClose(states[i], events[i])
    ensures !Coexist(states[k].client) && !TwoTimers(states[k].client)
    ensures k < |events| ==> (StrayClose(states[k], events[k]) <==>
      Coexist(states[k + 1].client) || TwoTimers(states[k + 1].client))
  {
    BridgeRunIsOk(states, events, k);
    if k < |events| {
      assert BridgeFollows(states[k], events[k], states[k + 1]);
      BridgeBreaksExactly(states[k], events[k]);
    }
  }

  lemma DeafStep(b: Bridge, e: Event, i: nat)
    requires Enabled(b.client, e) && i in b.deaf
    ensures i in BridgeStep(b, e).deaf
    ensures SocketOf(e) == Some(i) ==> BridgeStep(b, e).client == SocketAfter(b.client, e)
  {
  }

  /** What a retarget leaves behind is silent for good: its events change no more than that socket. */
  lemma {:induction false} RetargetSilences(states: seq<Bridge>, events: seq<Event>, j: nat, k: nat, i: nat)
    requires IsBridgeRun(states, events) && j < k <= |events|
    requires events[j].Retarget? && states[j].client.ws == Some(i)
    ensures i in states[k].deaf
    ensures k < |events| && SocketOf(events[k]) == Some(i) ==>
      Enabled(states[k].client, events[k]) && states[k + 1].client == SocketAfter(states[k].client, events[k])
    decreases k
  {
    assert BridgeFollows(states[k - 1], events[k - 1], states[k]);
    if k > j + 1 {
      RetargetSilences(states, events, j, k - 1, i);
      DeafStep(states[k - 1], events[k - 1], i);
    }
    if k < |events| {
      assert BridgeFollows(states[k], events[k], states[k + 1]);
      DeafStep(states[k], events[k], i);
    }
  }

  /** A second live timer is as bad: when either fires, the other is armed beside a new socket. */
  lemma SecondTimerCoexists(b: Bridge, h: nat, env: Env)
    requires TwoTimers(b.client) && h in b.client.timers.live && !b.client.stopped
    ensures Coexist(BridgeStep(b, TimerFires(h, env)).client)
  {
    var f, g :| f in b.client.timers.live && g in b.client.timers.live && f != g;
    var other := if f == h then g else f;
    assert other in BridgeStep(b, TimerFires(h, env)).client.timers.live;
  }

  /** The memory of a cancelled timer apart, the two are in one state. */
  predicate SameButMemory(c: Client, d: Client) {
    c == d.(timers := d.timers.(retry := c.timers.retry))
  }

  /**
   * On the events of its user, of its timer and of its current socket the bridge does what the plugin
   * does, but for three things: it forgets a cancelled timer at a stop, it terminates a refused dial
   * whatever the status, and it takes a secret only while it is enrolling.
   */
  lemma BridgeLikePlugin(b: Bridge, e: Event)
    requires BridgeOk(b) && Enabled(b.client, e) && (SocketOf(e).Some? ==> SocketOf(e) == b.client.ws)
    ensures var c, c' := BridgeStep(b, e).client, Step(b.client, e);
      match e
      case Stop => SameButMemory(c, c') && c.timers.retry.None?
      case SocketRejects(i, status, _) =>
        if status == 401 then c == c' else c == c'.(sockets := c'.sockets[i := Ended(c'.sockets[i])])
      case SocketEnrolls(_, _) => c == if b.client.dial.enrollMode then c' else b.client
      case _ => c == c'
  {
  }

  /** The bridge terminates a refused dial whatever the status, and the close that follows arms a retry. */
  lemma BridgeRefusedRetries(b: Bridge, i: nat, status: nat, env: Env)
    requires BridgeOk(b) && b.client.past.running && b.client.ws == Some(i) && b.client.sockets[i].Dialing?
    ensures var b' := BridgeStep(b, SocketRejects(i, status, env));
      && b'.client.sockets[i] == Ending(false) && Enabled(b'.client, SocketCloses(i))
      && BridgeStep(b', SocketCloses(i)).client.timers.live == map[b.client.timers.next := b.client.pace.delay]
  {
    var b' := BridgeStep(b, SocketRejects(i, status, env));
    assert b'.client.sockets[i] == Ending(false) && b'.client.timers == b.client.timers;
    SetArmsOne(b.client.timers, b.client.pace.delay);
  }

  /** Start, stop, start, and only then the first socket's close. */
  lemma BridgeCoexists(initialMs: nat, maxMs: nat, env: Env)
    ensures var b1 := BridgeStep(NewBridge(initialMs, maxMs, None), Start(env));
      var b3 := BridgeStep(BridgeStep(b1, Stop), Start(env));
      && Enabled(b3.client, SocketCloses(0)) && StrayClose(b3, SocketCloses(0))
      && Coexist(BridgeStep(b3, SocketCloses(0)).client) && !Coexist(Step(b3.client, SocketCloses(0)))
  {
    var b1 := BridgeStep(NewBridge(initialMs, maxMs, None), Start(env));
    var b3 := BridgeStep(BridgeStep(b1, Stop), Start(env));
    assert b3.client.sockets == [Ending(false), Dialing] && b3.client.ws == Some(1);
    assert b3.client.timers.next in BridgeStep(b3, SocketCloses(0)).client.timers.live;
  }
}
