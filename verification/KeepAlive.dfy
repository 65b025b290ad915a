/**
 * The liveness watchdog as a timed automaton: an interval that pings, a deadline per ping, and a
 * clock that cannot pass a due timer. Peers are numbered; a pong may come from any peer the
 * watchdog was ever started on, since listeners stay, and also from inside ping itself.
 */
module KeepAlive {
  import opened Basics

  datatype Kind = Tick | Expire

  datatype Timer = Timer(due: int, kind: Kind, peer: nat)

  datatype Kill = Kill(peer: nat, at: int)

  /**
   * timers: what the runtime has live. heard: the last start or pong. pingAt: the last ping.
   * watching: started, and not stopped from outside since. peer: the last one started on.
   */
  datatype Dog = Dog(
    every: nat, pongDeadline: nat,
    now: int, timers: map<nat, Timer>, next: nat,
    interval: Option<nat>, deadline: Option<nat>, awaiting: bool, terminated: bool, pings: nat,
    kills: seq<Kill>, heard: int, pingAt: int, watching: bool, peer: nat)

  function New(every: nat, pongDeadline: nat, now: int): Dog {
    Dog(every, pongDeadline, now, map[], 0, None, None, false, false, 0, [], now, now, false, 0)
  }

  datatype Event =
    | Start(peer: nat, sync: bool)
    | Stop
    | Pong(peer: nat)
    | Fire(h: nat, sync: bool)
    | Advance(to: int)

  function Cleared(timers: map<nat, Timer>, h: Option<nat>): map<nat, Timer> {
    if h.Some? then timers - {h.value} else timers
  }

  function Stopped(s: Dog): Dog {
    s.(timers := Cleared(Cleared(s.timers, s.interval), s.deadline), interval := None, deadline := None,
       awaiting := false)
  }

  function Ponged(s: Dog): Dog {
    s.(awaiting := false, timers := Cleared(s.timers, s.deadline), deadline := None, heard := s.now)
  }

  function Pinged(s: Dog, peer: nat): Dog {
    s.(awaiting := true, timers := s.timers[s.next := Timer(s.now + s.pongDeadline, Expire, peer)],
       deadline := Some(s.next), next := s.next + 1, pings := s.pings + 1, pingAt := s.now)
  }

  function Ticked(s: Dog, peer: nat, sync: bool): Dog {
    if s.terminated || s.awaiting then s
    else if sync then Ponged(Pinged(s, peer))
    else Pinged(s, peer)
  }

  function Armed(s: Dog, peer: nat): Dog {
    s.(terminated := false, timers := s.timers[s.next := Timer(s.now + s.every, Tick, peer)], interval := Some(s.next),
       next := s.next + 1, heard := s.now, watching := true, peer := peer)
  }

  function Expired(s: Dog, h: nat, peer: nat): Dog {
    Stopped(s.(timers := s.timers - {h}, terminated := true)).(kills := s.kills + [Kill(peer, s.now)])
  }

  predicate Enabled(s: Dog, e: Event) {
    match e
    case Fire(h, _) => h in s.timers && s.timers[h].due <= s.now
    case Advance(to) => s.now <= to && forall h :: h in s.timers ==> to <= s.timers[h].due
    case _ => true
  }

  function Step(s: Dog, e: Event): Dog
    requires Enabled(s, e)
  {
    match e
    case Start(peer, sync) => Ticked(Armed(Stopped(s), peer), peer, sync)
    case Stop => Stopped(s).(watching := false)
    case Pong(_) => Ponged(s)
    case Fire(h, sync) =>
      var t := s.timers[h];
      if t.kind == Expire then Expired(s, h, t.peer)
      else Ticked(s.(timers := s.timers[h := t.(due := t.due + s.every)]), t.peer, sync)
    case Advance(to) => s.(now := to)
  }

  // -------- the watchdog in place

  class KeepAliveWatchdog {
    const every: nat
    const pongDeadline: nat
    // the runtime's clock and live timers
    var now: int
    var timers: map<nat, Timer>
    var next: nat
    var interval: Option<nat>
    var deadline: Option<nat>
    var awaitingPong: bool
    var terminated: bool
    var pingsSent: nat
    var kills: seq<Kill>
    ghost var heard: int
    ghost var pingAt: int
    ghost var watching: bool
    ghost var peer: nat

    ghost function State(): Dog
      reads this
    {
      Dog(every, pongDeadline, now, timers, next, interval, deadline, awaitingPong, terminated, pingsSent,
          kills, heard, pingAt, watching, peer)
    }

    constructor (every: nat, pongDeadline: nat, time: int)
      ensures State() == New(every, pongDeadline, time)
    {
      this.every, this.pongDeadline := every, pongDeadline;
      now, timers, next, interval, deadline := time, map[], 0, None, None;
      awaitingPong, terminated, pingsSent, kills := false, false, 0, [];
      heard, pingAt, watching, peer := time, time, false, 0;
    }

    method SetTimer(due: int, kind: Kind, peer: nat) returns (h: nat)
      modifies this`timers, this`next
      ensures h == old(next) && next == h + 1 && timers == old(timers)[h := Timer(due, kind, peer)]
    {
      h := next;
      timers := timers[h := Timer(due, kind, peer)];
      next := next + 1;
    }

    /** sync: the peer pongs before ping returns. */
    method Start(peer: nat, sync: bool)
      modifies this
      ensures State() == Step(old(State()), Event.Start(peer, sync))
    {
      Halt();
      Arm(peer);
      OnTick(peer, sync);
    }

    /** A fresh verdict and a fresh interval. */
    method Arm(peer: nat)
      modifies this
      ensures State() == Armed(old(State()), peer)
    {
      terminated := false;
      heard, watching, this.peer := now, true, peer;
      var h := SetTimer(now + every, Tick, peer);
      interval := Some(h);
    }

    method Halt()
      modifies this`timers, this`interval, this`deadline, this`awaitingPong
      ensures State() == Stopped(old(State()))
    {
      if interval.Some? {
        timers := timers - {interval.value};
      }
      if deadline.Some? {
        timers := timers - {deadline.value};
      }
      interval, deadline, awaitingPong := None, None, false;
    }

    method Stop()
      modifies this
      ensures State() == Step(old(State()), Event.Stop)
    {
      Halt();
      watching := false;
    }

    /** The listener every started peer keeps. */
    method OnPong(ghost peer: nat)
      modifies this
      ensures State() == Step(old(State()), Pong(peer))
    {
      awaitingPong := false;
      if deadline.Some? {
        timers := timers - {deadline.value};
      }
      deadline := None;
      heard := now;
    }

    /** The deadline is armed before the ping, so that a pong from inside ping can clear it. */
    method OnTick(peer: nat, sync: bool)
      modifies this
      ensures State() == Ticked(old(State()), peer, sync)
    {
      if terminated || awaitingPong {
        return;
      }
      awaitingPong := true;
      var h := SetTimer(now + pongDeadline, Expire, peer);
      deadline := Some(h);
      pingsSent := pingsSent + 1;
      pingAt := now;
      if sync {
        OnPong(peer);
      }
    }

    method OnExpire(peer: nat)
      modifies this
      ensures State() == Stopped(old(State()).(terminated := true)).(kills := old(kills) + [Kill(peer, now)])
    {
      terminated := true;
      Halt();
      kills := kills + [Kill(peer, now)];
    }

    /** The runtime fires a due timer: an interval is rescheduled, a timeout is gone. */
    method FireTimer(h: nat, sync: bool)
      requires h in timers && timers[h].due <= now
      modifies this
      ensures State() == Step(old(State()), Fire(h, sync))
    {
      var t := timers[h];
      match t.kind {
        case Expire =>
          timers := timers - {h};
          OnExpire(t.peer);
        case Tick =>
          timers := timers[h := t.(due := t.due + every)];
          OnTick(t.peer, sync);
      }
    }
  }

  // -------- the invariant

  predicate HasTimer(s: Dog, h: Option<nat>, kind: Kind) {
    h.Some? ==> h.value in s.timers && s.timers[h.value].kind == kind
  }

  /** The live timers are the interval and the deadline, and nothing else. */
  ghost predicate TimersOk(s: Dog) {
    && (forall h :: h in s.timers <==> s.interval == Some(h) || s.deadline == Some(h))
    && (forall h :: h in s.timers ==> h < s.next && s.now <= s.timers[h].due && s.timers[h].peer == s.peer)
    && HasTimer(s, s.interval, Tick) && HasTimer(s, s.deadline, Expire)
  }

  predicate ModeOk(s: Dog) {
    && (s.deadline.Some? <==> s.awaiting)
    && (s.deadline.Some? ==> s.interval.Some?)
    && (s.interval.Some? ==> !s.terminated && s.watching)
    && (s.watching ==> s.interval.Some? || s.terminated)
  }

  /** By when a peer that has been silent since it was last heard is given up. */
  function GiveUpBy(s: Dog): int {
    s.heard + s.every + s.pongDeadline
  }

  function DueOf(s: Dog, h: Option<nat>): int {
    if h.Some? && h.value in s.timers then s.timers[h.value].due else s.now
  }

  ghost predicate TimingOk(s: Dog) {
    && s.heard <= s.now && s.pingAt <= s.now
    && (s.interval.Some? ==> DueOf(s, s.interval) <= if s.awaiting then s.now + s.every else s.heard + s.every)
    && (s.awaiting ==> DueOf(s, s.deadline) == s.pingAt + s.pongDeadline && s.heard <= s.pingAt <= s.heard + s.every)
    && (s.terminated ==> s.kills != [] && s.kills[|s.kills| - 1].peer == s.peer)
    && (s.terminated ==> s.kills[|s.kills| - 1].at <= GiveUpBy(s))
  }

  ghost predicate DogOk(s: Dog) {
    TimersOk(s) && ModeOk(s) && TimingOk(s)
  }

  lemma StartKeepsOk(s: Dog, peer: nat, sync: bool)
    requires DogOk(s) && s.timers == map[]
    ensures DogOk(Ticked(Armed(Stopped(s), peer), peer, sync))
  {
  }

  lemma TickKeepsOk(s: Dog, h: nat, sync: bool)
    requires DogOk(s) && Enabled(s, Fire(h, sync)) && s.timers[h].kind == Tick
    ensures DogOk(Step(s, Fire(h, sync)))
  {
    assert s.interval == Some(h);
  }

  lemma ExpireKeepsOk(s: Dog, h: nat, sync: bool)
    requires DogOk(s) && Enabled(s, Fire(h, sync)) && s.timers[h].kind == Expire
    ensures DogOk(Step(s, Fire(h, sync)))
  {
    assert s.deadline == Some(h);
  }

  lemma PongKeepsOk(s: Dog)
    requires DogOk(s)
    ensures DogOk(Ponged(s))
  {
  }

  lemma StopKeepsOk(s: Dog)
    requires DogOk(s)
    ensures DogOk(Stopped(s).(watching := false)) && Stopped(s).timers == map[]
  {
  }

  lemma StepKeepsOk(s: Dog, e: Event)
    requires DogOk(s) && Enabled(s, e)
    ensures DogOk(Step(s, e))
  {
    match e
    case Start(peer, sync) =>
      StopKeepsOk(s);
      var idle := Stopped(s).(watching := false);
      assert Armed(Stopped(s), peer) == Armed(Stopped(idle), peer);
      StartKeepsOk(idle, peer, sync);
    case Stop => StopKeepsOk(s);
    case Pong(_) => PongKeepsOk(s);
    case Fire(h, sync) =>
      if s.timers[h].kind == Tick {
        TickKeepsOk(s, h, sync);
      } else {
        ExpireKeepsOk(s, h, sync);
      }
    case Advance(_) =>
  }

  // -------- whole runs

  ghost predicate IsRun(states: seq<Dog>, events: seq<Event>) {
    && |states| == |events| + 1
    && states[0] == New(states[0].every, states[0].pongDeadline, states[0].now)
    && forall i :: 0 <= i < |events| ==> Follows(states[i], events[i], states[i + 1])
  }

  predicate Follows(s: Dog, e: Event, s': Dog) {
    Enabled(s, e) && s' == Step(s, e)
  }

  lemma {:induction false} RunIsOk(states: seq<Dog>, events: seq<Event>, k: nat)
    requires IsRun(states, events) && k <= |events|
    ensures DogOk(states[k]) && states[k].every == states[0].every && states[k].pongDeadline == states[0].pongDeadline
  {
    if k > 0 {
      RunIsOk(states, events, k - 1);
      assert Follows(states[k - 1], events[k - 1], states[k]);
      StepKeepsOk(states[k - 1], events[k - 1]);
    }
  }

  /**
   * At any time at most one interval and one deadline are live, a deadline exactly while a pong
   * is awaited, and no timer at all outside start and stop.
   */
  lemma TimersAreFew(states: seq<Dog>, events: seq<Event>, k: nat)
    requires IsRun(states, events) && k <= |events|
    ensures var s := states[k];
      && (forall g, h :: g in s.timers && h in s.timers && s.timers[g].kind == s.timers[h].kind ==> g == h)
      && (s.awaiting <==> exists h :: h in s.timers && s.timers[h].kind == Expire)
      && (!s.watching ==> s.timers == map[])
  {
    RunIsOk(states, events, k);
    var s := states[k];
    if s.awaiting {
      assert s.deadline.value in s.timers;
    }
  }

  /** A running watchdog is never past the time it must give up by. */
  lemma NotOverdue(s: Dog)
    requires DogOk(s) && s.interval.Some?
    ensures s.now <= GiveUpBy(s)
  {
    assert s.interval.value in s.timers;
    assert s.awaiting ==> s.deadline.value in s.timers;
  }

  /** Nothing is heard, started or stopped in the steps first..last. */
  predicate Silent(events: seq<Event>, first: nat, last: nat)
    requires last <= |events|
  {
    forall j :: first <= j < last ==> events[j].Advance? || (events[j].Fire? && !events[j].sync)
  }

  lemma {:induction false} SilenceKeeps(states: seq<Dog>, events: seq<Event>, first: nat, last: nat)
    requires IsRun(states, events) && first <= last <= |events| && Silent(events, first, last)
    ensures states[last].heard == states[first].heard && states[last].watching == states[first].watching
    ensures states[last].peer == states[first].peer
    decreases last
  {
    if first < last {
      SilenceKeeps(states, events, first, last - 1);
      assert Follows(states[last - 1], events[last - 1], states[last]);
    }
  }

  /**
   * A peer last heard, or started on, at time p and silent since is terminated by
   * p + every + pongDeadline, unless the watchdog is stopped first.
   */
  lemma SilentPeerIsTerminated(states: seq<Dog>, events: seq<Event>, i: nat, k: nat)
    requires IsRun(states, events) && i < k <= |events|
    requires (events[i].Pong? || events[i].Start?) && states[i + 1].watching && !states[i + 1].terminated
    requires Silent(events, i + 1, k)
    requires states[k].now > states[i].now + states[0].every + states[0].pongDeadline
    ensures states[k].terminated && states[k].kills != []
    ensures var kill := states[k].kills[|states[k].kills| - 1];
      kill.peer == states[i + 1].peer && kill.at <= states[i].now + states[0].every + states[0].pongDeadline
  {
    assert Follows(states[i], events[i], states[i + 1]);
    RunIsOk(states, events, i);
    RunIsOk(states, events, k);
    assert states[i + 1].heard == states[i].now;
    SilenceKeeps(states, events, i + 1, k);
    if states[k].interval.Some? {
      NotOverdue(states[k]);
    }
  }

  /**
   * A pong of a peer that was left behind counts as well: it settles the ping to the current peer
   * and puts off the verdict as if that peer had been heard.
   */
  lemma StalePongCounts(s: Dog, peer: nat)
    requires DogOk(s) && s.awaiting && peer != s.peer
    ensures var s' := Step(s, Pong(peer));
      && s'.deadline.None? && (forall h :: h in s'.timers ==> s'.timers[h].kind == Tick)
      && GiveUpBy(s') == s.now + s.every + s.pongDeadline && s'.peer == s.peer
  {
  }

  /** Step i is a start, or a tick while no pong is awaited. */
  predicate Calls(states: seq<Dog>, events: seq<Event>, i: nat) {
    && i < |events| && i < |states|
    && (events[i].Start?
        || (events[i].Fire? && events[i].h in states[i].timers && states[i].timers[events[i].h].kind == Tick
            && !states[i].awaiting))
  }

  function CallsBefore(states: seq<Dog>, events: seq<Event>, k: nat): nat {
    if k == 0 then 0 else CallsBefore(states, events, k - 1) + if Calls(states, events, k - 1) then 1 else 0
  }

  lemma PingStep(s: Dog, e: Event, s': Dog)
    requires DogOk(s) && Follows(s, e, s')
    ensures s'.pings == s.pings + if e.Start? || (e.Fire? && s.timers[e.h].kind == Tick && !s.awaiting) then 1 else 0
  {
    if e.Fire? {
      assert s.interval == Some(e.h) || s.deadline == Some(e.h);
    }
  }

  /** A ping is sent at every start, at every tick while none is open, and at no other time. */
  lemma {:induction false} PingsExactly(states: seq<Dog>, events: seq<Event>, k: nat)
    requires IsRun(states, events) && k <= |events|
    ensures states[k].pings == CallsBefore(states, events, k)
  {
    if k > 0 {
      PingsExactly(states, events, k - 1);
      RunIsOk(states, events, k - 1);
      assert Follows(states[k - 1], events[k - 1], states[k]);
      PingStep(states[k - 1], events[k - 1], states[k]);
    }
  }

  // -------- peers that answer

  predicate PingsAt(states: seq<Dog>, i: nat) {
    i + 1 < |states| && states[i + 1].pings > states[i].pings
  }

  predicate AnswersAtOnce(e: Event) {
    (e.Start? || e.Fire?) && e.sync
  }

  /** The ping is answered, or no longer waited for. */
  predicate Settles(e: Event) {
    e.Pong? || e.Start? || e.Stop?
  }

  /** The ping of step i is settled before its deadline, and before step k. */
  ghost predicate Answered(states: seq<Dog>, events: seq<Event>, i: nat, k: nat)
    requires i < k <= |events| < |states|
  {
    exists j :: i <= j < k && states[j].now < states[i + 1].now + states[0].pongDeadline
      && (if j == i then AnswersAtOnce(events[j]) else Settles(events[j]))
  }

  /** Time never reaches the deadline of a ping that is still open. */
  ghost predicate Prompt(states: seq<Dog>, events: seq<Event>)
    requires |states| == |events| + 1
  {
    forall i, k ::
      (0 <= i < k <= |events| && PingsAt(states, i) && states[k].now >= states[i + 1].now + states[0].pongDeadline) ==>
        Answered(states, events, i, k)
  }

  /** Step i sent a ping that nothing has settled up to step k. */
  ghost predicate OpenSince(states: seq<Dog>, events: seq<Event>, i: nat, k: nat)
    requires k <= |events| < |states|
  {
    && i < k && PingsAt(states, i) && states[i + 1].now == states[k].pingAt && !AnswersAtOnce(events[i])
    && forall j :: i < j < k ==> !Settles(events[j])
  }

  /** A step after which a pong is awaited: it leaves the open ping alone, or sends one. */
  lemma AwaitingStep(s: Dog, e: Event)
    requires DogOk(s) && Enabled(s, e) && Step(s, e).awaiting
    ensures var s' := Step(s, e);
      if s.awaiting && !e.Start? then s'.pingAt == s.pingAt && !Settles(e)
      else s'.pings > s.pings && s'.pingAt == s'.now && !AnswersAtOnce(e)
  {
  }

  lemma {:induction false} AwaitedPing(states: seq<Dog>, events: seq<Event>, k: nat) returns (i: nat)
    requires IsRun(states, events) && k <= |events| && states[k].awaiting
    ensures OpenSince(states, events, i, k)
  {
    var s, e := states[k - 1], events[k - 1];
    assert Follows(s, e, states[k]);
    RunIsOk(states, events, k - 1);
    AwaitingStep(s, e);
    if s.awaiting && !e.Start? {
      i := AwaitedPing(states, events, k - 1);
    } else {
      i := k - 1;
    }
  }

  /** A peer that answers every ping before its deadline is never terminated. */
  lemma {:induction false} PromptPeerLives(states: seq<Dog>, events: seq<Event>, k: nat)
    requires IsRun(states, events) && k <= |events| && Prompt(states, events)
    ensures !states[k].terminated && states[k].kills == []
  {
    if k > 0 {
      PromptPeerLives(states, events, k - 1);
      var s, e := states[k - 1], events[k - 1];
      assert Follows(s, e, states[k]);
      RunIsOk(states, events, k - 1);
      if e.Fire? && s.timers[e.h].kind == Expire {
        var i := AwaitedPing(states, events, k - 1);
      }
    }
  }
}
