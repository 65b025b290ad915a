/**
 * Which way each delivery goes, read off the run: who was known and connected at the step that
 * looked, who was a member and admitted when the recipients were resolved, and what a flush took.
 */
module Routing {
  import opened Basics
  import opened HubState
  import opened Delivery
  import Channels
  import Registry

  // -------- the states of a run

  lemma {:induction false} Prefix(w: World, steps: seq<Step>, k: nat)
    requires AllCan(w, steps) && k <= |steps|
    ensures AllCan(w, steps[..k])
    ensures k < |steps| ==>
      && CanStep(Run(w, steps[..k]), steps[k]) && AllCan(w, steps[..k + 1])
      && Run(w, steps[..k + 1]) == Do(Run(w, steps[..k]), steps[k])
    decreases k
  {
    if k > 0 {
      var w1, rest := Do(w, steps[0]), steps[1..];
      Prefix(w1, rest, k - 1);
      assert steps[..k][1..] == rest[..k - 1];
      if k < |steps| {
        assert steps[..k + 1][1..] == rest[..k] && rest[k - 1] == steps[k];
      }
    } else if steps != [] {
      assert steps[..1][1..] == [] && AllCan(Do(w, steps[0]), []);
    }
  }

  /** The state after the first k steps. */
  ghost function At(steps: seq<Step>, k: nat): World
    requires AllCan(START, steps) && k <= |steps|
  {
    Prefix(START, steps, k);
    Run(START, steps[..k])
  }

  lemma AtNext(steps: seq<Step>, k: nat)
    requires AllCan(START, steps) && k < |steps|
    ensures CanStep(At(steps, k), steps[k]) && At(steps, k + 1) == Do(At(steps, k), steps[k])
  {
    Prefix(START, steps, k);
  }

  lemma AtIsInv(steps: seq<Step>, k: nat)
    requires AllCan(START, steps) && k <= |steps|
    ensures Inv(At(steps, k))
  {
    Prefix(START, steps, k);
    Reached(steps[..k]);
  }

  /** A step of another task leaves this one and its hand-overs alone. */
  lemma Bystander(w: World, s: Step, t: nat)
    requires CanStep(w, s) && t < |w.tasks| && !Moves(s, t)
    ensures t < |Do(w, s).tasks| && Do(w, s).tasks[t] == w.tasks[t]
    ensures HandOvers(Do(w, s).log, t) == HandOvers(w.log, t)
  {
    LogAfter(w, s, t, 0, "");
  }

  lemma Mover(w: World, s: Step, t: nat)
    requires CanStep(w, s) && t < |w.tasks| && (s.Push? || s.Store?) && s.t == t
    ensures HandOvers(Do(w, s).log, t) == HandOvers(w.log, t) + Written(w, s)
    ensures Do(w, s).tasks == w.tasks[t := Moved(w.tasks[t], if s.Push? then s.ok else true)]
  {
    LogAfter(w, s, t, 0, "");
  }

  // -------- direct messages

  function ConnOf(h: Hub, id: Id): Option<nat> {
    if id in h.clients then Some(h.clients[id]) else None
  }

  /**
   * Where task t may be after its recipient's connection was read: with a connection the first
   * hand-over is a push on it, and the mailbox is used only after that was refused; without one
   * nothing is ever pushed.
   */
  predicate Follows(w: World, t: nat, to: Id, f: Frame, conn: Option<nat>)
  {
    && t < |w.tasks| && w.tasks[t].Dm? && w.tasks[t].to == to && w.tasks[t].f == f
    && var dm, es := w.tasks[t].dm, HandOvers(w.log, t);
       match conn
       case Some(c) =>
         || (dm == Pushing(c) && es == [])
         || (dm == Online(c) && es == [Placed(t, f, Queue(c))])
         || (dm == Storing && es == [Placed(t, f, Refused(c))])
         || (dm == Stored && es == [Placed(t, f, Refused(c)), Placed(t, f, Mail(to))])
       case None =>
         || (dm == Storing && es == [])
         || (dm == Stored && es == [Placed(t, f, Mail(to))])
  }

  lemma StepFollows(w: World, s: Step, t: nat, to: Id, f: Frame, conn: Option<nat>)
    requires CanStep(w, s) && Follows(w, t, to, f, conn)
    ensures Follows(Do(w, s), t, to, f, conn)
  {
    if Moves(s, t) {
      Mover(w, s, t);
    } else {
      Bystander(w, s, t);
    }
  }

  lemma DmBegins(steps: seq<Step>, k: nat)
    requires AllCan(START, steps) && k < |steps| && steps[k].FindConn?
    ensures var w, t := At(steps, k), steps[k].t;
      && t < |w.tasks| && w.tasks[t].Dm?
      && Follows(At(steps, k + 1), t, w.tasks[t].to, w.tasks[t].f, ConnOf(w.hub, w.tasks[t].to))
  {
    var w, t := At(steps, k), steps[k].t;
    AtNext(steps, k);
    AtIsInv(steps, k);
    assert TaskOk(w.hub, t, w.tasks[t], HandOvers(w.log, t));
    LogAfter(w, steps[k], t, 0, "");
  }

  /** The way of a direct message from the step that reads its recipient's connection to any later state. */
  lemma {:induction false} DmFollows(steps: seq<Step>, k: nat, n: nat)
    requires AllCan(START, steps) && k < n <= |steps| && steps[k].FindConn?
    ensures var w, t := At(steps, k), steps[k].t;
      && t < |w.tasks| && w.tasks[t].Dm?
      && Follows(At(steps, n), t, w.tasks[t].to, w.tasks[t].f, ConnOf(w.hub, w.tasks[t].to))
    decreases n
  {
    DmBegins(steps, k);
    if n > k + 1 {
      var w, t := At(steps, k), steps[k].t;
      DmFollows(steps, k, n - 1);
      AtNext(steps, n - 1);
      StepFollows(At(steps, n - 1), steps[n - 1], t, w.tasks[t].to, w.tasks[t].f, ConnOf(w.hub, w.tasks[t].to));
    }
  }

  /** Task t has been looked up, and rejected or not. */
  predicate LookedUp(w: World, t: nat, known: bool) {
    t < |w.tasks| && w.tasks[t].Dm? && !w.tasks[t].dm.Lookup? && (w.tasks[t].dm.Unknown? <==> !known)
  }

  /** A direct message is rejected exactly when its recipient was not registered at the lookup. */
  lemma {:induction false} UnknownExactly(steps: seq<Step>, k: nat, n: nat)
    requires AllCan(START, steps) && k < n <= |steps| && steps[k].LookUp?
    ensures var w, t := At(steps, k), steps[k].t;
      t < |w.tasks| && w.tasks[t].Dm? && LookedUp(At(steps, n), t, w.tasks[t].to in w.hub.agents)
    decreases n
  {
    var w, t := At(steps, k), steps[k].t;
    AtNext(steps, k);
    AtNext(steps, n - 1);
    if n == k + 1 {
      LooksUp(w, t);
    } else {
      UnknownExactly(steps, k, n - 1);
      StaysLookedUp(At(steps, n - 1), steps[n - 1], t, w.tasks[t].to in w.hub.agents);
    }
  }

  lemma LooksUp(w: World, t: nat)
    requires CanStep(w, LookUp(t))
    ensures LookedUp(Do(w, LookUp(t)), t, w.tasks[t].to in w.hub.agents)
  {
  }

  lemma StaysLookedUp(w: World, s: Step, t: nat, known: bool)
    requires CanStep(w, s) && LookedUp(w, t, known)
    ensures LookedUp(Do(w, s), t, known)
  {
    if !Moves(s, t) {
      Bystander(w, s, t);
    }
  }

  // -------- channels

  /** The sender is a member, and the access list is empty or holds its key. */
  predicate MaySend(channels: map<Name, Channels.Channel>, channel: Name, from: Id, pubkey: string) {
    && channel in channels && from in channels[channel].members
    && (channels[channel].allowed == [] || pubkey in channels[channel].allowed)
  }

  /** The hand-over to member id: a push on the connection it had, whatever came of it, or its mailbox. */
  predicate HandedTo(e: Event, t: nat, f: Frame, id: Id, conn: Option<nat>) {
    match conn
    case Some(c) => e == Placed(t, f, Queue(c)) || e == Placed(t, f, Refused(c))
    case None => e == Placed(t, f, Mail(id))
  }

  /** The members in the order they are served. */
  ghost predicate IsRoll(order: seq<Id>, members: set<Id>) {
    (forall id :: id in order <==> id in members) && forall i, j :: 0 <= i < j < |order| ==> order[i] != order[j]
  }

  /** Task t serves these members one after the other, each as it was connected at the start. */
  ghost predicate Serves(w: World, t: nat, f: Frame, order: seq<Id>, clients: map<Id, nat>) {
    && t < |w.tasks| && w.tasks[t].Cast? && w.tasks[t].f == f && w.tasks[t].cast.Fanning?
    && var cast, es := w.tasks[t].cast, HandOvers(w.log, t);
       && cast.snap.order == order && cast.snap.clients == clients && |es| == cast.done <= |order|
       && forall i :: 0 <= i < |es| ==>
            HandedTo(es[i], t, f, order[i], if order[i] in clients then Some(clients[order[i]]) else None)
  }

  predicate Refuses(w: World, t: nat) {
    t < |w.tasks| && w.tasks[t].Cast? && w.tasks[t].cast.Rejected? && HandOvers(w.log, t) == []
  }

  lemma StepServes(w: World, s: Step, t: nat, f: Frame, order: seq<Id>, clients: map<Id, nat>)
    requires CanStep(w, s) && Serves(w, t, f, order, clients)
    ensures Serves(Do(w, s), t, f, order, clients)
  {
    if Moves(s, t) {
      Mover(w, s, t);
    } else {
      Bystander(w, s, t);
    }
  }

  lemma ResolveStarts(w: World, t: nat, online: seq<Id>, offline: seq<Id>)
    requires Inv(w) && CanStep(w, Resolve(t, online, offline))
    ensures var task, w' := w.tasks[t], Do(w, Resolve(t, online, offline));
      if MaySend(w.channels, task.channel, task.from, task.pubkey)
      then IsRoll(online + offline, w.channels[task.channel].members)
           && Serves(w', t, task.f, online + offline, w.hub.clients)
      else Refuses(w', t)
  {
    var task, s := w.tasks[t], Resolve(t, online, offline);
    assert TaskOk(w.hub, t, task, HandOvers(w.log, t));
    LogAfter(w, s, t, 0, "");
    if Verdict(w, task).Ok? {
      SplitGivesSnapshot(w.hub, w.channels[task.channel].members, online, offline);
    }
  }

  /** What has become of the cast task that had its recipients resolved in state w. */
  ghost predicate CastFate(w: World, t: nat, later: World)
    requires t < |w.tasks| && w.tasks[t].Cast?
  {
    var task := w.tasks[t];
    if MaySend(w.channels, task.channel, task.from, task.pubkey)
    then exists order ::
      IsRoll(order, w.channels[task.channel].members) && Serves(later, t, task.f, order, w.hub.clients)
    else Refuses(later, t)
  }

  lemma StepKeepsFate(w: World, t: nat, later: World, s: Step)
    requires t < |w.tasks| && w.tasks[t].Cast? && CastFate(w, t, later) && CanStep(later, s)
    ensures CastFate(w, t, Do(later, s))
  {
    var task := w.tasks[t];
    if MaySend(w.channels, task.channel, task.from, task.pubkey) {
      var order :|
        IsRoll(order, w.channels[task.channel].members) && Serves(later, t, task.f, order, w.hub.clients);
      StepServes(later, s, t, task.f, order, w.hub.clients);
    } else if !Moves(s, t) {
      Bystander(later, s, t);
    }
  }

  lemma CastBegins(steps: seq<Step>, k: nat)
    requires AllCan(START, steps) && k < |steps| && steps[k].Resolve?
    ensures var w, t := At(steps, k), steps[k].t;
      t < |w.tasks| && w.tasks[t].Cast? && CastFate(w, t, At(steps, k + 1))
  {
    AtNext(steps, k);
    AtIsInv(steps, k);
    ResolveStarts(At(steps, k), steps[k].t, steps[k].online, steps[k].offline);
  }

  /**
   * A channel message is rejected, and handed to nobody, exactly when at the resolution its sender
   * may not send. Otherwise every member then is served once: on the connection it had then, or in
   * its mailbox if it had none.
   */
  lemma {:induction false} CastFollows(steps: seq<Step>, k: nat, n: nat)
    requires AllCan(START, steps) && k < n <= |steps| && steps[k].Resolve?
    ensures var w, t := At(steps, k), steps[k].t;
      t < |w.tasks| && w.tasks[t].Cast? && CastFate(w, t, At(steps, n))
    decreases n
  {
    CastBegins(steps, k);
    if n > k + 1 {
      CastFollows(steps, k, n - 1);
      AtNext(steps, n - 1);
      StepKeepsFate(At(steps, k), steps[k].t, At(steps, n - 1), steps[n - 1]);
    }
  }

  // -------- flushes

  /** Task t pushes this mail to its connection, in order. */
  predicate Flushes(w: World, t: nat, c: nat, mail: seq<Frame>) {
    && t < |w.tasks| && w.tasks[t].Flush? && w.tasks[t].c == c && w.tasks[t].flush.Handing?
    && w.tasks[t].flush.mail == mail
    && var es := HandOvers(w.log, t);
       && |es| == w.tasks[t].flush.done <= |mail|
       && forall i :: 0 <= i < |es| ==> HandedTo(es[i], t, mail[i], "", Some(c))
  }

  lemma FlushStarts(w: World, t: nat)
    requires Inv(w) && CanStep(w, TakeMail(t))
    ensures var w' := Do(w, TakeMail(t));
      && MailOf(w'.hub, w.tasks[t].id) == []
      && Flushes(w', t, w.tasks[t].c, MailOf(w.hub, w.tasks[t].id))
  {
    assert TaskOk(w.hub, t, w.tasks[t], HandOvers(w.log, t));
    LogAfter(w, TakeMail(t), t, 0, "");
  }

  lemma StepFlushes(w: World, s: Step, t: nat, c: nat, mail: seq<Frame>)
    requires CanStep(w, s) && Flushes(w, t, c, mail)
    ensures Flushes(Do(w, s), t, c, mail)
  {
    if Moves(s, t) {
      Mover(w, s, t);
    } else {
      Bystander(w, s, t);
    }
  }

  lemma FlushBegins(steps: seq<Step>, k: nat)
    requires AllCan(START, steps) && k < |steps| && steps[k].TakeMail?
    ensures var w, w', t := At(steps, k), At(steps, k + 1), steps[k].t;
      && t < |w.tasks| && w.tasks[t].Flush? && MailOf(w'.hub, w.tasks[t].id) == []
      && Flushes(w', t, w.tasks[t].c, MailOf(w.hub, w.tasks[t].id))
  {
    AtNext(steps, k);
    AtIsInv(steps, k);
    FlushStarts(At(steps, k), steps[k].t);
  }

  /** A flush hands over all that was in the mailbox when it took it, and takes it away. */
  lemma {:induction false} FlushFollows(steps: seq<Step>, k: nat, n: nat)
    requires AllCan(START, steps) && k < n <= |steps| && steps[k].TakeMail?
    ensures var w, t := At(steps, k), steps[k].t;
      && t < |w.tasks| && w.tasks[t].Flush? && MailOf(At(steps, k + 1).hub, w.tasks[t].id) == []
      && Flushes(At(steps, n), t, w.tasks[t].c, MailOf(w.hub, w.tasks[t].id))
    decreases n
  {
    FlushBegins(steps, k);
    if n > k + 1 {
      var w, t := At(steps, k), steps[k].t;
      FlushFollows(steps, k, n - 1);
      AtNext(steps, n - 1);
      StepFlushes(At(steps, n - 1), steps[n - 1], t, w.tasks[t].c, MailOf(w.hub, w.tasks[t].id));
    }
  }

  // -------- membership

  /** Step j lets connection c of identity id into the channel. */
  ghost predicate JoinsAt(steps: seq<Step>, j: nat, id: Id, name: Name)
    requires AllCan(START, steps) && j < |steps|
  {
    var w, s := At(steps, j), steps[j];
    && s.JoinChannel? && s.name == name && s.c in w.hub.conns && w.hub.conns[s.c].agentId == id
    && if name in w.channels then w.channels[name].allowed == [] || s.pubkey in w.channels[name].allowed
       else w.hub.conns[s.c].auth == Master
  }

  /** The members of a channel are exactly the identities let in, and they stay. */
  lemma {:induction false} MembersJoined(steps: seq<Step>, n: nat, id: Id, name: Name)
    requires AllCan(START, steps) && n <= |steps|
    ensures (name in At(steps, n).channels && id in At(steps, n).channels[name].members) <==>
      exists j :: 0 <= j < n && JoinsAt(steps, j, id, name)
  {
    if n > 0 {
      MembersJoined(steps, n - 1, id, name);
      AtNext(steps, n - 1);
      MemberStep(steps, n - 1, id, name);
    }
  }

  lemma MemberStep(steps: seq<Step>, j: nat, id: Id, name: Name)
    requires AllCan(START, steps) && j < |steps|
    ensures var w, w' := At(steps, j), At(steps, j + 1);
      (name in w'.channels && id in w'.channels[name].members) <==>
        JoinsAt(steps, j, id, name) || (name in w.channels && id in w.channels[name].members)
  {
    AtNext(steps, j);
  }

  /** A channel's access list is the last one set, and empty before. */
  ghost function AclAt(steps: seq<Step>, n: nat, name: Name): seq<string>
    requires n <= |steps|
  {
    if n == 0 then []
    else if steps[n - 1].SetAcl? && steps[n - 1].name == name then steps[n - 1].allowed
    else AclAt(steps, n - 1, name)
  }

  lemma {:induction false} AclIsLast(steps: seq<Step>, n: nat, name: Name)
    requires AllCan(START, steps) && n <= |steps|
    ensures Channels.ChannelOf(At(steps, n).channels, name).allowed == AclAt(steps, n, name)
  {
    if n > 0 {
      AclIsLast(steps, n - 1, name);
      AtNext(steps, n - 1);
    }
  }

  // -------- refused pushes

  /** Connections appear only afresh, and a dropped one stays so. */
  lemma OpKeepsDropped(h: Hub, op: Op, c: nat)
    requires Enabled(h, op) && op != Restart && c in h.conns && h.conns[c].dropped
    ensures c in Apply(h, op).conns && Apply(h, op).conns[c].dropped
  {
  }

  lemma StepKeepsDropped(w: World, s: Step, c: nat)
    requires CanStep(w, s) && c in w.hub.conns && w.hub.conns[c].dropped
    ensures c in Do(w, s).hub.conns && Do(w, s).hub.conns[c].dropped
  {
    if s.Change? {
      OpKeepsDropped(w.hub, s.op, c);
    }
  }

  /** Pushes go only to connections that have been registered. */
  lemma PushedIsKnown(w: World, s: Step)
    requires Inv(w) && CanStep(w, s) && s.Push? && !w.tasks[s.t].Cast?
    ensures NextHandOver(w.tasks[s.t]).c in w.hub.conns
  {
    assert TaskOk(w.hub, s.t, w.tasks[s.t], HandOvers(w.log, s.t));
  }

  /** The connection that refused a push of a direct message or a flush has been dropped, and stays so. */
  lemma {:induction false} RefusedIsDropped(steps: seq<Step>, k: nat, n: nat)
    requires AllCan(START, steps) && k < n <= |steps| && steps[k].Push? && !steps[k].ok
    requires steps[k].t < |At(steps, k).tasks| && !At(steps, k).tasks[steps[k].t].Cast?
    ensures var c := NextHandOver(At(steps, k).tasks[steps[k].t]);
      c.Give? && c.c in At(steps, n).hub.conns && At(steps, n).hub.conns[c.c].dropped
    decreases n
  {
    AtNext(steps, k);
    AtNext(steps, n - 1);
    AtIsInv(steps, k);
    PushedIsKnown(At(steps, k), steps[k]);
    if n > k + 1 {
      RefusedIsDropped(steps, k, n - 1);
      StepKeepsDropped(At(steps, n - 1), steps[n - 1], NextHandOver(At(steps, k).tasks[steps[k].t]).c);
    }
  }
}
