/**
 * A send from its checks to its latch: the dedupe check and the latch are two separate steps, and
 * in between the message is delivered as one of the interleaved tasks.
 */
module Sends {
  import opened HubState
  import opened SendIds
  import Delivery

  datatype Status = InFlight | Latched | NotLatched

  /** A send that has passed its checks. */
  datatype Slot = Slot(pub: string, key: string, task: nat, status: Status)

  datatype Latch = Latch(slot: nat, pub: string, key: string)

  /** latches: the accepted sends, oldest first. */
  datatype State = State(w: Delivery.World, slots: seq<Slot>, latches: seq<Latch>)

  const START := State(Delivery.START, [], [])

  /** The accepted keys of one sender, oldest first. */
  function LogOf(latches: seq<Latch>, pub: string): seq<string> {
    if latches == [] then []
    else
      var last := latches[|latches| - 1];
      LogOf(latches[..|latches| - 1], pub) + if last.pub == pub then [last.key] else []
  }

  datatype Step =
    | Begin(pub: string, f: Send, task: Delivery.Task)
    | Work(d: Delivery.Step)
    | Finish(k: nat)

  /** A frame with a recipient is a direct message, any other is for a channel. */
  predicate Routes(pub: string, f: Send, task: Delivery.Task) {
    match task
    case Dm(to, _, _) => f.to != "" && to == f.to
    case Cast(_, channel, _, pubkey, _, _) => f.to == "" && channel == f.channel && pubkey == pub
    case Flush(_, _, _) => false
  }

  predicate Routed(task: Delivery.Task) {
    match task
    case Dm(_, _, dm) => dm.Online? || dm.Stored?
    case Cast(_, _, _, _, _, cast) => cast.Fanning? && cast.done == |cast.snap.order|
    case Flush(_, _, _) => false
  }

  predicate Done(task: Delivery.Task) {
    Routed(task) || (task.Dm? && task.dm.Unknown?) || (task.Cast? && task.cast.Rejected?)
  }

  ghost predicate CanStep(s: State, step: Step) {
    match step
    case Begin(pub, f, task) =>
      && f.sigOk && f.inWindow && f.id != "" && Key(f) !in Newest(LogOf(s.latches, pub))
      && Routes(pub, f, task) && Delivery.CanStep(s.w, Delivery.Arrive(task))
    case Work(d) => Delivery.CanStep(s.w, d) && (d.Arrive? ==> d.task.Flush?)
    case Finish(k) =>
      && k < |s.slots| && s.slots[k].status.InFlight?
      && s.slots[k].task < |s.w.tasks| && Done(s.w.tasks[s.slots[k].task])
  }

  ghost function Do(s: State, step: Step): State
    requires CanStep(s, step)
  {
    match step
    case Begin(pub, f, task) =>
      s.(w := Delivery.Do(s.w, Delivery.Arrive(task)), slots := s.slots + [Slot(pub, Key(f), |s.w.tasks|, InFlight)])
    case Work(d) => s.(w := Delivery.Do(s.w, d))
    case Finish(k) =>
      var slot := s.slots[k];
      if Routed(s.w.tasks[slot.task])
      then s.(slots := s.slots[k := slot.(status := Latched)], latches := s.latches + [Latch(k, slot.pub, slot.key)])
      else s.(slots := s.slots[k := slot.(status := NotLatched)])
  }

  ghost predicate AllCan(s: State, steps: seq<Step>)
    decreases |steps|
  {
    steps == [] || (CanStep(s, steps[0]) && AllCan(Do(s, steps[0]), steps[1..]))
  }

  ghost function Run(s: State, steps: seq<Step>): State
    requires AllCan(s, steps)
    decreases |steps|
  {
    if steps == [] then s else Run(Do(s, steps[0]), steps[1..])
  }

  // -------- accepted and placed are one

  ghost predicate SlotOk(w: Delivery.World, slot: Slot) {
    && slot.task < |w.tasks| && !w.tasks[slot.task].Flush?
    && (slot.status.Latched? ==> Routed(w.tasks[slot.task]))
    && (slot.status.NotLatched? ==> Done(w.tasks[slot.task]) && !Routed(w.tasks[slot.task]))
  }

  /** The latches are the latched slots, each once. */
  ghost predicate LatchesOk(slots: seq<Slot>, latches: seq<Latch>) {
    && (forall i :: 0 <= i < |latches| ==>
          var k := latches[i].slot;
          k < |slots| && slots[k].status.Latched? && latches[i] == Latch(k, slots[k].pub, slots[k].key))
    && (forall i, j :: 0 <= i < j < |latches| ==> latches[i].slot != latches[j].slot)
    && (forall k :: 0 <= k < |slots| && slots[k].status.Latched? ==>
          exists i :: 0 <= i < |latches| && latches[i].slot == k)
  }

  ghost predicate Ok(s: State) {
    && Delivery.Inv(s.w) && (forall k :: 0 <= k < |s.slots| ==> SlotOk(s.w, s.slots[k]))
    && (forall i, j :: 0 <= i < j < |s.slots| ==> s.slots[i].task != s.slots[j].task)
    && LatchesOk(s.slots, s.latches)
  }

  /** What is done stays as it is. */
  lemma DoneStays(w: Delivery.World, d: Delivery.Step, t: nat)
    requires Delivery.CanStep(w, d) && t < |w.tasks|
    ensures t < |Delivery.Do(w, d).tasks| && (w.tasks[t].Flush? <==> Delivery.Do(w, d).tasks[t].Flush?)
    ensures Done(w.tasks[t]) ==> Delivery.Do(w, d).tasks[t] == w.tasks[t]
  {
  }

  lemma SlotStays(w: Delivery.World, d: Delivery.Step, slot: Slot)
    requires Delivery.CanStep(w, d) && SlotOk(w, slot)
    ensures SlotOk(Delivery.Do(w, d), slot)
  {
    DoneStays(w, d, slot.task);
  }

  lemma LatchMore(slots: seq<Slot>, latches: seq<Latch>, k: nat)
    requires LatchesOk(slots, latches) && k < |slots| && slots[k].status.InFlight?
    ensures LatchesOk(slots[k := slots[k].(status := Latched)], latches + [Latch(k, slots[k].pub, slots[k].key)])
  {
    var more := latches + [Latch(k, slots[k].pub, slots[k].key)];
    var slots' := slots[k := slots[k].(status := Latched)];
    forall j | 0 <= j < |slots'| && slots'[j].status.Latched?
      ensures exists i :: 0 <= i < |more| && more[i].slot == j
    {
      if j == k {
        assert more[|latches|].slot == k;
      } else {
        var i :| 0 <= i < |latches| && latches[i].slot == j;
        assert more[i] == latches[i];
      }
    }
  }

  lemma StepKeepsOk(s: State, step: Step)
    requires Ok(s) && CanStep(s, step)
    ensures Ok(Do(s, step))
  {
    match step
    case Begin(pub, f, task) => BeginKeepsOk(s, pub, f, task);
    case Work(d) => WorkKeepsOk(s, d);
    case Finish(k) =>
      if Routed(s.w.tasks[s.slots[k].task]) {
        LatchMore(s.slots, s.latches, k);
      }
  }

  lemma WorkKeepsOk(s: State, d: Delivery.Step)
    requires Ok(s) && CanStep(s, Work(d))
    ensures Ok(Do(s, Work(d)))
  {
    Delivery.StepKeepsInv(s.w, d);
    forall k | 0 <= k < |s.slots| ensures SlotOk(Delivery.Do(s.w, d), s.slots[k]) {
      SlotStays(s.w, d, s.slots[k]);
    }
  }

  lemma BeginKeepsOk(s: State, pub: string, f: Send, task: Delivery.Task)
    requires Ok(s) && CanStep(s, Begin(pub, f, task))
    ensures Ok(Do(s, Begin(pub, f, task)))
  {
    var d := Delivery.Arrive(task);
    Delivery.StepKeepsInv(s.w, d);
    forall k | 0 <= k < |s.slots| ensures SlotOk(Delivery.Do(s.w, d), s.slots[k]) {
      SlotStays(s.w, d, s.slots[k]);
    }
  }

  lemma {:induction false} RunKeepsOk(s: State, steps: seq<Step>)
    requires Ok(s) && AllCan(s, steps)
    ensures Ok(Run(s, steps))
    decreases |steps|
  {
    if steps != [] {
      StepKeepsOk(s, steps[0]);
      RunKeepsOk(Do(s, steps[0]), steps[1..]);
    }
  }

  /** The message of an accepted send has been placed, of a rejected one it is nowhere. */
  ghost predicate PlacedAs(w: Delivery.World, t: nat, routed: bool)
    requires t < |w.tasks| && !w.tasks[t].Flush?
  {
    var kept := Delivery.Kept(Delivery.HandOvers(w.log, t));
    if !routed then kept == []
    else if w.tasks[t].Dm? then |kept| == 1 && Delivery.DmPlaced(w, t)
    else w.tasks[t].cast.Fanning? && Delivery.CastPlaced(w, t)
  }

  lemma DonePlaced(w: Delivery.World, t: nat)
    requires Delivery.Inv(w) && t < |w.tasks| && Done(w.tasks[t])
    ensures PlacedAs(w, t, Routed(w.tasks[t]))
  {
    if w.tasks[t].Dm? {
      Delivery.DmIsPlaced(w, t);
    } else if w.tasks[t].cast.Fanning? {
      Delivery.CastIsPlaced(w, t);
    } else {
      assert Delivery.TaskOk(w.hub, t, w.tasks[t], Delivery.HandOvers(w.log, t));
    }
  }

  /**
   * Whatever runs beside it, a finished send is latched if and only if its message has been placed:
   * once for a direct message, once for every member for a channel message. Rejected, it is placed
   * nowhere and its key is not latched for it.
   */
  lemma LatchedIffPlaced(steps: seq<Step>, k: nat)
    requires AllCan(START, steps) && k < |Run(START, steps).slots| && !Run(START, steps).slots[k].status.InFlight?
    ensures var s := Run(START, steps);
      && s.slots[k].task < |s.w.tasks| && !s.w.tasks[s.slots[k].task].Flush?
      && PlacedAs(s.w, s.slots[k].task, s.slots[k].status.Latched?)
      && (s.slots[k].status.Latched? <==> exists i :: 0 <= i < |s.latches| && s.latches[i].slot == k)
  {
    RunKeepsOk(START, steps);
    var s := Run(START, steps);
    assert SlotOk(s.w, s.slots[k]);
    DonePlaced(s.w, s.slots[k].task);
  }

  // -------- repeats

  /** When a send passes its check, the sender has no other in flight with the same key. */
  predicate NoTwin(s: State, step: Step) {
    step.Begin? ==> forall k :: 0 <= k < |s.slots| && s.slots[k].status.InFlight? ==>
      s.slots[k].pub != step.pub || s.slots[k].key != Key(step.f)
  }

  ghost predicate NoTwins(s: State, steps: seq<Step>)
    requires AllCan(s, steps)
    decreases |steps|
  {
    steps == [] || (NoTwin(s, steps[0]) && NoTwins(Do(s, steps[0]), steps[1..]))
  }

  /** No two equal keys near each other, and nothing in flight would make one. */
  ghost predicate Apart(s: State) {
    && (forall pub :: FarApart(LogOf(s.latches, pub)))
    && (forall k :: 0 <= k < |s.slots| && s.slots[k].status.InFlight? ==>
          s.slots[k].key !in Newest(LogOf(s.latches, s.slots[k].pub)))
    && (forall i, j :: 0 <= i < j < |s.slots| && s.slots[i].status.InFlight? && s.slots[j].status.InFlight? ==>
          s.slots[i].pub != s.slots[j].pub || s.slots[i].key != s.slots[j].key)
  }

  lemma LogLatched(latches: seq<Latch>, last: Latch, pub: string)
    ensures LogOf(latches + [last], pub) == LogOf(latches, pub) + if last.pub == pub then [last.key] else []
  {
    assert (latches + [last])[..|latches|] == latches;
  }

  lemma NewestLatched(log: seq<string>, key: string, other: string)
    requires other !in Newest(log) && other != key
    ensures other !in Newest(log + [key])
  {
    var newest := Newest(log);
    if |log| < SEND_ID_CAP {
      assert Newest(log + [key]) == newest + [key];
    } else {
      assert Newest(log + [key]) == newest[1..] + [key];
      assert forall k :: k in newest[1..] ==> k in newest;
    }
  }

  lemma StepKeepsApart(s: State, step: Step)
    requires Apart(s) && CanStep(s, step) && NoTwin(s, step)
    ensures Apart(Do(s, step))
  {
    if step.Finish? && Routed(s.w.tasks[s.slots[step.k].task]) {
      LatchKeepsApart(s, step.k);
    }
  }

  lemma LatchKeepsApart(s: State, k: nat)
    requires Apart(s) && CanStep(s, Finish(k)) && Routed(s.w.tasks[s.slots[k].task])
    ensures Apart(Do(s, Finish(k)))
  {
    var s', slot := Do(s, Finish(k)), s.slots[k];
    forall pub ensures FarApart(LogOf(s'.latches, pub)) {
      LogLatched(s.latches, Latch(k, slot.pub, slot.key), pub);
      if pub == slot.pub {
        StaysFarApart(LogOf(s.latches, pub), slot.key);
      } else {
        assert LogOf(s.latches, pub) + [] == LogOf(s.latches, pub);
      }
    }
    forall j | 0 <= j < |s'.slots| && s'.slots[j].status.InFlight?
      ensures s'.slots[j].key !in Newest(LogOf(s'.latches, s'.slots[j].pub))
    {
      assert j != k;
      LogLatched(s.latches, Latch(k, slot.pub, slot.key), s.slots[j].pub);
      if s.slots[j].pub == slot.pub {
        NewestLatched(LogOf(s.latches, slot.pub), slot.key, s.slots[j].key);
      } else {
        assert LogOf(s.latches, s.slots[j].pub) + [] == LogOf(s.latches, s.slots[j].pub);
      }
    }
  }

  lemma {:induction false} RunKeepsApart(s: State, steps: seq<Step>)
    requires Apart(s) && AllCan(s, steps) && NoTwins(s, steps)
    ensures Apart(Run(s, steps))
    decreases |steps|
  {
    if steps != [] {
      StepKeepsApart(s, steps[0]);
      RunKeepsApart(Do(s, steps[0]), steps[1..]);
    }
  }

  /**
   * Unless a send passes its check while another of the same sender with the same key is in flight,
   * equal keys are accepted more than a ring apart, although check and latch are two steps.
   */
  lemma TwinFreeKeepsApart(steps: seq<Step>, pub: string)
    requires AllCan(START, steps) && NoTwins(START, steps)
    ensures FarApart(LogOf(Run(START, steps).latches, pub))
  {
    RunKeepsApart(START, steps);
  }

  // -------- a run with twins

  ghost predicate Reachable(s: State) {
    exists steps: seq<Step> :: LeadsTo(steps, s)
  }

  ghost predicate LeadsTo(steps: seq<Step>, s: State) {
    AllCan(START, steps) && Run(START, steps) == s
  }

  lemma {:induction false} RunOneMore(s: State, steps: seq<Step>, step: Step)
    requires AllCan(s, steps) && CanStep(Run(s, steps), step)
    ensures AllCan(s, steps + [step]) && Run(s, steps + [step]) == Do(Run(s, steps), step)
    decreases |steps|
  {
    if steps == [] {
      var s' := Do(s, step);
      assert [] + [step] == [step] && [step][1..] == [] && AllCan(s', []) && Run(s', []) == s';
    } else {
      assert (steps + [step])[1..] == steps[1..] + [step];
      RunOneMore(Do(s, steps[0]), steps[1..], step);
    }
  }

  lemma Next(s: State, step: Step) returns (s': State)
    requires Reachable(s) && CanStep(s, step)
    ensures s' == Do(s, step) && Reachable(s')
  {
    var steps :| LeadsTo(steps, s);
    RunOneMore(START, steps, step);
    s' := Do(s, step);
    assert LeadsTo(steps + [step], s');
  }

  /** The recipient is connected. */
  lemma RecipientArrives(id: Id) returns (s: State)
    requires id != ""
    ensures Reachable(s) && s.slots == [] && s.latches == [] && s.w.tasks == []
    ensures id in s.w.hub.agents && id in s.w.hub.clients
  {
    assert LeadsTo([], START);
    var s1 := Next(START, Work(Delivery.Change(Open(0, Master, ""))));
    var s2 := Next(s1, Work(Delivery.Change(Hello(0, id, ""))));
    s := Next(s2, Work(Delivery.Change(Register(0))));
  }

  /** Both have passed the check before either is latched. */
  lemma TwinsBegin(pub: string, f: Send, frame: HubState.Frame) returns (s: State)
    requires f.sigOk && f.inWindow && f.id != "" && f.to != ""
    ensures Reachable(s) && s.latches == [] && f.to in s.w.hub.agents && f.to in s.w.hub.clients
    ensures s.w.tasks == [Delivery.Dm(f.to, frame, Delivery.Lookup), Delivery.Dm(f.to, frame, Delivery.Lookup)]
    ensures s.slots == [Slot(pub, Key(f), 0, InFlight), Slot(pub, Key(f), 1, InFlight)]
  {
    var s0 := RecipientArrives(f.to);
    var task := Delivery.Dm(f.to, frame, Delivery.Lookup);
    var s1 := Next(s0, Begin(pub, f, task));
    s := Next(s1, Begin(pub, f, task));
  }

  /** Task t is delivered. */
  lemma Deliver(s: State, t: nat) returns (s': State)
    requires Reachable(s) && t < |s.w.tasks| && s.w.tasks[t].Dm? && s.w.tasks[t].dm.Lookup?
    requires s.w.tasks[t].to in s.w.hub.agents && s.w.tasks[t].to in s.w.hub.clients
    ensures Reachable(s') && s'.slots == s.slots && s'.latches == s.latches
    ensures |s'.w.tasks| == |s.w.tasks| && Routed(s'.w.tasks[t])
    ensures forall u :: 0 <= u < |s.w.tasks| && u != t ==> s'.w.tasks[u] == s.w.tasks[u]
    ensures s'.w.hub.agents == s.w.hub.agents && s'.w.hub.clients == s.w.hub.clients
  {
    var s1 := Next(s, Work(Delivery.LookUp(t)));
    var s2 := Next(s1, Work(Delivery.FindConn(t)));
    s' := Next(s2, Work(Delivery.Push(t, true)));
  }

  /** The check alone does not stop them: the same key is accepted twice in a row. */
  lemma TwinsRepeat(pub: string, f: Send, frame: HubState.Frame)
    requires f.sigOk && f.inWindow && f.id != "" && f.to != ""
    ensures exists s :: Reachable(s) && LogOf(s.latches, pub) == [Key(f), Key(f)]
    ensures !FarApart([Key(f), Key(f)])
  {
    var s := TwinsLatched(pub, f, frame);
    LogOfTwo(pub, Key(f));
    TwoNotApart(Key(f));
  }

  lemma TwinsLatched(pub: string, f: Send, frame: HubState.Frame) returns (s: State)
    requires f.sigOk && f.inWindow && f.id != "" && f.to != ""
    ensures Reachable(s) && s.latches == [Latch(0, pub, Key(f)), Latch(1, pub, Key(f))]
  {
    var s0 := TwinsBegin(pub, f, frame);
    var s1 := Deliver(s0, 0);
    var s2 := Deliver(s1, 1);
    var s3 := Next(s2, Finish(0));
    s := Next(s3, Finish(1));
  }

  lemma LogOfTwo(pub: string, key: string)
    ensures LogOf([Latch(0, pub, key), Latch(1, pub, key)], pub) == [key, key]
  {
    var one, two := Latch(0, pub, key), Latch(1, pub, key);
    LogLatched([], one, pub);
    LogLatched([one], two, pub);
    assert [] + [one] == [one] && [one] + [two] == [one, two];
  }

  lemma TwoNotApart(key: string)
    ensures !FarApart([key, key])
  {
    assert [key, key][0] == [key, key][1];
  }
}
