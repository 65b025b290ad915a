/**
 * One connection's outbound queue under concurrent senders: the queued-bytes counter, the
 * buffered channel, the close flag and the write pump, interleaved at single loads, adds and
 * channel operations. The counter is proved exact and its overshoot of the cap bounded.
 */
module SendQueue {
  import opened Basics

  const MAX_QUEUED_BYTES := 0x40_0000
  const SEND_BUFFER := 512

  datatype Frame = Frame(id: int, size: nat)

  /** Where a sender stands inside sendFrame. */
  datatype Sender =
    | Idle
    | Passed(f: Frame)   // the cap check has passed
    | Counted(f: Frame)  // its bytes are in the counter
    | Offering(f: Frame) // not closed at the first select; waiting in the second
    | Undoing(f: Frame)  // saw the close; its bytes are still in the counter

  /** The pump keeps the frame of a failed write when it exits. */
  datatype Pump = Waiting | Writing(f: Frame) | Exited | ExitedWith(f: Frame)

  datatype Conn = Conn(queued: int, buf: seq<Frame>, closed: bool, senders: seq<Sender>, pump: Pump)

  function Fresh(n: nat): Conn {
    Conn(0, [], false, seq(n, _ => Idle), Waiting)
  }

  function At(c: Conn, i: nat, s: Sender): Conn
    requires i < |c.senders|
  {
    c.(senders := c.senders[i := s])
  }

  datatype Step =
    | Check(i: nat, f: Frame)
    | Count(i: nat)
    | FirstSelect(i: nat)
    | Push(i: nat)
    | SeeClosed(i: nat)
    | Undo(i: nat)
    | Take
    | Written
    | WriteFails
    | PumpStops
    | Close

  predicate Enabled(c: Conn, s: Step) {
    match s
    case Check(i, _) => i < |c.senders| && c.senders[i].Idle?
    case Count(i) => i < |c.senders| && c.senders[i].Passed?
    case FirstSelect(i) => i < |c.senders| && c.senders[i].Counted?
    case Push(i) => i < |c.senders| && c.senders[i].Offering? && |c.buf| < SEND_BUFFER
    case SeeClosed(i) => i < |c.senders| && c.senders[i].Offering? && c.closed
    case Undo(i) => i < |c.senders| && c.senders[i].Undoing?
    case Take => c.pump.Waiting? && c.buf != []
    case Written => c.pump.Writing?
    case WriteFails => c.pump.Writing?
    case PumpStops => c.pump.Waiting?
    case Close => true
  }

  function Apply(c: Conn, s: Step): Conn
    requires Enabled(c, s)
  {
    match s
    case Check(i, f) =>
      if c.queued + f.size > MAX_QUEUED_BYTES then c.(closed := true) else At(c, i, Passed(f))
    case Count(i) =>
      var f := c.senders[i].f;
      At(c, i, Counted(f)).(queued := c.queued + f.size)
    case FirstSelect(i) =>
      var f := c.senders[i].f;
      At(c, i, if c.closed then Undoing(f) else Offering(f))
    case Push(i) => At(c, i, Idle).(buf := c.buf + [c.senders[i].f])
    case SeeClosed(i) => At(c, i, Undoing(c.senders[i].f))
    case Undo(i) => At(c, i, Idle).(queued := c.queued - c.senders[i].f.size)
    case Take => c.(buf := c.buf[1..], pump := Writing(c.buf[0]))
    case Written => c.(pump := Waiting, queued := c.queued - c.pump.f.size)
    case WriteFails => c.(pump := ExitedWith(c.pump.f), closed := true)
    // closed seen, or a ping failed: the pump's exit closes the connection
    case PumpStops => c.(pump := Exited, closed := true)
    case Close => c.(closed := true)
  }

  function Run(c: Conn, steps: seq<Step>): Conn
    requires AllEnabled(c, steps)
    decreases |steps|
  {
    if steps == [] then c else Run(Apply(c, steps[0]), steps[1..])
  }

  predicate AllEnabled(c: Conn, steps: seq<Step>)
    decreases |steps|
  {
    steps == [] || (Enabled(c, steps[0]) && AllEnabled(Apply(c, steps[0]), steps[1..]))
  }

  // -------- the accounts

  function Bytes(fs: seq<Frame>): nat {
    if fs == [] then 0 else fs[0].size + Bytes(fs[1..])
  }

  /** Bytes a sender has added and neither queued nor taken back. */
  function Claim(s: Sender): nat {
    if s.Counted? || s.Offering? || s.Undoing? then s.f.size else 0
  }

  /** Bytes a sender is about to add. */
  function Promise(s: Sender): nat {
    if s.Passed? then s.f.size else 0
  }

  function Claims(ss: seq<Sender>): nat {
    if ss == [] then 0 else Claim(ss[0]) + Claims(ss[1..])
  }

  function Promises(ss: seq<Sender>): nat {
    if ss == [] then 0 else Promise(ss[0]) + Promises(ss[1..])
  }

  function Held(p: Pump): nat {
    if p.Writing? || p.ExitedWith? then p.f.size else 0
  }

  lemma {:induction false} SumsUpdate(ss: seq<Sender>, i: nat, s: Sender)
    requires i < |ss|
    ensures Claims(ss[i := s]) == Claims(ss) - Claim(ss[i]) + Claim(s)
    ensures Promises(ss[i := s]) == Promises(ss) - Promise(ss[i]) + Promise(s)
  {
    if i == 0 {
      assert ss[0 := s][1..] == ss[1..];
    } else {
      SumsUpdate(ss[1..], i - 1, s);
      assert ss[i := s][1..] == ss[1..][i - 1 := s];
    }
  }

  lemma {:induction false} BytesAppend(fs: seq<Frame>, f: Frame)
    ensures Bytes(fs + [f]) == Bytes(fs) + f.size
  {
    if fs == [] {
      assert [f][1..] == [] && fs + [f] == [f];
    } else {
      assert (fs + [f])[1..] == fs[1..] + [f];
      BytesAppend(fs[1..], f);
    }
  }

  /** No sender handles more than limit bytes at once. */
  predicate Limited(ss: seq<Sender>, limit: nat) {
    forall i :: 0 <= i < |ss| && !ss[i].Idle? ==> ss[i].f.size <= limit
  }

  /** What senders other than one can be about to add. */
  function Slack(n: nat, limit: nat): nat {
    if n <= 1 then 0 else limit + Slack(n - 1, limit)
  }

  lemma {:induction false} SlackIsProduct(n: nat, limit: nat)
    requires n >= 1
    ensures Slack(n, limit) == (n - 1) * limit
  {
    if n > 1 {
      SlackIsProduct(n - 1, limit);
      assert (n - 1) * limit == (n - 2) * limit + limit;
    }
  }

  lemma {:induction false} PromisesBound(ss: seq<Sender>, limit: nat, idle: nat)
    requires Limited(ss, limit) && idle < |ss| && ss[idle].Idle?
    ensures Promises(ss) <= Slack(|ss|, limit)
  {
    if |ss| == 1 {
      assert ss[1..] == [];
    } else if idle == 0 {
      PromisesMax(ss[1..], limit);
    } else {
      PromisesBound(ss[1..], limit, idle - 1);
    }
  }

  lemma {:induction false} PromisesMax(ss: seq<Sender>, limit: nat)
    requires Limited(ss, limit)
    ensures Promises(ss) <= Slack(|ss| + 1, limit)
  {
    if ss != [] {
      PromisesMax(ss[1..], limit);
    }
  }

  ghost predicate Exact(c: Conn) {
    c.queued == Bytes(c.buf) + Claims(c.senders) + Held(c.pump)
  }

  ghost predicate Accounted(c: Conn, limit: nat) {
    && Exact(c)
    && Limited(c.senders, limit)
    && c.queued + Promises(c.senders) <= MAX_QUEUED_BYTES + Slack(|c.senders|, limit)
  }

  predicate StepLimited(s: Step, limit: nat) {
    s.Check? ==> s.f.size <= limit
  }

  lemma StepKeepsAccounts(c: Conn, s: Step, limit: nat)
    requires Accounted(c, limit) && Enabled(c, s) && StepLimited(s, limit)
    ensures Accounted(Apply(c, s), limit) && |Apply(c, s).senders| == |c.senders|
  {
    if s.Check? {
      SumsUpdate(c.senders, s.i, Passed(s.f));
      PromisesBound(c.senders, limit, s.i);
    } else if s.Count? {
      CountKeepsAccounts(c, s.i, limit);
    } else if s.FirstSelect? || s.SeeClosed? {
      SelectKeepsAccounts(c, s, limit);
    } else if s.Push? {
      PushKeepsAccounts(c, s.i, limit);
    } else if s.Undo? {
      UndoKeepsAccounts(c, s.i, limit);
    }
  }

  /** A sender moves on with the frame it has, or is done. */
  lemma SenderMoves(c: Conn, i: nat, after: Sender, limit: nat)
    requires Limited(c.senders, limit) && i < |c.senders| && !c.senders[i].Idle?
    requires after.Idle? || after.f == c.senders[i].f
    ensures Limited(c.senders[i := after], limit)
    ensures Claims(c.senders[i := after]) == Claims(c.senders) - Claim(c.senders[i]) + Claim(after)
    ensures Promises(c.senders[i := after]) == Promises(c.senders) - Promise(c.senders[i]) + Promise(after)
  {
    SumsUpdate(c.senders, i, after);
  }

  lemma CountKeepsAccounts(c: Conn, i: nat, limit: nat)
    requires Accounted(c, limit) && Enabled(c, Count(i))
    ensures Accounted(Apply(c, Count(i)), limit) && |Apply(c, Count(i)).senders| == |c.senders|
  {
    SenderMoves(c, i, Counted(c.senders[i].f), limit);
  }

  lemma SelectKeepsAccounts(c: Conn, s: Step, limit: nat)
    requires Accounted(c, limit) && Enabled(c, s) && (s.FirstSelect? || s.SeeClosed?)
    ensures Accounted(Apply(c, s), limit) && |Apply(c, s).senders| == |c.senders|
  {
    SenderMoves(c, s.i, Apply(c, s).senders[s.i], limit);
  }

  lemma PushKeepsAccounts(c: Conn, i: nat, limit: nat)
    requires Accounted(c, limit) && Enabled(c, Push(i))
    ensures Accounted(Apply(c, Push(i)), limit) && |Apply(c, Push(i)).senders| == |c.senders|
  {
    SenderMoves(c, i, Idle, limit);
    BytesAppend(c.buf, c.senders[i].f);
  }

  lemma UndoKeepsAccounts(c: Conn, i: nat, limit: nat)
    requires Accounted(c, limit) && Enabled(c, Undo(i))
    ensures Accounted(Apply(c, Undo(i)), limit) && |Apply(c, Undo(i)).senders| == |c.senders|
  {
    SenderMoves(c, i, Idle, limit);
  }

  lemma {:induction false} FreshSums(n: nat)
    ensures Claims(Fresh(n).senders) == 0 && Promises(Fresh(n).senders) == 0
  {
    if n > 0 {
      FreshSums(n - 1);
      assert Fresh(n).senders[1..] == Fresh(n - 1).senders;
    }
  }

  lemma {:induction false} RunKeepsAccounts(c: Conn, steps: seq<Step>, limit: nat)
    requires Accounted(c, limit) && AllEnabled(c, steps)
    requires forall i :: 0 <= i < |steps| ==> StepLimited(steps[i], limit)
    ensures Accounted(Run(c, steps), limit) && |Run(c, steps).senders| == |c.senders|
    decreases |steps|
  {
    if steps != [] {
      StepKeepsAccounts(c, steps[0], limit);
      RunKeepsAccounts(Apply(c, steps[0]), steps[1..], limit);
    }
  }

  /**
   * With n senders of frames of at most limit bytes, in every interleaving: the counter is the
   * bytes buffered, claimed by senders and held by the pump; it is never negative; and it
   * overshoots the cap by less than one frame for every other sender.
   */
  lemma QueuedIsExactAndBounded(n: nat, steps: seq<Step>, limit: nat)
    requires n >= 1 && AllEnabled(Fresh(n), steps)
    requires forall i :: 0 <= i < |steps| ==> StepLimited(steps[i], limit)
    ensures var c := Run(Fresh(n), steps);
      && c.queued == Bytes(c.buf) + Claims(c.senders) + Held(c.pump)
      && 0 <= c.queued <= 0x40_0000 + (n - 1) * limit
  {
    FreshSums(n);
    SlackIsProduct(n, limit);
    RunKeepsAccounts(Fresh(n), steps, limit);
  }

  // -------- when the bound is met

  lemma {:induction false} RunConcat(c: Conn, first: seq<Step>, more: seq<Step>)
    requires AllEnabled(c, first) && AllEnabled(Run(c, first), more)
    ensures AllEnabled(c, first + more) && Run(c, first + more) == Run(Run(c, first), more)
    decreases |first|
  {
    if first == [] {
      assert [] + more == more;
    } else {
      RunConcat(Apply(c, first[0]), first[1..], more);
      assert (first + more)[1..] == first[1..] + more;
    }
  }

  /** All senders of c check one after the other, then all count. */
  function ChecksThenCounts(c: Conn, checked: nat, counted: nat, f: Frame): Conn
    requires counted <= checked <= |c.senders|
  {
    c.(queued := c.queued + counted * f.size,
       senders := seq(|c.senders|, i => if i < counted then Counted(f) else if i < checked then Passed(f) else Idle))
  }

  function AllCheck(n: nat, from: nat, f: Frame): seq<Step>
    requires from <= n
    decreases n - from
  {
    if from == n then [] else [Check(from, f)] + AllCheck(n, from + 1, f)
  }

  function AllCount(n: nat, from: nat): seq<Step>
    requires from <= n
    decreases n - from
  {
    if from == n then [] else [Count(from)] + AllCount(n, from + 1)
  }

  lemma {:induction false} CountsRun(c: Conn, from: nat, f: Frame)
    requires from <= |c.senders|
    ensures var n := |c.senders|;
      var c1 := ChecksThenCounts(c, n, from, f);
      AllEnabled(c1, AllCount(n, from)) && Run(c1, AllCount(n, from)) == ChecksThenCounts(c, n, n, f)
    decreases |c.senders| - from
  {
    var n := |c.senders|;
    if from < n {
      var c1 := ChecksThenCounts(c, n, from, f);
      CountsRun(c, from + 1, f);
      assert (from + 1) * f.size == from * f.size + f.size;
      assert Apply(c1, Count(from)) == ChecksThenCounts(c, n, from + 1, f);
      assert AllCount(n, from)[1..] == AllCount(n, from + 1);
    }
  }

  lemma {:induction false} ChecksRun(c: Conn, from: nat, f: Frame)
    requires from <= |c.senders| && c.queued + f.size <= MAX_QUEUED_BYTES
    ensures var n := |c.senders|;
      var c1 := ChecksThenCounts(c, from, 0, f);
      AllEnabled(c1, AllCheck(n, from, f)) && Run(c1, AllCheck(n, from, f)) == ChecksThenCounts(c, n, 0, f)
    decreases |c.senders| - from
  {
    var n := |c.senders|;
    if from < n {
      var c1 := ChecksThenCounts(c, from, 0, f);
      ChecksRun(c, from + 1, f);
      assert Apply(c1, Check(from, f)) == ChecksThenCounts(c, from + 1, 0, f);
      assert AllCheck(n, from, f)[1..] == AllCheck(n, from + 1, f);
    }
  }

  /** Nobody is sending and the connection is open. */
  predicate Calm(c: Conn) {
    !c.closed && c.senders == seq(|c.senders|, _ => Idle) && |c.senders| >= 1
  }

  predicate AllLimited(steps: seq<Step>, limit: nat) {
    forall i :: 0 <= i < |steps| ==> StepLimited(steps[i], limit)
  }

  /** Sender 0 sends one frame that fits. */
  function SendOne(f: Frame): seq<Step> {
    [Check(0, f), Count(0), FirstSelect(0), Push(0)]
  }

  lemma OneSent(c: Conn, f: Frame)
    requires Calm(c) && c.queued + f.size <= MAX_QUEUED_BYTES && |c.buf| < SEND_BUFFER
    ensures AllEnabled(c, SendOne(f))
    ensures Run(c, SendOne(f)) == c.(queued := c.queued + f.size, buf := c.buf + [f])
  {
    var steps := SendOne(f);
    var c1 := Apply(c, Check(0, f));
    var c2 := Apply(c1, Count(0));
    var c3 := Apply(c2, FirstSelect(0));
    var c4 := Apply(c3, Push(0));
    assert c4.senders == c.senders;
    assert steps[1..] == [Count(0), FirstSelect(0), Push(0)] && steps[1..][1..] == [FirstSelect(0), Push(0)];
    assert [FirstSelect(0), Push(0)][1..] == [Push(0)] && [Push(0)][1..] == [];
    assert AllEnabled(c4, []) && Run(c4, []) == c4;
    assert AllEnabled(c3, [Push(0)]) && Run(c3, [Push(0)]) == c4;
    assert AllEnabled(c2, [FirstSelect(0), Push(0)]) && Run(c2, [FirstSelect(0), Push(0)]) == c4;
    assert AllEnabled(c1, steps[1..]) && Run(c1, steps[1..]) == c4;
  }

  /** The queue can be filled by size more bytes, in frames of at most limit, while slots last. */
  lemma {:induction false} Fill(c: Conn, size: nat, limit: nat) returns (steps: seq<Step>)
    requires Calm(c) && limit > 0 && c.queued + size <= MAX_QUEUED_BYTES
    requires |c.buf| <= SEND_BUFFER && size <= (SEND_BUFFER - |c.buf|) * limit
    ensures AllEnabled(c, steps) && AllLimited(steps, limit)
    ensures var c' := Run(c, steps); Calm(c') && c'.senders == c.senders && c'.queued == c.queued + size
    decreases size
  {
    if size == 0 {
      steps := [];
    } else {
      var f := Frame(0, if size < limit then size else limit);
      var c1 := c.(queued := c.queued + f.size, buf := c.buf + [f]);
      SlotTaken(SEND_BUFFER - |c.buf|, size, limit);
      OneSent(c, f);
      var rest := Fill(c1, size - f.size, limit);
      steps := SendOne(f) + rest;
      RunConcat(c, SendOne(f), rest);
    }
  }

  lemma SlotTaken(slots: nat, size: nat, limit: nat)
    requires 0 < size <= slots * limit
    ensures slots > 0 && (size <= limit || size - limit <= (slots - 1) * limit)
  {
    assert slots == 0 ==> slots * limit == 0;
    assert slots * limit == (slots - 1) * limit + limit;
  }

  /** One frame waits in the pump and the rest in the buffer. */
  lemma FillAll(c: Conn, size: nat, limit: nat) returns (steps: seq<Step>)
    requires Calm(c) && c.buf == [] && c.pump.Waiting? && limit > 0 && c.queued + size <= MAX_QUEUED_BYTES
    requires size <= (SEND_BUFFER + 1) * limit
    ensures AllEnabled(c, steps) && AllLimited(steps, limit)
    ensures var c' := Run(c, steps); Calm(c') && c'.senders == c.senders && c'.queued == c.queued + size
  {
    if size <= limit {
      assert SEND_BUFFER * limit >= limit;
      steps := Fill(c, size, limit);
    } else {
      var f := Frame(0, limit);
      OneSent(c, f);
      var c1 := c.(queued := c.queued + f.size, buf := c.buf + [f]);
      var c2 := Apply(c1, Take);
      assert c2.buf == [] && Calm(c2);
      assert [Take][1..] == [] && AllEnabled(c2, []) && Run(c2, []) == c2 && Run(c1, [Take]) == c2;
      var rest := Fill(c2, size - limit, limit);
      RunConcat(c1, [Take], rest);
      RunConcat(c, SendOne(f), [Take] + rest);
      steps := SendOne(f) + ([Take] + rest);
    }
  }

  /** steps take n senders of frames of at most limit bytes to the bound. */
  ghost predicate MeetsBound(n: nat, limit: nat, steps: seq<Step>) {
    && AllEnabled(Fresh(n), steps) && AllLimited(steps, limit)
    && Run(Fresh(n), steps).queued == MAX_QUEUED_BYTES + (n - 1) * limit
  }

  /** Every sender checks before any counts, on a queue filled up to one frame below the cap. */
  lemma BoundIsMet(n: nat, limit: nat) returns (steps: seq<Step>)
    requires n >= 1 && (n == 1 || limit <= MAX_QUEUED_BYTES) && MAX_QUEUED_BYTES <= (SEND_BUFFER + 2) * limit
    ensures MeetsBound(n, limit, steps)
  {
    var top := if limit <= MAX_QUEUED_BYTES then limit else MAX_QUEUED_BYTES;
    var f := Frame(0, top);
    assert Fresh(n).senders == seq(n, _ => Idle);
    var fill := FillAll(Fresh(n), MAX_QUEUED_BYTES - top, top);
    var c := Run(Fresh(n), fill);
    assert ChecksThenCounts(c, 0, 0, f) == c;
    ChecksRun(c, 0, f);
    CountsRun(c, 0, f);
    RunConcat(c, AllCheck(n, 0, f), AllCount(n, 0));
    RunConcat(Fresh(n), fill, AllCheck(n, 0, f) + AllCount(n, 0));
    ChecksLimited(n, 0, f, limit);
    steps := fill + (AllCheck(n, 0, f) + AllCount(n, 0));
    assert MAX_QUEUED_BYTES - top + n * top == MAX_QUEUED_BYTES + (n - 1) * top;
  }

  lemma {:induction false} ChecksLimited(n: nat, from: nat, f: Frame, limit: nat)
    requires from <= n && f.size <= limit
    ensures AllLimited(AllCheck(n, from, f), limit) && AllLimited(AllCount(n, from), limit)
    decreases n - from
  {
    if from < n {
      ChecksLimited(n, from + 1, f, limit);
    }
  }

  /** What is buffered or in the pump's hand is as limited as what is sent. */
  ghost predicate InBounds(c: Conn, limit: nat) {
    && |c.buf| <= SEND_BUFFER && (forall i :: 0 <= i < |c.buf| ==> c.buf[i].size <= limit) && Held(c.pump) <= limit
    && Limited(c.senders, limit)
  }

  lemma StepKeepsBounds(c: Conn, s: Step, limit: nat)
    requires InBounds(c, limit) && Enabled(c, s) && StepLimited(s, limit)
    ensures InBounds(Apply(c, s), limit) && |Apply(c, s).senders| == |c.senders|
  {
  }

  lemma {:induction false} RunKeepsBounds(c: Conn, steps: seq<Step>, limit: nat)
    requires InBounds(c, limit) && AllEnabled(c, steps) && AllLimited(steps, limit)
    ensures InBounds(Run(c, steps), limit) && |Run(c, steps).senders| == |c.senders|
    decreases |steps|
  {
    if steps != [] {
      StepKeepsBounds(c, steps[0], limit);
      RunKeepsBounds(Apply(c, steps[0]), steps[1..], limit);
    }
  }

  lemma {:induction false} BytesAtMost(fs: seq<Frame>, limit: nat)
    requires forall i :: 0 <= i < |fs| ==> fs[i].size <= limit
    ensures Bytes(fs) <= |fs| * limit
  {
    if fs != [] {
      BytesAtMost(fs[1..], limit);
      assert |fs| * limit == (|fs| - 1) * limit + limit;
    }
  }

  lemma {:induction false} ClaimsAtMost(ss: seq<Sender>, limit: nat)
    requires Limited(ss, limit)
    ensures Claims(ss) <= |ss| * limit
  {
    if ss != [] {
      ClaimsAtMost(ss[1..], limit);
      assert |ss| * limit == (|ss| - 1) * limit + limit;
    }
  }

  /** A frame over the cap never gets past the check, so the cap itself limits every run. */
  lemma {:induction false} CapLimits(c: Conn, steps: seq<Step>)
    requires Accounted(c, MAX_QUEUED_BYTES) && AllEnabled(c, steps)
    ensures Accounted(Run(c, steps), MAX_QUEUED_BYTES) && |Run(c, steps).senders| == |c.senders|
    decreases |steps|
  {
    if steps != [] {
      if StepLimited(steps[0], MAX_QUEUED_BYTES) {
        StepKeepsAccounts(c, steps[0], MAX_QUEUED_BYTES);
      }
      CapLimits(Apply(c, steps[0]), steps[1..]);
    }
  }

  /**
   * The bound is met by some interleaving exactly when frames of the limit, one in each slot of the
   * buffer, one in the pump and one in hand, can reach the cap, and no more than one sender or a
   * limit within the cap. A limit of 1 MiB is such.
   */
  lemma BoundMetExactly(n: nat, limit: nat)
    requires n >= 1
    ensures (exists steps: seq<Step> :: MeetsBound(n, limit, steps)) <==>
      (n == 1 || limit <= 0x40_0000) && 0x40_0000 <= 514 * limit
  {
    if (n == 1 || limit <= MAX_QUEUED_BYTES) && MAX_QUEUED_BYTES <= (SEND_BUFFER + 2) * limit {
      var steps := BoundIsMet(n, limit);
    }
    if steps: seq<Step> :| MeetsBound(n, limit, steps) {
      BoundNeedsSlots(n, limit, steps);
    }
  }

  /** One frame in each slot, one in the pump and one with every sender. */
  lemma QueuedAtMost(n: nat, limit: nat, steps: seq<Step>)
    requires n >= 1 && AllEnabled(Fresh(n), steps) && AllLimited(steps, limit)
    ensures Run(Fresh(n), steps).queued <= (SEND_BUFFER + 1) * limit + n * limit
  {
    var c := Run(Fresh(n), steps);
    FreshSums(n);
    RunKeepsBounds(Fresh(n), steps, limit);
    RunKeepsAccounts(Fresh(n), steps, limit);
    BytesAtMost(c.buf, limit);
    ClaimsAtMost(c.senders, limit);
    SlotBytes(|c.buf|, limit);
  }

  lemma SlotBytes(k: nat, limit: nat)
    requires k <= SEND_BUFFER
    ensures k * limit + limit <= (SEND_BUFFER + 1) * limit
  {
  }

  lemma CappedRun(n: nat, steps: seq<Step>)
    requires n >= 1 && AllEnabled(Fresh(n), steps)
    ensures Run(Fresh(n), steps).queued <= MAX_QUEUED_BYTES + (n - 1) * MAX_QUEUED_BYTES
  {
    FreshSums(n);
    CapLimits(Fresh(n), steps);
    SlackIsProduct(n, MAX_QUEUED_BYTES);
  }

  lemma BoundNeedsSlots(n: nat, limit: nat, steps: seq<Step>)
    requires n >= 1 && MeetsBound(n, limit, steps)
    ensures (n == 1 || limit <= MAX_QUEUED_BYTES) && MAX_QUEUED_BYTES <= (SEND_BUFFER + 2) * limit
  {
    QueuedAtMost(n, limit, steps);
    assert n * limit == (n - 1) * limit + limit;
    CappedRun(n, steps);
    if n > 1 && limit > MAX_QUEUED_BYTES {
      LargerProduct(n - 1, MAX_QUEUED_BYTES, limit);
    }
  }

  lemma LargerProduct(k: nat, a: nat, b: nat)
    requires k > 0 && a < b
    ensures k * a < k * b
  {
  }

  // -------- after the close

  /** Sender i has passed its first select, and there is a slot or the pump can still free one. */
  predicate MaySlipIn(c: Conn, i: nat) {
    i < |c.senders| && c.senders[i].Offering? && (|c.buf| < SEND_BUFFER || c.pump.Waiting? || c.pump.Writing?)
  }

  /** On a closed connection no other sender queues a frame again. */
  lemma {:induction false} ClosedAcceptsNothing(c: Conn, steps: seq<Step>, i: nat, k: nat)
    requires c.closed && !MaySlipIn(c, i) && |c.buf| <= SEND_BUFFER && AllEnabled(c, steps) && k < |steps|
    ensures steps[k] != Push(i)
    decreases |steps|
  {
    var c1 := Apply(c, steps[0]);
    assert c1.closed && !MaySlipIn(c1, i) && |c1.buf| <= SEND_BUFFER;
    if k > 0 {
      ClosedAcceptsNothing(c1, steps[1..], i, k - 1);
    }
  }

  /**
   * A frame that would take the counter over the cap sheds the connection: it is closed with nothing
   * else changed, and this sender never queues a frame on it again. A frame within the cap goes on.
   */
  lemma OverflowSheds(c: Conn, i: nat, f: Frame, steps: seq<Step>, k: nat)
    requires Enabled(c, Check(i, f)) && |c.buf| <= SEND_BUFFER
    requires c.queued + f.size > 0x40_0000 && AllEnabled(Apply(c, Check(i, f)), steps) && k < |steps|
    ensures Apply(c, Check(i, f)) == c.(closed := true) && steps[k] != Push(i)
  {
    ClosedAcceptsNothing(Apply(c, Check(i, f)), steps, i, k);
  }

  lemma WithinCapPasses(c: Conn, i: nat, f: Frame)
    requires Enabled(c, Check(i, f)) && c.queued + f.size <= 0x40_0000
    ensures Apply(c, Check(i, f)) == c.(senders := c.senders[i := Passed(f)])
  {
  }

  /** A pump that has stopped has closed the connection, and a closed connection stays closed. */
  lemma {:induction false} PumpExitCloses(c: Conn, steps: seq<Step>)
    requires AllEnabled(c, steps) && (c.pump.Exited? || c.pump.ExitedWith? ==> c.closed)
    ensures var c' := Run(c, steps);
      (c'.pump.Exited? || c'.pump.ExitedWith? ==> c'.closed) && (c.closed ==> c'.closed)
    decreases |steps|
  {
    if steps != [] {
      PumpExitCloses(Apply(c, steps[0]), steps[1..]);
    }
  }

  /** The steps end with a frame of sender i in the buffer. */
  predicate EndsWithPush(c: Conn, steps: seq<Step>, i: nat) {
    steps != [] && AllEnabled(c, steps) && steps[|steps| - 1] == Push(i)
  }

  lemma PushAfter(c: Conn, s: Step, steps: seq<Step>, i: nat)
    requires Enabled(c, s) && EndsWithPush(Apply(c, s), steps, i)
    ensures EndsWithPush(c, [s] + steps, i)
  {
    assert ([s] + steps)[1..] == steps;
  }

  lemma PushNow(c: Conn, i: nat)
    requires Enabled(c, Push(i))
    ensures EndsWithPush(c, [Push(i)], i)
  {
    assert [Push(i)][1..] == [] && AllEnabled(Apply(c, Push(i)), []);
  }

  /** The pump makes room if it has to. */
  lemma SlipsIn(c: Conn, i: nat) returns (steps: seq<Step>)
    requires MaySlipIn(c, i) && |c.buf| <= SEND_BUFFER
    ensures EndsWithPush(c, steps, i)
    decreases c.pump.Writing?
  {
    if |c.buf| < SEND_BUFFER {
      PushNow(c, i);
      steps := [Push(i)];
    } else if c.pump.Waiting? {
      PushNow(Apply(c, Take), i);
      PushAfter(c, Take, [Push(i)], i);
      steps := [Take] + [Push(i)];
    } else {
      var rest := SlipsIn(Apply(c, Written), i);
      PushAfter(c, Written, rest, i);
      steps := [Written] + rest;
    }
  }

  /**
   * The first select narrows the race of a send with a close but does not remove it: a closed
   * connection can still accept a frame of exactly those senders that stand between the two selects
   * and have, or can get, a slot.
   */
  lemma ClosedAcceptsExactly(c: Conn, i: nat)
    requires c.closed && |c.buf| <= SEND_BUFFER
    ensures (exists steps: seq<Step> :: EndsWithPush(c, steps, i)) <==> MaySlipIn(c, i)
  {
    if MaySlipIn(c, i) {
      var steps := SlipsIn(c, i);
    } else {
      forall steps: seq<Step> | AllEnabled(c, steps) && steps != [] ensures steps[|steps| - 1] != Push(i) {
        ClosedAcceptsNothing(c, steps, i, |steps| - 1);
      }
    }
  }

  /** Such a state is reached when the close comes right after the first select. */
  lemma ClosedBetweenSelects(f: Frame)
    requires f.size <= MAX_QUEUED_BYTES
    ensures var steps := [Check(0, f), Count(0), FirstSelect(0), Close];
      AllEnabled(Fresh(1), steps) && Run(Fresh(1), steps).closed && MaySlipIn(Run(Fresh(1), steps), 0)
  {
    var c0, s0, s1, s2, s3 := Fresh(1), Check(0, f), Count(0), FirstSelect(0), Close;
    var c1 := Apply(c0, s0);
    var c2 := Apply(c1, s1);
    var c3 := Apply(c2, s2);
    var c4 := Apply(c3, s3);
    assert AllEnabled(c4, []) && Run(c4, []) == c4;
    RunFrom(c3, s3, []);
    RunFrom(c2, s2, [s3]);
    RunFrom(c1, s1, [s2, s3]);
    RunFrom(c0, s0, [s1, s2, s3]);
  }

  lemma RunFrom(c: Conn, s: Step, rest: seq<Step>)
    requires Enabled(c, s) && AllEnabled(Apply(c, s), rest)
    ensures AllEnabled(c, [s] + rest) && Run(c, [s] + rest) == Run(Apply(c, s), rest)
  {
    assert ([s] + rest)[1..] == rest;
  }

  // -------- what the channel accepts is written in order

  function HeldFrame(p: Pump): seq<Frame> {
    if p.Writing? || p.ExitedWith? then [p.f] else []
  }

  /** A frame for which sendFrame answers true. */
  function AcceptedBy(c: Conn, s: Step): seq<Frame>
    requires Enabled(c, s)
  {
    if s.Push? then [c.senders[s.i].f] else []
  }

  /** A frame the pump has written to the socket. */
  function DeliveredBy(c: Conn, s: Step): seq<Frame>
    requires Enabled(c, s)
  {
    if s.Written? then [c.pump.f] else []
  }

  function Accepted(c: Conn, steps: seq<Step>): seq<Frame>
    requires AllEnabled(c, steps)
    decreases |steps|
  {
    if steps == [] then [] else AcceptedBy(c, steps[0]) + Accepted(Apply(c, steps[0]), steps[1..])
  }

  function Delivered(c: Conn, steps: seq<Step>): seq<Frame>
    requires AllEnabled(c, steps)
    decreases |steps|
  {
    if steps == [] then [] else DeliveredBy(c, steps[0]) + Delivered(Apply(c, steps[0]), steps[1..])
  }

  function InHand(c: Conn): seq<Frame> {
    HeldFrame(c.pump) + c.buf
  }

  lemma StepBalance(c: Conn, s: Step)
    requires Enabled(c, s)
    ensures InHand(c) + AcceptedBy(c, s) == DeliveredBy(c, s) + InHand(Apply(c, s))
  {
    if s.Take? {
      assert c.buf == [c.buf[0]] + c.buf[1..];
    }
  }

  /**
   * Whatever the interleaving, the accepted frames are the written ones, then the one the pump
   * holds, then the buffer: none lost, repeated or reordered, and nothing else is written.
   */
  lemma {:induction false} AcceptedAreDelivered(c: Conn, steps: seq<Step>)
    requires AllEnabled(c, steps)
    ensures InHand(c) + Accepted(c, steps) == Delivered(c, steps) + InHand(Run(c, steps))
    decreases |steps|
  {
    if steps != [] {
      var c1 := Apply(c, steps[0]);
      StepBalance(c, steps[0]);
      AcceptedAreDelivered(c1, steps[1..]);
      Balances(InHand(c), AcceptedBy(c, steps[0]), DeliveredBy(c, steps[0]), InHand(c1),
               Accepted(c1, steps[1..]), Delivered(c1, steps[1..]), InHand(Run(c1, steps[1..])));
    }
  }

  lemma Balances(h: seq<Frame>, a: seq<Frame>, d: seq<Frame>, h1: seq<Frame>, a1: seq<Frame>, d1: seq<Frame>,
                 h2: seq<Frame>)
    requires h + a == d + h1 && h1 + a1 == d1 + h2
    ensures h + (a + a1) == (d + d1) + h2
  {
    Assoc(h, a, a1);
    Assoc(d, h1, a1);
    Assoc(d, d1, h2);
  }
}
