/**
 * Presence queries of the two adapters over the same events. Each parks its queries in its own
 * way and warms up in its own way; both are proved to answer the same user queries with the
 * same frames, and exactly the ones the correlation rule names. Query ids are numbered where
 * the programs draw fresh ones.
 */
module Presence {
  import opened Basics

  datatype QueryId = User(n: nat) | WarmUp(w: nat) | Foreign(x: nat)

  datatype Frame = Frame(replyTo: Option<QueryId>, roster: string)

  /** A user query and the frame that completed it. */
  datatype Answer = Answer(n: nat, f: Frame)

  /** WarmTimeOut and WarmResume concern only the adapter whose warm-up awaits its answers. */
  datatype Event =
    | Ask
    | Receive(f: Frame)
    | TimeOut(n: nat)
    | Welcome
    | Disconnect
    | WarmTimeOut(w: nat)
    | WarmResume

  // -------- the bridge adapter

  datatype Waiter = UserWaiter(n: nat) | WarmWaiter(w: nat, attempt: nat)

  function IdOf(p: Waiter): QueryId {
    match p
    case UserWaiter(n) => User(n)
    case WarmWaiter(w, _) => WarmUp(w)
  }

  /** Waiters in the order they were parked. */
  datatype Bridge = Bridge(
    waiters: seq<Waiter>, echoSeen: bool, connected: bool, asked: nat, warmed: nat, answers: seq<Answer>)

  const NEW_BRIDGE := Bridge([], false, false, 0, 0, [])

  function Unparked(ps: seq<Waiter>, id: QueryId): seq<Waiter> {
    if ps == [] then []
    else if IdOf(ps[0]) == id then ps[1..]
    else [ps[0]] + Unparked(ps[1..], id)
  }

  function Parked(ps: seq<Waiter>, id: QueryId): Option<Waiter> {
    if ps == [] then None
    else if IdOf(ps[0]) == id then Some(ps[0])
    else Parked(ps[1..], id)
  }

  function WarmedUp(s: Bridge, attempt: nat): Bridge {
    if s.echoSeen || !s.connected then s
    else s.(waiters := s.waiters + [WarmWaiter(s.warmed, attempt)], warmed := s.warmed + 1)
  }

  /** A waiter's callback: it unparks itself; a warm-up without an echo parks its successor. */
  function Completed(s: Bridge, p: Waiter, f: Frame): Bridge {
    var s1 := s.(waiters := Unparked(s.waiters, IdOf(p)));
    match p
    case UserWaiter(n) => s1.(answers := s1.answers + [Answer(n, f)])
    case WarmWaiter(_, attempt) => if !s1.echoSeen && attempt < 2 then WarmedUp(s1, attempt + 1) else s1
  }

  /** What completing a waiter can still cost: itself and the warm-ups it may park. */
  function Cost(p: Waiter): nat {
    if p.WarmWaiter? && p.attempt < 2 then 3 - p.attempt else 1
  }

  function Measure(ps: seq<Waiter>): nat {
    if ps == [] then 0 else Cost(ps[0]) + Measure(ps[1..])
  }

  lemma {:induction false} MeasureAppend(ps: seq<Waiter>, p: Waiter)
    ensures Measure(ps + [p]) == Measure(ps) + Cost(p)
  {
    if ps == [] {
      assert [p][1..] == [] && ps + [p] == [p];
    } else {
      MeasureAppend(ps[1..], p);
      assert (ps + [p])[1..] == ps[1..] + [p];
    }
  }

  /** Each completion lowers the measure, although it may park a new waiter. */
  lemma CompletionProgress(s: Bridge, f: Frame)
    requires s.waiters != []
    ensures Measure(Completed(s, s.waiters[0], f).waiters) < Measure(s.waiters)
  {
    var p, rest := s.waiters[0], s.waiters[1..];
    if p.WarmWaiter? {
      MeasureAppend(rest, WarmWaiter(s.warmed, p.attempt + 1));
    }
  }

  /** Completes waiters, first parked first, until there is none. */
  function AllCompleted(s: Bridge, f: Frame): Bridge
    decreases Measure(s.waiters)
  {
    if s.waiters == [] then s
    else
      CompletionProgress(s, f);
      AllCompleted(Completed(s, s.waiters[0], f), f)
  }

  function BridgeReceives(s: Bridge, f: Frame): Bridge {
    match f.replyTo
    case None => if s.echoSeen then s else AllCompleted(s, f)
    case Some(id) =>
      var s1 := s.(echoSeen := true);
      var p := Parked(s.waiters, id);
      if p.Some? then Completed(s1, p.value, f) else s1
  }

  function BridgeStep(s: Bridge, e: Event): Bridge {
    match e
    case Ask => if !s.connected then s else s.(waiters := s.waiters + [UserWaiter(s.asked)], asked := s.asked + 1)
    case Receive(f) => BridgeReceives(s, f)
    case TimeOut(n) => s.(waiters := Unparked(s.waiters, User(n)))
    case Welcome => WarmedUp(s.(connected := true), 0)
    case Disconnect => s.(connected := false)
    case WarmTimeOut(_) => s
    case WarmResume => s
  }

  // -------- the plugin adapter

  /** A parked resolver; a warm-up's belongs to a loop that has got as far as attempt. */
  datatype Resolver = UserResolver(n: nat) | WarmResolver(w: nat, attempt: nat)

  function ResolverId(p: Resolver): QueryId {
    match p
    case UserResolver(n) => User(n)
    case WarmResolver(w, _) => WarmUp(w)
  }

  /** resuming: the attempt of each warm-up loop whose await is over. */
  datatype Plugin = Plugin(
    waiters: seq<Resolver>, echoSeen: bool, connected: bool, asked: nat, warmed: nat, resuming: seq<nat>,
    answers: seq<Answer>)

  const NEW_PLUGIN := Plugin([], false, false, 0, 0, [], [])

  function Without(ps: seq<Resolver>, id: QueryId): seq<Resolver> {
    if ps == [] then []
    else if ResolverId(ps[0]) == id then ps[1..]
    else [ps[0]] + Without(ps[1..], id)
  }

  function Lookup(ps: seq<Resolver>, id: QueryId): Option<Resolver> {
    if ps == [] then None
    else if ResolverId(ps[0]) == id then Some(ps[0])
    else Lookup(ps[1..], id)
  }

  /** One turn of a warm-up loop. */
  function Turn(s: Plugin, attempt: nat): Plugin {
    if attempt >= 3 || s.echoSeen || !s.connected then s
    else s.(waiters := s.waiters + [WarmResolver(s.warmed, attempt)], warmed := s.warmed + 1)
  }

  function Resolved(s: Plugin, p: Resolver, f: Frame): Plugin {
    match p
    case UserResolver(n) => s.(answers := s.answers + [Answer(n, f)])
    case WarmResolver(_, attempt) => s.(resuming := s.resuming + [attempt])
  }

  function AllResolved(s: Plugin, ps: seq<Resolver>, f: Frame): Plugin
    decreases |ps|
  {
    if ps == [] then s else AllResolved(Resolved(s, ps[0], f), ps[1..], f)
  }

  function PluginReceives(s: Plugin, f: Frame): Plugin {
    match f.replyTo
    case Some(id) =>
      var s1 := s.(echoSeen := true);
      var p := Lookup(s.waiters, id);
      if p.None? then s1 else Resolved(s1.(waiters := Without(s.waiters, id)), p.value, f)
    case None => if s.echoSeen then s else AllResolved(s, s.waiters, f).(waiters := [])
  }

  function PluginStep(s: Plugin, e: Event): Plugin {
    match e
    case Ask => if !s.connected then s else s.(waiters := s.waiters + [UserResolver(s.asked)], asked := s.asked + 1)
    case Receive(f) => PluginReceives(s, f)
    case TimeOut(n) => s.(waiters := Without(s.waiters, User(n)))
    case Welcome => Turn(s.(connected := true), 0)
    case Disconnect => s.(connected := false)
    case WarmTimeOut(w) =>
      var p := Lookup(s.waiters, WarmUp(w));
      if p.Some? && p.value.WarmResolver?
      then s.(waiters := Without(s.waiters, WarmUp(w)), resuming := s.resuming + [p.value.attempt])
      else s
    case WarmResume =>
      if s.resuming == [] then s else Turn(s.(resuming := s.resuming[1..]), s.resuming[0] + 1)
  }

  // -------- the rule both follow

  /** open: the user queries still waiting, oldest first. */
  datatype Rule = Rule(open: seq<nat>, echoSeen: bool, connected: bool, asked: nat, answers: seq<Answer>)

  const NEW_RULE := Rule([], false, false, 0, [])

  function Removed(open: seq<nat>, n: nat): seq<nat> {
    if open == [] then []
    else if open[0] == n then open[1..]
    else [open[0]] + Removed(open[1..], n)
  }

  function AnswerAll(open: seq<nat>, f: Frame): seq<Answer> {
    seq(|open|, i requires 0 <= i < |open| => Answer(open[i], f))
  }

  /** Whom a frame answers. */
  function Answered(r: Rule, f: Frame): seq<Answer> {
    match f.replyTo
    case Some(id) => if id.User? && id.n in r.open then [Answer(id.n, f)] else []
    case None => if r.echoSeen then [] else AnswerAll(r.open, f)
  }

  function RuleStep(r: Rule, e: Event): Rule {
    match e
    case Ask => if !r.connected then r else r.(open := r.open + [r.asked], asked := r.asked + 1)
    case Receive(f) =>
      Rule(if f.replyTo.Some? then (if f.replyTo.value.User? then Removed(r.open, f.replyTo.value.n) else r.open)
           else if r.echoSeen then r.open else [],
           r.echoSeen || f.replyTo.Some?, r.connected, r.asked, r.answers + Answered(r, f))
    case TimeOut(n) => r.(open := Removed(r.open, n))
    case Welcome => r.(connected := true)
    case Disconnect => r.(connected := false)
    case WarmTimeOut(_) => r
    case WarmResume => r
  }

  function BridgeRun(es: seq<Event>): Bridge {
    if es == [] then NEW_BRIDGE else BridgeStep(BridgeRun(es[..|es| - 1]), es[|es| - 1])
  }

  function PluginRun(es: seq<Event>): Plugin {
    if es == [] then NEW_PLUGIN else PluginStep(PluginRun(es[..|es| - 1]), es[|es| - 1])
  }

  function RuleRun(es: seq<Event>): Rule {
    if es == [] then NEW_RULE else RuleStep(RuleRun(es[..|es| - 1]), es[|es| - 1])
  }

  // -------- both adapters follow the rule

  lemma {:induction false} RemovedAbsent(open: seq<nat>, n: nat)
    requires n !in open
    ensures Removed(open, n) == open
  {
    if open != [] {
      RemovedAbsent(open[1..], n);
    }
  }

  lemma EchoAnswers(r: Rule, f: Frame)
    requires f.replyTo.Some?
    ensures f.replyTo.value.User? && f.replyTo.value.n !in r.open ==> RuleStep(r, Receive(f)) == r.(echoSeen := true)
    ensures !f.replyTo.value.User? ==> RuleStep(r, Receive(f)) == r.(echoSeen := true)
  {
    assert r.answers + [] == r.answers;
    if f.replyTo.value.User? && f.replyTo.value.n !in r.open {
      RemovedAbsent(r.open, f.replyTo.value.n);
    }
  }

  function UsersOf(ps: seq<Waiter>): seq<nat> {
    if ps == [] then [] else (if ps[0].UserWaiter? then [ps[0].n] else []) + UsersOf(ps[1..])
  }

  function ViewOfBridge(s: Bridge): Rule {
    Rule(UsersOf(s.waiters), s.echoSeen, s.connected, s.asked, s.answers)
  }

  lemma {:induction false} UsersAppend(ps: seq<Waiter>, p: Waiter)
    ensures UsersOf(ps + [p]) == UsersOf(ps) + if p.UserWaiter? then [p.n] else []
  {
    if ps == [] {
      assert [p][1..] == [] && ps + [p] == [p];
    } else {
      UsersAppend(ps[1..], p);
      assert (ps + [p])[1..] == ps[1..] + [p];
    }
  }

  lemma {:induction false} UsersUnparked(ps: seq<Waiter>, id: QueryId)
    ensures UsersOf(Unparked(ps, id)) == if id.User? then Removed(UsersOf(ps), id.n) else UsersOf(ps)
    ensures id.User? ==> (Parked(ps, id).Some? <==> id.n in UsersOf(ps))
    ensures Parked(ps, id).Some? ==> IdOf(Parked(ps, id).value) == id
  {
    if ps != [] {
      UsersUnparked(ps[1..], id);
      if ps[0].UserWaiter? {
        assert ([ps[0].n] + UsersOf(ps[1..]))[1..] == UsersOf(ps[1..]);
      } else {
        assert [] + UsersOf(ps[1..]) == UsersOf(ps[1..]);
      }
      var tail := Unparked(ps[1..], id);
      assert IdOf(ps[0]) != id ==> ([ps[0]] + tail)[1..] == tail;
    }
  }

  lemma AnswerAllSplits(before: seq<Answer>, n: nat, rest: seq<nat>, f: Frame)
    ensures before + AnswerAll([n] + rest, f) == (before + [Answer(n, f)]) + AnswerAll(rest, f)
  {
    assert AnswerAll([n] + rest, f) == [Answer(n, f)] + AnswerAll(rest, f);
  }

  lemma {:induction false} AllCompletedView(s: Bridge, f: Frame)
    requires !s.echoSeen
    ensures var s' := AllCompleted(s, f);
      && s'.waiters == []
      && ViewOfBridge(s') == ViewOfBridge(s).(open := [], answers := s.answers + AnswerAll(UsersOf(s.waiters), f))
    decreases Measure(s.waiters)
  {
    if s.waiters == [] {
      assert s.answers + AnswerAll([], f) == s.answers;
    } else {
      var p, rest := s.waiters[0], s.waiters[1..];
      var s1 := Completed(s, p, f);
      CompletionProgress(s, f);
      AllCompletedView(s1, f);
      if p.UserWaiter? {
        AnswerAllSplits(s.answers, p.n, UsersOf(rest), f);
      } else {
        UsersAppend(rest, WarmWaiter(s.warmed, p.attempt + 1));
        assert UsersOf(s1.waiters) == UsersOf(rest) == UsersOf(s.waiters);
      }
    }
  }

  lemma BridgeFollows(s: Bridge, e: Event)
    ensures ViewOfBridge(BridgeStep(s, e)) == RuleStep(ViewOfBridge(s), e)
  {
    match e
    case Ask =>
      UsersAppend(s.waiters, UserWaiter(s.asked));
    case Receive(f) =>
      if f.replyTo.Some? {
        UsersUnparked(s.waiters, f.replyTo.value);
        EchoAnswers(ViewOfBridge(s), f);
      } else if !s.echoSeen {
        AllCompletedView(s, f);
      }
    case TimeOut(n) => UsersUnparked(s.waiters, User(n));
    case Welcome => UsersAppend(s.waiters, WarmWaiter(s.warmed, 0));
    case _ =>
  }

  function UserIds(ps: seq<Resolver>): seq<nat> {
    if ps == [] then [] else (if ps[0].UserResolver? then [ps[0].n] else []) + UserIds(ps[1..])
  }

  function ViewOfPlugin(s: Plugin): Rule {
    Rule(UserIds(s.waiters), s.echoSeen, s.connected, s.asked, s.answers)
  }

  lemma {:induction false} IdsAppend(ps: seq<Resolver>, p: Resolver)
    ensures UserIds(ps + [p]) == UserIds(ps) + if p.UserResolver? then [p.n] else []
  {
    if ps == [] {
      assert [p][1..] == [] && ps + [p] == [p];
    } else {
      IdsAppend(ps[1..], p);
      assert (ps + [p])[1..] == ps[1..] + [p];
    }
  }

  lemma {:induction false} IdsWithout(ps: seq<Resolver>, id: QueryId)
    ensures UserIds(Without(ps, id)) == if id.User? then Removed(UserIds(ps), id.n) else UserIds(ps)
    ensures id.User? ==> (Lookup(ps, id).Some? <==> id.n in UserIds(ps))
    ensures Lookup(ps, id).Some? ==> ResolverId(Lookup(ps, id).value) == id
  {
    if ps != [] {
      IdsWithout(ps[1..], id);
      if ps[0].UserResolver? {
        assert ([ps[0].n] + UserIds(ps[1..]))[1..] == UserIds(ps[1..]);
      } else {
        assert [] + UserIds(ps[1..]) == UserIds(ps[1..]);
      }
      var tail := Without(ps[1..], id);
      assert ResolverId(ps[0]) != id ==> ([ps[0]] + tail)[1..] == tail;
    }
  }

  lemma {:induction false} AllResolvedView(s: Plugin, ps: seq<Resolver>, f: Frame)
    ensures var s' := AllResolved(s, ps, f);
      && s'.answers == s.answers + AnswerAll(UserIds(ps), f)
      && s'.waiters == s.waiters && s'.echoSeen == s.echoSeen && s'.connected == s.connected && s'.asked == s.asked
    decreases |ps|
  {
    if ps == [] {
      assert s.answers + AnswerAll([], f) == s.answers;
    } else {
      AllResolvedView(Resolved(s, ps[0], f), ps[1..], f);
      if ps[0].UserResolver? {
        AnswerAllSplits(s.answers, ps[0].n, UserIds(ps[1..]), f);
      } else {
        assert UserIds(ps) == UserIds(ps[1..]);
      }
    }
  }

  lemma PluginFollows(s: Plugin, e: Event)
    ensures ViewOfPlugin(PluginStep(s, e)) == RuleStep(ViewOfPlugin(s), e)
  {
    match e
    case Ask => IdsAppend(s.waiters, UserResolver(s.asked));
    case Receive(f) =>
      if f.replyTo.Some? {
        IdsWithout(s.waiters, f.replyTo.value);
        EchoAnswers(ViewOfPlugin(s), f);
      } else if !s.echoSeen {
        AllResolvedView(s, s.waiters, f);
      }
    case TimeOut(n) => IdsWithout(s.waiters, User(n));
    case Welcome => IdsAppend(s.waiters, WarmResolver(s.warmed, 0));
    case WarmTimeOut(w) => IdsWithout(s.waiters, WarmUp(w));
    case WarmResume => if s.resuming != [] { IdsAppend(s.waiters, WarmResolver(s.warmed, s.resuming[0] + 1)); }
    case Disconnect =>
  }

  /** For every sequence of events, both adapters have answered the same user queries, with the same frames. */
  lemma {:induction false} AdaptersAgree(es: seq<Event>)
    ensures ViewOfBridge(BridgeRun(es)) == RuleRun(es) == ViewOfPlugin(PluginRun(es))
  {
    if es != [] {
      var before, e := es[..|es| - 1], es[|es| - 1];
      AdaptersAgree(before);
      BridgeFollows(BridgeRun(before), e);
      PluginFollows(PluginRun(before), e);
    }
  }

  // -------- what the rule promises

  predicate IsEcho(e: Event) {
    e.Receive? && e.f.replyTo.Some?
  }

  ghost predicate Echoed(es: seq<Event>) {
    exists i :: 0 <= i < |es| && IsEcho(es[i])
  }

  /** The latch is set by the first echo and never again cleared, disconnects included. */
  lemma {:induction false} LatchIsHistory(es: seq<Event>)
    ensures RuleRun(es).echoSeen <==> Echoed(es)
  {
    if es != [] {
      var before := es[..|es| - 1];
      LatchIsHistory(before);
      if Echoed(es) && !IsEcho(es[|es| - 1]) {
        var i :| 0 <= i < |es| && IsEcho(es[i]);
        assert IsEcho(before[i]);
      }
    }
  }

  /** The frame ends query n: by its own echo, or as an id-less frame before any echo. */
  ghost predicate Ends(es: seq<Event>, j: nat, a: Answer)
    requires j < |es|
  {
    && es[j] == Receive(a.f) && a.n in RuleRun(es[..j]).open
    && (a.f.replyTo == Some(User(a.n)) || (a.f.replyTo.None? && !Echoed(es[..j])))
  }

  lemma AnsweredMeans(es: seq<Event>, j: nat, a: Answer)
    requires j < |es| && es[j].Receive?
    ensures a in Answered(RuleRun(es[..j]), es[j].f) <==> Ends(es, j, a)
  {
    LatchIsHistory(es[..j]);
    var r, f := RuleRun(es[..j]), es[j].f;
    if f.replyTo.None? && a.f == f && a.n in r.open {
      var i :| 0 <= i < |r.open| && r.open[i] == a.n;
      assert AnswerAll(r.open, f)[i] == a;
    }
  }

  lemma {:induction false} RuleAnswersExactly(es: seq<Event>, a: Answer)
    ensures a in RuleRun(es).answers <==> exists j :: 0 <= j < |es| && Ends(es, j, a)
  {
    if es != [] {
      var before, last := es[..|es| - 1], |es| - 1;
      RuleAnswersExactly(before, a);
      forall j | 0 <= j < last ensures Ends(es, j, a) <==> Ends(before, j, a) {
        assert before[..j] == es[..j];
      }
      LastAnswers(es, a);
    }
  }

  lemma StepAnswers(r: Rule, e: Event, a: Answer)
    ensures a in RuleStep(r, e).answers <==> a in r.answers || (e.Receive? && a in Answered(r, e.f))
  {
  }

  lemma LastAnswers(es: seq<Event>, a: Answer)
    requires es != []
    ensures a in RuleRun(es).answers <==> a in RuleRun(es[..|es| - 1]).answers || Ends(es, |es| - 1, a)
  {
    var last := |es| - 1;
    StepAnswers(RuleRun(es[..last]), es[last], a);
    if es[last].Receive? {
      AnsweredMeans(es, last, a);
    }
  }

  /**
   * In both adapters a user query is answered by exactly the frames that may: its own echo, or an
   * id-less frame received before any echo.
   */
  lemma AnsweredExactly(es: seq<Event>, a: Answer)
    ensures a in BridgeRun(es).answers <==> exists j :: 0 <= j < |es| && Ends(es, j, a)
    ensures a in PluginRun(es).answers <==> exists j :: 0 <= j < |es| && Ends(es, j, a)
  {
    AdaptersAgree(es);
    RuleAnswersExactly(es, a);
  }

  ghost predicate Rising(open: seq<nat>) {
    forall i, j :: 0 <= i < j < |open| ==> open[i] < open[j]
  }

  /** Open queries are numbered upward, and no answered one is open. */
  ghost predicate RuleOk(r: Rule) {
    && Rising(r.open)
    && (forall n :: n in r.open ==> n < r.asked)
    && (forall i :: 0 <= i < |r.answers| ==> r.answers[i].n < r.asked && r.answers[i].n !in r.open)
    && (forall i, j :: 0 <= i < j < |r.answers| ==> r.answers[i].n != r.answers[j].n)
  }

  lemma {:induction false} RemovedAt(open: seq<nat>, i: nat)
    requires Rising(open) && i < |open|
    ensures Removed(open, open[i]) == open[..i] + open[i + 1..]
  {
    if i > 0 {
      assert open[0] < open[i];
      RemovedAt(open[1..], i - 1);
      var rest := open[1..];
      assert Removed(open, open[i]) == [open[0]] + Removed(rest, rest[i - 1]);
      assert [open[0]] + (rest[..i - 1] + rest[i..]) == open[..i] + open[i + 1..];
    }
  }

  lemma CutMember(open: seq<nat>, i: nat, m: nat)
    requires Rising(open) && i < |open|
    ensures m in open[..i] + open[i + 1..] <==> m in open && m != open[i]
  {
    var left := open[..i] + open[i + 1..];
    if m in open && m != open[i] {
      var k :| 0 <= k < |open| && open[k] == m;
      assert m == left[if k < i then k else k - 1];
    }
  }

  lemma CutRises(open: seq<nat>, i: nat)
    requires Rising(open) && i < |open|
    ensures Rising(open[..i] + open[i + 1..])
  {
  }

  lemma RemovedFrom(open: seq<nat>, n: nat)
    requires Rising(open)
    ensures Rising(Removed(open, n)) && forall m :: m in Removed(open, n) <==> m in open && m != n
  {
    if n in open {
      var i :| 0 <= i < |open| && open[i] == n;
      RemovedAt(open, i);
      CutRises(open, i);
      forall m ensures m in Removed(open, n) <==> m in open && m != n {
        CutMember(open, i, m);
      }
    } else {
      RemovedAbsent(open, n);
    }
  }

  lemma EchoKeepsOk(r: Rule, f: Frame)
    requires RuleOk(r) && f.replyTo.Some?
    ensures RuleOk(RuleStep(r, Receive(f)))
  {
    if f.replyTo.value.User? {
      RemovedFrom(r.open, f.replyTo.value.n);
    }
  }

  lemma PlainKeepsOk(r: Rule, f: Frame)
    requires RuleOk(r) && f.replyTo.None?
    ensures RuleOk(RuleStep(r, Receive(f)))
  {
    var all := AnswerAll(r.open, f);
    assert forall i :: 0 <= i < |all| ==> all[i].n == r.open[i] && all[i].n in r.open;
  }

  lemma StepIsOk(r: Rule, e: Event)
    requires RuleOk(r)
    ensures RuleOk(RuleStep(r, e))
  {
    match e
    case Receive(f) =>
      if f.replyTo.Some? {
        EchoKeepsOk(r, f);
      } else {
        PlainKeepsOk(r, f);
      }
    case TimeOut(n) => RemovedFrom(r.open, n);
    case Ask =>
      assert forall i :: 0 <= i < |r.open| ==> r.open[i] in r.open;
    case _ =>
  }

  lemma {:induction false} RunIsOk(es: seq<Event>)
    ensures RuleOk(RuleRun(es))
  {
    if es != [] {
      RunIsOk(es[..|es| - 1]);
      StepIsOk(RuleRun(es[..|es| - 1]), es[|es| - 1]);
    }
  }

  /** No user query is answered twice, by either adapter. */
  lemma NoneAnsweredTwice(es: seq<Event>, i: nat, j: nat)
    requires i < j < |BridgeRun(es).answers|
    ensures BridgeRun(es).answers == PluginRun(es).answers
    ensures BridgeRun(es).answers[i].n != BridgeRun(es).answers[j].n
  {
    AdaptersAgree(es);
    RunIsOk(es);
  }

  // -------- which queries are open

  /** Up to now the last welcome has not been followed by a disconnect. */
  function IsUp(es: seq<Event>): bool {
    if es == [] then false
    else if es[|es| - 1].Welcome? then true
    else if es[|es| - 1].Disconnect? then false
    else IsUp(es[..|es| - 1])
  }

  /** How many queries have been asked while up. */
  function AskedBy(es: seq<Event>): nat {
    if es == [] then 0
    else AskedBy(es[..|es| - 1]) + if es[|es| - 1].Ask? && IsUp(es[..|es| - 1]) then 1 else 0
  }

  lemma {:induction false} UpAndAsked(es: seq<Event>)
    ensures RuleRun(es).connected == IsUp(es) && RuleRun(es).asked == AskedBy(es)
  {
    if es != [] {
      UpAndAsked(es[..|es| - 1]);
    }
  }

  /** Step j asks query n, while up. */
  predicate AsksAt(es: seq<Event>, j: nat, n: nat) {
    j < |es| && es[j].Ask? && IsUp(es[..j]) && AskedBy(es[..j]) == n
  }

  /** Step j is the end of query n if it is still open: its time-out, its echo, or an id-less frame before any echo. */
  ghost predicate EndsAt(es: seq<Event>, j: nat, n: nat) {
    && j < |es|
    && (es[j] == TimeOut(n)
        || (es[j].Receive? && (es[j].f.replyTo == Some(User(n)) || (es[j].f.replyTo.None? && !Echoed(es[..j])))))
  }

  ghost predicate OpenFrom(es: seq<Event>, j: nat, n: nat) {
    AsksAt(es, j, n) && forall i :: j < i < |es| ==> !EndsAt(es, i, n)
  }

  lemma OpenStep(r: Rule, e: Event, n: nat)
    requires RuleOk(r)
    ensures n in RuleStep(r, e).open <==>
      || (e.Ask? && r.connected && n == r.asked)
      || (n in r.open && e != TimeOut(n)
          && !(e.Receive? && (e.f.replyTo == Some(User(n)) || (e.f.replyTo.None? && !r.echoSeen))))
  {
    match e
    case TimeOut(m) => RemovedFrom(r.open, m);
    case Receive(f) =>
      if f.replyTo.Some? && f.replyTo.value.User? {
        RemovedFrom(r.open, f.replyTo.value.n);
      }
    case _ =>
  }

  lemma OpenOneMore(es: seq<Event>, n: nat)
    requires es != []
    ensures var before, last := es[..|es| - 1], |es| - 1;
      (exists j: nat :: OpenFrom(es, j, n)) <==>
        AsksAt(es, last, n) || ((exists j: nat :: OpenFrom(before, j, n)) && !EndsAt(es, last, n))
  {
    var before, last := es[..|es| - 1], |es| - 1;
    forall j: nat | j < last ensures AsksAt(es, j, n) <==> AsksAt(before, j, n) {
      assert before[..j] == es[..j];
    }
    forall j: nat | j < last ensures EndsAt(es, j, n) <==> EndsAt(before, j, n) {
      assert before[..j] == es[..j];
    }
    if AsksAt(es, last, n) {
      assert OpenFrom(es, last, n);
    }
    if (exists j: nat :: OpenFrom(before, j, n)) && !EndsAt(es, last, n) {
      var j: nat :| OpenFrom(before, j, n);
      assert OpenFrom(es, j, n);
    }
    if exists j: nat :: OpenFrom(es, j, n) {
      var j: nat :| OpenFrom(es, j, n);
      if j < last {
        assert OpenFrom(before, j, n);
      }
    }
  }

  lemma {:induction false} RuleOpenExactly(es: seq<Event>, n: nat)
    ensures n in RuleRun(es).open <==> exists j: nat :: OpenFrom(es, j, n)
  {
    if es != [] {
      var before := es[..|es| - 1];
      RuleOpenExactly(before, n);
      RunIsOk(before);
      UpAndAsked(before);
      LatchIsHistory(before);
      OpenStep(RuleRun(before), es[|es| - 1], n);
      OpenOneMore(es, n);
    }
  }

  /** In both adapters a query is open exactly when it was asked while up, and nothing has ended it since. */
  lemma OpenExactly(es: seq<Event>, n: nat)
    ensures n in UsersOf(BridgeRun(es).waiters) <==> exists j: nat :: OpenFrom(es, j, n)
    ensures n in UserIds(PluginRun(es).waiters) <==> exists j: nat :: OpenFrom(es, j, n)
  {
    AdaptersAgree(es);
    RuleOpenExactly(es, n);
  }

  // -------- warm-ups

  function Welcomes(es: seq<Event>): nat {
    if es == [] then 0 else Welcomes(es[..|es| - 1]) + if es[|es| - 1].Welcome? then 1 else 0
  }

  /** A welcome parks one warm-up, unless an echo has been received before. */
  lemma WelcomeWarms(es: seq<Event>)
    ensures var s, t, first := BridgeRun(es), PluginRun(es), !Echoed(es);
      && BridgeRun(es + [Welcome]).waiters == s.waiters + (if first then [WarmWaiter(s.warmed, 0)] else [])
      && PluginRun(es + [Welcome]).waiters == t.waiters + (if first then [WarmResolver(t.warmed, 0)] else [])
  {
    assert (es + [Welcome])[..|es|] == es;
    AdaptersAgree(es);
    LatchIsHistory(es);
  }

  function Left(attempt: nat): nat {
    if attempt < 2 then 2 - attempt else 0
  }

  /** The warm-ups that the parked ones may still bring. */
  function LeftOf(ps: seq<Waiter>): nat {
    if ps == [] then 0 else (if ps[0].WarmWaiter? then Left(ps[0].attempt) else 0) + LeftOf(ps[1..])
  }

  lemma {:induction false} LeftAppends(ps: seq<Waiter>, p: Waiter)
    ensures LeftOf(ps + [p]) == LeftOf(ps) + if p.WarmWaiter? then Left(p.attempt) else 0
  {
    if ps == [] {
      assert [p][1..] == [] && ps + [p] == [p];
    } else {
      LeftAppends(ps[1..], p);
      assert (ps + [p])[1..] == ps[1..] + [p];
    }
  }

  lemma {:induction false} LeftUnparked(ps: seq<Waiter>, id: QueryId)
    ensures var p := Parked(ps, id);
      && LeftOf(ps) == LeftOf(Unparked(ps, id)) + (if p.Some? && p.value.WarmWaiter? then Left(p.value.attempt) else 0)
      && (p.Some? ==> IdOf(p.value) == id)
  {
    if ps != [] && IdOf(ps[0]) != id {
      LeftUnparked(ps[1..], id);
      assert ([ps[0]] + Unparked(ps[1..], id))[1..] == Unparked(ps[1..], id);
    }
  }

  /** A legacy answer to a warm-up brings the next, three in all: what was left is sent in the same breath. */
  lemma {:induction false} LegacyWarmsAll(s: Bridge, f: Frame)
    requires !s.echoSeen && s.connected
    ensures AllCompleted(s, f).warmed == s.warmed + LeftOf(s.waiters) && AllCompleted(s, f).waiters == []
    decreases Measure(s.waiters)
  {
    if s.waiters != [] {
      CompletionProgress(s, f);
      var p, rest := s.waiters[0], s.waiters[1..];
      if p.WarmWaiter? {
        LeftAppends(rest, WarmWaiter(s.warmed, p.attempt + 1));
      }
      LegacyWarmsAll(Completed(s, p, f), f);
    }
  }

  /** Down, a legacy answer brings no more warm-ups. */
  lemma {:induction false} DownWarmsNone(s: Bridge, f: Frame)
    requires !s.echoSeen && !s.connected
    ensures AllCompleted(s, f).warmed == s.warmed && AllCompleted(s, f).waiters == []
    decreases Measure(s.waiters)
  {
    if s.waiters != [] {
      CompletionProgress(s, f);
      DownWarmsNone(Completed(s, s.waiters[0], f), f);
    }
  }

  lemma BridgeWarmStep(s: Bridge, e: Event)
    ensures var s' := BridgeStep(s, e);
      && s'.warmed + LeftOf(s'.waiters) <= s.warmed + LeftOf(s.waiters) + (if e.Welcome? then 3 else 0)
      && (s.echoSeen ==> s'.warmed == s.warmed)
  {
    match e
    case Ask => LeftAppends(s.waiters, UserWaiter(s.asked));
    case Receive(f) =>
      if f.replyTo.Some? {
        LeftUnparked(s.waiters, f.replyTo.value);
      } else if !s.echoSeen && s.connected {
        LegacyWarmsAll(s, f);
      } else if !s.echoSeen {
        DownWarmsNone(s, f);
      }
    case TimeOut(n) => LeftUnparked(s.waiters, User(n));
    case Welcome => LeftAppends(s.waiters, WarmWaiter(s.warmed, 0));
    case _ =>
  }

  /** The bridge sends at most three warm-ups a welcome. */
  lemma {:induction false} BridgeWarmsBounded(es: seq<Event>)
    ensures BridgeRun(es).warmed + LeftOf(BridgeRun(es).waiters) <= 3 * Welcomes(es)
  {
    if es != [] {
      BridgeWarmsBounded(es[..|es| - 1]);
      BridgeWarmStep(BridgeRun(es[..|es| - 1]), es[|es| - 1]);
    }
  }

  function LeftOfAll(ps: seq<Resolver>): nat {
    if ps == [] then 0 else (if ps[0].WarmResolver? then Left(ps[0].attempt) else 0) + LeftOfAll(ps[1..])
  }

  function LeftOfLoops(attempts: seq<nat>): nat {
    if attempts == [] then 0 else Left(attempts[0]) + LeftOfLoops(attempts[1..])
  }

  /** All warm-ups the plugin has sent or may still send before the next welcome. */
  function WarmBudget(s: Plugin): nat {
    s.warmed + LeftOfAll(s.waiters) + LeftOfLoops(s.resuming)
  }

  lemma {:induction false} LeftAllAppends(ps: seq<Resolver>, p: Resolver)
    ensures LeftOfAll(ps + [p]) == LeftOfAll(ps) + if p.WarmResolver? then Left(p.attempt) else 0
  {
    if ps == [] {
      assert [p][1..] == [] && ps + [p] == [p];
    } else {
      LeftAllAppends(ps[1..], p);
      assert (ps + [p])[1..] == ps[1..] + [p];
    }
  }

  lemma {:induction false} LoopsAppend(attempts: seq<nat>, attempt: nat)
    ensures LeftOfLoops(attempts + [attempt]) == LeftOfLoops(attempts) + Left(attempt)
  {
    if attempts == [] {
      assert [attempt][1..] == [] && attempts + [attempt] == [attempt];
    } else {
      LoopsAppend(attempts[1..], attempt);
      assert (attempts + [attempt])[1..] == attempts[1..] + [attempt];
    }
  }

  lemma {:induction false} LeftWithout(ps: seq<Resolver>, id: QueryId)
    ensures var p := Lookup(ps, id);
      LeftOfAll(ps) ==
        LeftOfAll(Without(ps, id)) + if p.Some? && p.value.WarmResolver? then Left(p.value.attempt) else 0
  {
    if ps != [] && ResolverId(ps[0]) != id {
      LeftWithout(ps[1..], id);
      assert ([ps[0]] + Without(ps[1..], id))[1..] == Without(ps[1..], id);
    }
  }

  lemma {:induction false} AllResolvedLeft(s: Plugin, ps: seq<Resolver>, f: Frame)
    ensures var s' := AllResolved(s, ps, f);
      && s'.warmed == s.warmed && LeftOfLoops(s'.resuming) == LeftOfLoops(s.resuming) + LeftOfAll(ps)
    decreases |ps|
  {
    if ps != [] {
      if ps[0].WarmResolver? {
        LoopsAppend(s.resuming, ps[0].attempt);
      }
      AllResolvedLeft(Resolved(s, ps[0], f), ps[1..], f);
    }
  }

  lemma PluginReceivesLeft(s: Plugin, f: Frame)
    ensures PluginReceives(s, f).warmed == s.warmed && WarmBudget(PluginReceives(s, f)) == WarmBudget(s)
  {
    if f.replyTo.Some? {
      var p := Lookup(s.waiters, f.replyTo.value);
      LeftWithout(s.waiters, f.replyTo.value);
      if p.Some? && p.value.WarmResolver? {
        LoopsAppend(s.resuming, p.value.attempt);
      }
    } else if !s.echoSeen {
      AllResolvedLeft(s, s.waiters, f);
    }
  }

  /** A resumed loop sends its next warm-up unless it was the third, an echo has been seen or the link is down. */
  lemma ResumeLeft(s: Plugin)
    requires s.resuming != []
    ensures var s' := PluginStep(s, WarmResume);
      if !s.echoSeen && s.connected && s.resuming[0] < 2
      then WarmBudget(s') == WarmBudget(s) && s'.warmed == s.warmed + 1
      else WarmBudget(s') == WarmBudget(s) - Left(s.resuming[0]) && s'.warmed == s.warmed
  {
    LeftAllAppends(s.waiters, WarmResolver(s.warmed, s.resuming[0] + 1));
  }

  lemma PluginWarmStep(s: Plugin, e: Event)
    ensures var s' := PluginStep(s, e);
      && WarmBudget(s') <= WarmBudget(s) + (if e.Welcome? then 3 else 0)
      // an answered or timed-out warm-up resumes its loop: nothing is lost but at a resumption
      && (!e.Welcome? && !e.WarmResume? ==> WarmBudget(s') == WarmBudget(s))
      && (s.echoSeen ==> s'.warmed == s.warmed)
  {
    match e
    case Ask => LeftAllAppends(s.waiters, UserResolver(s.asked));
    case Receive(f) => PluginReceivesLeft(s, f);
    case TimeOut(n) =>
      LeftWithout(s.waiters, User(n));
      IdsWithout(s.waiters, User(n));
    case Welcome => LeftAllAppends(s.waiters, WarmResolver(s.warmed, 0));
    case WarmTimeOut(w) =>
      LeftWithout(s.waiters, WarmUp(w));
      var p := Lookup(s.waiters, WarmUp(w));
      if p.Some? && p.value.WarmResolver? {
        LoopsAppend(s.resuming, p.value.attempt);
      }
    case WarmResume =>
      if s.resuming != [] {
        ResumeLeft(s);
      }
    case Disconnect =>
  }

  /** So does the plugin. */
  lemma {:induction false} PluginWarmsBounded(es: seq<Event>)
    ensures WarmBudget(PluginRun(es)) <= 3 * Welcomes(es)
  {
    if es != [] {
      PluginWarmsBounded(es[..|es| - 1]);
      PluginWarmStep(PluginRun(es[..|es| - 1]), es[|es| - 1]);
    }
  }

  /** On a hub that never echoes, an id-less frame leaves no waiter behind, warm-ups included. */
  lemma LegacyFrameClearsAll(s: Bridge, t: Plugin, f: Frame)
    requires f.replyTo.None? && !s.echoSeen && !t.echoSeen
    ensures BridgeStep(s, Receive(f)).waiters == [] && PluginStep(t, Receive(f)).waiters == []
  {
    AllCompletedView(s, f);
  }

  // -------- the bridge's waiter map in place

  lemma {:induction false} UnparkedAt(ps: seq<Waiter>, id: QueryId, i: nat)
    requires i <= |ps| && (forall k :: 0 <= k < i ==> IdOf(ps[k]) != id) && (i < |ps| ==> IdOf(ps[i]) == id)
    ensures Unparked(ps, id) == if i < |ps| then ps[..i] + ps[i + 1..] else ps
  {
    if i > 0 {
      var rest := ps[1..];
      UnparkedAt(rest, id, i - 1);
      assert Unparked(ps, id) == [ps[0]] + Unparked(rest, id);
      assert i < |ps| ==> [ps[0]] + (rest[..i - 1] + rest[i..]) == ps[..i] + ps[i + 1..];
    }
  }

  class BridgePresence {
    var waiters: seq<Waiter>
    var echoSeen: bool
    var connected: bool
    var asked: nat
    var warmed: nat
    var answers: seq<Answer>

    ghost function State(): Bridge
      reads this
    {
      Bridge(waiters, echoSeen, connected, asked, warmed, answers)
    }

    constructor ()
      ensures State() == NEW_BRIDGE
    {
      waiters, echoSeen, connected, asked, warmed, answers := [], false, false, 0, 0, [];
    }

    /** Parks a user query; without a connection it fails at once. */
    method Presence() returns (ok: bool)
      modifies this
      ensures ok == old(connected) && State() == BridgeStep(old(State()), Ask)
    {
      if !connected {
        return false;
      }
      waiters := waiters + [UserWaiter(asked)];
      asked := asked + 1;
      return true;
    }

    /** Parks a throwaway query, unless an echo has been seen or the link is down. */
    method WarmUpPresence(attempt: nat)
      modifies this`waiters, this`warmed
      ensures State() == WarmedUp(old(State()), attempt)
    {
      if echoSeen || !connected {
        return;
      }
      waiters := waiters + [WarmWaiter(warmed, attempt)];
      warmed := warmed + 1;
    }

    method OnWelcome()
      modifies this
      ensures State() == BridgeStep(old(State()), Welcome)
    {
      connected := true;
      WarmUpPresence(0);
    }

    method Unpark(id: QueryId)
      modifies this`waiters
      ensures waiters == Unparked(old(waiters), id)
    {
      var i := 0;
      while i < |waiters| && IdOf(waiters[i]) != id
        invariant 0 <= i <= |waiters| && waiters == old(waiters)
        invariant forall k :: 0 <= k < i ==> IdOf(waiters[k]) != id
      {
        i := i + 1;
      }
      UnparkedAt(waiters, id, i);
      if i < |waiters| {
        waiters := waiters[..i] + waiters[i + 1..];
      }
    }

    /** A waiter's callback. */
    method Complete(p: Waiter, f: Frame)
      modifies this
      ensures State() == Completed(old(State()), p, f)
    {
      Unpark(IdOf(p));
      match p {
        case UserWaiter(n) =>
          answers := answers + [Answer(n, f)];
        case WarmWaiter(_, attempt) =>
          if !echoSeen && attempt < 2 {
            WarmUpPresence(attempt + 1);
          }
      }
    }

    /**
     * The id-less case walks the map while callbacks delete from it and insert into it. A walk in
     * insertion order visits what is inserted, and every callback deletes its own entry, so the
     * next entry is always the first one left.
     */
    method OnPresence(f: Frame)
      modifies this
      ensures State() == BridgeStep(old(State()), Receive(f))
      ensures f.replyTo.None? && !old(echoSeen) ==> waiters == []
    {
      if f.replyTo.None? {
        if echoSeen {
          return;
        }
        while waiters != []
          invariant AllCompleted(State(), f) == AllCompleted(old(State()), f) && !echoSeen
          decreases Measure(waiters)
        {
          CompletionProgress(State(), f);
          Complete(waiters[0], f);
        }
        return;
      }
      echoSeen := true;
      var p := Parked(waiters, f.replyTo.value);
      if p.None? {
        return;
      }
      UsersUnparked(waiters, f.replyTo.value);
      Complete(p.value, f);
    }

    method OnTimeout(n: nat)
      modifies this
      ensures State() == BridgeStep(old(State()), TimeOut(n))
    {
      Unpark(User(n));
    }

    method OnDisconnect()
      modifies this
      ensures State() == BridgeStep(old(State()), Disconnect)
    {
      connected := false;
    }
  }

  // -------- the plugin's resolver map in place

  class PluginPresence {
    var waiters: seq<Resolver>
    var echoSeen: bool
    var connected: bool
    var asked: nat
    var warmed: nat
    var resuming: seq<nat>
    var answers: seq<Answer>

    ghost function State(): Plugin
      reads this
    {
      Plugin(waiters, echoSeen, connected, asked, warmed, resuming, answers)
    }

    constructor ()
      ensures State() == NEW_PLUGIN
    {
      waiters, echoSeen, connected, asked := [], false, false, 0;
      warmed, resuming, answers := 0, [], [];
    }

    method Presence() returns (ok: bool)
      modifies this
      ensures ok == old(connected) && State() == PluginStep(old(State()), Ask)
    {
      if !connected {
        return false;
      }
      waiters := waiters + [UserResolver(asked)];
      asked := asked + 1;
      return true;
    }

    method Resolve(p: Resolver, f: Frame)
      modifies this`answers, this`resuming
      ensures State() == Resolved(old(State()), p, f)
    {
      match p {
        case UserResolver(n) => answers := answers + [Answer(n, f)];
        case WarmResolver(_, attempt) => resuming := resuming + [attempt];
      }
    }

    /** An id-less frame resolves a copy of what is parked, then clears the map. */
    method ResolvePresence(f: Frame)
      modifies this
      ensures State() == PluginStep(old(State()), Receive(f))
    {
      if f.replyTo.Some? {
        echoSeen := true;
        var p := Lookup(waiters, f.replyTo.value);
        if p.None? {
          return;
        }
        waiters := Without(waiters, f.replyTo.value);
        Resolve(p.value, f);
        return;
      }
      if echoSeen {
        return;
      }
      var parked := waiters;
      var i := 0;
      while i < |parked|
        invariant 0 <= i <= |parked| && waiters == parked && echoSeen == old(echoSeen)
        invariant AllResolved(State(), parked[i..], f) == AllResolved(old(State()), parked, f)
      {
        assert parked[i..][1..] == parked[i + 1..];
        Resolve(parked[i], f);
        i := i + 1;
      }
      waiters := [];
    }

    /** One turn of the warm-up loop after its await is over. */
    method ResumeWarmUp()
      modifies this
      ensures State() == PluginStep(old(State()), WarmResume)
    {
      if resuming == [] {
        return;
      }
      var attempt := resuming[0] + 1;
      resuming := resuming[1..];
      if attempt >= 3 || echoSeen || !connected {
        return;
      }
      waiters := waiters + [WarmResolver(warmed, attempt)];
      warmed := warmed + 1;
    }
  }
}
