/** What two negotiating agents can rely on, in every run, and the runs that break without care. */
module GlossSessions {
  import opened Basics
  import opened Text
  import opened GlossText
  import opened GlossConv
  import opened GlossProtocol

  // -------- the shape of what is negotiated

  ghost predicate PairShape(b: Binding) {
    Wordlike(b.term) && |b.term| >= MIN_TERM && b.abbrev != "" && AllAlnum(b.abbrev)
  }

  ghost predicate SeenTerms(c: Conv) {
    forall t :: t in c.seen ==> IsTerm(t)
  }

  predicate MsgOk(f: Frame) {
    f.Msg? ==> f.body == CompactWith(f.used, f.text)
  }

  /** short: at most 999 abbreviations have been reserved on either side so far. */
  ghost predicate Shape(short: bool, n: Net) {
    && SeenTerms(n.x) && SeenTerms(n.y)
    && (forall b :: b in n.hist ==> PairShape(b) && (short ==> |b.abbrev| < MIN_TERM))
    && (forall f :: f in n.xy ==> MsgOk(f))
    && (forall f :: f in n.yx ==> MsgOk(f))
  }

  lemma {:induction false} AcceptSeen(c: Conv, bs: seq<Binding>)
    ensures Accept(c, bs).0.seen == c.seen && Accept(c, bs).0.dropped == c.dropped
    decreases |bs|
  {
    if bs != [] {
      AcceptSeen(AcceptOne(c, bs[0]).0, bs[1..]);
    }
  }

  lemma {:induction false} ConfirmSeen(c: Conv, bs: seq<Binding>)
    ensures Confirm(c, bs).seen == c.seen && Confirm(c, bs).dropped == c.dropped
    decreases |bs|
  {
    if bs != [] {
      ConfirmSeen(ConfirmOne(c, bs[0]), bs[1..]);
    }
  }

  lemma {:induction false} DeactivateSeen(c: Conv, abbrevs: seq<string>)
    ensures Deactivate(c, abbrevs).seen == c.seen
    decreases |abbrevs|
  {
    if abbrevs != [] {
      DeactivateSeen(DeactivateOne(c, abbrevs[0]), abbrevs[1..]);
    }
  }

  lemma ProposedShape(c: Conv, text: string, c': Conv, bs: seq<Binding>, i: nat)
    requires Proposes(c, text, c', bs) && SeenTerms(c) && i < |bs|
    ensures PairShape(bs[i])
    ensures |c'.reserved| <= 999 ==> |bs[i].abbrev| < MIN_TERM
  {
    var t, pre := bs[i].term, c.reserved + AbbrevsOf(bs[..i]);
    assert HasTerm(bs, t) && IsCandidate(c.(seen := c'.seen), t);
    if t !in c.seen {
      GramsAreTerms(text, t);
    }
    TermsAreWordlike(t);
    BaseOfTerm(t);
    assert GeneratedAt(c.reserved, bs, i);
    FirstFreeShape(BaseAbbrev(t), pre, bs[i].abbrev, bs[i].abbrev);
    if |c'.reserved| <= 999 {
      ProposedReserved(c, text, c', bs, i);
      SmallerSubset(pre + {bs[i].abbrev}, c'.reserved);
      ShortAbbrev(BaseAbbrev(t), pre, bs[i].abbrev);
    }
  }

  /** Every proposal, with those before it, ends up among the reserved names. */
  lemma ProposedReserved(c: Conv, text: string, c': Conv, bs: seq<Binding>, i: nat)
    requires Proposes(c, text, c', bs) && i < |bs|
    ensures c.reserved + AbbrevsOf(bs[..i]) + {bs[i].abbrev} <= c'.reserved
  {
    OfferedAllFields(c.(seen := c'.seen), bs);
    assert bs[i] in bs;
  }

  lemma SeenStaysTerms(c: Conv, text: string, c': Conv, bs: seq<Binding>)
    requires Proposes(c, text, c', bs) && SeenTerms(c)
    ensures SeenTerms(c')
  {
    forall t | t in c'.seen ensures IsTerm(t) {
      if t !in c.seen {
        GramsAreTerms(text, t);
      }
    }
  }

  lemma StepKeepsShape(short: bool, n: Net, e: Event, n': Net)
    requires Shape(short, n) && Step(n, e, n') && (short ==> |n'.x.reserved| <= 999)
    ensures Shape(short, n')
  {
    match e
    case Observe(text, bs) =>
      SeenStaysTerms(n.x, text, n'.x, bs);
      forall b | b in bs ensures PairShape(b) && (short ==> |b.abbrev| < MIN_TERM) {
        var i :| 0 <= i < |bs| && bs[i] == b;
        ProposedShape(n.x, text, n'.x, bs, i);
      }
    case Speak(text, act) =>
    case DropOwn(abbrev) =>
      DeactivateSeen(n.x, [abbrev]);
    case Receive =>
      match n.yx[0]
      case Propose(bs) => AcceptSeen(n.x, bs);
      case AckFrame(bs) => ConfirmSeen(n.x, bs);
      case DropFrame(terms) => DeactivateSeen(n.x, terms);
      case Msg(_, _, _) =>
  }

  ghost predicate FewReserved(n: Net) {
    |n.x.reserved| <= 999 && |n.y.reserved| <= 999
  }

  lemma {:induction false} RunKeepsShape(short: bool, p: Policy, states: seq<Net>, i: nat)
    requires IsRun(p, states) && i < |states|
    requires short ==> forall k :: 0 <= k <= i ==> FewReserved(states[k])
    ensures Shape(short, states[i])
  {
    if i > 0 {
      RunKeepsShape(short, p, states, i - 1);
      var n, n' := states[i - 1], states[i];
      assert Next(p, n, n');
      var e :| Takes(p, n, e, n') || Takes(p, Flip(n), e, Flip(n'));
      assert short ==> FewReserved(n');
      if Takes(p, n, e, n') {
        StepKeepsShape(short, n, e, n');
      } else {
        StepKeepsShape(short, Flip(n), e, Flip(n'));
      }
    }
  }

  // -------- what a received token becomes

  ghost predicate Reads(c: Conv, b: Binding) {
    b.abbrev in c.reverse && c.reverse[b.abbrev] == b.term
  }

  /** The receiver x holds the sender's pair, or has dropped it and holds nothing in its place. */
  lemma HeadPairs(p: Policy, n: Net, b: Binding)
    requires NetGood(p, n) && n.yx != [] && n.yx[0].Msg? && b in n.yx[0].used
    ensures b in n.hist
    ensures Reads(n.x, b) || (b.abbrev !in n.x.reverse && b.term in n.x.dropped)
  {
    var q, say := Flat(n.yx), Items(n.yx[0])[0];
    assert q[0] == say && ItemOk(n.y, n.x, q[..0], q[0], n.hist);
    assert CanRead(n.x, [], b);
    if IsActive(n.x, b.term) {
      assert Binding(b.term, n.x.entries[b.term].abbrev) in n.hist;
    } else if b.abbrev in n.x.reverse {
      OneTerm(n.x, n.hist, b, b.abbrev);
    }
  }

  lemma ExpandOneToken(reverse: map<string, string>, w: string)
    requires w != "" && AllAlnum(w)
    ensures Expand(reverse, "~" + w) == if w in reverse then reverse[w] else "~" + w
  {
    ExpandToken(reverse, w, "");
    assert "~" + w + "" == "~" + w;
  }

  /**
   * In every run in which crossing proposals agree, whatever is dropped and when: a token a
   * receiver gets expands to the sender's term, or stays as it is because the receiver has
   * dropped the pair; it never becomes another term.
   */
  lemma TokenFate(p: Policy, states: seq<Net>, i: nat, b: Binding)
    requires IsRun(p, states) && i < |states|
    requires states[i].yx != [] && states[i].yx[0].Msg? && b in states[i].yx[0].used
    ensures var x, token := states[i].x, "~" + b.abbrev;
      || Expand(x.reverse, token) == b.term
      || (Expand(x.reverse, token) == token && b.term in x.dropped)
    ensures p == NoDrop ==> Expand(states[i].x.reverse, "~" + b.abbrev) == b.term
  {
    RunKeepsInv(p, states, i);
    RunKeepsShape(false, p, states, i);
    HeadPairs(p, states[i], b);
    ExpandOneToken(states[i].x.reverse, b.abbrev);
    if p == NoDrop {
      NothingDropped(states, i);
    }
  }

  /** Either side receives as x does: a run seen from the other side is a run. */
  lemma FlippedRun(p: Policy, states: seq<Net>)
    requires IsRun(p, states)
    ensures IsRun(p, seq(|states|, i requires 0 <= i < |states| => Flip(states[i])))
  {
    var flipped := seq(|states|, i requires 0 <= i < |states| => Flip(states[i]));
    forall i | 0 <= i < |flipped| - 1 ensures Next(p, flipped[i], flipped[i + 1]) {
      var n, n' := states[i], states[i + 1];
      assert Next(p, n, n');
      var e :| Takes(p, n, e, n') || Takes(p, Flip(n), e, Flip(n'));
      assert flipped[i] == Flip(n) && flipped[i + 1] == Flip(n') && Flip(Flip(n)) == n && Flip(Flip(n')) == n';
      assert Takes(p, flipped[i], e, flipped[i + 1]) || Takes(p, Flip(flipped[i]), e, Flip(flipped[i + 1]));
    }
  }

  ghost predicate Undropped(n: Net) {
    && n.x.dropped == {} && n.y.dropped == {}
    && (forall f :: f in n.xy ==> !f.DropFrame?) && (forall f :: f in n.yx ==> !f.DropFrame?)
  }

  lemma StepKeepsUndropped(n: Net, e: Event, n': Net)
    requires Undropped(n) && Takes(NoDrop, n, e, n')
    ensures Undropped(n')
  {
    match e
    case Observe(text, bs) =>
      OfferedAllFields(n.x.(seen := n'.x.seen), bs);
    case Speak(text, act) =>
    case DropOwn(abbrev) =>
    case Receive =>
      match n.yx[0]
      case Propose(bs) => AcceptSeen(n.x, bs);
      case AckFrame(bs) => ConfirmSeen(n.x, bs);
      case DropFrame(terms) =>
      case Msg(_, _, _) =>
  }

  lemma {:induction false} NothingDropped(states: seq<Net>, i: nat)
    requires IsRun(NoDrop, states) && i < |states|
    ensures Undropped(states[i])
  {
    if i > 0 {
      NothingDropped(states, i - 1);
      var n, n' := states[i - 1], states[i];
      assert Next(NoDrop, n, n');
      var e :| Takes(NoDrop, n, e, n') || Takes(NoDrop, Flip(n), e, Flip(n'));
      if Takes(NoDrop, n, e, n') {
        StepKeepsUndropped(n, e, n');
      } else {
        StepKeepsUndropped(Flip(n), e, Flip(n'));
      }
    }
  }

  // -------- whole messages

  /**
   * Without drops a chat message whose text holds no literal live token arrives exactly as it was
   * said if and only if no pass of its compaction swallows a token; and when none does, it arrives
   * if and only if its text holds no literal live token.
   */
  lemma MessageArrives(states: seq<Net>, i: nat)
    requires IsRun(NoDrop, states) && i < |states| && states[i].yx != [] && states[i].yx[0].Msg?
    ensures var r, m := states[i].x.reverse, states[i].yx[0];
      && (NoLiveToken(r, m.text) ==> (Expand(r, m.body) == m.text <==> SwallowedAll(r, m.used, m.text) == 0))
      && (SwallowedAll(r, m.used, m.text) == 0 ==> (Expand(r, m.body) == m.text <==> NoLiveToken(r, m.text)))
  {
    var n, m := states[i], states[i].yx[0];
    RunKeepsInv(NoDrop, states, i);
    RunKeepsShape(false, NoDrop, states, i);
    NothingDropped(states, i);
    assert m in n.yx && MsgOk(m);
    forall b | b in m.used ensures Bound(n.x.reverse, b) {
      HeadPairs(NoDrop, n, b);
    }
    forall w | w in n.x.reverse ensures '~' !in n.x.reverse[w] {
      assert n.x.entries[n.x.reverse[w]].term == n.x.reverse[w];
      assert Binding(n.x.reverse[w], w) in n.hist;
    }
    RoundTrip(n.x.reverse, m.used, m.text);
  }

  /** While at most 999 abbreviations are reserved, compaction never makes a message longer. */
  lemma MessageNeverLonger(p: Policy, states: seq<Net>, i: nat)
    requires IsRun(p, states) && i < |states| && states[i].yx != [] && states[i].yx[0].Msg?
    requires forall k :: 0 <= k <= i ==> FewReserved(states[k])
    ensures |states[i].yx[0].body| <= |states[i].yx[0].text|
  {
    var n, m := states[i], states[i].yx[0];
    RunKeepsInv(p, states, i);
    RunKeepsShape(true, p, states, i);
    assert m in n.yx && MsgOk(m);
    forall b | b in m.used ensures |b.abbrev| < |b.term| {
      HeadPairs(p, n, b);
    }
    CompactNeverLonger(m.used, m.text);
  }

  // -------- agreement

  /** A pair that is live on one side is held, or has been dropped, on the other. */
  lemma LiveMeansBothHold(p: Policy, states: seq<Net>, i: nat, b: Binding)
    requires IsRun(p, states) && i < |states| && IsLive(states[i].x, b)
    ensures var y := states[i].y;
      (b.term in y.entries && y.entries[b.term].abbrev == b.abbrev) || b.term in y.dropped
  {
    RunKeepsInv(p, states, i);
    var n := states[i];
    assert Binding(b.term, n.x.entries[b.term].abbrev) in n.hist && CanRead(n.y, Flat(n.xy), b);
    if b.term in n.y.entries {
      assert Binding(b.term, n.y.entries[b.term].abbrev) in n.hist;
    }
  }

  /**
   * When nothing is dropped while it is pending, two agents with nothing left in flight hold the
   * same glossary and nothing is pending.
   */
  lemma QuietAgreement(p: Policy, states: seq<Net>, i: nat)
    requires IsRun(p, states) && p != AnyDrop && i < |states|
    requires states[i].xy == [] && states[i].yx == []
    ensures states[i].x.entries == states[i].y.entries && states[i].x.reverse == states[i].y.reverse
    ensures forall t :: t in states[i].x.entries ==> IsActive(states[i].x, t)
  {
    RunKeepsInv(p, states, i);
    SettledAgree(states[i].x, states[i].y, states[i].hist);
  }

  // -------- why the hypotheses are needed

  lemma OnePair(c: Conv, b: Binding)
    ensures Accept(c, [b]) == (AcceptOne(c, b).0, [AcceptOne(c, b).1])
    ensures Confirm(c, [b]) == ConfirmOne(c, b)
  {
    assert [b][1..] == [];
    assert [AcceptOne(c, b).1] + [] == [AcceptOne(c, b).1];
  }

  /** A term longer than the text is not in it. */
  lemma {:induction false} ReplaceTooLong(prev: bool, s: string, term: string, token: string)
    requires |term| > |s|
    ensures ReplaceTerm(prev, s, term, token) == s
    decreases |s|
  {
    if s != "" {
      ReplaceTooLong(Alnum(s[0]), s[1..], term, token);
    }
  }

  /**
   * A later term that begins with a live abbreviation swallows the token just inserted, as
   * "authentication" abbreviated to athn does before the term "athn queue": the text has no
   * token at all and still comes back changed.
   */
  lemma FirstWordBreaks(reverse: map<string, string>, term: string, abbrev: string, rest: string, other: string)
    requires abbrev != "" && AllAlnum(abbrev) && other != "" && AllAlnum(other)
    requires Reads(Conv(map[], reverse, map[], {}, {}), Binding(term, abbrev))
    requires Reads(Conv(map[], reverse, map[], {}, {}), Binding(abbrev + rest, other))
    requires LongestFirst([Binding(term, abbrev), Binding(abbrev + rest, other)])
    requires !StartsAlnum(rest) && '~' !in term && '~' !in rest
    ensures var act := [Binding(term, abbrev), Binding(abbrev + rest, other)];
      && NoLiveToken(reverse, term + rest)
      && Expand(reverse, CompactWith(act, term + rest)) == "~" + (abbrev + rest) != term + rest
  {
    var p, q := Binding(term, abbrev), Binding(abbrev + rest, other);
    assert |[p, q][0].term| >= |[p, q][1].term|;
    TwoPasses(p, q, term + rest);
    FirstPass(p, rest);
    SecondPass(abbrev, rest, other);
    Assoc("~", abbrev, rest);
    ExpandOneToken(reverse, other);
    TildeAlone(reverse, "~" + other);
    assert '~' in "~" + q.term;
    NoTildeNoToken(reverse, term + rest);
  }

  lemma TwoPasses(p: Binding, q: Binding, text: string)
    ensures CompactWith([p, q], text)
         == ReplaceTerm(false, ReplaceTerm(false, text, p.term, "~" + p.abbrev), q.term, "~" + q.abbrev)
  {
    assert [p, q][1..] == [q] && [q][1..] == [];
    var once := ReplaceTerm(false, text, p.term, "~" + p.abbrev);
    var twice := ReplaceTerm(false, once, q.term, "~" + q.abbrev);
    assert CompactWith([p, q], text) == CompactWith([q], once);
    assert CompactWith([q], once) == CompactWith([], twice);
  }

  lemma FirstPass(p: Binding, rest: string)
    requires |p.term| > |rest| && !StartsAlnum(rest)
    ensures ReplaceTerm(false, p.term + rest, p.term, "~" + p.abbrev) == "~" + p.abbrev + rest
  {
    assert (p.term + rest)[|p.term|..] == rest;
    ReplaceTooLong(EndsAlnum(p.term), rest, p.term, "~" + p.abbrev);
  }

  lemma SecondPass(abbrev: string, rest: string, other: string)
    requires StartsAlnum(abbrev)
    ensures ReplaceTerm(false, "~" + (abbrev + rest), abbrev + rest, "~" + other) == "~" + ("~" + other)
  {
    var second := abbrev + rest;
    assert second[|second|..] == "" && ("~" + second)[1..] == second && second[0] == abbrev[0];
    assert ReplaceTerm(false, second, second, "~" + other) == "~" + other;
  }

  lemma {:induction false} NoTildeNoToken(reverse: map<string, string>, s: string)
    requires '~' !in s
    ensures NoLiveToken(reverse, s)
  {
    if s != "" {
      NoTildeNoToken(reverse, s[1..]);
    }
  }
}
