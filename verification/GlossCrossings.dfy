/**
 * Runs from two empty glossaries that break without the hypotheses: proposals that cross and
 * clash, and a drop of a pair that is still pending. Each run says one or two words twice, so
 * that they are proposed, and then delivers what is in flight.
 */
module GlossCrossings {
  import opened Text
  import opened GlossText
  import opened GlossConv
  import opened GlossProtocol
  import opened GlossTraces
  import GlossSessions

  /** Some trace leads here; a calm one has no clashes and no drops. */
  ghost predicate Reached(calm: bool, n: Net) {
    exists states, moves :: LeadsTo(calm, states, moves, n)
  }

  ghost predicate LeadsTo(calm: bool, states: seq<Net>, moves: seq<Move>, n: Net) {
    && IsTrace(states, moves) && states[|moves|] == n
    && (calm ==> ClashFree(states, moves) && DropFree(moves))
  }

  /** Some trace leads here, with clashes and drops of any kind. */
  ghost predicate Reachable(n: Net) {
    Reached(false, n)
  }

  lemma ReachStart(calm: bool)
    ensures Reached(calm, START)
  {
    assert LeadsTo(calm, [START], [], START);
  }

  ghost predicate IsCalm(n: Net, m: Move) {
    !Clashes(n, m) && !m.e.DropOwn?
  }

  lemma ReachNext(calm: bool, n: Net, m: Move, n': Net)
    requires Reached(calm, n) && Moves(n, m, n') && (calm ==> IsCalm(n, m))
    ensures Reached(calm, n')
  {
    var states, moves :| LeadsTo(calm, states, moves, n);
    TraceGrows(states, moves, m, n');
    if calm {
      CalmGrows(states, moves, m, n');
    }
    assert LeadsTo(calm, states + [n'], moves + [m], n');
  }

  lemma TraceGrows(states: seq<Net>, moves: seq<Move>, m: Move, n': Net)
    requires IsTrace(states, moves) && Moves(states[|moves|], m, n')
    ensures IsTrace(states + [n'], moves + [m])
  {
    var more, moves' := states + [n'], moves + [m];
    forall i | 0 <= i < |moves'| ensures Moves(more[i], moves'[i], more[i + 1]) {
      if i < |moves| {
        assert Moves(states[i], moves[i], states[i + 1]);
      }
    }
  }

  lemma CalmGrows(states: seq<Net>, moves: seq<Move>, m: Move, n': Net)
    requires |states| == |moves| + 1 && ClashFree(states, moves) && DropFree(moves) && IsCalm(states[|moves|], m)
    ensures ClashFree(states + [n'], moves + [m]) && DropFree(moves + [m])
  {
    var more, moves' := states + [n'], moves + [m];
    forall i | 0 <= i < |moves'| ensures !Clashes(more[i], moves'[i]) {
      if i < |moves| {
        assert !Clashes(states[i], moves[i]);
      }
    }
  }

  lemma XSteps(calm: bool, n: Net, e: Event, n': Net)
    requires Reached(calm, n) && AnyStep(n, e, n') && (calm ==> !e.DropOwn? && (e.Observe? ==> n.yx == []))
    ensures Reached(calm, n')
  {
    assert Moves(n, Move(true, e), n') && Flat([]) == [];
    ReachNext(calm, n, Move(true, e), n');
  }

  lemma YSteps(calm: bool, n: Net, e: Event, n': Net)
    requires Reached(calm, n) && AnyStep(Flip(n), e, Flip(n')) && (calm ==> !e.DropOwn? && (e.Observe? ==> n.xy == []))
    ensures Reached(calm, n')
  {
    assert Moves(n, Move(false, e), n') && Flat([]) == [];
    ReachNext(calm, n, Move(false, e), n');
  }

  // -------- saying one word twice

  /** A single word long enough to be proposed. */
  predicate LongWord(w: string) {
    IsWord(w) && |w| >= MIN_TERM
  }

  lemma {:induction false} LetterRunAll(w: string)
    requires forall ch :: ch in w ==> Letter(ch)
    ensures LetterRun(w) == w
  {
    if w != "" {
      assert forall ch :: ch in w[1..] ==> ch in w;
      LetterRunAll(w[1..]);
    }
  }

  lemma WordAlone(w: string)
    requires IsWord(w)
    ensures LetterWords(Lower(w)) == [w]
  {
    forall i | 0 <= i < |w| ensures LowerChar(w[i]) == w[i] {
      assert w[i] in w;
    }
    assert Lower(w) == w;
    LetterRunAll(w);
    assert w[0] in w && w[|w|..] == "";
  }

  lemma OnlyGram(w: string, t: string)
    requires IsWord(w)
    ensures IsGram(w, t) <==> t == w
  {
    WordAlone(w);
    var ws := LetterWords(Lower(w));
    assert ws[0..1] == [w];
    if t == w {
      assert GramAt(ws, 1, 0, t);
    }
  }

  ghost predicate NoCandidates(c: Conv) {
    forall t :: !IsCandidate(c, t)
  }

  function SeenOnce(c: Conv, w: string): Conv {
    c.(seen := c.seen[w := 1])
  }

  function SeenTwice(c: Conv, w: string): Conv {
    c.(seen := c.seen[w := 2])
  }

  lemma FirstSight(c: Conv, w: string)
    requires LongWord(w) && w !in c.seen && NoCandidates(c)
    ensures Proposes(c, w, SeenOnce(c, w), []) && NoCandidates(SeenOnce(c, w))
  {
    var c' := SeenOnce(c, w);
    forall t ensures IsGram(w, t) <==> t == w {
      OnlyGram(w, t);
    }
    forall t ensures !IsCandidate(c', t) {
      assert !IsCandidate(c, t);
    }
    assert c.(seen := c'.seen) == c';
  }

  lemma SecondSight(c: Conv, w: string, a: string)
    requires LongWord(w) && w in c.seen && c.seen[w] == 1 && !Knows(c, w) && NoCandidates(c)
    requires FirstFree(BaseOf(w), c.reserved, a)
    ensures var c' := Offered(SeenTwice(c, w), Binding(w, a)); Proposes(c, w, c', [Binding(w, a)]) && NoCandidates(c')
  {
    var b, c1 := Binding(w, a), SeenTwice(c, w);
    var c' := Offered(c1, b);
    forall t ensures IsGram(w, t) <==> t == w {
      OnlyGram(w, t);
    }
    assert [b][..0] == [] && OfferedAll(c1, [b]) == c';
    forall t ensures IsCandidate(c1, t) <==> HasTerm([b], t) {
      assert !IsCandidate(c, t);
      assert [b][0].term == w;
    }
    forall t ensures !IsCandidate(c', t) {
      assert !IsCandidate(c, t);
    }
    WordSplits(w);
    assert c.reserved + AbbrevsOf([]) == c.reserved;
    assert GeneratedAt(c.reserved, [b], 0);
    assert c1 == c.(seen := c'.seen);
  }

  lemma WordSplits(w: string)
    requires IsWord(w)
    ensures Split(w) == [w] && NoneEmpty(Split(w))
  {
    assert !Letter(' ');
    SplitWord(w, "");
  }

  /** The base abbreviation of a word. */
  function BaseOf(w: string): string
    requires IsWord(w)
  {
    WordSplits(w);
    BaseAbbrev(w)
  }

  // -------- the building blocks of a run

  function Opposite(m: Move): Move {
    m.(byX := !m.byX)
  }

  lemma ReachFlipped(n: Net)
    requires Reachable(n)
    ensures Reachable(Flip(n))
  {
    var states, moves :| LeadsTo(false, states, moves, n);
    var flipped := seq(|states|, i requires 0 <= i < |states| => Flip(states[i]));
    var turned := seq(|moves|, i requires 0 <= i < |moves| => Opposite(moves[i]));
    forall i | 0 <= i < |turned| ensures Moves(flipped[i], turned[i], flipped[i + 1]) {
      assert Moves(states[i], moves[i], states[i + 1]);
      assert Flip(flipped[i]) == states[i] && Flip(flipped[i + 1]) == states[i + 1];
    }
    assert Flip(START) == START;
    assert LeadsTo(false, flipped, turned, Flip(n));
  }

  /** x has said w twice and proposes it as a. */
  function SaidTwice(n: Net, w: string, a: string): Net {
    var b := Binding(w, a);
    n.(x := Offered(SeenTwice(n.x, w), b), xy := n.xy + [Propose([b])], hist := n.hist + {b})
  }

  lemma SayTwice(calm: bool, n: Net, w: string, a: string)
    requires Reached(calm, n) && LongWord(w) && w !in n.x.seen && !Knows(n.x, w) && NoCandidates(n.x)
    requires FirstFree(BaseOf(w), n.x.reserved, a) && (calm ==> n.yx == [])
    ensures Reached(calm, SaidTwice(n, w, a)) && NoCandidates(SaidTwice(n, w, a).x)
  {
    var once := n.(x := SeenOnce(n.x, w));
    FirstSight(n.x, w);
    assert n.hist + AsSet([]) == n.hist;
    XSteps(calm, n, Observe(w, []), once);
    SecondSight(once.x, w, a);
    var b := Binding(w, a);
    assert SeenTwice(once.x, w) == SeenTwice(n.x, w);
    assert AsSet([b]) == {b};
    XSteps(calm, once, Observe(w, [b]), SaidTwice(n, w, a));
  }

  /** x has handled the first frame on the way to it. */
  function Got(n: Net): Net
    requires n.yx != []
  {
    var rest := n.(yx := n.yx[1..]);
    match n.yx[0]
    case Propose(bs) => rest.(x := Accept(n.x, bs).0, xy := n.xy + [AckFrame(Accept(n.x, bs).1)])
    case AckFrame(bs) => rest.(x := Confirm(n.x, bs))
    case DropFrame(abbrevs) => rest.(x := Deactivate(n.x, abbrevs))
    case Msg(_, _, _) => rest
  }

  lemma XGets(calm: bool, n: Net)
    requires Reached(calm, n) && n.yx != []
    ensures Reached(calm, Got(n))
  {
    XSteps(calm, n, Receive, Got(n));
  }

  lemma YGets(calm: bool, n: Net)
    requires Reached(calm, n) && n.xy != []
    ensures Reached(calm, Flip(Got(Flip(n))))
  {
    var n' := Flip(Got(Flip(n)));
    assert Flip(n') == Got(Flip(n));
    YSteps(calm, n, Receive, n');
  }

  lemma BaseIsFree(w: string)
    requires IsWord(w)
    ensures FirstFree(BaseOf(w), {}, BaseOf(w))
    ensures BaseOf(w) != "" && AllAlnum(BaseOf(w))
  {
    assert Candidate(BaseOf(w), 1) == BaseOf(w);
    assert TermOf([w], w);
    BaseOfTerm(w);
  }

  // -------- a drop of a pending pair

  /** Nothing is in flight; b is live at x and has been dropped at y. */
  ghost predicate SplitOver(n: Net, b: Binding) {
    && n.xy == [] && n.yx == [] && IsLive(n.x, b) && b.term in n.y.dropped && b.abbrev !in n.y.reverse
  }

  /**
   * x proposes a word and drops the abbreviation before the acknowledgement is in: the drop does
   * nothing at x, takes the pair from y, and the acknowledgement then makes it live at x for good.
   */
  lemma EarlyDropSplits(w: string)
    requires LongWord(w)
    ensures exists n :: Reachable(n) && SplitOver(n, Binding(w, BaseOf(w)))
  {
    var a := BaseOf(w);
    var b := Binding(w, a);
    BaseIsFree(w);
    ReachStart(false);
    SayTwice(false, START, w, a);
    var n1 := SaidTwice(START, w, a);
    DropsOne(n1.x, a);
    var n2 := n1.(xy := n1.xy + [DropFrame([a])]);
    XSteps(false, n1, DropOwn(a), n2);
    assert n2.xy == [Propose([b]), DropFrame([a])];
    YGets(false, n2);
    var n3 := Flip(Got(Flip(n2)));
    GlossSessions.OnePair(EMPTY_CONV, b);
    assert n3.y == Activated(EMPTY_CONV, b) && n3.xy == [DropFrame([a])] && n3.yx == [AckFrame([b])];
    YGets(false, n3);
    var n4 := Flip(Got(Flip(n3)));
    DropsOne(n3.y, a);
    assert n4.x == n1.x && n4.xy == [] && n4.yx == [AckFrame([b])];
    XGets(false, n4);
    var n5 := Got(n4);
    GlossSessions.OnePair(n4.x, b);
    assert SplitOver(n5, b);
  }

  // -------- crossing proposals that clash

  /** x has said t twice and y has said s twice, both under the same base; the proposals cross. */
  function Crossing(s: string, t: string): Net
    requires LongWord(s) && LongWord(t)
  {
    Flip(SaidTwice(Flip(SaidTwice(START, t, BaseOf(t))), s, BaseOf(s)))
  }

  lemma CrossingReached(s: string, t: string)
    requires LongWord(s) && LongWord(t) && BaseOf(s) == BaseOf(t)
    ensures var n, a := Crossing(s, t), BaseOf(t);
      && Reachable(n) && NoCandidates(n.y)
      && n.xy == [Propose([Binding(t, a)])] && n.yx == [Propose([Binding(s, a)])]
  {
    var n := SaidTwice(START, t, BaseOf(t));
    BaseIsFree(t);
    ReachStart(false);
    SayTwice(false, START, t, BaseOf(t));
    ReachFlipped(n);
    SayTwice(false, Flip(n), s, BaseOf(s));
    ReachFlipped(SaidTwice(Flip(n), s, BaseOf(s)));
  }

  /** Nothing is in flight; both sides hold both terms under a, and each reads it as its own. */
  ghost predicate OwnReadings(n: Net, s: string, t: string, a: string) {
    && n.xy == [] && n.yx == []
    && IsLive(n.x, Binding(s, a)) && IsLive(n.x, Binding(t, a))
    && IsLive(n.y, Binding(s, a)) && IsLive(n.y, Binding(t, a))
    && Expand(n.x.reverse, "~" + a) == t && Expand(n.y.reverse, "~" + a) == s
  }

  /** Two words with one base, each said twice on one side: both get the same abbreviation. */
  lemma CrossedAbbrevBreaks(s: string, t: string)
    requires LongWord(s) && LongWord(t) && s != t && BaseOf(s) == BaseOf(t)
    ensures exists n :: Reachable(n) && OwnReadings(n, s, t, BaseOf(t))
  {
    CrossingReached(s, t);
    BaseIsFree(t);
    CrossedAbbrevDelivered(Crossing(s, t), s, t, BaseOf(t));
  }

  lemma CrossedAbbrevDelivered(n: Net, s: string, t: string, a: string)
    requires Reachable(n) && s != t && a != "" && AllAlnum(a)
    requires n.xy == [Propose([Binding(t, a)])] && n.yx == [Propose([Binding(s, a)])]
    requires IsProposed(n.x, t) && !Knows(n.x, s) && IsProposed(n.y, s) && !Knows(n.y, t)
    ensures exists n' :: Reachable(n') && OwnReadings(n', s, t, a)
  {
    var p, q := Binding(s, a), Binding(t, a);
    XGets(false, n);
    var n3 := Got(n);
    GlossSessions.OnePair(n.x, p);
    assert n3.x == Activated(n.x, p) && n3.xy == [Propose([q]), AckFrame([p])] && n3.yx == [];
    YGets(false, n3);
    var n4 := Flip(Got(Flip(n3)));
    GlossSessions.OnePair(n3.y, q);
    assert n4.y == Activated(n.y, q) && n4.xy == [AckFrame([p])] && n4.yx == [AckFrame([q])];
    CrossedAbbrevAcked(n4, s, t, a);
  }

  lemma CrossedAbbrevAcked(n: Net, s: string, t: string, a: string)
    requires Reachable(n) && s != t && a != "" && AllAlnum(a)
    requires n.xy == [AckFrame([Binding(s, a)])] && n.yx == [AckFrame([Binding(t, a)])]
    requires IsProposed(n.x, t) && IsLive(n.x, Binding(s, a)) && IsProposed(n.y, s) && IsLive(n.y, Binding(t, a))
    ensures exists n' :: Reachable(n') && OwnReadings(n', s, t, a)
  {
    var p, q := Binding(s, a), Binding(t, a);
    XGets(false, n);
    var n5 := Got(n);
    GlossSessions.OnePair(n.x, q);
    assert n5.x == Activated(n.x, q) && n5.yx == [];
    CrossedAbbrevLastAck(n5, s, t, a);
  }

  lemma CrossedAbbrevLastAck(n5: Net, s: string, t: string, a: string)
    requires Reachable(n5) && s != t && a != "" && AllAlnum(a)
    requires n5.xy == [AckFrame([Binding(s, a)])] && n5.yx == []
    requires IsLive(n5.x, Binding(s, a)) && IsLive(n5.x, Binding(t, a)) && a in n5.x.reverse && n5.x.reverse[a] == t
    requires IsProposed(n5.y, s) && IsLive(n5.y, Binding(t, a))
    ensures exists n' :: Reachable(n') && OwnReadings(n', s, t, a)
  {
    var p := Binding(s, a);
    YGets(false, n5);
    var n6 := Flip(Got(Flip(n5)));
    GlossSessions.OnePair(n5.y, p);
    assert n6.y == Activated(n5.y, p) && n6.xy == [];
    GlossSessions.ExpandOneToken(n6.x.reverse, a);
    GlossSessions.ExpandOneToken(n6.y.reverse, a);
    assert OwnReadings(n6, s, t, a);
  }

  /** Nothing is in flight; t is live on both sides, but neither reads the other's token for it. */
  ghost predicate Estranged(n: Net, t: string, a: string, b: string) {
    && n.xy == [] && n.yx == [] && IsLive(n.x, Binding(t, b)) && IsLive(n.y, Binding(t, a))
    && Expand(n.y.reverse, "~" + b) == "~" + b && Expand(n.x.reverse, "~" + a) != t
  }

  /** The second word y proposes gets the next number. */
  lemma SecondIsNumbered(a: string)
    ensures FirstFree(a, {a}, a + Digits(2))
  {
    assert Candidate(a, 1) == a && Candidate(a, 2) == a + Digits(2);
    assert |Candidate(a, 2)| > |a|;
  }

  /** y has proposed s, then both propose t: under a here and under the next number there. */
  lemma CrossedTermReached(s: string, t: string)
    requires LongWord(s) && LongWord(t) && s != t && BaseOf(s) == BaseOf(t)
    ensures var a, n := BaseOf(t), Crossing(s, t);
      var n' := Flip(SaidTwice(Flip(n), t, a + Digits(2)));
      Reachable(n') && n'.yx == [Propose([Binding(s, a)]), Propose([Binding(t, a + Digits(2))])] && n'.xy == n.xy
  {
    var a, n := BaseOf(t), Crossing(s, t);
    CrossingReached(s, t);
    SecondIsNumbered(a);
    ReachFlipped(n);
    assert n.y.reserved == {a};
    SayTwice(false, Flip(n), t, a + Digits(2));
    ReachFlipped(SaidTwice(Flip(n), t, a + Digits(2)));
  }

  /**
   * Both sides propose t, under different abbreviations because y has used the first for s: both
   * yield, x cannot be read at all and y is read as saying s.
   */
  lemma CrossedTermBreaks(s: string, t: string)
    requires LongWord(s) && LongWord(t) && s != t && BaseOf(s) == BaseOf(t)
    ensures exists n :: Reachable(n) && Estranged(n, t, BaseOf(t), BaseOf(t) + Digits(2))
  {
    var a := BaseOf(t);
    var b := a + Digits(2);
    var n3 := Flip(SaidTwice(Flip(Crossing(s, t)), t, b));
    CrossedTermReached(s, t);
    CrossingReached(s, t);
    BaseIsFree(t);
    CrossedTermDelivered(n3, s, t, a, b);
  }

  lemma CrossedTermDelivered(n: Net, s: string, t: string, a: string, b: string)
    requires Reachable(n) && s != t && a != b && a != "" && AllAlnum(a) && b != "" && AllAlnum(b)
    requires n.xy == [Propose([Binding(t, a)])] && n.yx == [Propose([Binding(s, a)]), Propose([Binding(t, b)])]
    requires IsProposed(n.x, t) && !Knows(n.x, s) && b !in n.x.reverse
    requires IsProposed(n.y, t) && IsProposed(n.y, s) && b !in n.y.reverse
    ensures exists n' :: Reachable(n') && Estranged(n', t, a, b)
  {
    var p, q, r := Binding(s, a), Binding(t, a), Binding(t, b);
    XGets(false, n);
    var n4 := Got(n);
    GlossSessions.OnePair(n.x, p);
    assert n4.x == Activated(n.x, p) && n4.xy == [Propose([q]), AckFrame([p])] && n4.yx == [Propose([r])];
    XGets(false, n4);
    var n5 := Got(n4);
    GlossSessions.OnePair(n4.x, r);
    assert n5.x == Activated(n4.x, r) && n5.xy == [Propose([q]), AckFrame([p]), AckFrame([r])] && n5.yx == [];
    YGets(false, n5);
    var n6 := Flip(Got(Flip(n5)));
    GlossSessions.OnePair(n5.y, q);
    assert n6.y == Activated(n.y, q) && n6.xy == [AckFrame([p]), AckFrame([r])] && n6.yx == [AckFrame([q])];
    CrossedTermAcked(n6, s, t, a, b);
  }

  lemma CrossedTermAcked(n: Net, s: string, t: string, a: string, b: string)
    requires Reachable(n) && s != t && a != b && a != "" && AllAlnum(a) && b != "" && AllAlnum(b)
    requires n.xy == [AckFrame([Binding(s, a)]), AckFrame([Binding(t, b)])] && n.yx == [AckFrame([Binding(t, a)])]
    requires IsLive(n.x, Binding(t, b)) && a in n.x.reverse && n.x.reverse[a] == s
    requires IsLive(n.y, Binding(t, a)) && IsProposed(n.y, s) && b !in n.y.reverse
    ensures exists n' :: Reachable(n') && Estranged(n', t, a, b)
  {
    var p, r := Binding(s, a), Binding(t, b);
    XGets(false, n);
    var n7 := Got(n);
    GlossSessions.OnePair(n.x, Binding(t, a));
    assert n7 == n.(yx := []);
    YGets(false, n7);
    var n8 := Flip(Got(Flip(n7)));
    GlossSessions.OnePair(n7.y, p);
    assert n8.y == Activated(n.y, p) && n8.xy == [AckFrame([r])] && n8.yx == [];
    YGets(false, n8);
    var n9 := Flip(Got(Flip(n8)));
    GlossSessions.OnePair(n8.y, r);
    assert n9.y == n8.y && n9.xy == [] && n9.yx == [];
    GlossSessions.ExpandOneToken(n9.x.reverse, a);
    GlossSessions.ExpandOneToken(n9.y.reverse, b);
    assert Estranged(n9, t, a, b);
  }

  // -------- words that do this

  lemma {:induction false} DropVowelsConcat(v: string, w: string)
    ensures DropVowels(v + w) == DropVowels(v) + DropVowels(w)
  {
    if v == "" {
      assert v + w == w;
    } else {
      assert (v + w)[1..] == v[1..] + w;
      DropVowelsConcat(v[1..], w);
    }
  }

  /** A word and its plural: "standard" and "standards" both begin with stnd. */
  lemma PluralSharesBase(w: string)
    requires LongWord(w) && |DropVowels(w[1..])| >= MAX_ABBREV - 1
    ensures LongWord(w + "s") && BaseOf(w + "s") == BaseOf(w)
  {
    WordSplits(w);
    WordSplits(w + "s");
    DropVowelsConcat(w[1..], "s");
    assert (w + "s")[1..] == w[1..] + "s";
  }

  /** Each consonant counts. */
  lemma {:induction false} ConsonantCounts(s: string, i: nat)
    requires i < |s| && !Vowel(s[i])
    ensures |DropVowels(s)| >= 1 + |DropVowels(s[i + 1..])|
    decreases i
  {
    if i > 0 {
      assert s[1..][i - 1] == s[i] && s[1..][i..] == s[i + 1..];
      ConsonantCounts(s[1..], i - 1);
    }
  }

  /** Three consonants after the first letter fill the base. */
  lemma FullBase(w: string, i: nat, j: nat, k: nat)
    requires LongWord(w) && 1 <= i < j < k < |w| && !Vowel(w[i]) && !Vowel(w[j]) && !Vowel(w[k])
    ensures |DropVowels(w[1..])| >= MAX_ABBREV - 1 && |BaseOf(w)| == MAX_ABBREV
  {
    var s := w[1..];
    ConsonantCounts(s, i - 1);
    assert s[i..] == w[i + 1..];
    ConsonantCounts(w[i + 1..], j - i - 1);
    assert w[i + 1..][j - i..] == w[j + 1..];
    ConsonantCounts(w[j + 1..], k - j - 1);
    WordSplits(w);
  }

  lemma StandardHasBase()
    ensures LongWord("standard") && |DropVowels("standard"[1..])| >= MAX_ABBREV - 1
  {
    FullBase("standard", 1, 3, 4);
  }
}
