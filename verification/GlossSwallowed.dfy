/**
 * A run in which a message is swallowed: a term is abbreviated, the abbreviation is then used as a
 * word of a second term, and a text that holds no token at all comes back changed.
 */
module GlossSwallowed {
  import opened Basics
  import opened Text
  import opened GlossText
  import opened GlossConv
  import opened GlossProtocol
  import opened GlossTraces
  import opened GlossCrossings
  import GlossSessions

  // -------- saying two words

  function Two(v: string, w: string): string {
    v + (" " + w)
  }

  lemma {:induction false} RunStops(w: string, rest: string)
    requires (forall ch :: ch in w ==> Letter(ch)) && (rest == "" || !Letter(rest[0]))
    ensures LetterRun(w + rest) == w
  {
    if w == "" {
      assert w + rest == rest;
    } else {
      assert (w + rest)[1..] == w[1..] + rest && (w + rest)[0] == w[0] && w[0] in w;
      RunStops(w[1..], rest);
    }
  }

  lemma WordThen(w: string, rest: string)
    requires IsWord(w) && (rest == "" || !Letter(rest[0]))
    ensures LetterWords(w + rest) == [w] + LetterWords(rest)
  {
    RunStops(w, rest);
    assert (w + rest)[0] == w[0] && w[0] in w && (w + rest)[|w|..] == rest;
  }

  lemma TwoWords(v: string, w: string)
    requires IsWord(v) && IsWord(w)
    ensures LetterWords(Lower(Two(v, w))) == [v, w]
  {
    var s := Two(v, w);
    forall i | 0 <= i < |s| ensures LowerChar(s[i]) == s[i] {
      assert s[i] in v || s[i] == ' ' || s[i] in w;
    }
    assert Lower(s) == s;
    WordThen(v, " " + w);
    assert !Letter(' ') && (" " + w)[1..] == w && w + "" == w;
    WordThen(w, "");
  }

  function GramsOf(v: string, w: string): set<string> {
    {v, w, Two(v, w)}
  }

  lemma GramsOfTwo(v: string, w: string)
    requires IsWord(v) && IsWord(w)
    ensures forall g :: IsGram(Two(v, w), g) <==> g in GramsOf(v, w)
  {
    var ws := [v, w];
    TwoWords(v, w);
    assert ws[0..1] == [v] && ws[1..2] == [w] && ws[0..2] == ws && ws[1..] == [w];
    assert v + " " + w == Two(v, w) && Join(ws) == Two(v, w);
    forall g ensures IsGram(Two(v, w), g) <==> g in GramsOf(v, w) {
      if IsGram(Two(v, w), g) {
        var n: nat, i: nat :| GramAt(ws, n, i, g);
        assert (n == 1 && i <= 1) || (n == 2 && i == 0);
      }
      assert GramAt(ws, 1, 0, v) && GramAt(ws, 1, 1, w) && GramAt(ws, 2, 0, Two(v, w));
    }
  }

  function More(seen: map<string, nat>, grams: set<string>): map<string, nat> {
    map t | t in seen.Keys + grams :: Count(seen, t) + if t in grams then 1 else 0
  }

  /** The term cannot become a candidate by being seen once more. */
  predicate NotRipe(c: Conv, t: string) {
    |t| < MIN_TERM || Knows(c, t) || Count(c.seen, t) == 0
  }

  lemma Says(c: Conv, text: string, grams: set<string>)
    requires NoCandidates(c) && (forall t :: IsGram(text, t) <==> t in grams)
    requires forall t :: t in grams ==> NotRipe(c, t)
    ensures var c' := c.(seen := More(c.seen, grams)); Proposes(c, text, c', []) && NoCandidates(c')
  {
    var c' := c.(seen := More(c.seen, grams));
    forall t ensures !IsCandidate(c', t) {
      assert !IsCandidate(c, t);
    }
    assert c.(seen := c'.seen) == c';
  }

  lemma SaysRipe(c: Conv, text: string, grams: set<string>, b: Binding)
    requires NoCandidates(c) && (forall t :: IsGram(text, t) <==> t in grams)
    requires forall t :: t in grams && t != b.term ==> NotRipe(c, t)
    requires b.term in grams && Count(c.seen, b.term) >= 1 && |b.term| >= MIN_TERM && !Knows(c, b.term)
    requires NoneEmpty(Split(b.term)) && FirstFree(BaseAbbrev(b.term), c.reserved, b.abbrev)
    ensures var c' := Offered(c.(seen := More(c.seen, grams)), b); Proposes(c, text, c', [b]) && NoCandidates(c')
  {
    var c1 := c.(seen := More(c.seen, grams));
    var c' := Offered(c1, b);
    assert [b][..0] == [] && OfferedAll(c1, [b]) == c';
    forall t ensures IsCandidate(c1, t) <==> HasTerm([b], t) {
      assert !IsCandidate(c, t) && [b][0].term == b.term;
    }
    forall t ensures !IsCandidate(c', t) {
      assert !IsCandidate(c, t);
    }
    assert c.reserved + AbbrevsOf([]) == c.reserved;
    assert GeneratedAt(c.reserved, [b], 0) && c1 == c.(seen := c'.seen);
  }

  // -------- steps

  /** x's proposal of b has been accepted and acknowledged. */
  function Shared(n: Net, b: Binding): Net {
    n.(x := Activated(n.x, b), y := Activated(n.y, b), xy := [], yx := [])
  }

  lemma Share(n: Net, b: Binding)
    requires Reached(true, n) && n.xy == [Propose([b])] && n.yx == []
    requires IsProposed(n.x, b.term) && !Knows(n.y, b.term)
    ensures Reached(true, Shared(n, b))
  {
    YGets(true, n);
    var n1 := Flip(Got(Flip(n)));
    GlossSessions.OnePair(n.y, b);
    assert n1.y == Activated(n.y, b) && n1.xy == [] && n1.yx == [AckFrame([b])];
    XGets(true, n1);
    GlossSessions.OnePair(n1.x, b);
    assert Got(n1) == Shared(n, b);
  }

  lemma XSays(n: Net, v: string, w: string)
    requires Reached(true, n) && n.yx == [] && IsWord(v) && IsWord(w)
    requires NoCandidates(n.x) && forall t :: t in GramsOf(v, w) ==> NotRipe(n.x, t)
    ensures var n' := n.(x := n.x.(seen := More(n.x.seen, GramsOf(v, w)))); Reached(true, n') && NoCandidates(n'.x)
  {
    GramsOfTwo(v, w);
    Says(n.x, Two(v, w), GramsOf(v, w));
    var n' := n.(x := n.x.(seen := More(n.x.seen, GramsOf(v, w))));
    assert n.hist + AsSet([]) == n.hist;
    XSteps(true, n, Observe(Two(v, w), []), n');
  }

  /** x says two words again and proposes them as b. */
  function Proposing(n: Net, v: string, w: string, b: Binding): Net {
    n.(x := Offered(n.x.(seen := More(n.x.seen, GramsOf(v, w))), b), xy := n.xy + [Propose([b])], hist := n.hist + {b})
  }

  lemma XProposes(n: Net, v: string, w: string, b: Binding)
    requires Reached(true, n) && n.yx == [] && IsWord(v) && IsWord(w) && b.term == Two(v, w) && NoCandidates(n.x)
    requires |v| < MIN_TERM && |w| < MIN_TERM && |b.term| >= MIN_TERM
    requires Count(n.x.seen, b.term) >= 1 && !Knows(n.x, b.term)
    requires NoneEmpty(Split(b.term)) && FirstFree(BaseAbbrev(b.term), n.x.reserved, b.abbrev)
    ensures Reached(true, Proposing(n, v, w, b)) && NoCandidates(Proposing(n, v, w, b).x)
  {
    GramsOfTwo(v, w);
    SaysRipe(n.x, Two(v, w), GramsOf(v, w), b);
    assert AsSet([b]) == {b};
    XSteps(true, n, Observe(Two(v, w), [b]), Proposing(n, v, w, b));
  }

  // -------- the run

  /** w is long, has an abbreviation of four letters, and is as long as the term built from that and v. */
  predicate Swallows(w: string, v: string) {
    && LongWord(w) && |BaseOf(w)| == MAX_ABBREV && IsWord(v) && |v| < MIN_TERM
    && |w| >= MAX_ABBREV + 1 + |v|
  }

  /** A message on its way to y holds no token, and comes out changed. */
  ghost predicate ArrivesChanged(n: Net, text: string) {
    && n.xy != [] && n.xy[0].Msg? && n.xy[0].text == text
    && NoLiveToken(n.y.reverse, text) && Expand(n.y.reverse, n.xy[0].body) != text
  }

  lemma InitialsOfTwo(v: string, w: string)
    requires IsWord(v) && IsWord(w)
    ensures Split(Two(v, w)) == [v, w] && NoneEmpty(Split(Two(v, w))) && BaseAbbrev(Two(v, w)) == [v[0], w[0]]
  {
    assert !Letter(' ') && v + " " + w == Two(v, w);
    SplitWord(v, w);
    SplitWord(w, "");
    assert [v, w][1..] == [w] && [w][1..] == [];
    assert Initials([w]) == [w[0]] + Initials([]);
    assert Initials([v, w]) == [v[0]] + Initials([w]);
  }

  lemma BaseIsWord(w: string)
    requires LongWord(w) && |BaseOf(w)| == MAX_ABBREV
    ensures IsWord(BaseOf(w))
  {
    assert TermOf([w], w);
    BaseOfTerm(w);
  }

  /** The first pair, shared. */
  function FirstShared(w: string): Net
    requires LongWord(w)
  {
    Shared(SaidTwice(START, w, BaseOf(w)), Binding(w, BaseOf(w)))
  }

  lemma FirstIsShared(w: string)
    requires LongWord(w)
    ensures var n, b := FirstShared(w), Binding(w, BaseOf(w));
      && Reached(true, n) && NoCandidates(n.x) && n.xy == [] && n.yx == []
      && n.x.entries == map[w := GlossPair(w, b.abbrev, Active)] && n.y.entries == n.x.entries
      && n.x.reverse == map[b.abbrev := w] && n.y.reverse == n.x.reverse
      && n.x.seen == map[w := 2] && n.x.reserved == {b.abbrev} && n.x.dropped == {} && n.y.dropped == {}
  {
    var a := BaseOf(w);
    BaseIsFree(w);
    ReachStart(true);
    SayTwice(true, START, w, a);
    var n := SaidTwice(START, w, a);
    Share(n, Binding(w, a));
    forall t ensures !IsCandidate(FirstShared(w).x, t) {
      assert !IsCandidate(n.x, t);
    }
  }

  /** The text of the second pair said once. */
  function SaidOnce(w: string, v: string): Net
    requires LongWord(w)
  {
    var n := FirstShared(w);
    n.(x := n.x.(seen := More(n.x.seen, GramsOf(BaseOf(w), v))))
  }

  function SecondPair(w: string, v: string): Binding
    requires Swallows(w, v)
  {
    Binding(Two(BaseOf(w), v), [BaseOf(w)[0], v[0]])
  }

  lemma SecondSaidOnce(w: string, v: string)
    requires Swallows(w, v)
    ensures Reached(true, SaidOnce(w, v)) && NoCandidates(SaidOnce(w, v).x)
    ensures SaidOnce(w, v).x.seen == map[w := 2, BaseOf(w) := 1, v := 1, SecondPair(w, v).term := 1]
  {
    BaseIsWord(w);
    FirstIsShared(w);
    XSays(FirstShared(w), BaseOf(w), v);
    SecondIsOther(w, v);
  }

  lemma SecondIsOther(w: string, v: string)
    requires Swallows(w, v)
    ensures SecondPair(w, v).term != w && BaseOf(w) != w && v != w
  {
    assert SecondPair(w, v).term[|BaseOf(w)|] == ' ' && !Letter(' ');
    assert forall i :: 0 <= i < |w| ==> w[i] in w;
  }

  lemma SecondProposed(w: string, v: string)
    requires Swallows(w, v)
    ensures var n := Proposing(SaidOnce(w, v), BaseOf(w), v, SecondPair(w, v));
      Reached(true, n) && NoCandidates(n.x) && n.x.seen.Keys == {w, BaseOf(w), v, SecondPair(w, v).term}
  {
    var a, q := BaseOf(w), SecondPair(w, v);
    BaseIsWord(w);
    FirstIsShared(w);
    SecondSaidOnce(w, v);
    InitialsOfTwo(a, v);
    assert Candidate(q.abbrev, 1) == q.abbrev;
    XProposes(SaidOnce(w, v), a, v, q);
  }

  /** Both pairs, shared. */
  function BothShared(w: string, v: string): Net
    requires Swallows(w, v)
  {
    Shared(Proposing(SaidOnce(w, v), BaseOf(w), v, SecondPair(w, v)), SecondPair(w, v))
  }

  lemma SecondIsShared(w: string, v: string)
    requires Swallows(w, v)
    ensures var n, p, q := BothShared(w, v), Binding(w, BaseOf(w)), SecondPair(w, v);
      && Reached(true, n) && NoCandidates(n.x) && n.xy == [] && n.yx == []
      && Listing(n.x, [p, q]) && n.y.reverse == map[p.abbrev := p.term, q.abbrev := q.term]
      && n.x.seen.Keys == {w, p.abbrev, v, q.term}
  {
    var p, q := Binding(w, BaseOf(w)), SecondPair(w, v);
    var n := Proposing(SaidOnce(w, v), BaseOf(w), v, q);
    FirstIsShared(w);
    SecondProposed(w, v);
    SecondIsOther(w, v);
    Share(n, q);
    assert BothShared(w, v) == Shared(n, q);
    forall t ensures !IsCandidate(BothShared(w, v).x, t) {
      assert !IsCandidate(n.x, t);
    }
    ListsTwo(BothShared(w, v).x, p, q);
  }

  lemma ListsTwo(c: Conv, p: Binding, q: Binding)
    requires p.term != q.term && |p.term| >= |q.term|
    requires c.entries ==
      map[p.term := GlossPair(p.term, p.abbrev, Active), q.term := GlossPair(q.term, q.abbrev, Active)]
    ensures Listing(c, [p, q])
  {
    assert [p, q][0] == p && [p, q][1] == q;
    forall b ensures b in [p, q] <==> IsLive(c, b) {
    }
  }

  /** x says w and v as any other text. */
  function Spoken(w: string, v: string): Net
    requires Swallows(w, v)
  {
    var n, text, act := BothShared(w, v), Two(w, v), [Binding(w, BaseOf(w)), SecondPair(w, v)];
    n.(x := n.x.(seen := More(n.x.seen, GramsOf(w, v))), xy := [Msg(CompactWith(act, text), text, act)])
  }

  lemma SpokenReached(w: string, v: string)
    requires Swallows(w, v)
    ensures Reached(true, Spoken(w, v))
  {
    var text, act := Two(w, v), [Binding(w, BaseOf(w)), SecondPair(w, v)];
    SecondIsShared(w, v);
    var n := BothShared(w, v);
    assert IsLive(n.x, act[0]);
    XSays(n, w, v);
    var n1 := n.(x := n.x.(seen := More(n.x.seen, GramsOf(w, v))));
    assert Listing(n1.x, act);
    assert [] + [Msg(CompactWith(act, text), text, act)] == [Msg(CompactWith(act, text), text, act)];
    XSteps(true, n1, Speak(text, act), Spoken(w, v));
  }

  /**
   * For every such w and v, "authentication" and "queue" say: in a calm run the text that is just
   * these two words arrives changed.
   */
  lemma SwallowedInRun(w: string, v: string)
    requires Swallows(w, v)
    ensures exists n :: Reached(true, n) && ArrivesChanged(n, Two(w, v))
  {
    var a, q := BaseOf(w), SecondPair(w, v);
    SecondIsShared(w, v);
    SpokenReached(w, v);
    BaseIsWord(w);
    assert a[0] in a && v[0] in v && w != "" && !Alnum(' ');
    GlossSessions.FirstWordBreaks(Spoken(w, v).y.reverse, w, a, " " + v, q.abbrev);
    assert ArrivesChanged(Spoken(w, v), Two(w, v));
  }

  lemma AuthenticationSwallows()
    ensures Swallows("authentication", "queue")
  {
    FullBase("authentication", 2, 3, 5);
  }

  /** Up to the first consonant everything is dropped. */
  lemma {:induction false} FirstConsonant(s: string, i: nat)
    requires i < |s| && !Vowel(s[i]) && forall k :: 0 <= k < i ==> Vowel(s[k])
    ensures DropVowels(s) == [s[i]] + DropVowels(s[i + 1..])
    decreases i
  {
    if i > 0 {
      assert Vowel(s[0]) && s[1..][i - 1] == s[i] && s[1..][i..] == s[i + 1..];
      FirstConsonant(s[1..], i - 1);
    }
  }

  lemma ThreeConsonants(w: string, i: nat, j: nat, k: nat)
    requires 1 <= i < j < k < |w| && !Vowel(w[i]) && !Vowel(w[j]) && !Vowel(w[k])
    requires forall m :: 1 <= m < k && m != i && m != j ==> Vowel(w[m])
    ensures [w[i], w[j], w[k]] <= DropVowels(w[1..])
  {
    FirstConsonant(w[1..], i - 1);
    assert w[1..][i..] == w[i + 1..];
    FirstConsonant(w[i + 1..], j - i - 1);
    assert w[i + 1..][j - i..] == w[j + 1..];
    FirstConsonant(w[j + 1..], k - j - 1);
  }

  lemma CutBase(first: char, three: string, skeleton: string)
    requires |three| == 3 && three <= skeleton
    ensures ([first] + skeleton)[..MAX_ABBREV] == [first] + three && |[first] + skeleton| >= MAX_ABBREV
  {
  }

  /** A word is abbreviated to its first letter and the next three consonants. */
  lemma BaseIs(w: string, i: nat, j: nat, k: nat)
    requires LongWord(w) && 1 <= i < j < k < |w| && !Vowel(w[i]) && !Vowel(w[j]) && !Vowel(w[k])
    requires forall m :: 1 <= m < k && m != i && m != j ==> Vowel(w[m])
    ensures BaseOf(w) == [w[0]] + [w[i], w[j], w[k]]
  {
    ThreeConsonants(w, i, j, k);
    CutBase(w[0], [w[i], w[j], w[k]], DropVowels(w[1..]));
    WordSplits(w);
  }
}
