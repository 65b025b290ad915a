/**
 * The glossary of one conversation: term observation, abbreviation, the three negotiation
 * handlers, compaction and session state. `Conv` and the functions on it say what each
 * handler does to the whole state; class `Glossary` does it in place.
 */
module GlossConv {
  import opened Text
  import opened GlossText

  const MIN_TERM := 8
  const MIN_MSGS := 2
  const MAX_NGRAM := 3
  const MAX_ABBREV := 4

  datatype PairState = Proposed | Active

  datatype GlossPair = GlossPair(term: string, abbrev: string, state: PairState)

  datatype Conv = Conv(
    entries: map<string, GlossPair>,
    reverse: map<string, string>,
    seen: map<string, nat>,
    dropped: set<string>,
    reserved: set<string>)

  const EMPTY_CONV := Conv(map[], map[], map[], {}, {})

  predicate IsActive(c: Conv, term: string) {
    term in c.entries && c.entries[term].state == Active
  }

  predicate IsProposed(c: Conv, term: string) {
    term in c.entries && c.entries[term].state == Proposed
  }

  /** b is one of the active pairs of c. */
  predicate IsLive(c: Conv, b: Binding) {
    IsActive(c, b.term) && c.entries[b.term].abbrev == b.abbrev
  }

  // -------- observation

  function LetterRun(s: string): (r: string)
    ensures r <= s && (forall ch :: ch in r ==> Letter(ch))
  {
    if s != "" && Letter(s[0]) then [s[0]] + LetterRun(s[1..]) else ""
  }

  /** The maximal runs of at least four letters, in order. */
  function LetterWords(s: string): (ws: seq<string>)
    ensures forall w :: w in ws ==> IsWord(w)
    decreases |s|
  {
    if s == "" then []
    else if Letter(s[0]) then
      var r := LetterRun(s);
      (if |r| >= 4 then [r] else []) + LetterWords(s[|r|..])
    else LetterWords(s[1..])
  }

  predicate IsWord(w: string) {
    |w| >= 4 && forall ch :: ch in w ==> Letter(ch)
  }

  function LowerChar(c: char): char {
    if 'A' <= c <= 'Z' then 'a' + (c - 'A') else c
  }

  function Lower(s: string): string {
    seq(|s|, i requires 0 <= i < |s| => LowerChar(s[i]))
  }

  function Join(ws: seq<string>): string {
    if ws == [] then ""
    else if |ws| == 1 then ws[0]
    else ws[0] + " " + Join(ws[1..])
  }

  function Split(s: string): (ws: seq<string>)
    ensures ws != []
  {
    if s == "" then [""]
    else if s[0] == ' ' then [""] + Split(s[1..])
    else
      var ws := Split(s[1..]);
      [[s[0]] + ws[0]] + ws[1..]
  }

  /** term is the n-gram that starts at word i. */
  predicate GramAt(ws: seq<string>, n: nat, i: nat, term: string) {
    1 <= n <= MAX_NGRAM && i + n <= |ws| && term == Join(ws[i..i + n])
  }

  /** The n-grams from word i on, left to right. */
  function GramsFrom(ws: seq<string>, n: nat, i: nat): seq<string>
    requires n >= 1
    decreases |ws| - i
  {
    if i + n > |ws| then [] else [Join(ws[i..i + n])] + GramsFrom(ws, n, i + 1)
  }

  /** All n-grams of n words and more, shorter ones first. */
  function AllGrams(ws: seq<string>, n: nat): seq<string>
    requires n >= 1
    decreases MAX_NGRAM - n
  {
    if n > MAX_NGRAM then [] else GramsFrom(ws, n, 0) + AllGrams(ws, n + 1)
  }

  ghost predicate IsGram(text: string, term: string) {
    exists n: nat, i: nat :: GramAt(LetterWords(Lower(text)), n, i, term)
  }

  /** Anything the agent may propose: up to three words of at least four letters. */
  ghost predicate IsTerm(term: string) {
    exists ws: seq<string> :: TermOf(ws, term)
  }

  predicate TermOf(ws: seq<string>, term: string) {
    1 <= |ws| <= MAX_NGRAM && (forall w :: w in ws ==> IsWord(w)) && term == Join(ws)
  }

  lemma {:induction false} SplitWord(w: string, rest: string)
    requires ' ' !in w
    ensures Split(w) == [w]
    ensures Split(w + " " + rest) == [w] + Split(rest)
  {
    var s := w + " " + rest;
    if w == "" {
      assert s == " " + rest && s[1..] == rest;
    } else {
      SplitWord(w[1..], rest);
      assert s[1..] == w[1..] + " " + rest;
      assert [w[0]] + w[1..] == w;
    }
  }

  lemma {:induction false} SplitJoin(ws: seq<string>)
    requires ws != [] && forall w :: w in ws ==> ' ' !in w
    ensures Split(Join(ws)) == ws
  {
    if |ws| == 1 {
      SplitWord(ws[0], "");
      assert ws == [ws[0]];
    } else {
      SplitJoin(ws[1..]);
      SplitWord(ws[0], Join(ws[1..]));
    }
  }

  /** Split cuts a text at its blanks and loses nothing. */
  lemma {:induction false} SplitPartitions(s: string)
    ensures Join(Split(s)) == s && forall w :: w in Split(s) ==> ' ' !in w
  {
    if s != "" {
      SplitPartitions(s[1..]);
      var ws := Split(s[1..]);
      if s[0] == ' ' {
        assert ([""] + ws)[1..] == ws;
        assert "" + " " + s[1..] == s;
      } else {
        var first := [s[0]] + ws[0];
        assert ([first] + ws[1..])[1..] == ws[1..];
        if |ws| == 1 {
          assert [s[0]] + ws[0] == s;
        } else {
          assert ([s[0]] + ws[0]) + " " + Join(ws[1..]) == [s[0]] + (ws[0] + " " + Join(ws[1..]));
        }
      }
    }
  }

  lemma {:induction false} TermShape(ws: seq<string>, term: string)
    requires ws != [] && (forall w :: w in ws ==> IsWord(w)) && term == Join(ws)
    ensures |term| >= 4 && Letter(term[0]) && Letter(term[|term| - 1])
    ensures forall ch :: ch in term ==> Letter(ch) || ch == ' '
  {
    assert ws[0] in ws && IsWord(ws[0]);
    assert ws[0][0] in ws[0] && ws[0][|ws[0]| - 1] in ws[0];
    if |ws| > 1 {
      TermShape(ws[1..], Join(ws[1..]));
    }
  }

  /** What the agent proposes can be compacted and expanded safely. */
  lemma TermsAreWordlike(term: string)
    requires IsTerm(term)
    ensures Wordlike(term)
  {
    var ws :| TermOf(ws, term);
    TermShape(ws, term);
  }

  lemma GramsAreTerms(text: string, term: string)
    requires IsGram(text, term)
    ensures IsTerm(term)
  {
    var ws := LetterWords(Lower(text));
    var n: nat, i: nat :| GramAt(ws, n, i, term);
    assert TermOf(ws[i..i + n], term);
  }

  // -------- abbreviation

  predicate Vowel(c: char) {
    c == 'a' || c == 'e' || c == 'i' || c == 'o' || c == 'u'
  }

  predicate NoneEmpty(ws: seq<string>) {
    forall i :: 0 <= i < |ws| ==> ws[i] != ""
  }

  function DropVowels(s: string): string {
    if s == "" then "" else (if Vowel(s[0]) then "" else [s[0]]) + DropVowels(s[1..])
  }

  function Initials(ws: seq<string>): string
    requires NoneEmpty(ws)
  {
    if ws == [] then "" else [ws[0][0]] + Initials(ws[1..])
  }

  /** Consonant skeleton of a single word, initials of several, cut to four characters. */
  function BaseAbbrev(term: string): (b: string)
    requires NoneEmpty(Split(term))
    ensures |b| <= MAX_ABBREV
  {
    var ws := Split(term);
    var full := if |ws| == 1 then [ws[0][0]] + DropVowels(ws[0][1..]) else Initials(ws);
    if |full| <= MAX_ABBREV then full else full[..MAX_ABBREV]
  }

  /** What is dropped are the vowels, and nothing else. */
  lemma {:induction false} DropVowelsKeeps(s: string, ch: char)
    ensures multiset(DropVowels(s))[ch] == if Vowel(ch) then 0 else multiset(s)[ch]
  {
    if s != "" {
      DropVowelsKeeps(s[1..], ch);
      assert s == [s[0]] + s[1..];
    }
  }

  /** The initials are those of the words, in order. */
  lemma {:induction false} InitialsAre(ws: seq<string>)
    requires NoneEmpty(ws)
    ensures |Initials(ws)| == |ws| && forall i :: 0 <= i < |ws| ==> Initials(ws)[i] == ws[i][0]
  {
    if ws != [] {
      InitialsAre(ws[1..]);
    }
  }

  /**
   * What the base of a term is made of: of several words the initial of each, in order; of one word
   * its first letter and then consonants of the rest, all of them unless there are more than fit.
   */
  lemma BaseLetters(ws: seq<string>, term: string)
    requires TermOf(ws, term) && NoneEmpty(Split(term))
    ensures var b := BaseAbbrev(term);
      && (|ws| > 1 ==> |b| == |ws| && forall i :: 0 <= i < |ws| ==> ws[i] != "" && b[i] == ws[i][0])
      && (|ws| == 1 ==> b != "" && b[0] == term[0] && b <= [term[0]] + DropVowels(term[1..]))
      && (|ws| == 1 && |b| < MAX_ABBREV ==>
            forall ch :: multiset(b[1..])[ch] == if Vowel(ch) then 0 else multiset(term[1..])[ch])
  {
    forall i | 0 <= i < |ws| ensures ws[i] != "" && ' ' !in ws[i] {
      assert IsWord(ws[i]);
    }
    SplitJoin(ws);
    InitialsAre(Split(term));
    forall ch ensures multiset(DropVowels(term[1..]))[ch] == if Vowel(ch) then 0 else multiset(term[1..])[ch] {
      DropVowelsKeeps(term[1..], ch);
    }
  }

  lemma {:induction false} DropVowelsLetters(s: string)
    ensures forall c :: c in DropVowels(s) ==> c in s
  {
    if s != "" {
      DropVowelsLetters(s[1..]);
    }
  }

  lemma {:induction false} InitialsAlnum(ws: seq<string>)
    requires forall w :: w in ws ==> IsWord(w)
    ensures NoneEmpty(ws) && (forall c :: c in Initials(ws) ==> Letter(c)) && |Initials(ws)| == |ws|
  {
    if ws != [] {
      assert ws[0] in ws && IsWord(ws[0]) && ws[0][0] in ws[0];
      InitialsAlnum(ws[1..]);
    }
  }

  /** The abbreviations of own terms are token words. */
  lemma BaseOfTerm(term: string)
    requires IsTerm(term)
    ensures NoneEmpty(Split(term))
    ensures BaseAbbrev(term) != "" && (forall c :: c in BaseAbbrev(term) ==> Letter(c)) && AllAlnum(BaseAbbrev(term))
  {
    var ws :| TermOf(ws, term);
    forall w | w in ws ensures ' ' !in w {
      assert IsWord(w);
    }
    SplitJoin(ws);
    if |ws| == 1 {
      assert IsWord(ws[0]) && ws[0][0] in ws[0];
      DropVowelsLetters(ws[0][1..]);
      forall c | c in [ws[0][0]] + DropVowels(ws[0][1..]) ensures Letter(c) {
        assert c in ws[0];
      }
    } else {
      InitialsAlnum(ws);
    }
  }

  /** The i-th abbreviation tried: the base itself, then base2, base3, and so on. */
  function Candidate(base: string, i: nat): string
    requires i >= 1
  {
    if i == 1 then base else base + Digits(i)
  }

  lemma CandidatesDistinct(base: string, i: nat, j: nat)
    requires 1 <= i && 1 <= j && Candidate(base, i) == Candidate(base, j)
    ensures i == j
  {
    if i > 1 && j > 1 {
      assert Candidate(base, i)[|base|..] == Digits(i) && Candidate(base, j)[|base|..] == Digits(j);
      DigitsInjective(i, j);
    }
  }

  /** What genAbbrev answers: the first candidate not reserved, among the first |reserved| + 1. */
  ghost predicate FirstFree(base: string, reserved: set<string>, abbrev: string) {
    && abbrev !in reserved
    && exists k: nat ::
         && 1 <= k <= |reserved| + 1
         && abbrev == Candidate(base, k)
         && forall j: nat :: 1 <= j < k ==> Candidate(base, j) in reserved
  }

  /** Length and alphabet of an abbreviation, and that it is the only answer. */
  lemma FirstFreeShape(base: string, reserved: set<string>, abbrev: string, other: string)
    requires FirstFree(base, reserved, abbrev)
    ensures |abbrev| <= |base| + |Digits(|reserved| + 1)|
    ensures AllAlnum(base) ==> AllAlnum(abbrev)
    ensures FirstFree(base, reserved, other) ==> other == abbrev
  {
    var k: nat :| 1 <= k <= |reserved| + 1 && abbrev == Candidate(base, k)
      && forall j: nat :: 1 <= j < k ==> Candidate(base, j) in reserved;
    DigitsMonotone(k, |reserved| + 1);
    if FirstFree(base, reserved, other) {
      var m: nat :| 1 <= m <= |reserved| + 1 && other == Candidate(base, m)
        && forall j: nat :: 1 <= j < m ==> Candidate(base, j) in reserved;
      assert m == k;
    }
  }

  /** While fewer than 999 abbreviations are reserved, a new one is at most seven characters. */
  lemma ShortAbbrev(base: string, reserved: set<string>, abbrev: string)
    requires |base| <= MAX_ABBREV && |reserved| < 999 && FirstFree(base, reserved, abbrev)
    ensures |abbrev| < MIN_TERM
  {
    FirstFreeShape(base, reserved, abbrev, abbrev);
    DigitsMonotone(|reserved| + 1, 999);
    assert |Digits(999)| == 3 by {
      assert |Digits(9)| == 1 && |Digits(99)| == 2;
    }
  }

  // -------- what each handler does to the state

  function Count(seen: map<string, nat>, term: string): nat {
    if term in seen then seen[term] else 0
  }

  /** A term the agent will propose: recurring, long enough, neither held nor dropped. */
  predicate IsCandidate(c: Conv, term: string) {
    && term in c.seen && c.seen[term] >= MIN_MSGS && |term| >= MIN_TERM
    && term !in c.entries && term !in c.dropped
  }

  function Candidates(c: Conv): (r: set<string>)
    ensures forall t :: t in r <==> IsCandidate(c, t)
  {
    set t | t in c.seen && IsCandidate(c, t)
  }

  function Offered(c: Conv, b: Binding): Conv {
    c.(entries := c.entries[b.term := GlossPair(b.term, b.abbrev, Proposed)], reserved := c.reserved + {b.abbrev})
  }

  function OfferedAll(c: Conv, bs: seq<Binding>): Conv
    decreases |bs|
  {
    if bs == [] then c else Offered(OfferedAll(c, bs[..|bs| - 1]), bs[|bs| - 1])
  }

  ghost predicate HasTerm(bs: seq<Binding>, term: string) {
    exists i :: 0 <= i < |bs| && bs[i].term == term
  }

  function AbbrevsOf(bs: seq<Binding>): set<string> {
    set b | b in bs :: b.abbrev
  }

  lemma {:induction false} OfferedAllFields(c: Conv, bs: seq<Binding>)
    ensures OfferedAll(c, bs) == c.(entries := OfferedAll(c, bs).entries, reserved := c.reserved + AbbrevsOf(bs))
  {
    if bs != [] {
      OfferedAllFields(c, bs[..|bs| - 1]);
      assert AbbrevsOf(bs) == AbbrevsOf(bs[..|bs| - 1]) + {bs[|bs| - 1].abbrev} by {
        assert bs == bs[..|bs| - 1] + [bs[|bs| - 1]];
      }
    }
  }

  /** Every n-gram of the text is counted once more, whatever number of times it occurs. */
  ghost predicate Counted(seen: map<string, nat>, text: string, seen': map<string, nat>) {
    && (forall t :: t in seen' <==> t in seen || IsGram(text, t))
    && (forall t :: Count(seen', t) == Count(seen, t) + if IsGram(text, t) then 1 else 0)
  }

  /**
   * Observing own text: exactly the candidates are proposed, each once, each under the first
   * free abbreviation at its turn. The order of the proposals is left open.
   */
  ghost predicate Proposes(c: Conv, text: string, c': Conv, bs: seq<Binding>) {
    var c1 := c.(seen := c'.seen);
    && Counted(c.seen, text, c'.seen)
    && c' == OfferedAll(c1, bs)
    && (forall t :: IsCandidate(c1, t) <==> HasTerm(bs, t))
    && (forall i, j :: 0 <= i < j < |bs| ==> bs[i].term != bs[j].term)
    && forall i :: 0 <= i < |bs| ==> GeneratedAt(c.reserved, bs, i)
  }

  ghost predicate GeneratedAt(reserved: set<string>, bs: seq<Binding>, i: nat)
    requires i < |bs|
  {
    && NoneEmpty(Split(bs[i].term))
    && FirstFree(BaseAbbrev(bs[i].term), reserved + AbbrevsOf(bs[..i]), bs[i].abbrev)
  }

  function Activated(c: Conv, b: Binding): Conv {
    c.(entries := c.entries[b.term := GlossPair(b.term, b.abbrev, Active)],
       reverse := c.reverse[b.abbrev := b.term],
       reserved := c.reserved + {b.abbrev})
  }

  /** A live pair is authoritative; anything else, a pending proposal included, yields. */
  function AcceptOne(c: Conv, b: Binding): (Conv, Binding) {
    if IsActive(c, b.term) then (c, Binding(b.term, c.entries[b.term].abbrev)) else (Activated(c, b), b)
  }

  function Accept(c: Conv, bs: seq<Binding>): (Conv, seq<Binding>)
    decreases |bs|
  {
    if bs == [] then (c, [])
    else
      var (c1, ack) := AcceptOne(c, bs[0]);
      var (c2, acks) := Accept(c1, bs[1..]);
      (c2, [ack] + acks)
  }

  function ConfirmOne(c: Conv, b: Binding): Conv {
    if IsProposed(c, b.term) then Activated(c, b) else c
  }

  function Confirm(c: Conv, bs: seq<Binding>): Conv
    decreases |bs|
  {
    if bs == [] then c else Confirm(ConfirmOne(c, bs[0]), bs[1..])
  }

  /** A live pair survives every proposal, and everything acknowledged is live under the name acknowledged. */
  lemma {:induction false} AcksAreLive(c: Conv, bs: seq<Binding>)
    ensures var (c', acks) := Accept(c, bs);
      && (forall b :: IsLive(c, b) ==> IsLive(c', b))
      && |acks| == |bs| && (forall i :: 0 <= i < |bs| ==> acks[i].term == bs[i].term && IsLive(c', acks[i]))
    decreases |bs|
  {
    if bs != [] {
      var (c1, ack) := AcceptOne(c, bs[0]);
      AcksAreLive(c1, bs[1..]);
      assert IsLive(c1, ack);
    }
  }

  /** An acknowledgement changes no term that is not pending. */
  lemma {:induction false} StaleAckIgnored(c: Conv, bs: seq<Binding>, t: string)
    requires !IsProposed(c, t)
    ensures t in Confirm(c, bs).entries <==> t in c.entries
    ensures t in c.entries ==> Confirm(c, bs).entries[t] == c.entries[t]
    decreases |bs|
  {
    if bs != [] {
      StaleAckIgnored(ConfirmOne(c, bs[0]), bs[1..], t);
    }
  }

  /** An acknowledged pair that is pending goes live under the name acknowledged, with its token. */
  lemma {:induction false} ConfirmedAreLive(c: Conv, bs: seq<Binding>, i: nat)
    requires i < |bs| && IsProposed(c, bs[i].term)
    requires forall j, k :: 0 <= j < k < |bs| ==> bs[j].term != bs[k].term && bs[j].abbrev != bs[k].abbrev
    ensures var c' := Confirm(c, bs);
      IsLive(c', bs[i]) && bs[i].abbrev in c'.reverse && c'.reverse[bs[i].abbrev] == bs[i].term
      && bs[i].abbrev in c'.reserved
    decreases |bs|
  {
    var c1, rest := ConfirmOne(c, bs[0]), bs[1..];
    if i > 0 {
      assert rest[i - 1] == bs[i] && bs[0].term != bs[i].term;
      ConfirmedAreLive(c1, rest, i - 1);
    } else {
      forall j | 0 <= j < |rest| ensures rest[j].term != bs[0].term && rest[j].abbrev != bs[0].abbrev {
        assert rest[j] == bs[j + 1];
      }
      ConfirmLeaves(c1, rest, bs[0]);
    }
  }

  lemma {:induction false} ConfirmLeaves(c: Conv, bs: seq<Binding>, b: Binding)
    requires IsLive(c, b) && b.abbrev in c.reverse && c.reverse[b.abbrev] == b.term && b.abbrev in c.reserved
    requires forall j :: 0 <= j < |bs| ==> bs[j].term != b.term && bs[j].abbrev != b.abbrev
    ensures var c' := Confirm(c, bs);
      IsLive(c', b) && b.abbrev in c'.reverse && c'.reverse[b.abbrev] == b.term && b.abbrev in c'.reserved
    decreases |bs|
  {
    if bs != [] {
      assert bs[0].term != b.term && bs[0].abbrev != b.abbrev;
      ConfirmLeaves(ConfirmOne(c, bs[0]), bs[1..], b);
    }
  }

  function DeactivateOne(c: Conv, abbrev: string): Conv {
    if abbrev in c.reverse then
      var term := c.reverse[abbrev];
      c.(entries := c.entries - {term}, reverse := c.reverse - {abbrev}, dropped := c.dropped + {term})
    else c
  }

  function Deactivate(c: Conv, abbrevs: seq<string>): Conv
    decreases |abbrevs|
  {
    if abbrevs == [] then c else Deactivate(DeactivateOne(c, abbrevs[0]), abbrevs[1..])
  }

  // -------- compaction order and session state

  predicate LongestFirst(act: seq<Binding>) {
    forall i, j :: 0 <= i < j < |act| ==> |act[i].term| >= |act[j].term|
  }

  /** act lists the active pairs of c, each once, longest term first. */
  ghost predicate Listing(c: Conv, act: seq<Binding>) {
    && LongestFirst(act)
    && (forall i, j :: 0 <= i < j < |act| ==> act[i].term != act[j].term)
    && forall b :: b in act <==> IsLive(c, b)
  }

  /** The serialized glossary: term to abbreviation, active pairs only. */
  function Serialized(c: Conv): map<string, string> {
    map t | t in c.entries && c.entries[t].state == Active :: c.entries[t].abbrev
  }

  ghost predicate RestoresEntries(e: map<string, GlossPair>, terms: map<string, string>, e': map<string, GlossPair>) {
    && (forall t :: t in e' <==> t in e || t in terms)
    && (forall t :: t in e' ==> e'[t] == if t in terms then GlossPair(t, terms[t], Active) else e[t])
  }

  ghost predicate RestoresTokens(r: map<string, string>, terms: map<string, string>, r': map<string, string>) {
    && (forall a :: a in r' <==> a in r || a in terms.Values)
    && (forall a :: a in r' ==> if a in terms.Values then r'[a] in terms && terms[r'[a]] == a else r'[a] == r[a])
  }

  /** Restoring saved terms in an order the saved object leaves open. */
  ghost predicate Restores(c: Conv, terms: map<string, string>, c': Conv) {
    && RestoresEntries(c.entries, terms, c'.entries)
    && RestoresTokens(c.reverse, terms, c'.reverse)
    && c'.reserved == c.reserved + terms.Values
    && c'.seen == c.seen && c'.dropped == c.dropped
  }

  /** One saved pair made active. */
  function RestoredPair(c: Conv, t: string, a: string): Conv {
    c.(entries := c.entries[t := GlossPair(t, a, Active)], reverse := c.reverse[a := t], reserved := c.reserved + {a})
  }

  lemma RestoreToken(r: map<string, string>, terms: map<string, string>, r1: map<string, string>, t: string, a: string)
    requires RestoresTokens(r, terms, r1) && t !in terms
    ensures RestoresTokens(r, terms[t := a], r1[a := t])
  {
    ValuesGrow(terms, t, a);
  }

  lemma RestoreOne(c: Conv, terms: map<string, string>, c1: Conv, t: string, a: string)
    requires Restores(c, terms, c1) && t !in terms
    ensures Restores(c, terms[t := a], RestoredPair(c1, t, a))
  {
    ValuesGrow(terms, t, a);
    RestoreToken(c.reverse, terms, c1.reverse, t, a);
  }

  lemma RestoreNone(c: Conv)
    ensures Restores(c, map[], c)
  {
  }

  lemma ValuesGrow(terms: map<string, string>, t: string, a: string)
    requires t !in terms
    ensures terms[t := a].Values == terms.Values + {a}
  {
    var more := terms[t := a];
    assert more[t] in more.Values;
    forall v | v in terms.Values ensures v in more.Values {
      var k :| k in terms && terms[k] == v;
      assert more[k] == v;
    }
  }

  /** reverse is exactly the inverse of the active entries. */
  ghost predicate Consistent(c: Conv) {
    && (forall t :: t in c.entries ==> c.entries[t].term == t && c.entries[t].abbrev in c.reserved)
    && (forall a :: a in c.reverse ==>
          c.reverse[a] in c.entries && c.entries[c.reverse[a]] == GlossPair(c.reverse[a], a, Active))
    && (forall t :: IsActive(c, t) ==> c.entries[t].abbrev in c.reverse && c.reverse[c.entries[t].abbrev] == t)
  }

  /** A fresh instance restored from a saved glossary speaks and understands the same language. */
  lemma RestoredSpeaksTheSame(c: Conv, twin: Conv)
    requires Consistent(c) && Restores(EMPTY_CONV, Serialized(c), twin)
    ensures Consistent(twin) && twin.reverse == c.reverse
    ensures (forall b :: IsLive(twin, b) <==> IsLive(c, b)) && Serialized(twin) == Serialized(c)
  {
    SerializedInverse(c);
    RestoredReverse(c, twin);
    var terms := Serialized(c);
    assert forall t :: t in twin.entries <==> t in terms;
    assert forall t :: t in terms ==> twin.entries[t] == GlossPair(t, terms[t], Active) == c.entries[t];
    assert forall t :: t in terms ==> terms[t] in terms.Values;
  }

  /** The saved pairs and the live tokens are each other's inverse. */
  lemma SerializedInverse(c: Conv)
    requires Consistent(c)
    ensures var terms := Serialized(c);
      && (forall t :: t in terms ==> terms[t] in c.reverse && c.reverse[terms[t]] == t)
      && (forall a :: a in c.reverse ==> c.reverse[a] in terms && terms[c.reverse[a]] == a)
  {
    forall t | t in Serialized(c) ensures Serialized(c)[t] in c.reverse && c.reverse[Serialized(c)[t]] == t {
      assert IsActive(c, t);
    }
  }

  lemma RestoredReverse(c: Conv, twin: Conv)
    requires Consistent(c) && Restores(EMPTY_CONV, Serialized(c), twin)
    ensures twin.reverse == c.reverse
  {
    SerializedInverse(c);
    var terms := Serialized(c);
    forall a | a in c.reverse ensures a in twin.reverse && twin.reverse[a] == c.reverse[a] {
      assert terms[c.reverse[a]] in terms.Values;
      assert a in twin.reverse && terms[twin.reverse[a]] == a;
    }
    forall a | a in twin.reverse ensures a in c.reverse {
      assert terms[twin.reverse[a]] == a;
    }
  }

  /**
   * When every reserved abbreviation was short when it was made, what goes on the wire is
   * never longer than what was said.
   */
  lemma BodyNeverLonger(c: Conv, act: seq<Binding>, text: string)
    requires Listing(c, act)
    requires forall t :: IsActive(c, t) ==> |t| >= MIN_TERM && |c.entries[t].abbrev| < MIN_TERM
    ensures |CompactWith(act, text)| <= |text|
  {
    forall b | b in act ensures |b.abbrev| < |b.term| {
      assert IsLive(c, b);
    }
    CompactNeverLonger(act, text);
  }
}
