/**
 * What the three regular expressions of the glossary match, by position in the text: bounded
 * occurrences of a term, tokens, and runs of letters. Replacement, expansion and word splitting are
 * proved to work on exactly these.
 */
module GlossScan {
  import opened Basics
  import opened Text
  import opened GlossText
  import opened GlossConv

  /** The class [a-z0-9], by code point. */
  predicate WordChar(c: char) {
    48 <= c as int <= 57 || 97 <= c as int <= 122
  }

  predicate LowerCase(c: char) {
    97 <= c as int <= 122
  }

  lemma Classes(c: char)
    ensures (Alnum(c) <==> WordChar(c)) && (Letter(c) <==> LowerCase(c))
    ensures LowerChar(c) as int == if 65 <= c as int <= 90 then c as int + 32 else c as int
  {
  }

  predicate FreeBefore(s: string, i: nat)
    requires i <= |s|
  {
    i == 0 || !WordChar(s[i - 1])
  }

  predicate FreeAfter(s: string, i: nat)
    requires i <= |s|
  {
    i == |s| || !WordChar(s[i])
  }

  // -------- bounded occurrences

  /** The term stands at i, with no word character on either side. */
  predicate BoundedAt(s: string, i: nat, term: string) {
    i + |term| <= |s| && s[i..i + |term|] == term && FreeBefore(s, i) && FreeAfter(s, i + |term|)
  }

  /** Places for pieces of length n, from at on, in order and without overlap. */
  ghost predicate Spread(s: string, at: nat, ps: seq<nat>, n: nat)
    decreases |ps|
  {
    if ps == [] then at <= |s| else at <= ps[0] && Spread(s, ps[0] + n, ps[1..], n)
  }

  /** The text from at on, with the token for each piece. */
  ghost function Rebuilt(s: string, at: nat, ps: seq<nat>, n: nat, token: string): string
    requires Spread(s, at, ps, n)
    decreases |ps|
  {
    SpreadFits(s, at, ps, n);
    if ps == [] then s[at..] else s[at..ps[0]] + token + Rebuilt(s, ps[0] + n, ps[1..], n, token)
  }

  lemma {:induction false} SpreadFits(s: string, at: nat, ps: seq<nat>, n: nat)
    requires Spread(s, at, ps, n)
    ensures at <= |s| && forall k :: 0 <= k < |ps| ==> at <= ps[k] && ps[k] + n <= |s|
    decreases |ps|
  {
    if ps != [] {
      SpreadFits(s, ps[0] + n, ps[1..], n);
      forall k | 0 <= k < |ps| ensures at <= ps[k] && ps[k] + n <= |s| {
        assert k > 0 ==> ps[k] == ps[1..][k - 1];
      }
    }
  }

  /** Position i is inside one of the pieces. */
  predicate Covered(ps: seq<nat>, n: nat, i: nat) {
    exists k :: 0 <= k < |ps| && ps[k] <= i < ps[k] + n
  }

  /** The occurrences from at on that a scan from the left takes. */
  function Taken(s: string, at: nat, term: string): seq<nat>
    requires at <= |s| && term != ""
    decreases |s| - at
  {
    if BoundedAt(s, at, term) then [at] + Taken(s, at + |term|, term)
    else if at == |s| then []
    else Taken(s, at + 1, term)
  }

  /** They are occurrences, apart from each other, and every other occurrence overlaps one that is further left. */
  ghost predicate IsScan(s: string, at: nat, ps: seq<nat>, term: string) {
    && Spread(s, at, ps, |term|)
    && (forall p :: p in ps ==> BoundedAt(s, p, term))
    && (forall i :: at <= i <= |s| && BoundedAt(s, i, term) ==> Covered(ps, |term|, i))
  }

  lemma {:induction false} TakenIsScan(s: string, at: nat, term: string)
    requires at <= |s| && term != ""
    ensures IsScan(s, at, Taken(s, at, term), term)
    decreases |s| - at
  {
    var ps := Taken(s, at, term);
    if BoundedAt(s, at, term) {
      var rest := Taken(s, at + |term|, term);
      TakenIsScan(s, at + |term|, term);
      assert ps[1..] == rest;
      forall i | at <= i <= |s| && BoundedAt(s, i, term) ensures Covered(ps, |term|, i) {
        if i < at + |term| {
          assert ps[0] <= i < ps[0] + |term|;
        } else {
          var k :| 0 <= k < |rest| && rest[k] <= i < rest[k] + |term|;
          assert ps[k + 1] == rest[k];
        }
      }
    } else if at < |s| {
      TakenIsScan(s, at + 1, term);
      SpreadEarlier(s, at, ps, |term|);
    }
  }

  lemma SpreadEarlier(s: string, at: nat, ps: seq<nat>, n: nat)
    requires Spread(s, at + 1, ps, n)
    ensures Spread(s, at, ps, n)
  {
  }

  lemma MatchesAt(s: string, at: nat, term: string)
    requires at <= |s|
    ensures MatchesHere(!FreeBefore(s, at), s[at..], term) <==> BoundedAt(s, at, term)
  {
    if term <= s[at..] {
      assert s[at..][..|term|] == s[at..at + |term|] && s[at..][|term|..] == s[at + |term|..];
    }
    if BoundedAt(s, at, term) {
      assert s[at..][..|term|] == term;
    }
  }

  /** After a match the scanned text ends with the term. */
  lemma BehindMatch(s: string, at: nat, term: string)
    requires BoundedAt(s, at, term) && term != ""
    ensures EndsAlnum(term) == !FreeBefore(s, at + |term|)
  {
    assert term[|term| - 1] == s[at..at + |term|][|term| - 1] == s[at + |term| - 1];
  }

  lemma ReplaceHead(s: string, at: nat, term: string, token: string)
    requires at <= |s| && term != ""
    ensures var r := ReplaceTerm(!FreeBefore(s, at), s[at..], term, token);
      if BoundedAt(s, at, term)
      then r == token + ReplaceTerm(!FreeBefore(s, at + |term|), s[at + |term|..], term, token)
      else if at == |s| then r == ""
      else r == [s[at]] + ReplaceTerm(!FreeBefore(s, at + 1), s[at + 1..], term, token)
  {
    MatchesAt(s, at, term);
    if BoundedAt(s, at, term) {
      BehindMatch(s, at, term);
      assert s[at..][|term|..] == s[at + |term|..];
    } else if at < |s| {
      assert s[at..][1..] == s[at + 1..] && s[at..][0] == s[at];
    }
  }

  lemma RebuiltHead(s: string, at: nat, rest: seq<nat>, n: nat, token: string)
    requires at + n <= |s| && Spread(s, at + n, rest, n)
    ensures Spread(s, at, [at] + rest, n)
    ensures Rebuilt(s, at, [at] + rest, n, token) == token + Rebuilt(s, at + n, rest, n, token)
  {
    var ps := [at] + rest;
    assert ps[0] == at && ps[1..] == rest;
    assert s[at..at] + token == token;
  }

  lemma {:induction false} ReplaceFrom(s: string, at: nat, ps: seq<nat>, term: string, token: string)
    requires at <= |s| && term != "" && ps == Taken(s, at, term)
    ensures Spread(s, at, ps, |term|)
    ensures ReplaceTerm(!FreeBefore(s, at), s[at..], term, token) == Rebuilt(s, at, ps, |term|, token)
    decreases |s| - at
  {
    ReplaceHead(s, at, term, token);
    if BoundedAt(s, at, term) {
      var rest := Taken(s, at + |term|, term);
      ReplaceFrom(s, at + |term|, rest, term, token);
      RebuiltHead(s, at, rest, |term|, token);
    } else if at < |s| {
      ReplaceFrom(s, at + 1, ps, term, token);
      RebuiltEarlier(s, at, ps, |term|, token);
    }
  }

  lemma RebuiltEarlier(s: string, at: nat, ps: seq<nat>, n: nat, token: string)
    requires at < |s| && Spread(s, at + 1, ps, n)
    ensures Spread(s, at, ps, n) && Rebuilt(s, at, ps, n, token) == [s[at]] + Rebuilt(s, at + 1, ps, n, token)
  {
    SpreadFits(s, at + 1, ps, n);
    if ps == [] {
      assert s[at..] == [s[at]] + s[at + 1..];
    } else {
      assert s[at..ps[0]] == [s[at]] + s[at + 1..ps[0]];
      var tail := Rebuilt(s, ps[0] + n, ps[1..], n, token);
      assert ([s[at]] + s[at + 1..ps[0]]) + token + tail == [s[at]] + (s[at + 1..ps[0]] + token + tail);
    }
  }

  /**
   * One pass puts the token for exactly the bounded occurrences a scan from the left takes, and
   * copies everything else.
   */
  lemma ReplaceExactly(s: string, term: string, token: string)
    requires term != ""
    ensures exists ps ::
      IsScan(s, 0, ps, term) && ReplaceTerm(false, s, term, token) == Rebuilt(s, 0, ps, |term|, token)
  {
    var ps := Taken(s, 0, term);
    TakenIsScan(s, 0, term);
    ReplaceFrom(s, 0, ps, term, token);
    assert s[0..] == s;
  }

  /** Compaction makes one pass per pair, in the order of the list, each over what the last one left. */
  lemma {:induction false} CompactJoins(a: seq<Binding>, b: seq<Binding>, text: string)
    ensures CompactWith(a + b, text) == CompactWith(b, CompactWith(a, text))
    decreases |a|
  {
    if a == [] {
      assert [] + b == b;
    } else {
      assert (a + b)[1..] == a[1..] + b;
      CompactJoins(a[1..], b, ReplaceTerm(false, text, a[0].term, "~" + a[0].abbrev));
    }
  }

  lemma CompactOne(p: Binding, text: string)
    ensures CompactWith([p], text) == ReplaceTerm(false, text, p.term, ['~'] + p.abbrev)
  {
    assert [p][1..] == [];
  }

  // -------- tokens

  /** The part of a text from one position up to another. */
  datatype Span = Span(from: nat, until: nat)

  /** A token: a tilde and all the word characters after it, at least one. */
  predicate TokenAt(s: string, t: Span) {
    && t.from + 1 < t.until <= |s| && s[t.from] as int == 126
    && (forall k :: t.from < k < t.until ==> WordChar(s[k])) && FreeAfter(s, t.until)
  }

  /** What stands for the token. */
  function Meaning(reverse: map<string, string>, s: string, t: Span): string
    requires t.from < t.until <= |s|
  {
    var w := s[t.from + 1..t.until];
    if w in reverse then reverse[w] else s[t.from..t.until]
  }

  /** Spans from at on, in order. */
  predicate InTurn(s: string, at: nat, ts: seq<Span>)
    decreases |ts|
  {
    if ts == [] then at <= |s| else at <= ts[0].from < ts[0].until <= |s| && InTurn(s, ts[0].until, ts[1..])
  }

  /** The text from at on, with the meaning of each token. */
  function Spoken(reverse: map<string, string>, s: string, at: nat, ts: seq<Span>): string
    requires InTurn(s, at, ts)
    decreases |ts|
  {
    if ts == [] then s[at..]
    else s[at..ts[0].from] + Meaning(reverse, s, ts[0]) + Spoken(reverse, s, ts[0].until, ts[1..])
  }

  ghost predicate AreTokens(s: string, at: nat, ts: seq<Span>) {
    InTurn(s, at, ts) && forall t: Span :: t in ts <==> at <= t.from && TokenAt(s, t)
  }

  lemma NoLonger(s: string, t: Span, u: Span)
    requires TokenAt(s, t) && TokenAt(s, u) && t.from == u.from
    ensures t.until <= u.until
  {
  }

  lemma NoTilde(s: string, t: Span, i: nat)
    requires TokenAt(s, t) && t.from < i < t.until
    ensures WordChar(s[i]) && s[i] as int != 126
  {
  }

  /** Tokens do not overlap. */
  lemma SameToken(s: string, t: Span, u: Span)
    requires TokenAt(s, t) && TokenAt(s, u) && t.from <= u.from < t.until
    ensures u == t
  {
    if u.from > t.from {
      NoTilde(s, t, u.from);
    } else {
      NoLonger(s, t, u);
      NoLonger(s, u, t);
    }
  }

  /** The word after a tilde goes up to where the word characters end. */
  lemma RunIsToken(s: string, at: nat)
    requires at < |s| && s[at] == '~' && StartsAlnum(s[at + 1..])
    ensures var w := Run(s[at + 1..]);
      w != "" && TokenAt(s, Span(at, at + 1 + |w|)) && w == s[at + 1..at + 1 + |w|]
  {
    var rest := s[at + 1..];
    var w := Run(rest);
    var end := at + 1 + |w|;
    assert w == rest[..|w|] == s[at + 1..end] && rest[|w|..] == s[end..];
    forall k | at < k < end ensures WordChar(s[k]) {
      assert s[k] == w[k - at - 1] && w[k - at - 1] in w;
    }
  }

  /** The token at the head is replaced by its meaning. */
  lemma ExpandHead(reverse: map<string, string>, s: string, at: nat, t: Span)
    requires at < |s| && s[at] == '~' && StartsAlnum(s[at + 1..]) && t == Span(at, at + 1 + |Run(s[at + 1..])|)
    ensures TokenAt(s, t) && Expand(reverse, s[at..]) == Meaning(reverse, s, t) + Expand(reverse, s[t.until..])
  {
    RunIsToken(s, at);
    var w := Run(s[at + 1..]);
    var rest := s[at + 1..][|w|..];
    TokenParts(s, t, w, rest);
    HeadMeans(reverse, s, t, w, rest);
  }

  lemma HeadMeans(reverse: map<string, string>, s: string, t: Span, w: string, rest: string)
    requires t.from < t.until <= |s| && w == s[t.from + 1..t.until] && rest == s[t.until..]
    requires s[t.from..] == "~" + (w + rest) && s[t.from..t.until] == "~" + w
    requires w != "" && AllAlnum(w) && !StartsAlnum(rest)
    ensures Expand(reverse, s[t.from..]) == Meaning(reverse, s, t) + Expand(reverse, s[t.until..])
  {
    ExpandWord(reverse, w, rest);
  }

  lemma TokenParts(s: string, t: Span, w: string, rest: string)
    requires t.from < t.until <= |s| && s[t.from] == '~'
    requires w == s[t.from + 1..t.until] && rest == s[t.from + 1..][|w|..]
    ensures s[t.from..] == "~" + (w + rest) && s[t.from..t.until] == "~" + w && rest == s[t.until..]
  {
  }

  lemma CopyHead(reverse: map<string, string>, s: string, at: nat)
    requires at < |s| && !(s[at] == '~' && StartsAlnum(s[at + 1..]))
    ensures Expand(reverse, s[at..]) == [s[at]] + Expand(reverse, s[at + 1..])
    ensures forall t: Span :: t.from == at ==> !TokenAt(s, t)
  {
    assert s[at..][1..] == s[at + 1..] && s[at..][0] == s[at];
    assert at + 1 < |s| ==> s[at + 1..][0] == s[at + 1];
  }

  lemma {:induction false} ExpandFrom(reverse: map<string, string>, s: string, at: nat) returns (ts: seq<Span>)
    requires at <= |s|
    ensures AreTokens(s, at, ts) && Expand(reverse, s[at..]) == Spoken(reverse, s, at, ts)
    decreases |s| - at
  {
    if at == |s| {
      ts := [];
    } else if s[at] == '~' && StartsAlnum(s[at + 1..]) {
      var t := Span(at, at + 1 + |Run(s[at + 1..])|);
      ExpandHead(reverse, s, at, t);
      var rest := ExpandFrom(reverse, s, t.until);
      ts := [t] + rest;
      TokensFrom(s, t, rest);
      SpokenHead(reverse, s, t, rest);
    } else {
      CopyHead(reverse, s, at);
      ts := ExpandFrom(reverse, s, at + 1);
      SpokenEarlier(reverse, s, at, ts);
    }
  }

  lemma SpokenHead(reverse: map<string, string>, s: string, t: Span, rest: seq<Span>)
    requires t.from < t.until <= |s| && InTurn(s, t.until, rest)
    ensures InTurn(s, t.from, [t] + rest)
    ensures Spoken(reverse, s, t.from, [t] + rest) == Meaning(reverse, s, t) + Spoken(reverse, s, t.until, rest)
  {
    assert ([t] + rest)[1..] == rest && s[t.from..t.from] == "";
    assert "" + Meaning(reverse, s, t) == Meaning(reverse, s, t);
  }

  lemma TokensFrom(s: string, t: Span, rest: seq<Span>)
    requires TokenAt(s, t) && AreTokens(s, t.until, rest)
    ensures AreTokens(s, t.from, [t] + rest)
  {
    assert ([t] + rest)[1..] == rest;
    forall u: Span ensures u in [t] + rest <==> t.from <= u.from && TokenAt(s, u) {
      if t.from <= u.from < t.until && TokenAt(s, u) {
        SameToken(s, t, u);
      }
    }
  }

  lemma SpokenEarlier(reverse: map<string, string>, s: string, at: nat, ts: seq<Span>)
    requires at < |s| && InTurn(s, at + 1, ts)
    ensures InTurn(s, at, ts) && Spoken(reverse, s, at, ts) == [s[at]] + Spoken(reverse, s, at + 1, ts)
  {
    if ts == [] {
      assert s[at..] == [s[at]] + s[at + 1..];
    } else {
      assert s[at..ts[0].from] == [s[at]] + s[at + 1..ts[0].from];
      var m, tail := Meaning(reverse, s, ts[0]), Spoken(reverse, s, ts[0].until, ts[1..]);
      assert ([s[at]] + s[at + 1..ts[0].from]) + m + tail == [s[at]] + (s[at + 1..ts[0].from] + m + tail);
    }
  }

  /** Expansion puts its term for exactly the tokens that are known, and copies everything else. */
  lemma ExpandExactly(reverse: map<string, string>, s: string)
    ensures exists ts :: AreTokens(s, 0, ts) && Expand(reverse, s) == Spoken(reverse, s, 0, ts)
  {
    var ts := ExpandFrom(reverse, s, 0);
    assert s[0..] == s;
  }

  // -------- words

  /** A whole run of at least four letters. */
  predicate WordAt(s: string, t: Span) {
    t.from + 4 <= t.until && IsLetterRun(s, t)
  }

  /** A run of letters with none before and none after it. */
  predicate IsLetterRun(s: string, t: Span) {
    && t.from < t.until <= |s| && (forall k :: t.from <= k < t.until ==> LowerCase(s[k]))
    && StartsRun(s, t.from) && (t.until == |s| || !LowerCase(s[t.until]))
  }

  predicate StartsRun(s: string, at: nat) {
    at == 0 || at > |s| || !LowerCase(s[at - 1])
  }

  predicate Inside(s: string, ts: seq<Span>) {
    forall k :: 0 <= k < |ts| ==> ts[k].from <= ts[k].until <= |s|
  }

  function Cut(s: string, ts: seq<Span>): seq<string>
    requires Inside(s, ts)
  {
    seq(|ts|, k requires 0 <= k < |ts| => s[ts[k].from..ts[k].until])
  }

  ghost predicate AreWords(s: string, at: nat, ts: seq<Span>) {
    InTurn(s, at, ts) && Inside(s, ts) && forall t: Span :: t in ts <==> at <= t.from && WordAt(s, t)
  }

  lemma RunIsWhole(s: string, at: nat)
    requires at < |s| && Letter(s[at]) && StartsRun(s, at)
    ensures var t := Span(at, at + |LetterRun(s[at..])|);
      IsLetterRun(s, t) && s[at..t.until] == LetterRun(s[at..])
  {
    var r := LetterRun(s[at..]);
    var end := at + |r|;
    assert r == s[at..][..|r|] == s[at..end];
    RunEnds(s[at..]);
    assert end < |s| ==> s[at..][|r|] == s[end];
    forall k | at <= k < end ensures LowerCase(s[k]) {
      assert s[k] == r[k - at] && r[k - at] in r;
    }
  }

  lemma RunNoLonger(s: string, t: Span, u: Span)
    requires IsLetterRun(s, t) && IsLetterRun(s, u) && t.from == u.from
    ensures t.until <= u.until
  {
  }

  lemma InsideRun(s: string, t: Span, i: nat)
    requires IsLetterRun(s, t) && t.from < i < t.until
    ensures !StartsRun(s, i)
  {
  }

  /** Runs do not overlap. */
  lemma SameRun(s: string, t: Span, u: Span)
    requires IsLetterRun(s, t) && IsLetterRun(s, u) && t.from <= u.from < t.until
    ensures u == t
  {
    if u.from > t.from {
      InsideRun(s, t, u.from);
    } else {
      RunNoLonger(s, t, u);
      RunNoLonger(s, u, t);
    }
  }

  lemma {:induction false} RunEnds(s: string)
    ensures var r := LetterRun(s); (s != "" && Letter(s[0]) ==> r != "") && (|r| < |s| ==> !Letter(s[|r|]))
  {
    if s != "" && Letter(s[0]) {
      RunEnds(s[1..]);
    }
  }

  lemma WordsHead(s: string, at: nat, t: Span)
    requires at < |s| && Letter(s[at]) && t == Span(at, at + |LetterRun(s[at..])|) && t.until <= |s|
    ensures LetterWords(s[at..]) ==
      (if t.until - at >= 4 then [s[at..t.until]] else []) + LetterWords(s[t.until..])
  {
    var r := LetterRun(s[at..]);
    assert s[at..][0] == s[at] && s[at..][|r|..] == s[t.until..] && r == s[at..][..|r|] == s[at..t.until];
  }

  lemma CutHead(s: string, t: Span, rest: seq<Span>)
    requires t.from <= t.until <= |s| && Inside(s, rest)
    ensures Inside(s, [t] + rest) && Cut(s, [t] + rest) == [s[t.from..t.until]] + Cut(s, rest)
  {
  }

  lemma {:induction false} WordsFrom(s: string, at: nat) returns (ts: seq<Span>)
    requires at <= |s| && (at == |s| || !LowerCase(s[at]) || StartsRun(s, at))
    ensures AreWords(s, at, ts) && LetterWords(s[at..]) == Cut(s, ts)
    decreases |s| - at
  {
    if at == |s| {
      ts := [];
    } else if Letter(s[at]) {
      var t := Span(at, at + |LetterRun(s[at..])|);
      RunIsWhole(s, at);
      WordsHead(s, at, t);
      ts := WordsFrom(s, t.until);
      WordsBefore(s, t, ts);
      CutHead(s, t, ts);
      if t.until - at >= 4 {
        ts := [t] + ts;
      }
    } else {
      ts := WordsFrom(s, at + 1);
      assert s[at..][1..] == s[at + 1..];
      NoWordHere(s, at, ts);
    }
  }

  lemma NoWordHere(s: string, at: nat, ts: seq<Span>)
    requires at < |s| && !LowerCase(s[at]) && AreWords(s, at + 1, ts)
    ensures AreWords(s, at, ts)
  {
    assert forall t: Span :: t.from == at ==> !WordAt(s, t);
  }

  lemma WordsBefore(s: string, t: Span, rest: seq<Span>)
    requires IsLetterRun(s, t) && AreWords(s, t.until, rest)
    ensures AreWords(s, t.from, if t.until - t.from >= 4 then [t] + rest else rest)
  {
    var ts := if t.until - t.from >= 4 then [t] + rest else rest;
    assert ([t] + rest)[1..] == rest;
    forall u: Span ensures u in ts <==> t.from <= u.from && WordAt(s, u) {
      if t.from <= u.from < t.until && WordAt(s, u) {
        SameRun(s, t, u);
      }
    }
  }

  /** The words of a text are its whole runs of at least four letters, all of them, in order. */
  lemma WordsExactly(s: string)
    ensures exists ts :: AreWords(s, 0, ts) && LetterWords(s) == Cut(s, ts)
  {
    var ts := WordsFrom(s, 0);
    assert s[0..] == s;
  }

  /** One, two or three words in a row, with a blank between them. */
  predicate InARow(ws: seq<string>, n: nat, i: nat, t: string) {
    i + n <= |ws|
    && ((n == 1 && t == ws[i])
        || (n == 2 && t == ws[i] + " " + ws[i + 1])
        || (n == 3 && t == ws[i] + " " + (ws[i + 1] + " " + ws[i + 2])))
  }

  lemma RowsAreGrams(ws: seq<string>, t: string)
    ensures (exists n: nat, i: nat :: GramAt(ws, n, i, t)) <==> exists n: nat, i: nat :: InARow(ws, n, i, t)
  {
    if n: nat, i: nat :| GramAt(ws, n, i, t) {
      RowsJoin(ws, n, i);
      assert InARow(ws, n, i, t);
    }
    if n: nat, i: nat :| InARow(ws, n, i, t) {
      RowsJoin(ws, n, i);
      assert GramAt(ws, n, i, t);
    }
  }

  /** The n-grams are exactly those. */
  lemma GramsExactly(text: string, ws: seq<string>, t: string)
    requires ws == LetterWords(Lower(text))
    ensures IsGram(text, t) <==> exists n: nat, i: nat :: InARow(ws, n, i, t)
  {
    RowsAreGrams(ws, t);
    if IsGram(text, t) {
      var n: nat, i: nat :| GramAt(LetterWords(Lower(text)), n, i, t);
      assert GramAt(ws, n, i, t);
    }
    if exists n: nat, i: nat :: GramAt(ws, n, i, t) {
      var n: nat, i: nat :| GramAt(ws, n, i, t);
      assert GramAt(LetterWords(Lower(text)), n, i, t);
    }
  }

  lemma RowsJoin(ws: seq<string>, n: nat, i: nat)
    requires i + n <= |ws|
    ensures n == 1 ==> Join(ws[i..i + n]) == ws[i]
    ensures n == 2 ==> Join(ws[i..i + n]) == ws[i] + " " + ws[i + 1]
    ensures n == 3 ==> Join(ws[i..i + n]) == ws[i] + " " + (ws[i + 1] + " " + ws[i + 2])
  {
    if n == 2 {
      assert ws[i..i + 2] == [ws[i], ws[i + 1]] && [ws[i], ws[i + 1]][1..] == [ws[i + 1]];
    } else if n == 3 {
      var row, tail := ws[i..i + 3], [ws[i + 1], ws[i + 2]];
      assert row[0] == ws[i] && row[1..] == tail && tail[1..] == [ws[i + 2]];
      assert Join(tail) == tail[0] + " " + Join(tail[1..]);
      assert Join(row) == row[0] + " " + Join(tail);
    }
  }
}
