/**
 * Compaction and expansion of chat bodies. Compaction rewrites every bounded occurrence
 * of an active term to a "~abbrev" token, longest term first; expansion rewrites tokens
 * back. Proved here: expansion undoes compaction whatever the text and the order of the
 * terms, exactly which texts survive the trip, and that no active term stays behind.
 */
module GlossText {
  import opened Basics
  import opened Text

  /** One negotiated [term, abbreviation] pair. */
  datatype Binding = Binding(term: string, abbrev: string)

  // -------- rewriting one term

  /**
   * One regular-expression match at the head of s: the term stands there, and neither the
   * character before (prev) nor the one after it is in [a-z0-9].
   */
  predicate MatchesHere(prev: bool, s: string, term: string) {
    !prev && term <= s && !StartsAlnum(s[|term|..])
  }

  /**
   * Global replacement, scanning left to right without overlaps. Lookbehind sees the
   * scanned text, never the inserted tokens. An empty match is followed by one copied
   * character.
   */
  function ReplaceTerm(prev: bool, s: string, term: string, token: string): string
    decreases |s|
  {
    if MatchesHere(prev, s, term) then
      if term == "" then
        token + (if s == "" then "" else [s[0]] + ReplaceTerm(Alnum(s[0]), s[1..], term, token))
      else
        token + ReplaceTerm(EndsAlnum(term), s[|term|..], term, token)
    else if s == "" then ""
    else [s[0]] + ReplaceTerm(Alnum(s[0]), s[1..], term, token)
  }

  /** All active terms in the given order, each pass over the result of the one before. */
  function CompactWith(act: seq<Binding>, text: string): string {
    if act == [] then text
    else CompactWith(act[1..], ReplaceTerm(false, text, act[0].term, "~" + act[0].abbrev))
  }

  /** Every "~[a-z0-9]+" token is looked up; unknown tokens stay verbatim. */
  function Expand(reverse: map<string, string>, s: string): string
    decreases |s|
  {
    if s == "" then ""
    else if s[0] == '~' && StartsAlnum(s[1..]) then
      var w := Run(s[1..]);
      (if w in reverse then reverse[w] else "~" + w) + Expand(reverse, s[1 + |w|..])
    else [s[0]] + Expand(reverse, s[1..])
  }

  /** No token of s is bound in reverse. */
  predicate NoLiveToken(reverse: map<string, string>, s: string)
    decreases |s|
  {
    if s == "" then true
    else if s[0] == '~' && StartsAlnum(s[1..]) then
      Run(s[1..]) !in reverse && NoLiveToken(reverse, s[1 + |Run(s[1..])|..])
    else NoLiveToken(reverse, s[1..])
  }

  /** A pair the receiver holds: the abbreviation is a token word bound to the term, the term holds no '~'. */
  predicate Bound(reverse: map<string, string>, p: Binding) {
    && p.abbrev != "" && AllAlnum(p.abbrev)
    && p.abbrev in reverse && reverse[p.abbrev] == p.term
    && '~' !in p.term
  }

  /** The term's first word is itself a live abbreviation. */
  predicate BeginsLive(reverse: map<string, string>, term: string) {
    StartsAlnum(term) && Run(term) in reverse
  }

  /** A pair the receiver can undo in any text. */
  predicate Undoable(reverse: map<string, string>, p: Binding) {
    Bound(reverse, p) && !BeginsLive(reverse, p.term)
  }

  /** No bound term holds a '~'. */
  ghost predicate PlainTerms(reverse: map<string, string>) {
    forall w :: w in reverse ==> '~' !in reverse[w]
  }

  /**
   * How many matches of one pass swallow a token: the term begins with a live abbreviation and
   * stands directly behind a '~'. tilde says that the character before s is one.
   */
  function Swallowed(reverse: map<string, string>, tilde: bool, prev: bool, s: string, term: string): nat
    decreases |s|
  {
    if term == "" then 0
    else if MatchesHere(prev, s, term) then
      (if tilde && BeginsLive(reverse, term) then 1 else 0)
      + Swallowed(reverse, false, EndsAlnum(term), s[|term|..], term)
    else if s == "" then 0
    else Swallowed(reverse, s[0] == '~', Alnum(s[0]), s[1..], term)
  }

  /** The swallowed tokens of all passes. */
  function SwallowedAll(reverse: map<string, string>, act: seq<Binding>, text: string): nat {
    if act == [] then 0
    else
      Swallowed(reverse, false, false, text, act[0].term)
      + SwallowedAll(reverse, act[1..], ReplaceTerm(false, text, act[0].term, "~" + act[0].abbrev))
  }

  // -------- expansion undoes compaction

  lemma {:induction false} ExpandPlain(reverse: map<string, string>, plain: string, rest: string)
    requires '~' !in plain
    ensures Expand(reverse, plain + rest) == plain + Expand(reverse, rest)
  {
    if plain == "" {
      assert plain + rest == rest;
    } else {
      assert (plain + rest)[1..] == plain[1..] + rest;
      ExpandPlain(reverse, plain[1..], rest);
      assert [plain[0]] + (plain[1..] + Expand(reverse, rest)) == plain + Expand(reverse, rest);
    }
  }

  lemma ExpandWord(reverse: map<string, string>, w: string, rest: string)
    requires w != "" && AllAlnum(w) && !StartsAlnum(rest)
    ensures Expand(reverse, "~" + (w + rest)) == (if w in reverse then reverse[w] else "~" + w) + Expand(reverse, rest)
  {
    var s, body := "~" + (w + rest), w + rest;
    assert s[0] == '~' && s[1..] == body && body[0] == w[0];
    RunUnique(w, rest);
    assert s[1 + |w|..] == rest;
  }

  lemma ExpandToken(reverse: map<string, string>, w: string, rest: string)
    requires w != "" && AllAlnum(w) && !StartsAlnum(rest)
    ensures Expand(reverse, "~" + w + rest)
         == (if w in reverse then reverse[w] else "~" + w) + Expand(reverse, rest)
  {
    ExpandWord(reverse, w, rest);
    Assoc("~", w, rest);
  }

  /** Inside a run of [a-z0-9] nothing can match, so the run is copied. */
  lemma {:induction false} ReplaceCopiesRun(s: string, w: string, term: string, token: string)
    requires w <= s && AllAlnum(w)
    ensures ReplaceTerm(true, s, term, token) == w + ReplaceTerm(true, s[|w|..], term, token)
  {
    if w == "" {
      assert s[|w|..] == s;
    } else {
      ReplaceCopiesRun(s[1..], w[1..], term, token);
      assert s[1..][|w[1..]|..] == s[|w|..];
      var rest := ReplaceTerm(true, s[|w|..], term, token);
      assert [s[0]] + (w[1..] + rest) == w + rest;
    }
  }

  /** After [a-z0-9], a replacement neither starts nor ends a word. */
  lemma ReplaceKeepsBoundary(prev: bool, s: string, term: string, w: string)
    requires !StartsAlnum(s)
    ensures !StartsAlnum(ReplaceTerm(prev, s, term, "~" + w))
  {
  }

  lemma TildeAlone(reverse: map<string, string>, x: string)
    requires !StartsAlnum(x)
    ensures Expand(reverse, "~" + x) == "~" + Expand(reverse, x)
  {
    assert ("~" + x)[1..] == x;
  }

  /** A word that is not bound, and what follows it, is copied after a "~". */
  lemma UnboundWord(reverse: map<string, string>, w: string, tail: string, rest: string)
    requires w != "" && AllAlnum(w) && w !in reverse && '~' !in tail
    requires !StartsAlnum(tail + rest)
    ensures Expand(reverse, "~" + (w + (tail + rest))) == "~" + (w + (tail + Expand(reverse, rest)))
  {
    ExpandPlain(reverse, tail, rest);
    ExpandToken(reverse, w, tail + rest);
    Assoc("~", w, tail + rest);
    Assoc("~", w, tail + Expand(reverse, rest));
  }

  /** "~" directly before an occurrence of a term that begins with no live abbreviation is read as itself. */
  lemma TildeBeforeTerm(reverse: map<string, string>, term: string, rest: string)
    requires '~' !in term && !BeginsLive(reverse, term) && !StartsAlnum(rest) && term != ""
    ensures Expand(reverse, "~" + (term + rest)) == "~" + (term + Expand(reverse, rest))
  {
    var w := Run(term);
    if w == "" {
      ExpandPlain(reverse, term, rest);
      TildeAlone(reverse, term + rest);
    } else {
      var tail := term[|w|..];
      assert term == w + tail;
      Assoc(w, tail, rest);
      Assoc(w, tail, Expand(reverse, rest));
      UnboundWord(reverse, w, tail, rest);
    }
  }

  /** Otherwise it and the first word are read as a token. */
  lemma TildeSwallows(reverse: map<string, string>, term: string, rest: string)
    requires '~' !in term && BeginsLive(reverse, term) && !StartsAlnum(rest)
    ensures var w := Run(term);
      Expand(reverse, "~" + (term + rest)) == reverse[w] + (term[|w|..] + Expand(reverse, rest))
  {
    var w := Run(term);
    var tail := term[|w|..];
    assert term == w + tail;
    Assoc(w, tail, rest);
    assert !StartsAlnum(tail + rest);
    ExpandWord(reverse, w, tail + rest);
    ExpandPlain(reverse, tail, rest);
  }

  /** a has n more '~' than b; without any more it is b. The count is claimed for plain terms only. */
  ghost predicate Gains(plain: bool, a: string, b: string, n: nat) {
    (n == 0 ==> a == b) && (plain ==> Tildes(a) == Tildes(b) + n)
  }

  lemma GainsBehind(plain: bool, h: string, a: string, b: string, n: nat)
    requires Gains(plain, a, b, n)
    ensures Gains(plain, h + a, h + b, n)
  {
    TildesConcat(h, a);
    TildesConcat(h, b);
  }

  /** A token in front of y expands to the term. */
  lemma ExpandBound(reverse: map<string, string>, p: Binding, y: string)
    requires Bound(reverse, p) && !StartsAlnum(y)
    ensures Expand(reverse, "~" + p.abbrev + y) == p.term + Expand(reverse, y)
  {
    ExpandWord(reverse, p.abbrev, y);
    Assoc("~", p.abbrev, y);
  }

  /** The pass replaces the term at the head of s, and the rest gains n. */
  lemma MatchGains(reverse: map<string, string>, plain: bool, p: Binding, y: string, rest: string, n: nat)
    requires Bound(reverse, p) && !StartsAlnum(y) && Gains(plain, Expand(reverse, y), Expand(reverse, rest), n)
    ensures Gains(plain, Expand(reverse, "~" + p.abbrev + y), Expand(reverse, p.term + rest), n)
  {
    ExpandBound(reverse, p, y);
    ExpandPlain(reverse, p.term, rest);
    GainsBehind(plain, p.term, Expand(reverse, y), Expand(reverse, rest), n);
  }

  /** One replacement pass adds one '~' to the expansion for every token it swallows, and changes nothing else. */
  lemma {:induction false} PassGains(reverse: map<string, string>, plain: bool, prev: bool, s: string, p: Binding)
    requires Bound(reverse, p) && (plain ==> PlainTerms(reverse))
    ensures Gains(plain, Expand(reverse, ReplaceTerm(prev, s, p.term, "~" + p.abbrev)), Expand(reverse, s),
                  Swallowed(reverse, false, prev, s, p.term))
    decreases |s|, 1
  {
    var term, token := p.term, "~" + p.abbrev;
    if !MatchesHere(prev, s, term) {
      if s != "" {
        CopyStep(reverse, plain, s, p);
      }
    } else if term == "" {
      EmptyMatch(reverse, plain, prev, s, p);
    } else {
      var rest := s[|term|..];
      var y := ReplaceTerm(EndsAlnum(term), rest, term, token);
      assert s == term + rest;
      ReplaceKeepsBoundary(EndsAlnum(term), rest, term, p.abbrev);
      PassGains(reverse, plain, EndsAlnum(term), rest, p);
      MatchGains(reverse, plain, p, y, rest, Swallowed(reverse, false, EndsAlnum(term), rest, term));
    }
  }

  /** The empty term matches between any two characters that are no letters or digits. */
  lemma {:induction false} EmptyMatch(reverse: map<string, string>, plain: bool, prev: bool, s: string, p: Binding)
    requires Bound(reverse, p) && (plain ==> PlainTerms(reverse)) && p.term == "" && MatchesHere(prev, s, "")
    ensures Gains(plain, Expand(reverse, ReplaceTerm(prev, s, "", "~" + p.abbrev)), Expand(reverse, s), 0)
    decreases |s|, 0, 2
  {
    var token := "~" + p.abbrev;
    if s == "" {
      ExpandBound(reverse, p, "");
      assert token + "" == token;
    } else {
      var y := [s[0]] + ReplaceTerm(Alnum(s[0]), s[1..], "", token);
      CopyStep(reverse, plain, s, p);
      assert s[0..] == s;
      ExpandBound(reverse, p, y);
      assert "" + Expand(reverse, y) == Expand(reverse, y);
    }
  }

  /** The same when the first character of s is copied. */
  lemma {:induction false} CopyStep(reverse: map<string, string>, plain: bool, s: string, p: Binding)
    requires Bound(reverse, p) && (plain ==> PlainTerms(reverse)) && s != ""
    ensures Gains(plain, Expand(reverse, [s[0]] + ReplaceTerm(Alnum(s[0]), s[1..], p.term, "~" + p.abbrev)),
                  Expand(reverse, s), Swallowed(reverse, s[0] == '~', Alnum(s[0]), s[1..], p.term))
    decreases |s|, 0, 1
  {
    var term, token := p.term, "~" + p.abbrev;
    var x := ReplaceTerm(Alnum(s[0]), s[1..], term, token);
    assert ([s[0]] + x)[1..] == x;
    if s[0] == '~' && StartsAlnum(s[1..]) {
      if MatchesHere(false, s[1..], term) {
        TokenBeforeMatch(reverse, plain, s, p);
      } else {
        TokenCopied(reverse, plain, s, p);
      }
    } else {
      if s[0] == '~' {
        ReplaceKeepsBoundary(false, s[1..], term, p.abbrev);
      }
      PassGains(reverse, plain, Alnum(s[0]), s[1..], p);
      GainsBehind(plain, [s[0]], Expand(reverse, x), Expand(reverse, s[1..]),
                  Swallowed(reverse, false, Alnum(s[0]), s[1..], term));
    }
  }

  /** "~" followed by an occurrence of the term. */
  lemma {:induction false} TokenBeforeMatch(reverse: map<string, string>, plain: bool, s: string, p: Binding)
    requires Bound(reverse, p) && (plain ==> PlainTerms(reverse))
    requires s != "" && s[0] == '~' && MatchesHere(false, s[1..], p.term) && p.term != ""
    ensures Gains(plain, Expand(reverse, "~" + ReplaceTerm(false, s[1..], p.term, "~" + p.abbrev)), Expand(reverse, s),
                  Swallowed(reverse, true, false, s[1..], p.term))
    decreases |s|, 0, 0
  {
    var term, token := p.term, "~" + p.abbrev;
    var rest := s[1..][|term|..];
    assert s[1..] == term + rest && s == "~" + (term + rest);
    var y := ReplaceTerm(EndsAlnum(term), rest, term, token);
    ReplaceKeepsBoundary(EndsAlnum(term), rest, term, p.abbrev);
    ExpandDouble(reverse, p.abbrev, y);
    PassGains(reverse, plain, EndsAlnum(term), rest, p);
    var n := Swallowed(reverse, false, EndsAlnum(term), rest, term);
    GainsBehind(plain, term, Expand(reverse, y), Expand(reverse, rest), n);
    if BeginsLive(reverse, term) {
      TildeSwallows(reverse, term, rest);
      SwallowGains(reverse, plain, term, Expand(reverse, y), Expand(reverse, rest), n);
    } else {
      TildeBeforeTerm(reverse, term, rest);
      GainsBehind(plain, "~", term + Expand(reverse, y), term + Expand(reverse, rest), n);
    }
  }

  /** A token behind a '~' expands on its own. */
  lemma ExpandDouble(reverse: map<string, string>, w: string, y: string)
    requires w != "" && AllAlnum(w) && w in reverse && !StartsAlnum(y)
    ensures Expand(reverse, "~" + ("~" + w + y)) == "~" + (reverse[w] + Expand(reverse, y))
  {
    var x := "~" + w + y;
    assert ("~" + x)[1..] == x && x[0] == '~';
    ExpandToken(reverse, w, y);
  }

  lemma SwallowGains(reverse: map<string, string>, plain: bool, term: string, a: string, b: string, n: nat)
    requires BeginsLive(reverse, term) && '~' !in term && (plain ==> PlainTerms(reverse)) && Gains(plain, a, b, n)
    ensures var w := Run(term); Gains(plain, "~" + (term + a), reverse[w] + (term[|w|..] + b), n + 1)
  {
    if plain {
      var w := Run(term);
      var tail := term[|w|..];
      TildesConcat("~", term + a);
      assert "~"[1..] == "";
      TildesConcat(term, a);
      TildesConcat(reverse[w], tail + b);
      TildesConcat(tail, b);
      NoTildes(term);
      NoTildes(tail);
      NoTildes(reverse[w]);
    }
  }

  /** A word at which the term does not stand is copied, and what follows it begins no word. */
  lemma WordCopied(w: string, rest: string, p: Binding)
    requires w != "" && AllAlnum(w) && !StartsAlnum(rest) && !MatchesHere(false, w + rest, p.term)
    ensures var z := ReplaceTerm(true, rest, p.term, "~" + p.abbrev);
      ReplaceTerm(false, w + rest, p.term, "~" + p.abbrev) == w + z && !StartsAlnum(z)
  {
    var s, token, tail := w + rest, "~" + p.abbrev, w[1..];
    var z := ReplaceTerm(true, rest, p.term, token);
    assert s[0] == w[0] && s[1..] == tail + rest && w == [w[0]] + tail;
    assert tail <= tail + rest && (tail + rest)[|tail|..] == rest;
    ReplaceCopiesRun(tail + rest, tail, p.term, token);
    Assoc([w[0]], tail, z);
    ReplaceKeepsBoundary(true, rest, p.term, p.abbrev);
  }

  lemma {:induction false} SwallowedBehindRun(reverse: map<string, string>, w: string, rest: string, term: string)
    requires AllAlnum(w)
    ensures Swallowed(reverse, false, true, w + rest, term) == Swallowed(reverse, false, true, rest, term)
  {
    if w == "" {
      assert w + rest == rest;
    } else {
      assert (w + rest)[1..] == w[1..] + rest;
      SwallowedBehindRun(reverse, w[1..], rest, term);
    }
  }

  /** "~" followed by a word at which the term does not stand. */
  lemma {:induction false} TokenCopied(reverse: map<string, string>, plain: bool, s: string, p: Binding)
    requires Bound(reverse, p) && (plain ==> PlainTerms(reverse)) && s != "" && s[0] == '~' && StartsAlnum(s[1..])
    requires !MatchesHere(false, s[1..], p.term)
    ensures Gains(plain, Expand(reverse, "~" + ReplaceTerm(false, s[1..], p.term, "~" + p.abbrev)), Expand(reverse, s),
                  Swallowed(reverse, true, false, s[1..], p.term))
    decreases |s|, 0, 0
  {
    var w := Run(s[1..]);
    var rest := s[1 + |w|..];
    var z := ReplaceTerm(true, rest, p.term, "~" + p.abbrev);
    assert s[1..] == w + rest;
    WordCopied(w, rest, p);
    PassGains(reverse, plain, true, rest, p);
    assert (w + rest)[1..] == w[1..] + rest;
    SwallowedBehindRun(reverse, w[1..], rest, p.term);
    ExpandWord(reverse, w, z);
    ExpandWord(reverse, w, rest);
    assert s == "~" + (w + rest);
    GainsBehind(plain, if w in reverse then reverse[w] else "~" + w, Expand(reverse, z), Expand(reverse, rest),
                Swallowed(reverse, false, true, rest, p.term));
  }

  lemma {:induction false} NeverSwallowed(reverse: map<string, string>, tilde: bool, prev: bool, s: string,
                                          term: string)
    requires !BeginsLive(reverse, term)
    ensures Swallowed(reverse, tilde, prev, s, term) == 0
    decreases |s|
  {
    if term == "" || (s == "" && !MatchesHere(prev, s, term)) {
    } else if MatchesHere(prev, s, term) {
      NeverSwallowed(reverse, false, EndsAlnum(term), s[|term|..], term);
    } else {
      NeverSwallowed(reverse, s[0] == '~', Alnum(s[0]), s[1..], term);
    }
  }

  /** All passes together add exactly the swallowed tokens. */
  lemma {:induction false} CompactGains(reverse: map<string, string>, plain: bool, act: seq<Binding>, text: string)
    requires (forall p :: p in act ==> Bound(reverse, p)) && (plain ==> PlainTerms(reverse))
    ensures Gains(plain, Expand(reverse, CompactWith(act, text)), Expand(reverse, text),
                  SwallowedAll(reverse, act, text))
    decreases |act|
  {
    if act != [] {
      PassGains(reverse, plain, false, text, act[0]);
      CompactGains(reverse, plain, act[1..], ReplaceTerm(false, text, act[0].term, "~" + act[0].abbrev));
    }
  }

  lemma {:induction false} UndoableSwallowNone(reverse: map<string, string>, act: seq<Binding>, text: string)
    requires forall p :: p in act ==> Undoable(reverse, p)
    ensures SwallowedAll(reverse, act, text) == 0
    decreases |act|
  {
    if act != [] {
      assert act[0] in act;
      NeverSwallowed(reverse, false, false, text, act[0].term);
      UndoableSwallowNone(reverse, act[1..], ReplaceTerm(false, text, act[0].term, "~" + act[0].abbrev));
    }
  }

  /** The receiver undoes every undoable pair the sender used, in whatever order and with any overlaps. */
  lemma ExpandUndoesCompact(reverse: map<string, string>, act: seq<Binding>, text: string)
    requires forall p :: p in act ==> Undoable(reverse, p)
    ensures Expand(reverse, CompactWith(act, text)) == Expand(reverse, text)
  {
    UndoableSwallowNone(reverse, act, text);
    CompactGains(reverse, false, act, text);
  }

  // -------- which texts survive

  function Tildes(s: string): nat {
    if s == "" then 0 else (if s[0] == '~' then 1 else 0) + Tildes(s[1..])
  }

  lemma {:induction false} TildesConcat(a: string, b: string)
    ensures Tildes(a + b) == Tildes(a) + Tildes(b)
  {
    if a == "" {
      assert a + b == b;
    } else {
      assert (a + b)[1..] == a[1..] + b;
      TildesConcat(a[1..], b);
    }
  }

  lemma {:induction false} NoTildes(s: string)
    requires '~' !in s
    ensures Tildes(s) == 0
  {
    if s != "" {
      NoTildes(s[1..]);
    }
  }

  /** The tokens of s that are bound in reverse. */
  function LiveTokens(reverse: map<string, string>, s: string): (n: nat)
    ensures n == 0 <==> NoLiveToken(reverse, s)
    decreases |s|
  {
    if s == "" then 0
    else if s[0] == '~' && StartsAlnum(s[1..]) then
      (if Run(s[1..]) in reverse then 1 else 0) + LiveTokens(reverse, s[1 + |Run(s[1..])|..])
    else LiveTokens(reverse, s[1..])
  }

  lemma TokenTildes(w: string, rest: string)
    requires '~' !in w
    ensures Tildes("~" + (w + rest)) == 1 + Tildes(rest)
  {
    TildesConcat("~", w + rest);
    assert "~"[1..] == "";
    TildesConcat(w, rest);
    NoTildes(w);
  }

  /** What a token contributes to the expansion. */
  lemma TokenExpands(reverse: map<string, string>, w: string, rest: string)
    requires PlainTerms(reverse) && w != "" && AllAlnum(w) && !StartsAlnum(rest)
    ensures Tildes(Expand(reverse, "~" + (w + rest))) == Tildes(Expand(reverse, rest)) + if w in reverse then 0 else 1
    ensures w !in reverse ==> Expand(reverse, "~" + (w + rest)) == "~" + (w + Expand(reverse, rest))
  {
    ExpandWord(reverse, w, rest);
    if w in reverse {
      TildesConcat(reverse[w], Expand(reverse, rest));
      NoTildes(reverse[w]);
    } else {
      assert !Alnum('~');
      Assoc("~", w, Expand(reverse, rest));
      TokenTildes(w, Expand(reverse, rest));
    }
  }

  lemma TokenOf(s: string) returns (w: string, rest: string)
    requires s != "" && s[0] == '~' && StartsAlnum(s[1..])
    ensures w == Run(s[1..]) && w != "" && '~' !in w && |w| < |s| && rest == s[1 + |w|..]
    ensures s == "~" + (w + rest) && AllAlnum(w) && !StartsAlnum(rest)
  {
    w := Run(s[1..]);
    rest := s[1 + |w|..];
    assert s[1..] == w + rest && !Alnum('~');
  }

  /** Expansion eats the '~' of every live token and of nothing else. */
  lemma {:induction false} ExpandTildes(reverse: map<string, string>, s: string)
    requires PlainTerms(reverse)
    ensures Tildes(Expand(reverse, s)) == Tildes(s) - LiveTokens(reverse, s)
    ensures NoLiveToken(reverse, s) ==> Expand(reverse, s) == s
    decreases |s|
  {
    if s == "" {
    } else if s[0] == '~' && StartsAlnum(s[1..]) {
      var w, rest := TokenOf(s);
      ExpandTildes(reverse, rest);
      TokenExpands(reverse, w, rest);
      TokenTildes(w, rest);
    } else {
      ExpandTildes(reverse, s[1..]);
      TildesConcat([s[0]], Expand(reverse, s[1..]));
      assert [s[0]][1..] == "" && s == [s[0]] + s[1..];
    }
  }

  /**
   * The round trip of one speaker's text to a listener that holds the pairs used. A text without
   * literal live tokens arrives unchanged exactly when no pass swallows a token; and when none
   * does, exactly the texts without literal live tokens arrive unchanged.
   */
  lemma RoundTrip(reverse: map<string, string>, act: seq<Binding>, text: string)
    requires (forall p :: p in act ==> Bound(reverse, p)) && PlainTerms(reverse)
    ensures NoLiveToken(reverse, text) ==>
      (Expand(reverse, CompactWith(act, text)) == text <==> SwallowedAll(reverse, act, text) == 0)
    ensures SwallowedAll(reverse, act, text) == 0 ==>
      (Expand(reverse, CompactWith(act, text)) == text <==> NoLiveToken(reverse, text))
  {
    CompactGains(reverse, true, act, text);
    ExpandTildes(reverse, text);
  }

  /** With undoable pairs no token is ever swallowed, so the literal tokens alone decide. */
  lemma UndoableRoundTrip(reverse: map<string, string>, act: seq<Binding>, text: string)
    requires (forall p :: p in act ==> Undoable(reverse, p)) && PlainTerms(reverse)
    ensures Expand(reverse, CompactWith(act, text)) == text <==> NoLiveToken(reverse, text)
  {
    UndoableSwallowNone(reverse, act, text);
    RoundTrip(reverse, act, text);
  }

  // -------- no active term stays behind

  /** The term stands somewhere in s, not touching [a-z0-9] on either side. */
  predicate Occurs(prev: bool, s: string, term: string)
    decreases |s|
  {
    MatchesHere(prev, s, term) || (s != "" && Occurs(Alnum(s[0]), s[1..], term))
  }

  /** What negotiated terms look like: words, no '~'. */
  predicate Wordlike(term: string) {
    StartsAlnum(term) && EndsAlnum(term) && '~' !in term
  }

  lemma {:induction false} OccursLater(prev: bool, a: string, s: string, term: string)
    requires a != "" && Occurs(EndsAlnum(a), s, term)
    ensures Occurs(prev, a + s, term)
    decreases |a|
  {
    assert (a + s)[1..] == a[1..] + s;
    if |a| == 1 {
      assert a[1..] + s == s;
    } else {
      assert EndsAlnum(a[1..]) == EndsAlnum(a);
      OccursLater(Alnum(a[0]), a[1..], s, term);
    }
  }

  /** Nothing matches inside a run, so an occurrence after one is an occurrence after the run. */
  lemma {:induction false} OccursAfterRun(w: string, s: string, term: string)
    requires AllAlnum(w) && Occurs(true, w + s, term)
    ensures Occurs(true, s, term)
  {
    if w == "" {
      assert w + s == s;
    } else {
      assert (w + s)[1..] == w[1..] + s;
      OccursAfterRun(w[1..], s, term);
    }
  }

  /** Output that holds no '~' is copied input. */
  lemma {:induction false} PlainOutput(prev: bool, s: string, term: string, w: string, u: string)
    requires term != "" && u != "" && '~' !in u && u <= ReplaceTerm(prev, s, term, "~" + w)
    ensures u <= s
    ensures ReplaceTerm(prev, s, term, "~" + w) == u + ReplaceTerm(EndsAlnum(u), s[|u|..], term, "~" + w)
    decreases |u|
  {
    var out := ReplaceTerm(prev, s, term, "~" + w);
    assert u[0] == out[0] && u[0] in u;
    assert !MatchesHere(prev, s, term);
    if |u| > 1 {
      var x := ReplaceTerm(Alnum(s[0]), s[1..], term, "~" + w);
      assert out[1..] == x;
      PlainOutput(Alnum(s[0]), s[1..], term, w, u[1..]);
      assert s[1..][|u[1..]|..] == s[|u|..];
      var y := ReplaceTerm(EndsAlnum(u), s[|u|..], term, "~" + w);
      assert x == u[1..] + y;
      assert [u[0]] + (u[1..] + y) == u + y;
    }
  }

  /** A word read off the front of a term is the term's own first run. */
  lemma FirstRun(w: string, x: string, u: string, tail: string)
    requires AllAlnum(w) && !StartsAlnum(x) && w + x == u + tail && StartsAlnum(u) && !StartsAlnum(tail)
    ensures Run(u) == w
  {
    var r := Run(u);
    var rem := u[|r|..];
    assert u == r + rem;
    Assoc(r, rem, tail);
    assert !StartsAlnum(rem + tail);
    RunUnique(r, rem + tail);
    RunUnique(w, x);
  }

  lemma StandsOnWord(w: string, x: string, u: string)
    requires AllAlnum(w) && !StartsAlnum(x) && Wordlike(u) && MatchesHere(false, w + x, u)
    ensures Run(u) == w
  {
    var tail := (w + x)[|u|..];
    assert w + x == u + tail;
    FirstRun(w, x, u, tail);
  }

  /** A term that does not begin with the abbreviation is not found inside its token. */
  lemma NotInsideToken(w: string, x: string, u: string)
    requires w != "" && AllAlnum(w) && !StartsAlnum(x)
    requires Wordlike(u) && Run(u) != w
    requires Occurs(false, w + x, u)
    ensures Occurs(true, x, u)
  {
    if MatchesHere(false, w + x, u) {
      StandsOnWord(w, x, u);
    }
    assert (w + x)[1..] == w[1..] + x;
    OccursAfterRun(w[1..], x, u);
  }

  lemma NotAtTilde(prev: bool, s: string, u: string)
    requires Wordlike(u) && Occurs(prev, "~" + s, u)
    ensures Occurs(false, s, u)
  {
    var out := "~" + s;
    assert out[0] == '~' && out[1..] == s;
  }

  lemma NotInsideInserted(prev: bool, w: string, x: string, u: string)
    requires w != "" && AllAlnum(w) && !StartsAlnum(x)
    requires Wordlike(u) && Run(u) != w
    requires Occurs(prev, "~" + w + x, u)
    ensures Occurs(true, x, u)
  {
    Assoc("~", w, x);
    NotAtTilde(prev, w + x, u);
    NotInsideToken(w, x, u);
  }

  /** A pass removes every occurrence of its own term and creates none of any other. */
  lemma {:induction false} ReplaceLeavesNone(prev: bool, s: string, p: Binding, u: string)
    requires Wordlike(p.term) && Wordlike(u)
    requires p.abbrev != "" && AllAlnum(p.abbrev) && Run(u) != p.abbrev
    requires Occurs(prev, ReplaceTerm(prev, s, p.term, "~" + p.abbrev), u)
    ensures u != p.term && Occurs(prev, s, u)
    decreases |s|
  {
    var term, token := p.term, "~" + p.abbrev;
    if MatchesHere(prev, s, term) {
      var rest := s[|term|..];
      ReplaceKeepsBoundary(true, rest, term, p.abbrev);
      NotInsideInserted(prev, p.abbrev, ReplaceTerm(true, rest, term, token), u);
      ReplaceLeavesNone(true, rest, p, u);
      assert s == term + rest;
      OccursLater(prev, term, rest, u);
    } else if s != "" {
      CopiedLeavesNone(prev, s, p, u);
    }
  }

  lemma {:induction false} CopiedLeavesNone(prev: bool, s: string, p: Binding, u: string)
    requires Wordlike(p.term) && Wordlike(u)
    requires p.abbrev != "" && AllAlnum(p.abbrev) && Run(u) != p.abbrev
    requires s != "" && !MatchesHere(prev, s, p.term)
    requires Occurs(prev, ReplaceTerm(prev, s, p.term, "~" + p.abbrev), u)
    ensures u != p.term && Occurs(prev, s, u)
    decreases |s|, 0
  {
    var term, token := p.term, "~" + p.abbrev;
    var out := ReplaceTerm(prev, s, term, token);
    if MatchesHere(prev, out, u) {
      PlainOutput(prev, s, term, p.abbrev, u);
      var z := ReplaceTerm(true, s[|u|..], term, token);
      assert out[|u|..] == z;
      assert MatchesHere(prev, s, u);
    } else {
      var x := ReplaceTerm(Alnum(s[0]), s[1..], term, token);
      assert out[1..] == x;
      ReplaceLeavesNone(Alnum(s[0]), s[1..], p, u);
    }
  }

  /** After compaction no active term has a bounded occurrence left in the body. */
  lemma {:induction false} CompactLeavesNone(act: seq<Binding>, text: string, u: string)
    requires forall p :: p in act ==> Wordlike(p.term) && p.abbrev != "" && AllAlnum(p.abbrev)
    requires Wordlike(u) && forall p :: p in act ==> Run(u) != p.abbrev
    requires Occurs(false, CompactWith(act, text), u)
    ensures Occurs(false, text, u) && forall p :: p in act ==> p.term != u
  {
    if act != [] {
      CompactLeavesNone(act[1..], ReplaceTerm(false, text, act[0].term, "~" + act[0].abbrev), u);
      ReplaceLeavesNone(false, text, act[0], u);
    }
  }

  // -------- length

  lemma {:induction false} ReplaceNeverLonger(prev: bool, s: string, term: string, token: string)
    requires 0 < |token| <= |term|
    ensures |ReplaceTerm(prev, s, term, token)| <= |s|
    decreases |s|
  {
    if MatchesHere(prev, s, term) {
      ReplaceNeverLonger(EndsAlnum(term), s[|term|..], term, token);
    } else if s != "" {
      ReplaceNeverLonger(Alnum(s[0]), s[1..], term, token);
    }
  }

  lemma {:induction false} CompactNeverLonger(act: seq<Binding>, text: string)
    requires forall p :: p in act ==> |p.abbrev| < |p.term|
    ensures |CompactWith(act, text)| <= |text|
  {
    if act != [] {
      CompactNeverLonger(act[1..], ReplaceTerm(false, text, act[0].term, "~" + act[0].abbrev));
      ReplaceNeverLonger(false, text, act[0].term, "~" + act[0].abbrev);
    }
  }
}
