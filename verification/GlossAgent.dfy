/** The glossary of one conversation as the agent keeps it: updated in place by its handlers. */
module GlossAgent {
  import opened Basics
  import opened Text
  import opened GlossText
  import opened GlossConv

  /** All n-grams of one to three words of at least four letters, n by n, left to right. */
  method NGrams(text: string) returns (out: seq<string>)
    ensures out == AllGrams(LetterWords(Lower(text)), 1)
    ensures forall t :: t in out <==> IsGram(text, t)
  {
    var ws := LetterWords(Lower(text));
    out := [];
    var n := 1;
    while n <= MAX_NGRAM
      invariant 1 <= n <= MAX_NGRAM + 1
      invariant Collected(ws, n, 0, out) == Collected(ws, 1, 0, [])
    {
      var i := 0;
      while i + n <= |ws|
        invariant 0 <= i
        invariant Collected(ws, n, i, out) == Collected(ws, 1, 0, [])
        decreases |ws| - i
      {
        out := out + [Join(ws[i..i + n])];
        i := i + 1;
      }
      n := n + 1;
    }
    CollectedAll(ws, 1, 0, []);
    forall t ensures t in out <==> IsGram(text, t) {
      GramsListed(ws, 1, t);
    }
  }

  /** What the loops end with when they stand at n and i with out. */
  function Collected(ws: seq<string>, n: nat, i: nat, out: seq<string>): seq<string>
    requires n >= 1
    decreases MAX_NGRAM + 1 - n, |ws| - i
  {
    if n > MAX_NGRAM then out
    else if i + n > |ws| then Collected(ws, n + 1, 0, out)
    else Collected(ws, n, i + 1, out + [Join(ws[i..i + n])])
  }

  lemma {:induction false} CollectedAll(ws: seq<string>, n: nat, i: nat, out: seq<string>)
    requires n >= 1
    ensures Collected(ws, n, i, out) == out + if n > MAX_NGRAM then [] else GramsFrom(ws, n, i) + AllGrams(ws, n + 1)
    decreases MAX_NGRAM + 1 - n, |ws| - i
  {
    if n > MAX_NGRAM {
      assert out + [] == out;
    } else if i + n > |ws| {
      CollectedAll(ws, n + 1, 0, out);
      assert [] + AllGrams(ws, n + 1) == AllGrams(ws, n + 1);
    } else {
      var t := Join(ws[i..i + n]);
      CollectedAll(ws, n, i + 1, out + [t]);
      Assoc(out, [t], GramsFrom(ws, n, i + 1) + AllGrams(ws, n + 1));
      Assoc([t], GramsFrom(ws, n, i + 1), AllGrams(ws, n + 1));
    }
  }

  lemma {:induction false} GramsOfLength(ws: seq<string>, n: nat, i: nat, t: string)
    requires 1 <= n <= MAX_NGRAM
    ensures t in GramsFrom(ws, n, i) <==> exists k: nat :: i <= k && GramAt(ws, n, k, t)
    decreases |ws| - i
  {
    if i + n <= |ws| {
      GramsOfLength(ws, n, i + 1, t);
      if t == Join(ws[i..i + n]) {
        assert GramAt(ws, n, i, t);
      }
    }
  }

  lemma {:induction false} GramsListed(ws: seq<string>, n: nat, t: string)
    requires n >= 1
    ensures t in AllGrams(ws, n) <==> exists m: nat, k: nat :: n <= m && GramAt(ws, m, k, t)
    decreases MAX_NGRAM - n
  {
    if n <= MAX_NGRAM {
      GramsListed(ws, n + 1, t);
      GramsOfLength(ws, n, 0, t);
    }
  }

  /** Where a term of the given length goes: behind every pair whose term is at least as long. */
  function Slot(act: seq<Binding>, length: nat): (k: nat)
    requires LongestFirst(act)
    ensures k <= |act|
    ensures forall i :: 0 <= i < k ==> |act[i].term| >= length
    ensures forall i :: k <= i < |act| ==> |act[i].term| < length
    decreases |act|
  {
    if act == [] || |act[0].term| < length then 0 else 1 + Slot(act[1..], length)
  }

  /** act lists the active pairs whose terms are not still to come. */
  ghost predicate PartListing(c: Conv, act: seq<Binding>, todo: set<string>) {
    && LongestFirst(act)
    && (forall i, j :: 0 <= i < j < |act| ==> act[i].term != act[j].term)
    && forall b :: b in act <==> IsLive(c, b) && b.term !in todo
  }

  lemma InsertedInOrder(act: seq<Binding>, k: nat, b: Binding, r: seq<Binding>)
    requires LongestFirst(act) && k == Slot(act, |b.term|)
    requires r == act[..k] + [b] + act[k..]
    ensures LongestFirst(r)
    ensures forall i :: 0 <= i < |r| ==> r[i] == if i < k then act[i] else if i == k then b else act[i - 1]
  {
  }

  lemma InsertedMembers(act: seq<Binding>, k: nat, b: Binding, r: seq<Binding>)
    requires k <= |act| && r == act[..k] + [b] + act[k..]
    ensures forall x :: x in r <==> x in act || x == b
  {
    assert act == act[..k] + act[k..];
  }

  lemma ListedOneMore(c: Conv, act: seq<Binding>, k: nat, b: Binding, todo: set<string>)
    requires PartListing(c, act, todo) && IsLive(c, b) && b.term in todo
    requires k == Slot(act, |b.term|)
    ensures PartListing(c, act[..k] + [b] + act[k..], todo - {b.term})
  {
    var r := act[..k] + [b] + act[k..];
    InsertedInOrder(act, k, b, r);
    InsertedMembers(act, k, b, r);
    forall i | 0 <= i < |act| ensures act[i].term != b.term {
      assert act[i] in act;
    }
    InsertedDistinct(act, k, b, r);
  }

  lemma InsertedDistinct(act: seq<Binding>, k: nat, b: Binding, r: seq<Binding>)
    requires k <= |act| && r == act[..k] + [b] + act[k..]
    requires forall i, j :: 0 <= i < j < |act| ==> act[i].term != act[j].term
    requires forall i :: 0 <= i < |act| ==> act[i].term != b.term
    ensures forall i, j :: 0 <= i < j < |r| ==> r[i].term != r[j].term
  {
    forall i, j | 0 <= i < j < |r| ensures r[i].term != r[j].term {
      assert r[i] == if i < k then act[i] else if i == k then b else act[i - 1];
      assert r[j] == if j < k then act[j] else if j == k then b else act[j - 1];
    }
  }

  /** bs names the candidates of c that are not still to come. */
  ghost predicate Named(c: Conv, bs: seq<Binding>, todo: set<string>) {
    && (forall t :: t in todo ==> IsCandidate(c, t) && !HasTerm(bs, t))
    && (forall t :: IsCandidate(c, t) <==> t in todo || HasTerm(bs, t))
    && (forall i, j :: 0 <= i < j < |bs| ==> bs[i].term != bs[j].term)
    && forall i :: 0 <= i < |bs| ==> GeneratedAt(c.reserved, bs, i)
  }

  lemma NamedNone(c: Conv, todo: set<string>)
    requires forall t :: t in todo <==> IsCandidate(c, t)
    ensures Named(c, [], todo) && c.reserved + AbbrevsOf([]) == c.reserved
  {
  }

  lemma HasTermOneMore(bs: seq<Binding>, b: Binding, t: string)
    ensures HasTerm(bs + [b], t) <==> HasTerm(bs, t) || t == b.term
  {
    var more := bs + [b];
    if HasTerm(bs, t) {
      var i :| 0 <= i < |bs| && bs[i].term == t;
      assert more[i].term == t;
    }
    assert more[|bs|].term == b.term;
  }

  lemma GeneratedOneMore(reserved: set<string>, bs: seq<Binding>, b: Binding)
    requires forall i :: 0 <= i < |bs| ==> GeneratedAt(reserved, bs, i)
    requires NoneEmpty(Split(b.term)) && FirstFree(BaseAbbrev(b.term), reserved + AbbrevsOf(bs), b.abbrev)
    ensures forall i :: 0 <= i < |bs| + 1 ==> GeneratedAt(reserved, bs + [b], i)
  {
    var more := bs + [b];
    forall i | 0 <= i < |more| ensures GeneratedAt(reserved, more, i) {
      if i < |bs| {
        assert GeneratedAt(reserved, bs, i) && more[..i] == bs[..i] && more[i] == bs[i];
      } else {
        assert more[..i] == bs;
      }
    }
  }

  lemma NamedOneMore(c: Conv, bs: seq<Binding>, b: Binding, todo: set<string>)
    requires Named(c, bs, todo) && b.term in todo
    requires NoneEmpty(Split(b.term)) && FirstFree(BaseAbbrev(b.term), c.reserved + AbbrevsOf(bs), b.abbrev)
    ensures Named(c, bs + [b], todo - {b.term})
  {
    GeneratedOneMore(c.reserved, bs, b);
    forall t ensures HasTerm(bs + [b], t) <==> HasTerm(bs, t) || t == b.term {
      HasTermOneMore(bs, b, t);
    }
    forall i | 0 <= i < |bs| ensures bs[i].term != b.term {
      assert HasTerm(bs, bs[i].term);
    }
  }

  lemma ReservedOneMore(reserved: set<string>, bs: seq<Binding>, b: Binding)
    ensures reserved + AbbrevsOf(bs + [b]) == reserved + AbbrevsOf(bs) + {b.abbrev}
  {
    var more := bs + [b];
    assert more[|bs|] == b && forall i :: 0 <= i < |bs| ==> more[i] == bs[i];
    assert AbbrevsOf(more) == AbbrevsOf(bs) + {b.abbrev};
  }

  class Glossary {
    var entries: map<string, GlossPair>
    var reverse: map<string, string>
    var seen: map<string, nat>
    var dropped: set<string>
    var reserved: set<string>

    ghost function State(): Conv
      reads this
    {
      Conv(entries, reverse, seen, dropped, reserved)
    }

    /** Only own n-grams are ever counted. */
    ghost predicate Valid()
      reads this
    {
      forall t :: t in seen ==> IsTerm(t)
    }

    constructor ()
      ensures Valid() && State() == EMPTY_CONV
    {
      entries, reverse, seen, dropped, reserved := map[], map[], map[], {}, {};
    }

    /** Terminates because every candidate tried and refused is a distinct reserved name. */
    method GenAbbrev(term: string) returns (abbrev: string)
      requires NoneEmpty(Split(term))
      modifies this`reserved
      ensures FirstFree(BaseAbbrev(term), old(reserved), abbrev)
      ensures reserved == old(reserved) + {abbrev}
      ensures |abbrev| <= MAX_ABBREV + |Digits(|old(reserved)| + 1)|
    {
      var base := BaseAbbrev(term);
      abbrev := base;
      var i := 2;
      ghost var tried: set<string> := {};
      while abbrev in reserved
        invariant reserved == old(reserved) && i >= 2 && abbrev == Candidate(base, i - 1)
        invariant tried <= reserved && |tried| == i - 2
        invariant forall c :: c in tried ==> exists j: nat :: 1 <= j < i - 1 && c == Candidate(base, j)
        invariant forall j: nat :: 1 <= j < i - 1 ==> Candidate(base, j) in reserved
        decreases |reserved| + 2 - i
      {
        forall j: nat | 1 <= j < i - 1 ensures Candidate(base, j) != abbrev {
          if Candidate(base, j) == abbrev {
            CandidatesDistinct(base, j, i - 1);
          }
        }
        SmallerSubset(tried + {abbrev}, reserved);
        tried := tried + {abbrev};
        abbrev := base + Digits(i);
        i := i + 1;
      }
      SmallerSubset(tried, reserved);
      FirstFreeShape(base, reserved, abbrev, abbrev);
      reserved := reserved + {abbrev};
    }

    /** Counts each distinct n-gram of own text once. */
    method CountGrams(text: string)
      requires Valid()
      modifies this`seen
      ensures Valid()
      ensures forall t :: t in seen <==> t in old(seen) || IsGram(text, t)
      ensures forall t :: Count(seen, t) == Count(old(seen), t) + if IsGram(text, t) then 1 else 0
    {
      var grams := NGrams(text);
      var todo := set t | t in grams;
      while todo != {}
        invariant forall t :: t in todo ==> IsGram(text, t)
        invariant forall t :: t in seen <==> t in old(seen) || (IsGram(text, t) && t !in todo)
        invariant forall t :: Count(seen, t) == Count(old(seen), t) + if IsGram(text, t) && t !in todo then 1 else 0
        decreases |todo|
      {
        var term :| term in todo;
        seen := seen[term := Count(seen, term) + 1];
        todo := todo - {term};
      }
      SeenAreTerms(text, old(seen), seen);
    }

    static lemma SeenAreTerms(text: string, seen: map<string, nat>, seen': map<string, nat>)
      requires (forall t :: t in seen ==> IsTerm(t)) && forall t :: t in seen' <==> t in seen || IsGram(text, t)
      ensures forall t :: t in seen' ==> IsTerm(t)
    {
      forall t | t in seen' ensures IsTerm(t) {
        if t !in seen {
          GramsAreTerms(text, t);
        }
      }
    }

    /** Counts own text, then proposes the terms that have become candidates. */
    method Observe(text: string) returns (proposals: seq<Binding>)
      requires Valid()
      modifies this
      ensures Valid() && Proposes(old(State()), text, State(), proposals)
      ensures forall t :: HasTerm(proposals, t) <==>
        Count(seen, t) >= 2 && |t| >= 8 && t !in old(entries) && t !in old(dropped)
    {
      CountGrams(text);
      ghost var c := State();
      proposals := ProposeCandidates();
      OfferedAllFields(c, proposals);
    }

    /** Filter and map: the candidates with their abbreviations, in some order. */
    method NameCandidates() returns (proposals: seq<Binding>)
      requires Valid()
      modifies this`reserved
      ensures State() == old(State()).(reserved := old(reserved) + AbbrevsOf(proposals))
      ensures forall t :: IsCandidate(old(State()), t) <==> HasTerm(proposals, t)
      ensures forall i, j :: 0 <= i < j < |proposals| ==> proposals[i].term != proposals[j].term
      ensures forall i :: 0 <= i < |proposals| ==> GeneratedAt(old(reserved), proposals, i)
    {
      ghost var c := State();
      var todo := Candidates(Conv(entries, reverse, seen, dropped, reserved));
      proposals := [];
      NamedNone(c, todo);
      while todo != {}
        invariant Named(c, proposals, todo)
        invariant State() == c.(reserved := c.reserved + AbbrevsOf(proposals))
        decreases |todo|
      {
        var term :| term in todo;
        BaseOfTerm(term);
        var abbrev := GenAbbrev(term);
        var b := Binding(term, abbrev);
        NamedOneMore(c, proposals, b, todo);
        ReservedOneMore(c.reserved, proposals, b);
        proposals := proposals + [b];
        todo := todo - {term};
      }
    }

    /** The proposed pairs are stored as pending. */
    method ProposeCandidates() returns (proposals: seq<Binding>)
      requires Valid()
      modifies this`entries, this`reserved
      ensures State() == OfferedAll(old(State()), proposals)
      ensures forall t :: IsCandidate(old(State()), t) <==> HasTerm(proposals, t)
      ensures forall i, j :: 0 <= i < j < |proposals| ==> proposals[i].term != proposals[j].term
      ensures forall i :: 0 <= i < |proposals| ==> GeneratedAt(old(reserved), proposals, i)
    {
      ghost var c := State();
      proposals := NameCandidates();
      var k := 0;
      while k < |proposals|
        invariant 0 <= k <= |proposals|
        invariant State() == c.(entries := OfferedAll(c, proposals[..k]).entries,
                                reserved := c.reserved + AbbrevsOf(proposals))
      {
        var b := proposals[k];
        assert proposals[..k + 1][..k] == proposals[..k];
        entries := entries[b.term := GlossPair(b.term, b.abbrev, Proposed)];
        k := k + 1;
      }
      assert proposals[..k] == proposals;
      OfferedAllFields(c, proposals);
    }

    /** The active pairs, longest term first. */
    method ActivePairs() returns (act: seq<Binding>)
      ensures Listing(State(), act)
    {
      act := [];
      var todo := set t | t in entries && entries[t].state == Active;
      while todo != {}
        invariant forall t :: t in todo ==> IsActive(State(), t)
        invariant PartListing(State(), act, todo)
        decreases |todo|
      {
        var t :| t in todo;
        var b := Binding(t, entries[t].abbrev);
        var k := Slot(act, |t|);
        ListedOneMore(State(), act, k, b, todo);
        act := act[..k] + [b] + act[k..];
        todo := todo - {t};
      }
    }

    /** Rewrites own text with the pairs that are active now. */
    method Compact(text: string) returns (body: string)
      ensures exists act: seq<Binding> :: Listing(State(), act) && body == CompactWith(act, text)
    {
      var pairs := ActivePairs();
      body := text;
      var i := 0;
      while i < |pairs|
        invariant 0 <= i <= |pairs|
        invariant CompactWith(pairs[i..], body) == CompactWith(pairs, text)
      {
        body := ReplaceTerm(false, body, pairs[i].term, "~" + pairs[i].abbrev);
        i := i + 1;
      }
    }

    /** The peer proposes: accept what is not already live here, acknowledge everything. */
    method HandlePropose(bs: seq<Binding>) returns (ack: seq<Binding>)
      modifies this
      ensures State() == Accept(old(State()), bs).0
      ensures ack == Accept(old(State()), bs).1
    {
      ack := [];
      var i := 0;
      assert bs[0..] == bs;
      while i < |bs|
        invariant 0 <= i <= |bs|
        invariant Accept(old(State()), bs).0 == Accept(State(), bs[i..]).0
        invariant Accept(old(State()), bs).1 == ack + Accept(State(), bs[i..]).1
      {
        var b := bs[i];
        AcceptNext(State(), bs, i, ack);
        if b.term in entries && entries[b.term].state == Active {
          ack := ack + [Binding(b.term, entries[b.term].abbrev)];
        } else {
          entries := entries[b.term := GlossPair(b.term, b.abbrev, Active)];
          reverse := reverse[b.abbrev := b.term];
          reserved := reserved + {b.abbrev};
          ack := ack + [b];
        }
        i := i + 1;
      }
    }

    static lemma AcceptNext(c: Conv, bs: seq<Binding>, i: nat, ack: seq<Binding>)
      requires i < |bs|
      ensures var (c1, a1) := AcceptOne(c, bs[i]);
        && Accept(c, bs[i..]).0 == Accept(c1, bs[i + 1..]).0
        && ack + Accept(c, bs[i..]).1 == ack + [a1] + Accept(c1, bs[i + 1..]).1
    {
      assert bs[i..][1..] == bs[i + 1..];
    }

    /** The peer acknowledges: only pairs still pending here go live. */
    method HandleAck(bs: seq<Binding>)
      modifies this
      ensures State() == Confirm(old(State()), bs)
    {
      var i := 0;
      while i < |bs|
        invariant 0 <= i <= |bs|
        invariant Confirm(old(State()), bs) == Confirm(State(), bs[i..])
      {
        var b := bs[i];
        assert bs[i..][1..] == bs[i + 1..];
        if b.term in entries && entries[b.term].state == Proposed {
          entries := entries[b.term := GlossPair(b.term, b.abbrev, Active)];
          reverse := reverse[b.abbrev := b.term];
          reserved := reserved + {b.abbrev};
        }
        i := i + 1;
      }
    }

    /** Own or received drop; abbreviations that are not live are skipped. */
    method DeactivateAll(abbrevs: seq<string>)
      modifies this
      ensures State() == Deactivate(old(State()), abbrevs)
    {
      var i := 0;
      while i < |abbrevs|
        invariant 0 <= i <= |abbrevs|
        invariant Deactivate(old(State()), abbrevs) == Deactivate(State(), abbrevs[i..])
      {
        var abbrev := abbrevs[i];
        assert abbrevs[i..][1..] == abbrevs[i + 1..];
        if abbrev in reverse {
          var term := reverse[abbrev];
          entries := entries - {term};
          reverse := reverse - {abbrev};
          dropped := dropped + {term};
        }
        i := i + 1;
      }
    }

    /** One saved pair, active at once. */
    method Restore(term: string, abbrev: string)
      modifies this`entries, this`reverse, this`reserved
      ensures State() == RestoredPair(old(State()), term, abbrev)
    {
      entries := entries[term := GlossPair(term, abbrev, Active)];
      reverse := reverse[abbrev := term];
      reserved := reserved + {abbrev};
    }

    /** Restores a saved glossary; the saved pairs become active. */
    method Load(terms: map<string, string>)
      modifies this`entries, this`reverse, this`reserved
      ensures Restores(old(State()), terms, State())
    {
      ghost var c := State();
      var todo := terms.Keys;
      RestoreNone(c);
      assert terms - todo == map[];
      while todo != {}
        invariant todo <= terms.Keys && Restores(c, terms - todo, State())
        decreases |todo|
      {
        var term :| term in todo;
        RestoreNext(c, terms, todo, State(), term);
        Restore(term, terms[term]);
        todo := todo - {term};
      }
      assert terms - todo == terms;
    }
  }

  lemma RestoreNext(c: Conv, terms: map<string, string>, todo: set<string>, c1: Conv, t: string)
    requires t in todo && t in terms && Restores(c, terms - todo, c1)
    ensures Restores(c, terms - (todo - {t}), RestoredPair(c1, t, terms[t]))
  {
    assert (terms - todo)[t := terms[t]] == terms - (todo - {t});
    RestoreOne(c, terms - todo, c1, t, terms[t]);
  }
}
