/**
 * What becomes of one pair under drops of any kind at any time. In a run without clashes a pair is
 * on its own: each side's stand on it and what the two queues say of it form a small machine of
 * their own. Where both sides will end is known at every moment, and only drops change it.
 */
module GlossDrops {
  import opened Basics
  import opened Text
  import opened GlossText
  import opened GlossConv
  import opened GlossProtocol
  import opened GlossTraces

  // -------- one pair by itself

  /** One side's stand on the pair. */
  datatype Stand = Unknown | Pending | Live | Gone

  /** What an item in a queue says of it. */
  datatype Note = Asks | Agrees | Quits

  /** The stands of x and y, and the notes from x to y and from y to x. */
  datatype Pair = Pair(x: Stand, y: Stand, xy: seq<Note>, yx: seq<Note>)

  function Swap(p: Pair): Pair {
    Pair(p.y, p.x, p.yx, p.xy)
  }

  function After(s: Stand, note: Note): Stand {
    match note
    case Asks => if s.Gone? then Gone else Live
    case Agrees => if s.Pending? then Live else s
    case Quits => if s.Live? then Gone else s
  }

  function AfterAll(s: Stand, notes: seq<Note>): Stand
    decreases |notes|
  {
    if notes == [] then s else AfterAll(After(s, notes[0]), notes[1..])
  }

  function Answer(note: Note): seq<Note> {
    if note.Asks? then [Agrees] else []
  }

  /** The answers still to come to what is on the way. */
  function Answers(notes: seq<Note>): seq<Note>
    decreases |notes|
  {
    if notes == [] then [] else Answer(notes[0]) + Answers(notes[1..])
  }

  /** Where x ends when everything has been delivered and answered. */
  function End(p: Pair): Stand {
    AfterAll(p.x, p.yx + Answers(p.xy))
  }

  function Asked(p: Pair): Pair {
    p.(x := Pending, xy := p.xy + [Asks])
  }

  function Quit(p: Pair): Pair {
    p.(x := After(p.x, Quits), xy := p.xy + [Quits])
  }

  function Heard(p: Pair): Pair
    requires p.yx != []
  {
    Pair(After(p.x, p.yx[0]), p.y, p.xy + Answer(p.yx[0]), p.yx[1..])
  }

  lemma {:induction false} AfterAllJoins(s: Stand, a: seq<Note>, b: seq<Note>)
    ensures AfterAll(s, a + b) == AfterAll(AfterAll(s, a), b)
    decreases |a|
  {
    if a == [] {
      assert [] + b == b;
    } else {
      assert (a + b)[1..] == a[1..] + b;
      AfterAllJoins(After(s, a[0]), a[1..], b);
    }
  }

  lemma {:induction false} AnswersJoin(a: seq<Note>, b: seq<Note>)
    ensures Answers(a + b) == Answers(a) + Answers(b)
    decreases |a|
  {
    if a == [] {
      assert [] + b == b;
    } else {
      assert (a + b)[1..] == a[1..] + b;
      AnswersJoin(a[1..], b);
    }
  }

  lemma AnswersOne(a: seq<Note>, note: Note)
    ensures Answers(a + [note]) == Answers(a) + Answer(note)
  {
    AnswersJoin(a, [note]);
    assert [note][1..] == [] && Answers([note]) == Answer(note);
  }

  lemma AfterOne(s: Stand, a: seq<Note>, note: Note)
    ensures AfterAll(s, a + [note]) == After(AfterAll(s, a), note)
  {
    AfterAllJoins(s, a, [note]);
    assert [note][1..] == [];
  }

  /** Answers are of one kind, and all they do is make a pending pair live. */
  lemma {:induction false} AnswersOnly(s: Stand, q: seq<Note>)
    ensures AfterAll(s, Answers(q)) == if Asks in q then After(s, Agrees) else s
    decreases |q|
  {
    if q != [] {
      AfterAllJoins(s, Answer(q[0]), Answers(q[1..]));
      if q[0].Asks? {
        AfterOne(s, [], Agrees);
        assert [] + [Agrees] == [Agrees];
        AnswersOnly(After(s, Agrees), q[1..]);
      } else {
        AnswersOnly(s, q[1..]);
        assert Asks in q <==> Asks in q[1..];
      }
    }
  }

  /** Delivering a note moves neither end. */
  lemma HearingMovesNoEnd(p: Pair)
    requires p.yx != []
    ensures End(Heard(p)) == End(p) && End(Swap(Heard(p))) == End(Swap(p))
  {
    HearersEnd(p);
    Assoc(p.xy, Answer(p.yx[0]), Answers(p.yx[1..]));
  }

  lemma HearersEnd(p: Pair)
    requires p.yx != []
    ensures End(Heard(p)) == End(p)
  {
    var note, rest := p.yx[0], p.yx[1..];
    AnswersJoin(p.xy, Answer(note));
    if note.Asks? {
      assert [Agrees][1..] == [] && Answers([Agrees]) == [];
    }
    assert Answers(p.xy + Answer(note)) == Answers(p.xy);
    assert (p.yx + Answers(p.xy))[1..] == rest + Answers(p.xy);
  }

  predicate Settles(s: Stand) {
    s.Live? || s.Gone?
  }

  /** Known here means settled there, once what has been sent is delivered. */
  predicate SideSound(p: Pair) {
    && (if p.x.Unknown? then !Settles(AfterAll(p.y, p.xy)) && Agrees !in p.yx && Asks !in p.xy
        else Settles(AfterAll(p.y, p.xy)))
  }

  predicate Sound(p: Pair) {
    SideSound(p) && SideSound(Swap(p))
  }

  lemma {:induction false} StaysKnown(s: Stand, q: seq<Note>)
    requires !s.Unknown?
    ensures !AfterAll(s, q).Unknown? && (Settles(s) ==> Settles(AfterAll(s, q))) && (s.Gone? ==> AfterAll(s, q).Gone?)
    decreases |q|
  {
    if q != [] {
      StaysKnown(After(s, q[0]), q[1..]);
    }
  }

  /** Without an answer on the way, a proposal of one's own makes no other difference. */
  lemma {:induction false} PendingOrUnknown(q: seq<Note>)
    requires Agrees !in q
    ensures AfterAll(Pending, q) == (if AfterAll(Unknown, q).Unknown? then Pending else AfterAll(Unknown, q))
    ensures Asks !in q ==> AfterAll(Unknown, q).Unknown?
    decreases |q|
  {
    if q != [] {
      assert q[0] in q && forall n :: n in q[1..] ==> n in q;
      if q[0].Asks? {
        StaysKnown(Live, q[1..]);
      } else {
        PendingOrUnknown(q[1..]);
      }
    }
  }

  lemma HeardSound(p: Pair)
    requires Sound(p) && p.yx != []
    ensures Sound(Heard(p))
  {
    var note, p' := p.yx[0], Heard(p);
    assert note in p.yx && forall n :: n in p.yx[1..] ==> n in p.yx;
    if note.Asks? {
      AfterOne(p.y, p.xy, Agrees);
      StaysKnown(p.y, p.xy);
    } else {
      assert p.xy + [] == p.xy;
    }
  }

  lemma AskedSound(p: Pair)
    requires Sound(p) && p.x.Unknown?
    ensures Sound(Asked(p))
  {
    AfterOne(p.y, p.xy, Asks);
    PendingOrUnknown(p.yx);
  }

  lemma QuitSound(p: Pair)
    requires Sound(p)
    ensures Sound(Quit(p))
  {
    AfterOne(p.y, p.xy, Quits);
    if p.x.Live? {
      StaysKnown(Live, p.yx);
      StaysKnown(Gone, p.yx);
    }
  }

  // -------- how it ends

  /** Fine: live or unknown on both sides. Split: live at one side only, x or y. Lost: gone on both. */
  datatype Fate = Fine | Split(atX: bool) | Lost

  function Mirrored(f: Fate): Fate {
    if f.Split? then Split(!f.atX) else f
  }

  predicate FateOk(f: Fate, p: Pair) {
    var ends := (End(p), End(Swap(p)));
    match f
    case Fine => ends == (Unknown, Unknown) || ends == (Live, Live)
    case Split(atX) => if atX then ends == (Live, Gone) && !p.x.Unknown? else ends == (Gone, Live) && !p.y.Unknown?
    case Lost => ends == (Gone, Gone) && !p.x.Unknown? && !p.y.Unknown?
  }

  /**
   * What a drop does, by the dropper's stand: nothing if the pair is unknown there; a pending pair
   * is lost to the peer alone, unless it was the peer alone that kept it; anything else loses it on
   * both sides.
   */
  function FateAfterDrop(f: Fate, byX: bool, s: Stand): Fate {
    match s
    case Unknown => f
    case Pending => if f == Fine then Split(byX) else if f == Split(!byX) then Lost else f
    case _ => Lost
  }

  lemma AskedFate(f: Fate, p: Pair)
    requires Sound(p) && FateOk(f, p) && p.x.Unknown?
    ensures FateOk(f, Asked(p))
  {
    AfterAllJoins(Unknown, p.yx, Answers(p.xy));
    AnswersOnly(AfterAll(Unknown, p.yx), p.xy);
    AskedEnds(p);
    PendingOrUnknown(p.yx);
  }

  lemma AskedEnds(p: Pair)
    requires Sound(p) && p.x.Unknown?
    ensures End(Asked(p)) == After(AfterAll(Pending, p.yx), Agrees) && End(Swap(Asked(p))) == Live
  {
    var xy' := p.xy + [Asks];
    AfterAllJoins(Pending, p.yx, Answers(xy'));
    AnswersOnly(AfterAll(Pending, p.yx), xy');
    AfterOne(p.y, p.xy, Asks);
    AfterAllJoins(p.y, xy', Answers(p.yx));
    AnswersOnly(Live, p.yx);
    assert xy'[|p.xy|] == Asks;
  }

  lemma QuitEnds(p: Pair)
    requires Sound(p)
    ensures End(Quit(p)) == (if Settles(p.x) then Gone else End(p))
    ensures End(Swap(Quit(p))) == (if p.x.Unknown? then End(Swap(p)) else Gone)
  {
    AnswersOne(p.xy, Quits);
    assert Answers(p.xy) + [] == Answers(p.xy);
    StaysKnown(Gone, p.yx + Answers(p.xy));
    AfterOne(p.y, p.xy, Quits);
    AfterAllJoins(p.y, p.xy + [Quits], Answers(p.yx));
    AfterAllJoins(p.y, p.xy, Answers(p.yx));
    StaysKnown(Gone, Answers(p.yx));
  }

  lemma QuitFate(f: Fate, p: Pair)
    requires Sound(p) && FateOk(f, p)
    ensures FateOk(FateAfterDrop(f, true, p.x), Quit(p))
  {
    QuitEnds(p);
    StaysKnown(Gone, p.yx + Answers(p.xy));
    if p.y.Unknown? && Settles(p.x) {
      StaysKnown(p.x, p.yx);
    }
    if !p.x.Unknown? {
      StaysKnown(p.x, p.yx + Answers(p.xy));
    }
  }

  // -------- the pair b in a net

  function StandOf(c: Conv, b: Binding): Stand {
    if b.term in c.dropped then Gone
    else if IsActive(c, b.term) then Live
    else if IsProposed(c, b.term) then Pending
    else Unknown
  }

  function NoteOf(it: Item, b: Binding): seq<Note> {
    if it == Offer(b) then [Asks] else if it == Ack(b) then [Agrees] else if it == Drop(b.abbrev) then [Quits] else []
  }

  function Notes(q: seq<Item>, b: Binding): seq<Note>
    decreases |q|
  {
    if q == [] then [] else NoteOf(q[0], b) + Notes(q[1..], b)
  }

  function View(l: Link, b: Binding): Pair {
    Pair(StandOf(l.x, b), StandOf(l.y, b), Notes(l.xy, b), Notes(l.yx, b))
  }

  lemma {:induction false} NotesJoin(q: seq<Item>, more: seq<Item>, b: Binding)
    ensures Notes(q + more, b) == Notes(q, b) + Notes(more, b)
    decreases |q|
  {
    if q == [] {
      assert [] + more == more;
    } else {
      assert (q + more)[1..] == q[1..] + more;
      NotesJoin(q[1..], more, b);
    }
  }

  lemma NotesOne(q: seq<Item>, it: Item, b: Binding)
    ensures Notes(q + [it], b) == Notes(q, b) + NoteOf(it, b)
  {
    NotesJoin(q, [it], b);
    assert [it][1..] == [] && Notes([it], b) == NoteOf(it, b);
  }

  ghost predicate LinkOk(l: Link) {
    Inv(l.x, l.y, l.xy, l.yx, l.h)
  }

  /** The net is sound, and b shares nothing with other pairs. */
  ghost predicate Fits(l: Link, b: Binding) {
    LinkOk(l) && OneToOne(l.h + {b})
  }

  lemma TookKeepsOk(l: Link)
    requires LinkOk(l) && l.yx != []
    ensures LinkOk(Took(l))
  {
    match l.yx[0]
    case Offer(b) => GoodReceiveOffer(false, l.x, l.y, l.xy, l.yx, l.h);
    case Ack(b) =>
      ReceiveAck(l.x, l.y, l.xy, l.yx, l.h);
      assert l.xy + [] == l.xy;
    case Drop(a) =>
      ReceiveDrop(l.x, l.y, l.xy, l.yx, l.h);
      assert l.xy + [] == l.xy;
    case Say(_, _, _) =>
      ReceiveSay(l.x, l.y, l.xy, l.yx, l.h);
      assert l.xy + [] == l.xy;
  }

  /** Nothing here shares just the term or just the abbreviation of b. */
  predicate OwnNames(c: Conv, b: Binding) {
    && (b.term in c.entries ==> c.entries[b.term].abbrev == b.abbrev && b.term !in c.dropped)
    && (forall a :: a in c.reverse ==> (a == b.abbrev <==> c.reverse[a] == b.term))
    && (IsActive(c, b.term) <==> b.abbrev in c.reverse)
  }

  lemma NamesAreOwn(c: Conv, b: Binding, h: set<Binding>)
    requires LocalOk(c, h) && OneToOne(h + {b})
    ensures OwnNames(c, b)
  {
    if b.term in c.entries {
      assert Binding(b.term, c.entries[b.term].abbrev) in h;
    }
    forall a | a in c.reverse ensures a == b.abbrev <==> c.reverse[a] == b.term {
      assert Binding(c.reverse[a], a) in h;
    }
  }

  /** Deactivating touches the pair only under its own abbreviation, and only if it is live. */
  lemma DeactivatedStand(c: Conv, a: string, b: Binding)
    requires OwnNames(c, b)
    ensures StandOf(DeactivateOne(c, a), b) == (if a == b.abbrev then After(StandOf(c, b), Quits) else StandOf(c, b))
  {
  }

  lemma AcceptedStand(c: Conv, o: Binding, b: Binding)
    requires !IsActive(c, o.term) && (o.term == b.term ==> o == b)
    ensures StandOf(AcceptOne(c, o).0, b) == AfterAll(StandOf(c, b), NoteOf(Offer(o), b))
  {
    AfterAllOne(StandOf(c, b));
  }

  lemma ConfirmedStand(c: Conv, o: Binding, b: Binding)
    requires o.term == b.term ==> o == b
    ensures StandOf(ConfirmOne(c, o), b) == AfterAll(StandOf(c, b), NoteOf(Ack(o), b))
  {
    AfterAllOne(StandOf(c, b));
  }

  /** The head of a queue touches the pair as its note says. */
  lemma HandledStand(c: Conv, d: Conv, q: seq<Item>, b: Binding, h: set<Binding>)
    requires OneToOne(h + {b}) && LocalOk(c, h) && QueueOk(d, c, q, h) && q != []
    ensures StandOf(HandleItem(c, q[0]).0, b) == AfterAll(StandOf(c, b), NoteOf(q[0], b))
    ensures HandleItem(c, q[0]).1 == if q[0].Offer? then [Ack(q[0].b)] else []
  {
    assert ItemOk(d, c, q[..0], q[0], h);
    match q[0]
    case Offer(o) => AcceptedStand(c, o, b);
    case Ack(o) => ConfirmedStand(c, o, b);
    case Drop(a) =>
      NamesAreOwn(c, b, h);
      DeactivatedStand(c, a, b);
      AfterAllOne(StandOf(c, b));
    case Say(_, _, _) =>
  }

  lemma AfterAllOne(s: Stand)
    ensures forall note :: AfterAll(s, [note]) == After(s, note)
  {
    forall note ensures AfterAll(s, [note]) == After(s, note) {
      assert [note][1..] == [];
    }
  }

  /** The notes after the head has been taken and answered. */
  lemma NotesAfterHead(l: Link, b: Binding)
    requires l.yx != [] && HandleItem(l.x, l.yx[0]).1 == if l.yx[0].Offer? then [Ack(l.yx[0].b)] else []
    ensures Notes(l.yx, b) == NoteOf(l.yx[0], b) + Notes(Took(l).yx, b)
    ensures Notes(Took(l).xy, b) == Notes(l.xy, b) + (if NoteOf(l.yx[0], b) == [Asks] then [Agrees] else [])
  {
    if l.yx[0].Offer? {
      NotesOne(l.xy, Ack(l.yx[0].b), b);
    } else {
      assert l.xy + [] == l.xy && Notes(l.xy, b) + [] == Notes(l.xy, b);
    }
  }

  lemma HeardAs(p: Pair, p': Pair, note: Note)
    requires p.yx == [note] + p'.yx && p'.xy == p.xy + Answer(note) && p'.y == p.y && p'.x == AfterAll(p.x, [note])
    ensures p' == Heard(p)
  {
    AfterAllOne(p.x);
    assert ([note] + p'.yx)[1..] == p'.yx;
  }

  /** Handling an item is hearing what it says of b. */
  lemma TookIsHeard(l: Link, b: Binding)
    requires Fits(l, b) && l.yx != []
    ensures View(Took(l), b) == if NoteOf(l.yx[0], b) == [] then View(l, b) else Heard(View(l, b))
  {
    HandledStand(l.x, l.y, l.yx, b, l.h);
    ViewAfterHead(l, b);
  }

  lemma ViewAfterHead(l: Link, b: Binding)
    requires l.yx != [] && HandleItem(l.x, l.yx[0]).1 == if l.yx[0].Offer? then [Ack(l.yx[0].b)] else []
    requires StandOf(HandleItem(l.x, l.yx[0]).0, b) == AfterAll(StandOf(l.x, b), NoteOf(l.yx[0], b))
    ensures View(Took(l), b) == if NoteOf(l.yx[0], b) == [] then View(l, b) else Heard(View(l, b))
  {
    var p, p', note := View(l, b), View(Took(l), b), NoteOf(l.yx[0], b);
    NotesAfterHead(l, b);
    if note == [] {
      assert [] + p'.yx == p'.yx && p.xy + [] == p.xy;
    } else {
      assert note == [note[0]] && p.xy + [] == p.xy;
      HeardAs(p, p', note[0]);
    }
  }

  // -------- steps

  /** The pair b is on its way to its fate f. */
  ghost predicate Bound(f: Fate, l: Link, b: Binding) {
    Fits(l, b) && Sound(View(l, b)) && FateOk(f, View(l, b))
  }

  lemma FitsTurns(l: Link, b: Binding)
    requires Fits(l, b)
    ensures Fits(Turned(l), b)
  {
  }

  lemma BoundTurns(f: Fate, l: Link, b: Binding)
    requires Bound(f, l, b)
    ensures Bound(Mirrored(f), Turned(l), b)
  {
    assert View(Turned(l), b) == Swap(View(l, b)) && Swap(Swap(View(l, b))) == View(l, b);
  }

  lemma TookKeepsFate(f: Fate, l: Link, b: Binding)
    requires Bound(f, l, b) && l.yx != []
    ensures Bound(f, Took(l), b)
  {
    TookKeepsOk(l);
    TookIsHeard(l, b);
    if NoteOf(l.yx[0], b) != [] {
      HeardKeepsFate(f, View(l, b));
    }
  }

  lemma HeardKeepsFate(f: Fate, p: Pair)
    requires Sound(p) && FateOk(f, p) && p.yx != []
    ensures Sound(Heard(p)) && FateOk(f, Heard(p))
  {
    HeardSound(p);
    HearingMovesNoEnd(p);
  }

  lemma ReceiveKeepsFate(f: Fate, n: Net, n': Net, b: Binding)
    requires Bound(f, FlatNet(n), b) && AnyStep(n, Receive, n')
    ensures Bound(f, FlatNet(n'), b)
  {
    ReceiveAsItems(n, n');
    var its := Items(n.yx[0]);
    TookAllItems(FlatNet(n), its, Flat(n.yx[1..]));
    forall m: Link | Bound(f, m, b) && m.yx != [] ensures Bound(f, Took(m), b) {
      TookKeepsFate(f, m, b);
    }
    TookAllKeeps(m => Bound(f, m, b), FlatNet(n), |its|);
  }

  lemma {:induction false} OfferedEntry(c: Conv, bs: seq<Binding>, t: string)
    ensures HasTerm(bs, t) ==> IsProposed(OfferedAll(c, bs), t)
    ensures !HasTerm(bs, t) ==> (t in OfferedAll(c, bs).entries <==> t in c.entries)
    ensures !HasTerm(bs, t) && t in c.entries ==> OfferedAll(c, bs).entries[t] == c.entries[t]
    decreases |bs|
  {
    if bs != [] {
      var pre, last := bs[..|bs| - 1], |bs| - 1;
      OfferedEntry(c, pre, t);
      if HasTerm(pre, t) {
        var i :| 0 <= i < |pre| && pre[i].term == t;
        assert bs[i].term == t;
      }
      if HasTerm(bs, t) && bs[last].term != t {
        var i :| 0 <= i < |bs| && bs[i].term == t;
        assert pre[i].term == t;
      }
    }
  }

  lemma FirstIsOnce(bs: seq<Binding>)
    requires bs != [] && forall i, j :: 0 <= i < j < |bs| ==> bs[i].term != bs[j].term
    ensures forall b :: b in bs <==> b == bs[0] || b in bs[1..]
    ensures bs[0] !in bs[1..] && forall i, j :: 0 <= i < j < |bs[1..]| ==> bs[1..][i].term != bs[1..][j].term
  {
    var r := bs[1..];
    assert bs == [bs[0]] + r;
    forall i | 0 <= i < |r| ensures r[i] != bs[0] {
      assert r[i] == bs[i + 1];
    }
  }

  lemma {:induction false} NotesOfOffers(bs: seq<Binding>, b: Binding)
    requires forall i, j :: 0 <= i < j < |bs| ==> bs[i].term != bs[j].term
    ensures Notes(Offers(bs), b) == if b in bs then [Asks] else []
    decreases |bs|
  {
    if bs != [] {
      assert Offers(bs)[1..] == Offers(bs[1..]) && Offers(bs)[0] == Offer(bs[0]);
      FirstIsOnce(bs);
      NotesOfOffers(bs[1..], b);
    }
  }

  lemma ObserveKeepsFate(f: Fate, n: Net, text: string, bs: seq<Binding>, n': Net, b: Binding)
    requires Bound(f, FlatNet(n), b) && Fits(FlatNet(n'), b) && AnyStep(n, Observe(text, bs), n')
    ensures Bound(f, FlatNet(n'), b)
  {
    ObserveIsAsked(n, text, bs, n', b);
    if b in bs {
      AskedSound(View(FlatNet(n), b));
      AskedFate(f, View(FlatNet(n), b));
    }
  }

  lemma ObserveIsAsked(n: Net, text: string, bs: seq<Binding>, n': Net, b: Binding)
    requires AnyStep(n, Observe(text, bs), n') && OneToOne(n'.hist + {b})
    ensures b in bs ==> StandOf(n.x, b).Unknown?
    ensures View(FlatNet(n'), b) == if b in bs then Asked(View(FlatNet(n), b)) else View(FlatNet(n), b)
  {
    ObserveNotes(n, text, bs, n', b);
    forall i | 0 <= i < |bs| && bs[i].term == b.term ensures bs[i] == b {
      assert bs[i] in n'.hist;
    }
    ObserveStand(n.x, text, bs, n'.x, b);
    assert Notes(Flat(n.xy), b) + [] == Notes(Flat(n.xy), b);
  }

  lemma ObserveStand(c: Conv, text: string, bs: seq<Binding>, c': Conv, b: Binding)
    requires Proposes(c, text, c', bs) && forall i :: 0 <= i < |bs| && bs[i].term == b.term ==> bs[i] == b
    ensures b in bs ==> StandOf(c, b).Unknown? && StandOf(c', b).Pending?
    ensures b !in bs ==> StandOf(c', b) == StandOf(c, b)
  {
    ProposalsAreFresh(c, text, c', bs);
    if b in bs {
      var i :| 0 <= i < |bs| && bs[i] == b;
      assert !Knows(c, bs[i].term);
    }
    OfferedStand(c.(seen := c'.seen), bs, b);
  }

  lemma OfferedStand(c: Conv, bs: seq<Binding>, b: Binding)
    requires (b in bs ==> !Knows(c, b.term)) && forall i :: 0 <= i < |bs| && bs[i].term == b.term ==> bs[i] == b
    ensures StandOf(OfferedAll(c, bs), b) == if b in bs then Pending else StandOf(c, b)
  {
    OfferedAllFields(c, bs);
    OfferedEntry(c, bs, b.term);
    if b in bs {
      var i :| 0 <= i < |bs| && bs[i] == b;
      assert bs[i].term == b.term && HasTerm(bs, b.term);
    }
  }

  lemma ObserveNotes(n: Net, text: string, bs: seq<Binding>, n': Net, b: Binding)
    requires AnyStep(n, Observe(text, bs), n')
    ensures Notes(Flat(n'.xy), b) == Notes(Flat(n.xy), b) + if b in bs then [Asks] else []
  {
    ProposalsAreFresh(n.x, text, n'.x, bs);
    NotesOfOffers(bs, b);
    if bs != [] {
      FlatAppend(n.xy, Propose(bs));
      NotesJoin(Flat(n.xy), Offers(bs), b);
    } else {
      assert Notes(Flat(n.xy), b) + [] == Notes(Flat(n.xy), b);
    }
  }

  lemma SpeakKeepsFate(f: Fate, n: Net, text: string, act: seq<Binding>, n': Net, b: Binding)
    requires Bound(f, FlatNet(n), b) && Fits(FlatNet(n'), b) && AnyStep(n, Speak(text, act), n')
    ensures Bound(f, FlatNet(n'), b)
  {
    SpeakIsNothing(n, text, act, n', b);
  }

  lemma SpeakIsNothing(n: Net, text: string, act: seq<Binding>, n': Net, b: Binding)
    requires AnyStep(n, Speak(text, act), n')
    ensures View(FlatNet(n'), b) == View(FlatNet(n), b)
  {
    var q, say := Flat(n.xy), Say(CompactWith(act, text), text, act);
    FlatAppend(n.xy, Msg(CompactWith(act, text), text, act));
    assert Flat(n'.xy) == q + [say] && NoteOf(say, b) == [];
    NotesOne(q, say, b);
    assert Notes(q, b) + [] == Notes(q, b);
  }

  lemma DropKeepsFate(f: Fate, n: Net, a: string, n': Net, b: Binding)
    requires Bound(f, FlatNet(n), b) && Fits(FlatNet(n'), b) && AnyStep(n, DropOwn(a), n')
    ensures Bound(if a == b.abbrev then FateAfterDrop(f, true, StandOf(n.x, b)) else f, FlatNet(n'), b)
  {
    DropIsQuit(n, a, n', b);
    if a == b.abbrev {
      QuitSound(View(FlatNet(n), b));
      QuitFate(f, View(FlatNet(n), b));
    }
  }

  lemma DropIsQuit(n: Net, a: string, n': Net, b: Binding)
    requires LocalOk(n.x, n.hist) && OneToOne(n.hist + {b}) && AnyStep(n, DropOwn(a), n')
    ensures View(FlatNet(n'), b) == if a == b.abbrev then Quit(View(FlatNet(n), b)) else View(FlatNet(n), b)
  {
    DropsOne(n.x, a);
    NamesAreOwn(n.x, b, n.hist);
    DeactivatedStand(n.x, a, b);
    FlatAppend(n.xy, DropFrame([a]));
    assert Drops([a]) == [Drop(a)];
    NotesOne(Flat(n.xy), Drop(a), b);
    assert Notes(Flat(n.xy), b) + [] == Notes(Flat(n.xy), b);
  }

  /** The fate after a move, by the mover's stand before it. */
  function FateAfter(f: Fate, n: Net, m: Move, b: Binding): Fate {
    if m.e == DropOwn(b.abbrev) then FateAfterDrop(f, m.byX, StandOf(From(n, m.byX).x, b)) else f
  }

  lemma XKeepsFate(f: Fate, n: Net, e: Event, n': Net, b: Binding)
    requires Bound(f, FlatNet(n), b) && Fits(FlatNet(n'), b) && AnyStep(n, e, n')
    ensures Bound(FateAfter(f, n, Move(true, e), b), FlatNet(n'), b)
  {
    match e
    case Observe(text, bs) => ObserveKeepsFate(f, n, text, bs, n', b);
    case Speak(text, act) => SpeakKeepsFate(f, n, text, act, n', b);
    case DropOwn(a) => DropKeepsFate(f, n, a, n', b);
    case Receive => ReceiveKeepsFate(f, n, n', b);
  }

  lemma MoveKeepsFate(f: Fate, n: Net, m: Move, n': Net, b: Binding)
    requires Bound(f, FlatNet(n), b) && Fits(FlatNet(n'), b) && Moves(n, m, n')
    ensures Bound(FateAfter(f, n, m, b), FlatNet(n'), b)
  {
    if m.byX {
      XKeepsFate(f, n, m.e, n', b);
    } else {
      YKeepsFate(f, n, m.e, n', b);
    }
  }

  lemma YKeepsFate(f: Fate, n: Net, e: Event, n': Net, b: Binding)
    requires Bound(f, FlatNet(n), b) && Fits(FlatNet(n'), b) && AnyStep(Flip(n), e, Flip(n'))
    ensures Bound(FateAfter(f, n, Move(false, e), b), FlatNet(n'), b)
  {
    FitsTurns(FlatNet(n'), b);
    BoundTurns(f, FlatNet(n), b);
    XKeepsFate(Mirrored(f), Flip(n), e, Flip(n'), b);
    BoundTurns(FateAfter(Mirrored(f), Flip(n), Move(true, e), b), FlatNet(Flip(n')), b);
    assert Turned(FlatNet(Flip(n'))) == FlatNet(n');
    FateMirrors(f, n, e, b);
  }

  lemma FateMirrors(f: Fate, n: Net, e: Event, b: Binding)
    ensures Mirrored(FateAfter(Mirrored(f), Flip(n), Move(true, e), b)) == FateAfter(f, n, Move(false, e), b)
  {
  }

  // -------- runs

  /** The fate of b after the first k moves. */
  function FateAt(states: seq<Net>, moves: seq<Move>, b: Binding, k: nat): Fate
    requires |states| == |moves| + 1 && k <= |moves|
  {
    if k == 0 then Fine else FateAfter(FateAt(states, moves, b, k - 1), states[k - 1], moves[k - 1], b)
  }

  lemma {:induction false} HistoryGrows(states: seq<Net>, moves: seq<Move>, i: nat, k: nat)
    requires IsTrace(states, moves) && i <= k <= |moves|
    ensures states[i].hist <= states[k].hist
    decreases k
  {
    if i < k {
      HistoryGrows(states, moves, i, k - 1);
      assert Moves(states[k - 1], moves[k - 1], states[k]);
    }
  }

  lemma AllFit(states: seq<Net>, moves: seq<Move>, b: Binding, k: nat)
    requires IsTrace(states, moves) && ClashFree(states, moves) && k <= |moves| && b in states[|moves|].hist
    ensures Fits(FlatNet(states[k]), b)
  {
    ClashFreeIsRun(states, moves);
    RunKeepsInv(AnyDrop, states, k);
    RunKeepsInv(AnyDrop, states, |moves|);
    HistoryGrows(states, moves, k, |moves|);
    assert states[k].hist + {b} <= states[|moves|].hist;
  }

  lemma {:induction false} RunKeepsFate(states: seq<Net>, moves: seq<Move>, b: Binding, k: nat)
    requires IsTrace(states, moves) && ClashFree(states, moves) && k <= |moves| && b in states[|moves|].hist
    ensures Bound(FateAt(states, moves, b, k), FlatNet(states[k]), b)
  {
    AllFit(states, moves, b, k);
    if k == 0 {
      assert View(FlatNet(START), b) == Pair(Unknown, Unknown, [], []);
    } else {
      RunKeepsFate(states, moves, b, k - 1);
      assert Moves(states[k - 1], moves[k - 1], states[k]);
      MoveKeepsFate(FateAt(states, moves, b, k - 1), states[k - 1], moves[k - 1], states[k], b);
    }
  }

  /** How a proposed pair stands when nothing is in flight any more. */
  ghost predicate Ends(f: Fate, n: Net, b: Binding) {
    match f
    case Fine => IsLive(n.x, b) && IsLive(n.y, b)
    case Split(atX) => IsLive(From(n, atX).x, b) && b.term in From(n, atX).y.dropped
    case Lost => b.term in n.x.dropped && b.term in n.y.dropped
  }

  /**
   * With nothing in flight every pair that was ever proposed, on either side or on both, stands as
   * the drops of it say, whatever else was dropped and when.
   */
  lemma PairFate(states: seq<Net>, moves: seq<Move>, b: Binding)
    requires IsTrace(states, moves) && ClashFree(states, moves) && Quiet(states[|moves|])
    requires b in states[|moves|].hist
    ensures Ends(FateAt(states, moves, b, |moves|), states[|moves|], b)
  {
    var n := states[|moves|];
    RunKeepsFate(states, moves, b, |moves|);
    var p := View(FlatNet(n), b);
    assert p.xy == [] && p.yx == [] && Answers([]) == [] && p.yx + Answers(p.xy) == [];
    assert Informed(n.x, Flat(n.yx), n.hist) && Informed(n.y, Flat(n.xy), n.hist);
    assert Knows(n.x, b.term) && Knows(n.y, b.term);
    LiveIsPair(n.x, b, n.hist);
    LiveIsPair(n.y, b, n.hist);
  }

  lemma LiveIsPair(c: Conv, b: Binding, h: set<Binding>)
    requires LocalOk(c, h) && OneToOne(h) && b in h
    ensures StandOf(c, b).Live? ==> IsLive(c, b)
    ensures StandOf(c, b).Gone? <==> b.term in c.dropped
    ensures StandOf(c, b).Gone? ==> b.term !in c.entries
  {
    if b.term in c.entries {
      EntryIsPair(c, b, h);
    }
  }

  /** So the two glossaries agree exactly when no pair is split. */
  lemma AgreeExactly(states: seq<Net>, moves: seq<Move>)
    requires IsTrace(states, moves) && ClashFree(states, moves) && Quiet(states[|moves|])
    ensures var n := states[|moves|];
      Agree(n) <==> forall b :: b in n.hist ==> !FateAt(states, moves, b, |moves|).Split?
  {
    var n := states[|moves|];
    ClashFreeIsRun(states, moves);
    RunKeepsInv(AnyDrop, states, |moves|);
    forall b | b in n.hist
      ensures Ends(FateAt(states, moves, b, |moves|), n, b)
    {
      PairFate(states, moves, b);
    }
    if forall b :: b in n.hist ==> !FateAt(states, moves, b, |moves|).Split? {
      forall t | t in n.x.entries ensures IsLive(n.y, Binding(t, n.x.entries[t].abbrev)) && IsActive(n.x, t) {
        var b := Binding(t, n.x.entries[t].abbrev);
        assert b in n.hist && Ends(FateAt(states, moves, b, |moves|), n, b);
      }
      forall t | t in n.y.entries ensures IsLive(n.x, Binding(t, n.y.entries[t].abbrev)) && IsActive(n.y, t) {
        var b := Binding(t, n.y.entries[t].abbrev);
        assert b in n.hist && Ends(FateAt(states, moves, b, |moves|), n, b);
      }
      SameLivePairs(n.x, n.y);
    } else {
      var b :| b in n.hist && FateAt(states, moves, b, |moves|).Split?;
      assert Ends(FateAt(states, moves, b, |moves|), n, b);
      LiveIsPair(n.x, b, n.hist);
      LiveIsPair(n.y, b, n.hist);
    }
  }

  lemma SameLivePairs(c: Conv, d: Conv)
    requires Consistent(c) && Consistent(d)
    requires forall t :: t in c.entries ==> IsActive(c, t) && IsLive(d, Binding(t, c.entries[t].abbrev))
    requires forall t :: t in d.entries ==> IsActive(d, t) && IsLive(c, Binding(t, d.entries[t].abbrev))
    ensures c.entries == d.entries && c.reverse == d.reverse
  {
    assert forall t :: t in c.entries <==> t in d.entries;
    assert forall t :: t in c.entries ==> c.entries[t] == d.entries[t];
    assert c.entries == d.entries;
    assert forall a :: a in c.reverse ==> IsActive(d, c.reverse[a]);
    assert forall a :: a in d.reverse ==> IsActive(c, d.reverse[a]);
  }

  // -------- the first drop of a pending pair

  /** Drops b on a side that knows it. */
  predicate Removes(n: Net, m: Move, b: Binding) {
    m.e == DropOwn(b.abbrev) && !StandOf(From(n, m.byX).x, b).Unknown?
  }

  /** After x dropped b while it was pending: a drop that still takes b from x. */
  predicate Recalls(n: Net, m: Move, b: Binding) {
    Removes(n, m, b) && !(m.byX && StandOf(n.x, b).Pending?)
  }

  lemma {:induction false} FineUntilRemoved(states: seq<Net>, moves: seq<Move>, b: Binding, k: nat)
    requires |states| == |moves| + 1 && k <= |moves|
    requires forall j :: 0 <= j < k ==> !Removes(states[j], moves[j], b)
    ensures FateAt(states, moves, b, k) == Fine
  {
    if k > 0 {
      FineUntilRemoved(states, moves, b, k - 1);
      assert !Removes(states[k - 1], moves[k - 1], b);
    }
  }

  lemma {:induction false} SplitUntilRecalled(states: seq<Net>, moves: seq<Move>, b: Binding, i: nat, k: nat)
    requires |states| == |moves| + 1 && i < k <= |moves| && FateAt(states, moves, b, i + 1) == Split(true)
    ensures FateAt(states, moves, b, k) ==
      if exists j :: i < j < k && Recalls(states[j], moves[j], b) then Lost else Split(true)
    decreases k
  {
    if k > i + 1 {
      SplitUntilRecalled(states, moves, b, i, k - 1);
    }
  }

  /**
   * x drops a pair that is pending there, the first drop of it on a side that knows it. Once nothing
   * is in flight the pair is gone at y; at x it is gone as well if some later drop recalls it, and
   * live if none does. Drops of other pairs, before and after, make no difference.
   */
  lemma PendingDropSplits(states: seq<Net>, moves: seq<Move>, i: nat, b: Binding)
    requires IsTrace(states, moves) && ClashFree(states, moves) && Quiet(states[|moves|])
    requires i < |moves| && moves[i] == Move(true, DropOwn(b.abbrev)) && StandOf(states[i].x, b).Pending?
    requires b in states[|moves|].hist && forall j :: 0 <= j < i ==> !Removes(states[j], moves[j], b)
    ensures var n := states[|moves|];
      && b.term in n.y.dropped
      && if exists j :: i < j < |moves| && Recalls(states[j], moves[j], b)
         then b.term in n.x.dropped
         else IsLive(n.x, b)
  {
    FineUntilRemoved(states, moves, b, i);
    SplitUntilRecalled(states, moves, b, i, |moves|);
    PairFate(states, moves, b);
  }
}
