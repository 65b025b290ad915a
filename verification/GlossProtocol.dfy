/**
 * Two agents negotiating over ordered channels. A net holds both glossaries, the frames in
 * flight each way and the history of all pairs ever proposed. Steps are the synchronous
 * blocks of the agent: observing and proposing, sending a compacted body, dropping, and
 * handling one received frame. Frames are flattened to one item per pair, so that a frame of
 * several entries is the same as that many frames of one.
 */
module GlossProtocol {
  import opened Text
  import opened GlossText
  import opened GlossConv

  datatype Frame =
    | Propose(entries: seq<Binding>)
    | AckFrame(entries: seq<Binding>)
    | DropFrame(terms: seq<string>)
    // used and text are history: the pairs that were active and what was said
    | Msg(body: string, text: string, used: seq<Binding>)

  datatype Item =
    | Offer(b: Binding)
    | Ack(b: Binding)
    | Drop(abbrev: string)
    | Say(body: string, text: string, used: seq<Binding>)

  /** xy holds the frames from x to y, oldest first; hist is history. */
  datatype Net = Net(x: Conv, y: Conv, xy: seq<Frame>, yx: seq<Frame>, hist: set<Binding>)

  const START := Net(EMPTY_CONV, EMPTY_CONV, [], [], {})

  function Flip(n: Net): Net {
    Net(n.y, n.x, n.yx, n.xy, n.hist)
  }

  function Offers(bs: seq<Binding>): seq<Item> {
    seq(|bs|, i requires 0 <= i < |bs| => Offer(bs[i]))
  }

  function Acks(bs: seq<Binding>): seq<Item> {
    seq(|bs|, i requires 0 <= i < |bs| => Ack(bs[i]))
  }

  function Drops(terms: seq<string>): seq<Item> {
    seq(|terms|, i requires 0 <= i < |terms| => Drop(terms[i]))
  }

  function Items(f: Frame): seq<Item> {
    match f
    case Propose(bs) => Offers(bs)
    case AckFrame(bs) => Acks(bs)
    case DropFrame(terms) => Drops(terms)
    case Msg(body, text, used) => [Say(body, text, used)]
  }

  function Flat(q: seq<Frame>): seq<Item> {
    if q == [] then [] else Items(q[0]) + Flat(q[1..])
  }

  lemma {:induction false} FlatAppend(q: seq<Frame>, f: Frame)
    ensures Flat(q + [f]) == Flat(q) + Items(f)
  {
    if q == [] {
      assert [] + [f] == [f] && [f][1..] == [];
    } else {
      assert (q + [f])[1..] == q[1..] + [f];
      FlatAppend(q[1..], f);
    }
  }

  // -------- steps of x; y's steps are those of the flipped net

  datatype Event =
    | Observe(text: string, proposals: seq<Binding>)
    | Speak(text: string, act: seq<Binding>)
    | DropOwn(abbrev: string)
    | Receive

  /** Crossing proposals agree: none in flight here shares just a term or just an abbreviation. */
  ghost predicate NoClash(bs: seq<Binding>, incoming: seq<Item>) {
    forall b, c :: b in bs && Offer(c) in incoming && (b.term == c.term || b.abbrev == c.abbrev) ==> b == c
  }

  /** What x can do, whether or not its proposals clash with some on the way here. */
  ghost predicate AnyStep(n: Net, e: Event, n': Net) {
    match e
    case Observe(text, bs) =>
      && Proposes(n.x, text, n'.x, bs)
      && n' == n.(x := n'.x, xy := if bs == [] then n.xy else n.xy + [Propose(bs)],
                  hist := n.hist + AsSet(bs))
    case Speak(text, act) =>
      && Listing(n.x, act)
      && n' == n.(xy := n.xy + [Msg(CompactWith(act, text), text, act)])
    case DropOwn(abbrev) =>
      n' == n.(x := Deactivate(n.x, [abbrev]), xy := n.xy + [DropFrame([abbrev])])
    case Receive =>
      && n.yx != []
      && match n.yx[0]
         case Propose(bs) =>
           var (x', acks) := Accept(n.x, bs);
           n' == n.(x := x', xy := n.xy + [AckFrame(acks)], yx := n.yx[1..])
         case AckFrame(bs) => n' == n.(x := Confirm(n.x, bs), yx := n.yx[1..])
         case DropFrame(terms) => n' == n.(x := Deactivate(n.x, terms), yx := n.yx[1..])
         case Msg(_, _, _) => n' == n.(yx := n.yx[1..])
  }

  /** The steps in which crossing proposals agree. */
  ghost predicate Step(n: Net, e: Event, n': Net) {
    AnyStep(n, e, n') && (e.Observe? ==> NoClash(e.proposals, Flat(n.yx)))
  }

  /** What the two users drop: anything, nothing that is still pending where they drop it, nothing. */
  datatype Policy = AnyDrop | SettledDrop | NoDrop

  /** No pair pending here carries the abbreviation. */
  ghost predicate NotPending(c: Conv, abbrev: string) {
    forall t :: IsProposed(c, t) ==> c.entries[t].abbrev != abbrev
  }

  ghost predicate Allowed(p: Policy, n: Net, e: Event) {
    e.DropOwn? ==> p == AnyDrop || (p == SettledDrop && NotPending(n.x, e.abbrev))
  }

  ghost predicate Takes(p: Policy, n: Net, e: Event, n': Net) {
    Allowed(p, n, e) && Step(n, e, n')
  }

  /** A step of either side. */
  ghost predicate Next(p: Policy, n: Net, n': Net) {
    exists e :: Takes(p, n, e, n') || Takes(p, Flip(n), e, Flip(n'))
  }

  ghost predicate IsRun(p: Policy, states: seq<Net>) {
    && states != [] && states[0] == START
    && forall i :: 0 <= i < |states| - 1 ==> Next(p, states[i], states[i + 1])
  }

  // -------- the invariant, on items

  predicate Knows(c: Conv, t: string) {
    t in c.entries || t in c.dropped
  }

  /** The pair for t is live here, or was and has been dropped. */
  predicate Settled(c: Conv, t: string) {
    IsActive(c, t) || t in c.dropped
  }

  /** Whoever has processed pre can read a token of b, or has dropped it. */
  predicate CanRead(d: Conv, pre: seq<Item>, b: Binding) {
    Settled(d, b.term) || (IsProposed(d, b.term) && Ack(b) in pre)
  }

  predicate Mentions(q: seq<Item>, t: string) {
    exists it :: it in q && (it.Offer? || it.Ack?) && it.b.term == t
  }

  /** No two pairs of the history share only a term or only an abbreviation. */
  ghost predicate OneToOne(h: set<Binding>) {
    forall b, c :: b in h && c in h && (b.term == c.term || b.abbrev == c.abbrev) ==> b == c
  }

  ghost predicate InHistory(h: set<Binding>, t: string) {
    exists b :: b in h && b.term == t
  }

  ghost predicate LocalOk(c: Conv, h: set<Binding>) {
    && Consistent(c)
    && (forall t :: t in c.entries ==> Binding(t, c.entries[t].abbrev) in h && t !in c.dropped)
    && (forall t :: t in c.dropped ==> InHistory(h, t))
  }

  /** Every pair of the history is known here or its proposal is on the way. */
  ghost predicate Informed(c: Conv, inn: seq<Item>, h: set<Binding>) {
    forall b :: b in h ==> (Knows(c, b.term) && b.abbrev in c.reserved) || Offer(b) in inn
  }

  ghost predicate ItemOk(c: Conv, d: Conv, pre: seq<Item>, it: Item, h: set<Binding>) {
    match it
    case Offer(b) => b in h && Knows(c, b.term) && !Settled(d, b.term) && !Mentions(pre, b.term)
    case Ack(b) => b in h && Settled(c, b.term) && Knows(d, b.term)
    case Drop(_) => true
    case Say(_, _, used) => forall b :: b in used ==> b in h && CanRead(d, pre, b)
  }

  /** The queue q from c to d. */
  ghost predicate QueueOk(c: Conv, d: Conv, q: seq<Item>, h: set<Binding>) {
    forall i :: 0 <= i < |q| ==> ItemOk(c, d, q[..i], q[i], h)
  }

  ghost predicate SettledOk(c: Conv, d: Conv, out: seq<Item>, h: set<Binding>) {
    forall b :: b in h && Settled(c, b.term) ==> CanRead(d, out, b)
  }

  ghost predicate Half(c: Conv, d: Conv, out: seq<Item>, inn: seq<Item>, h: set<Binding>) {
    LocalOk(c, h) && Informed(c, inn, h) && QueueOk(c, d, out, h) && SettledOk(c, d, out, h)
  }

  ghost predicate Inv(x: Conv, y: Conv, xy: seq<Item>, yx: seq<Item>, h: set<Binding>) {
    OneToOne(h) && Half(x, y, xy, yx, h) && Half(y, x, yx, xy, h)
  }

  // -------- how queues and states move

  ghost predicate Grows(c: Conv, c': Conv) {
    && (forall t :: Knows(c, t) ==> Knows(c', t))
    && (forall t :: Settled(c, t) ==> Settled(c', t))
    && (forall t :: IsProposed(c, t) ==> IsProposed(c', t) || Settled(c', t))
    && c.reserved <= c'.reserved
  }

  ghost predicate NoNewSettled(c: Conv, c': Conv) {
    forall t :: Settled(c', t) ==> Settled(c, t)
  }

  lemma QueueMoves(c: Conv, c': Conv, d: Conv, d': Conv, q: seq<Item>, h: set<Binding>, h': set<Binding>)
    requires QueueOk(c, d, q, h) && Grows(c, c') && Grows(d, d') && NoNewSettled(d, d') && h <= h'
    ensures QueueOk(c', d', q, h')
  {
    forall i | 0 <= i < |q| ensures ItemOk(c', d', q[..i], q[i], h') {
      assert ItemOk(c, d, q[..i], q[i], h);
    }
  }

  lemma QueueGrows(c: Conv, d: Conv, q: seq<Item>, it: Item, h: set<Binding>)
    requires QueueOk(c, d, q, h) && ItemOk(c, d, q, it, h)
    ensures QueueOk(c, d, q + [it], h)
  {
    var r := q + [it];
    forall i | 0 <= i < |r| ensures ItemOk(c, d, r[..i], r[i], h) {
      if i < |q| {
        assert r[..i] == q[..i] && ItemOk(c, d, q[..i], q[i], h);
      } else {
        assert r[..i] == q;
      }
    }
  }

  /** The receiver d handles the head; only what the head mentions can newly settle. */
  ghost predicate HandledHead(d: Conv, d': Conv, head: Item) {
    && Grows(d, d')
    && (forall t :: Settled(d', t) ==> Settled(d, t) || Mentions([head], t))
    && (head.Offer? || head.Ack? ==> Settled(d', head.b.term) && head.b.abbrev in d'.reserved)
  }

  lemma CanReadAfterHead(d: Conv, d': Conv, pre: seq<Item>, b: Binding)
    requires pre != [] && HandledHead(d, d', pre[0]) && CanRead(d, pre, b)
    ensures CanRead(d', pre[1..], b)
  {
    if !Settled(d, b.term) && !(pre[0] == Ack(b)) {
      assert Ack(b) in pre[1..];
    }
  }

  lemma QueuePops(c: Conv, d: Conv, d': Conv, q: seq<Item>, h: set<Binding>)
    requires q != [] && QueueOk(c, d, q, h) && HandledHead(d, d', q[0])
    ensures QueueOk(c, d', q[1..], h)
  {
    var r := q[1..];
    forall i | 0 <= i < |r| ensures ItemOk(c, d', r[..i], r[i], h) {
      var pre := q[..i + 1];
      assert ItemOk(c, d, pre, q[i + 1], h) && q[i + 1] == r[i];
      assert pre[1..] == r[..i] && pre[0] == q[0] && q[0] in pre;
      match r[i]
      case Offer(b) =>
        assert !Mentions([q[0]], b.term) && !Mentions(r[..i], b.term);
      case Ack(b) =>
      case Drop(_) =>
      case Say(_, _, used) =>
        forall b | b in used ensures CanRead(d', r[..i], b) {
          CanReadAfterHead(d, d', pre, b);
        }
    }
  }

  // -------- single items

  /** What is left to show when c has become c' on the head of inn and out has become out2. */
  lemma AfterHead(c: Conv, c': Conv, d: Conv, out: seq<Item>, out2: seq<Item>, inn: seq<Item>, h: set<Binding>)
    requires Inv(c, d, out, inn, h) && inn != [] && HandledHead(c, c', inn[0]) && LocalOk(c', h)
    requires QueueOk(c', d, out2, h) && forall it :: it in out ==> it in out2
    requires inn[0].Offer? || inn[0].Ack? ==> CanRead(d, out2, inn[0].b)
    ensures Inv(c', d, out2, inn[1..], h)
  {
    QueuePops(d, c, c', inn, h);
    forall b | b in h ensures (Knows(c', b.term) && b.abbrev in c'.reserved) || Offer(b) in inn[1..] {
      if !(Knows(c, b.term) && b.abbrev in c.reserved) && inn[0] != Offer(b) {
        assert Offer(b) in inn[1..];
      }
    }
    forall b | b in h && Settled(d, b.term) ensures CanRead(c', inn[1..], b) {
      CanReadAfterHead(c, c', inn, b);
    }
    forall b | b in h && Settled(c', b.term) ensures CanRead(d, out2, b) {
      if !Settled(c, b.term) {
        assert ItemOk(d, c, inn[..0], inn[0], h);
        assert inn[0].b == b;
      }
    }
  }

  /** Two live pairs with one abbreviation are the same pair. */
  lemma OneTerm(c: Conv, h: set<Binding>, b: Binding, a: string)
    requires LocalOk(c, h) && OneToOne(h) && b in h && a in c.reverse
    ensures a == b.abbrev <==> c.reverse[a] == b.term
    ensures c.reverse[a] in c.entries && c.entries[c.reverse[a]] == GlossPair(c.reverse[a], a, Active)
  {
    assert Binding(c.reverse[a], a) in h;
  }

  lemma ActivatedInverse(c: Conv, b: Binding, h: set<Binding>)
    requires LocalOk(c, h) && OneToOne(h) && b in h
    ensures Consistent(Activated(c, b))
  {
    var c' := Activated(c, b);
    forall a | a in c'.reverse
      ensures c'.reverse[a] in c'.entries && c'.entries[c'.reverse[a]] == GlossPair(c'.reverse[a], a, Active)
    {
      if a != b.abbrev {
        OneTerm(c, h, b, a);
      }
    }
    forall t | IsActive(c', t) ensures c'.entries[t].abbrev in c'.reverse && c'.reverse[c'.entries[t].abbrev] == t {
      if t != b.term {
        assert IsActive(c, t);
        OneTerm(c, h, b, c.entries[t].abbrev);
      }
    }
  }

  lemma ActivatedConsistent(c: Conv, b: Binding, h: set<Binding>)
    requires LocalOk(c, h) && OneToOne(h) && b in h && b.term !in c.dropped
    ensures LocalOk(Activated(c, b), h)
  {
    ActivatedInverse(c, b, h);
  }

  lemma ActivatedGrows(c: Conv, b: Binding)
    ensures Grows(c, Activated(c, b))
    ensures forall t :: Settled(Activated(c, b), t) <==> Settled(c, t) || t == b.term
  {
  }

  lemma DeactivatedInverse(c: Conv, abbrev: string)
    requires Consistent(c)
    ensures Consistent(DeactivateOne(c, abbrev))
  {
    if abbrev in c.reverse {
      var c', term := DeactivateOne(c, abbrev), c.reverse[abbrev];
      forall a | a in c'.reverse
        ensures c'.reverse[a] in c'.entries && c'.entries[c'.reverse[a]] == GlossPair(c'.reverse[a], a, Active)
      {
        assert c.reverse[a] != term;
      }
      forall t | IsActive(c', t) ensures c'.entries[t].abbrev in c'.reverse && c'.reverse[c'.entries[t].abbrev] == t {
        assert IsActive(c, t);
      }
    }
  }

  lemma DeactivatedConsistent(c: Conv, abbrev: string, h: set<Binding>)
    requires LocalOk(c, h)
    ensures LocalOk(DeactivateOne(c, abbrev), h)
  {
    DeactivatedInverse(c, abbrev);
    if abbrev in c.reverse {
      assert Binding(c.reverse[abbrev], abbrev) in h;
      assert InHistory(h, c.reverse[abbrev]);
    }
  }

  lemma DeactivatedGrows(c: Conv, abbrev: string, h: set<Binding>)
    requires LocalOk(c, h)
    ensures Grows(c, DeactivateOne(c, abbrev)) && NoNewSettled(c, DeactivateOne(c, abbrev))
  {
  }

  lemma OfferHandled(c: Conv, d: Conv, inn: seq<Item>, h: set<Binding>)
    requires OneToOne(h) && LocalOk(c, h) && QueueOk(d, c, inn, h) && inn != [] && inn[0].Offer?
    ensures AcceptOne(c, inn[0].b) == (Activated(c, inn[0].b), inn[0].b)
    ensures HandledHead(c, Activated(c, inn[0].b), inn[0]) && LocalOk(Activated(c, inn[0].b), h)
  {
    var b := inn[0].b;
    assert ItemOk(d, c, inn[..0], inn[0], h);
    ActivatedConsistent(c, b, h);
    ActivatedGrows(c, b);
    assert Mentions([inn[0]], b.term) by {
      assert inn[0] in [inn[0]];
    }
  }

  lemma ReceiveOffer(c: Conv, d: Conv, out: seq<Item>, inn: seq<Item>, h: set<Binding>)
    requires Inv(c, d, out, inn, h) && inn != [] && inn[0].Offer?
    ensures Inv(Activated(c, inn[0].b), d, out + [Ack(inn[0].b)], inn[1..], h)
  {
    var b := inn[0].b;
    var c' := Activated(c, b);
    OfferHandled(c, d, inn, h);
    assert ItemOk(d, c, inn[..0], inn[0], h);
    QueueMoves(c, c', d, d, out, h, h);
    QueueGrows(c', d, out, Ack(b), h);
    AfterHead(c, c', d, out, out + [Ack(b)], inn, h);
  }

  lemma AckHandled(c: Conv, d: Conv, inn: seq<Item>, h: set<Binding>)
    requires OneToOne(h) && LocalOk(c, h) && Informed(c, inn, h) && QueueOk(d, c, inn, h)
    requires inn != [] && inn[0].Ack?
    ensures HandledHead(c, ConfirmOne(c, inn[0].b), inn[0]) && LocalOk(ConfirmOne(c, inn[0].b), h)
  {
    var b := inn[0].b;
    assert ItemOk(d, c, inn[..0], inn[0], h);
    if IsProposed(c, b.term) {
      ActivatedConsistent(c, b, h);
      ActivatedGrows(c, b);
    }
    if b.term in c.entries {
      assert Binding(b.term, c.entries[b.term].abbrev) in h;
    }
    assert Mentions([inn[0]], b.term) by {
      assert inn[0] in [inn[0]];
    }
  }

  lemma ReceiveAck(c: Conv, d: Conv, out: seq<Item>, inn: seq<Item>, h: set<Binding>)
    requires Inv(c, d, out, inn, h) && inn != [] && inn[0].Ack?
    ensures Inv(ConfirmOne(c, inn[0].b), d, out, inn[1..], h)
  {
    var c' := ConfirmOne(c, inn[0].b);
    AckHandled(c, d, inn, h);
    assert ItemOk(d, c, inn[..0], inn[0], h);
    QueueMoves(c, c', d, d, out, h, h);
    AfterHead(c, c', d, out, out, inn, h);
  }

  lemma ReceiveDrop(c: Conv, d: Conv, out: seq<Item>, inn: seq<Item>, h: set<Binding>)
    requires Inv(c, d, out, inn, h) && inn != [] && inn[0].Drop?
    ensures Inv(DeactivateOne(c, inn[0].abbrev), d, out, inn[1..], h)
  {
    var c' := DeactivateOne(c, inn[0].abbrev);
    DeactivatedConsistent(c, inn[0].abbrev, h);
    DeactivatedGrows(c, inn[0].abbrev, h);
    QueueMoves(c, c', d, d, out, h, h);
    AfterHead(c, c', d, out, out, inn, h);
  }

  lemma ReceiveSay(c: Conv, d: Conv, out: seq<Item>, inn: seq<Item>, h: set<Binding>)
    requires Inv(c, d, out, inn, h) && inn != [] && inn[0].Say?
    ensures Inv(c, d, out, inn[1..], h)
  {
    AfterHead(c, c, d, out, out, inn, h);
  }

  lemma Sends(c: Conv, d: Conv, out: seq<Item>, inn: seq<Item>, it: Item, h: set<Binding>)
    requires Inv(c, d, out, inn, h) && ItemOk(c, d, out, it, h)
    ensures Inv(c, d, out + [it], inn, h)
  {
    QueueGrows(c, d, out, it, h);
  }

  /** Own drop, whether or not the abbreviation is live. */
  lemma SendDrop(c: Conv, d: Conv, out: seq<Item>, inn: seq<Item>, abbrev: string, h: set<Binding>)
    requires Inv(c, d, out, inn, h)
    ensures Inv(DeactivateOne(c, abbrev), d, out + [Drop(abbrev)], inn, h)
  {
    var c' := DeactivateOne(c, abbrev);
    DeactivatedConsistent(c, abbrev, h);
    DeactivatedGrows(c, abbrev, h);
    QueueMoves(c, c', d, d, out, h, h);
    QueueMoves(d, d, c, c', inn, h, h);
    Sends(c', d, out, inn, Drop(abbrev), h);
  }

  lemma StillOneToOne(c: Conv, inn: seq<Item>, b: Binding, h: set<Binding>)
    requires OneToOne(h) && Informed(c, inn, h)
    requires !Knows(c, b.term) && b.abbrev !in c.reserved
    requires forall o :: Offer(o) in inn && (o.term == b.term || o.abbrev == b.abbrev) ==> o == b
    ensures OneToOne(h + {b})
  {
    forall o | o in h && (o.term == b.term || o.abbrev == b.abbrev) ensures o == b {
      assert Offer(o) in inn;
    }
  }

  /** What is settled on one side is known on the other. */
  lemma KnownToSender(c: Conv, d: Conv, out: seq<Item>, inn: seq<Item>, t: string, h: set<Binding>)
    requires Inv(c, d, out, inn, h) && Settled(d, t)
    ensures Knows(c, t)
  {
    if IsActive(d, t) {
      assert Binding(t, d.entries[t].abbrev) in h;
    }
    var b :| b in h && b.term == t;
    assert CanRead(c, inn, b);
  }

  lemma OfferedOk(c: Conv, b: Binding, h: set<Binding>)
    requires LocalOk(c, h) && !Knows(c, b.term) && b.abbrev !in c.reserved
    ensures LocalOk(Offered(c, b), h + {b}) && Grows(c, Offered(c, b)) && NoNewSettled(c, Offered(c, b))
  {
    forall t | t in c.dropped ensures InHistory(h + {b}, t) {
      var o :| o in h && o.term == t;
      assert o in h + {b};
    }
  }

  /** A new proposal that does not clash with one on the way here. */
  lemma SendOffer(c: Conv, d: Conv, out: seq<Item>, inn: seq<Item>, b: Binding, h: set<Binding>)
    requires Inv(c, d, out, inn, h)
    requires !Knows(c, b.term) && b.abbrev !in c.reserved
    requires forall o :: Offer(o) in inn && (o.term == b.term || o.abbrev == b.abbrev) ==> o == b
    ensures Inv(Offered(c, b), d, out + [Offer(b)], inn, h + {b})
  {
    var c', h' := Offered(c, b), h + {b};
    if Settled(d, b.term) {
      KnownToSender(c, d, out, inn, b.term, h);
    }
    assert !Mentions(out, b.term);
    StillOneToOne(c, inn, b, h);
    OfferedOk(c, b, h);
    QueueMoves(c, c', d, d, out, h, h');
    QueueMoves(d, d, c, c', inn, h, h');
    QueueGrows(c', d, out, Offer(b), h');
    HistoryGrows(d, h, b);
    assert Informed(c', inn, h') && Informed(d, out + [Offer(b)], h');
    SettledAfterOffer(c, d, out, inn, b, h);
  }

  lemma HistoryGrows(d: Conv, h: set<Binding>, b: Binding)
    requires LocalOk(d, h)
    ensures LocalOk(d, h + {b})
  {
    forall t | t in d.dropped ensures InHistory(h + {b}, t) {
      var o :| o in h && o.term == t;
      assert o in h + {b};
    }
  }

  /** A pair just offered is settled on neither side. */
  lemma SettledAfterOffer(c: Conv, d: Conv, out: seq<Item>, inn: seq<Item>, b: Binding, h: set<Binding>)
    requires SettledOk(c, d, out, h) && SettledOk(d, c, inn, h) && !Knows(c, b.term) && !Settled(d, b.term)
    ensures SettledOk(Offered(c, b), d, out + [Offer(b)], h + {b})
    ensures SettledOk(d, Offered(c, b), inn, h + {b})
  {
    var c' := Offered(c, b);
    forall o | o in h + {b} && Settled(c', o.term) ensures CanRead(d, out + [Offer(b)], o) {
      assert o in h && CanRead(d, out, o);
    }
    forall o | o in h + {b} && Settled(d, o.term) ensures CanRead(c', inn, o) {
      assert o in h && CanRead(c, inn, o);
    }
  }

  // -------- convergence, when nothing pending is dropped

  /** A drop of b is on the way, behind whatever makes b readable there. */
  ghost predicate DropComing(d: Conv, q: seq<Item>, b: Binding) {
    exists i :: 0 <= i < |q| && q[i] == Drop(b.abbrev) && CanRead(d, q[..i], b)
  }

  ghost predicate DroppedPair(c: Conv, h: set<Binding>, abbrev: string) {
    exists b :: b in h && b.abbrev == abbrev && b.term in c.dropped
  }

  /** A drop behind pre that d will skip: no pair with this abbreviation is settled there by then. */
  ghost predicate IdleDrop(d: Conv, pre: seq<Item>, abbrev: string, h: set<Binding>) {
    forall b :: b in h && b.abbrev == abbrev ==> !Settled(d, b.term) && Offer(b) !in pre && Ack(b) !in pre
  }

  ghost predicate DropOk(c: Conv, d: Conv, pre: seq<Item>, abbrev: string, h: set<Binding>) {
    DroppedPair(c, h, abbrev) || IdleDrop(d, pre, abbrev, h)
  }

  /** The drops on the wire are of pairs dropped at c, or idle. */
  ghost predicate DropsMeant(c: Conv, d: Conv, out: seq<Item>, h: set<Binding>) {
    forall i :: 0 <= i < |out| && out[i].Drop? ==> DropOk(c, d, out[..i], out[i].abbrev, h)
  }

  /** What c has dropped, d has dropped or will. */
  ghost predicate DropsArrive(c: Conv, d: Conv, out: seq<Item>, h: set<Binding>) {
    forall b :: b in h && b.term in c.dropped ==> b.term in d.dropped || DropComing(d, out, b)
  }

  /** What is live at c is not dropped at d, unless the drop is on its way to c. */
  ghost predicate LiveStays(c: Conv, d: Conv, inn: seq<Item>, h: set<Binding>) {
    forall b :: b in h && IsActive(c, b.term) ==> b.term !in d.dropped || Drop(b.abbrev) in inn
  }

  /** A pending pair is still offered or already acknowledged. */
  ghost predicate PendingOk(c: Conv, out: seq<Item>, inn: seq<Item>, h: set<Binding>) {
    forall b :: b in h && IsProposed(c, b.term) ==> Offer(b) in out || Ack(b) in inn
  }

  ghost predicate ConvHalf(c: Conv, d: Conv, out: seq<Item>, inn: seq<Item>, h: set<Binding>) {
    DropsMeant(c, d, out, h) && DropsArrive(c, d, out, h) && LiveStays(c, d, inn, h) && PendingOk(c, out, inn, h)
  }

  ghost predicate Converging(x: Conv, y: Conv, xy: seq<Item>, yx: seq<Item>, h: set<Binding>) {
    ConvHalf(x, y, xy, yx, h) && ConvHalf(y, x, yx, xy, h)
  }

  lemma DropComingMoves(d: Conv, d': Conv, q: seq<Item>, q': seq<Item>, b: Binding)
    requires DropComing(d, q, b) && Grows(d, d') && q <= q'
    ensures DropComing(d', q', b)
  {
    var i :| 0 <= i < |q| && q[i] == Drop(b.abbrev) && CanRead(d, q[..i], b);
    assert q'[..i] == q[..i] && CanRead(d', q'[..i], b);
  }

  lemma DropComingPops(d: Conv, d': Conv, q: seq<Item>, b: Binding)
    requires q != [] && DropComing(d, q, b) && HandledHead(d, d', q[0])
    ensures (q[0] == Drop(b.abbrev) && Settled(d, b.term)) || DropComing(d', q[1..], b)
  {
    var i :| 0 <= i < |q| && q[i] == Drop(b.abbrev) && CanRead(d, q[..i], b);
    if i > 0 {
      CanReadAfterHead(d, d', q[..i], b);
      assert q[..i][1..] == q[1..][..i - 1] && q[1..][i - 1] == q[i];
    }
  }

  lemma DroppedPairMoves(c: Conv, c': Conv, h: set<Binding>, h': set<Binding>, a: string)
    requires DroppedPair(c, h, a) && h <= h' && c.dropped <= c'.dropped
    ensures DroppedPair(c', h', a)
  {
    var b :| b in h && b.abbrev == a && b.term in c.dropped;
    assert b in h';
  }

  /** Pairs new in the history are not settled at d. */
  ghost predicate NewUnsettled(d: Conv, h: set<Binding>, h': set<Binding>) {
    h <= h' && forall b :: b in h' && b !in h ==> !Settled(d, b.term)
  }

  lemma DropOkMoves(c: Conv, c': Conv, d: Conv, d': Conv, out: seq<Item>, i: nat, h: set<Binding>, h': set<Binding>)
    requires QueueOk(c, d, out, h) && i < |out| && out[i].Drop? && DropOk(c, d, out[..i], out[i].abbrev, h)
    requires c.dropped <= c'.dropped && NoNewSettled(d, d') && NewUnsettled(d', h, h')
    ensures DropOk(c', d', out[..i], out[i].abbrev, h')
  {
    var a := out[i].abbrev;
    if DroppedPair(c, h, a) {
      DroppedPairMoves(c, c', h, h', a);
    } else {
      forall b | b in h' && b.abbrev == a ensures !Settled(d', b.term) && Offer(b) !in out[..i] && Ack(b) !in out[..i] {
        if b !in h {
          ItemsInHistory(c, d, out, b, h);
          assert forall it :: it in out[..i] ==> it in out;
        }
      }
    }
  }

  lemma ItemsInHistory(c: Conv, d: Conv, out: seq<Item>, b: Binding, h: set<Binding>)
    requires QueueOk(c, d, out, h) && b !in h
    ensures Offer(b) !in out && Ack(b) !in out
  {
    forall i | 0 <= i < |out| ensures out[i] != Offer(b) && out[i] != Ack(b) {
      assert ItemOk(c, d, out[..i], out[i], h);
    }
  }

  lemma DropsMeantMoves(c: Conv, c': Conv, d: Conv, d': Conv, out: seq<Item>, h: set<Binding>, h': set<Binding>)
    requires QueueOk(c, d, out, h) && DropsMeant(c, d, out, h)
    requires c.dropped <= c'.dropped && NoNewSettled(d, d') && NewUnsettled(d', h, h')
    ensures DropsMeant(c', d', out, h')
  {
    forall i | 0 <= i < |out| && out[i].Drop? ensures DropOk(c', d', out[..i], out[i].abbrev, h') {
      DropOkMoves(c, c', d, d', out, i, h, h');
    }
  }

  lemma DropsMeantGrows(c: Conv, d: Conv, out: seq<Item>, it: Item, h: set<Binding>)
    requires DropsMeant(c, d, out, h) && (it.Drop? ==> DropOk(c, d, out, it.abbrev, h))
    ensures DropsMeant(c, d, out + [it], h)
  {
    var r := out + [it];
    forall i | 0 <= i < |r| && r[i].Drop? ensures DropOk(c, d, r[..i], r[i].abbrev, h) {
      if i < |out| {
        assert r[..i] == out[..i] && r[i] == out[i];
      } else {
        assert r[..i] == out;
      }
    }
  }

  lemma IdleDropPops(c: Conv, d: Conv, d': Conv, pre: seq<Item>, abbrev: string, h: set<Binding>)
    requires pre != [] && IdleDrop(d, pre, abbrev, h) && HandledHead(d, d', pre[0]) && OneToOne(h)
    requires pre[0].Offer? || pre[0].Ack? ==> pre[0].b in h
    ensures IdleDrop(d', pre[1..], abbrev, h)
  {
    assert pre[0] in pre && forall it :: it in pre[1..] ==> it in pre;
  }

  lemma DropsMeantPops(c: Conv, d: Conv, d': Conv, q: seq<Item>, h: set<Binding>)
    requires q != [] && QueueOk(c, d, q, h) && DropsMeant(c, d, q, h) && HandledHead(d, d', q[0]) && OneToOne(h)
    ensures DropsMeant(c, d', q[1..], h)
  {
    var r := q[1..];
    assert ItemOk(c, d, q[..0], q[0], h);
    forall i | 0 <= i < |r| && r[i].Drop? ensures DropOk(c, d', r[..i], r[i].abbrev, h) {
      var pre := q[..i + 1];
      assert q[i + 1] == r[i] && DropOk(c, d, pre, q[i + 1].abbrev, h) && pre[1..] == r[..i] && pre[0] == q[0];
      if !DroppedPair(c, h, r[i].abbrev) {
        IdleDropPops(c, d, d', pre, r[i].abbrev, h);
      }
    }
  }

  /** Sending an item that is neither a proposal nor a drop. */
  lemma ConvSends(c: Conv, d: Conv, out: seq<Item>, inn: seq<Item>, it: Item, h: set<Binding>)
    requires Converging(c, d, out, inn, h) && !it.Drop?
    ensures Converging(c, d, out + [it], inn, h)
  {
    DropsMeantGrows(c, d, out, it, h);
    DropsArriveMoves(c, d, d, out, out + [it], h);
  }

  lemma DropsArriveMoves(c: Conv, d: Conv, d': Conv, out: seq<Item>, out2: seq<Item>, h: set<Binding>)
    requires DropsArrive(c, d, out, h) && Grows(d, d') && d.dropped <= d'.dropped && out <= out2
    ensures DropsArrive(c, d', out2, h)
  {
    forall b | b in h && b.term in c.dropped ensures b.term in d'.dropped || DropComing(d', out2, b) {
      if b.term !in d.dropped {
        DropComingMoves(d, d', out, out2, b);
      }
    }
  }

  lemma OfferKeepsDrops(c: Conv, d: Conv, out: seq<Item>, inn: seq<Item>, b: Binding, h: set<Binding>)
    requires QueueOk(c, d, out, h) && QueueOk(d, c, inn, h) && LocalOk(c, h)
    requires DropsMeant(c, d, out, h) && DropsMeant(d, c, inn, h)
    requires !Knows(c, b.term) && !Settled(d, b.term) && b.abbrev !in c.reserved
    ensures DropsMeant(Offered(c, b), d, out + [Offer(b)], h + {b}) && DropsMeant(d, Offered(c, b), inn, h + {b})
  {
    OfferedOk(c, b, h);
    DropsMeantMoves(c, Offered(c, b), d, d, out, h, h + {b});
    DropsMeantGrows(Offered(c, b), d, out, Offer(b), h + {b});
    DropsMeantMoves(d, d, c, Offered(c, b), inn, h, h + {b});
  }

  lemma OfferKeepsPairs(c: Conv, d: Conv, out: seq<Item>, inn: seq<Item>, b: Binding, h: set<Binding>)
    requires LocalOk(d, h) && OneToOne(h + {b}) && !Knows(c, b.term) && !Settled(d, b.term)
    requires LiveStays(c, d, inn, h) && LiveStays(d, c, out, h) && PendingOk(c, out, inn, h)
    requires PendingOk(d, inn, out, h)
    ensures var c', out2, h' := Offered(c, b), out + [Offer(b)], h + {b};
      && LiveStays(c', d, inn, h') && LiveStays(d, c', out2, h')
      && PendingOk(c', out2, inn, h') && PendingOk(d, inn, out2, h')
  {
    assert (out + [Offer(b)])[|out|] == Offer(b);
    if IsProposed(d, b.term) {
      assert Binding(b.term, d.entries[b.term].abbrev) in h;
    }
  }

  lemma ConvSendOffer(c: Conv, d: Conv, out: seq<Item>, inn: seq<Item>, b: Binding, h: set<Binding>)
    requires Inv(c, d, out, inn, h) && Converging(c, d, out, inn, h) && OneToOne(h + {b})
    requires !Knows(c, b.term) && !Settled(d, b.term) && b.abbrev !in c.reserved
    ensures Converging(Offered(c, b), d, out + [Offer(b)], inn, h + {b})
  {
    OfferKeepsDrops(c, d, out, inn, b, h);
    OfferKeepsPairs(c, d, out, inn, b, h);
    OfferKeepsArrivals(c, d, out, inn, b, h);
  }

  lemma OfferKeepsArrivals(c: Conv, d: Conv, out: seq<Item>, inn: seq<Item>, b: Binding, h: set<Binding>)
    requires LocalOk(c, h) && DropsArrive(c, d, out, h) && DropsArrive(d, c, inn, h)
    requires !Knows(c, b.term) && !Settled(d, b.term) && b.abbrev !in c.reserved
    ensures DropsArrive(Offered(c, b), d, out + [Offer(b)], h + {b}) && DropsArrive(d, Offered(c, b), inn, h + {b})
  {
    OfferedOk(c, b, h);
    DropsArriveMoves(c, d, d, out, out + [Offer(b)], h);
    DropsArriveMoves(d, c, Offered(c, b), inn, inn, h);
  }

  lemma ConvSendDrop(c: Conv, d: Conv, out: seq<Item>, inn: seq<Item>, abbrev: string, h: set<Binding>)
    requires Inv(c, d, out, inn, h) && Converging(c, d, out, inn, h) && NotPending(c, abbrev)
    ensures Converging(DeactivateOne(c, abbrev), d, out + [Drop(abbrev)], inn, h)
  {
    if abbrev in c.reverse {
      ConvSendLiveDrop(c, d, out, inn, abbrev, h);
    } else {
      ConvSendIdleDrop(c, d, out, inn, abbrev, h);
    }
  }

  /** Nothing here carries the abbreviation: then it was dropped here before, or no one can hold it yet. */
  lemma ConvSendIdleDrop(c: Conv, d: Conv, out: seq<Item>, inn: seq<Item>, abbrev: string, h: set<Binding>)
    requires Inv(c, d, out, inn, h) && Converging(c, d, out, inn, h)
    requires NotPending(c, abbrev) && abbrev !in c.reverse
    ensures Converging(c, d, out + [Drop(abbrev)], inn, h)
  {
    var out2 := out + [Drop(abbrev)];
    if !DroppedPair(c, h, abbrev) {
      forall b | b in h && b.abbrev == abbrev ensures !Settled(d, b.term) && Offer(b) !in out && Ack(b) !in out {
        UnknownIsNowhere(c, d, out, inn, b, h);
      }
    }
    DropsMeantGrows(c, d, out, Drop(abbrev), h);
    DropsArriveMoves(c, d, d, out, out2, h);
    assert ConvHalf(d, c, inn, out2, h);
  }

  /** An entry carries the abbreviation the history gives its term. */
  lemma EntryIsPair(c: Conv, b: Binding, h: set<Binding>)
    requires LocalOk(c, h) && OneToOne(h) && b in h && b.term in c.entries
    ensures c.entries[b.term].abbrev == b.abbrev
  {
    assert Binding(b.term, c.entries[b.term].abbrev) in h;
  }

  lemma UnknownIsNowhere(c: Conv, d: Conv, out: seq<Item>, inn: seq<Item>, b: Binding, h: set<Binding>)
    requires Inv(c, d, out, inn, h) && b in h && b.term !in c.dropped
    requires NotPending(c, b.abbrev) && b.abbrev !in c.reverse
    ensures !Settled(d, b.term) && Offer(b) !in out && Ack(b) !in out
  {
    if b.term in c.entries {
      EntryIsPair(c, b, h);
    }
    assert !Knows(c, b.term) && !Settled(c, b.term);
    if Settled(d, b.term) {
      KnownToSender(c, d, out, inn, b.term, h);
    }
    forall i | 0 <= i < |out| ensures out[i] != Offer(b) && out[i] != Ack(b) {
      assert ItemOk(c, d, out[..i], out[i], h);
    }
  }

  lemma ConvSendLiveDrop(c: Conv, d: Conv, out: seq<Item>, inn: seq<Item>, abbrev: string, h: set<Binding>)
    requires Inv(c, d, out, inn, h) && Converging(c, d, out, inn, h) && abbrev in c.reverse
    ensures Converging(DeactivateOne(c, abbrev), d, out + [Drop(abbrev)], inn, h)
  {
    var c', out2 := DeactivateOne(c, abbrev), out + [Drop(abbrev)];
    var gone := Binding(c.reverse[abbrev], abbrev);
    assert gone in h && out2[|out|] == Drop(abbrev);
    DeactivatedGrows(c, abbrev, h);
    assert ConvHalf(c', d, out2, inn, h) by {
      DropsMeantMoves(c, c', d, d, out, h, h);
      assert DroppedPair(c', h, abbrev) by {
        assert gone.abbrev == abbrev && gone.term in c'.dropped;
      }
      DropsMeantGrows(c', d, out, Drop(abbrev), h);
      DropOwnArrives(c, d, out, gone, h);
      assert DropsArrive(c', d, out2, h);
    }
    assert ConvHalf(d, c', inn, out2, h) by {
      DropsMeantMoves(d, d, c, c', inn, h, h);
      DropsArriveMoves(d, c, c', inn, inn, h);
      forall o | o in h && IsActive(d, o.term) ensures o.term !in c'.dropped || Drop(o.abbrev) in out2 {
        if o.term == gone.term {
          assert o == gone;
        }
      }
    }
  }

  lemma DropOwnArrives(c: Conv, d: Conv, out: seq<Item>, gone: Binding, h: set<Binding>)
    requires DropsArrive(c, d, out, h) && SettledOk(c, d, out, h) && OneToOne(h)
    requires gone in h && IsLive(c, gone)
    ensures DropsArrive(c.(dropped := c.dropped + {gone.term}), d, out + [Drop(gone.abbrev)], h)
  {
    var out2 := out + [Drop(gone.abbrev)];
    DropsArriveMoves(c, d, d, out, out2, h);
    assert out2[|out|] == Drop(gone.abbrev) && out2[..|out|] == out;
    assert CanRead(d, out, gone);
    assert DropComing(d, out2, gone);
  }

  /** c has become c' on the head of inn, and out has become out2. */
  ghost predicate Handles(c: Conv, c': Conv, out: seq<Item>, out2: seq<Item>, inn: seq<Item>, h: set<Binding>) {
    && inn != [] && HandledHead(c, c', inn[0]) && c.dropped <= c'.dropped && LocalOk(c', h)
    && (out2 == out || (inn[0].Offer? && out2 == out + [Ack(inn[0].b)]))
    && (inn[0].Drop? ==> c' == DeactivateOne(c, inn[0].abbrev))
    && (!inn[0].Drop? ==> c'.dropped == c.dropped)
    && (inn[0].Offer? ==> Ack(inn[0].b) in out2)
    && (forall t :: IsProposed(c', t) ==> IsProposed(c, t))
    && (inn[0].Ack? ==> !IsProposed(c', inn[0].b.term))
  }

  lemma DropsArriveAfterHead(c: Conv, c': Conv, d: Conv, out: seq<Item>, out2: seq<Item>, inn: seq<Item>,
                             h: set<Binding>)
    requires Inv(c, d, out, inn, h) && Converging(c, d, out, inn, h) && Handles(c, c', out, out2, inn, h)
    ensures DropsArrive(c', d, out2, h) && DropsArrive(d, c', inn[1..], h)
  {
    forall o | o in h && o.term in c'.dropped ensures o.term in d.dropped || DropComing(d, out2, o) {
      if o.term in c.dropped {
        if o.term !in d.dropped {
          DropComingMoves(d, d, out, out2, o);
        }
      } else {
        DropWasTheirs(c, d, out, inn, o, h);
      }
    }
    forall o | o in h && o.term in d.dropped ensures o.term in c'.dropped || DropComing(c', inn[1..], o) {
      if o.term !in c.dropped {
        DropComingPops(c, c', inn, o);
      }
    }
  }

  lemma DropsMeantAfterHead(c: Conv, c': Conv, d: Conv, out: seq<Item>, out2: seq<Item>, inn: seq<Item>,
                            h: set<Binding>)
    requires Inv(c, d, out, inn, h) && Converging(c, d, out, inn, h) && Handles(c, c', out, out2, inn, h)
    ensures DropsMeant(c', d, out2, h) && DropsMeant(d, c', inn[1..], h)
  {
    DropsMeantMoves(c, c', d, d, out, h, h);
    if out2 != out {
      DropsMeantGrows(c', d, out, Ack(inn[0].b), h);
    }
    DropsMeantPops(d, c, c', inn, h);
  }

  lemma LiveStaysAfterHead(c: Conv, c': Conv, d: Conv, out: seq<Item>, out2: seq<Item>, inn: seq<Item>, h: set<Binding>)
    requires Inv(c, d, out, inn, h) && Converging(c, d, out, inn, h) && Handles(c, c', out, out2, inn, h)
    requires DropsArrive(d, c', inn[1..], h)
    ensures LiveStays(c', d, inn[1..], h) && LiveStays(d, c', out2, h)
  {
    forall o | o in h && IsActive(c', o.term) ensures o.term !in d.dropped || Drop(o.abbrev) in inn[1..] {
      if o.term in d.dropped {
        assert o.term !in c'.dropped && DropComing(c', inn[1..], o);
      }
    }
    forall o | o in h && IsActive(d, o.term) ensures o.term !in c'.dropped || Drop(o.abbrev) in out2 {
      if o.term in c'.dropped && o.term !in c.dropped {
        DropWasTheirs(c, d, out, inn, o, h);
      }
    }
  }

  /** The head handled, both sides still converge. */
  lemma ConvAfterHead(c: Conv, c': Conv, d: Conv, out: seq<Item>, out2: seq<Item>, inn: seq<Item>, h: set<Binding>)
    requires Inv(c, d, out, inn, h) && Converging(c, d, out, inn, h) && Handles(c, c', out, out2, inn, h)
    ensures Converging(c', d, out2, inn[1..], h)
  {
    DropsMeantAfterHead(c, c', d, out, out2, inn, h);
    DropsArriveAfterHead(c, c', d, out, out2, inn, h);
    LiveStaysAfterHead(c, c', d, out, out2, inn, h);
    assert PendingOk(c', out2, inn[1..], h);
    assert PendingOk(d, inn[1..], out2, h);
  }

  /** A pair dropped on a received drop is one the other side has dropped. */
  lemma DropWasTheirs(c: Conv, d: Conv, out: seq<Item>, inn: seq<Item>, o: Binding, h: set<Binding>)
    requires Inv(c, d, out, inn, h) && Converging(c, d, out, inn, h) && inn != [] && inn[0].Drop? && o in h
    requires o.term in DeactivateOne(c, inn[0].abbrev).dropped && o.term !in c.dropped
    ensures o.term in d.dropped
  {
    var a := inn[0].abbrev;
    assert inn[..0] == [] && DropOk(d, c, inn[..0], inn[0].abbrev, h);
    assert o.term == c.reverse[a] && Binding(o.term, a) in h && Settled(c, o.term);
    var b :| b in h && b.abbrev == a && b.term in d.dropped;
    OneTerm(c, h, b, a);
  }

  /** With nothing in flight both sides hold the same glossary, and nothing is pending. */
  lemma SettledAgree(c: Conv, d: Conv, h: set<Binding>)
    requires Inv(c, d, [], [], h) && Converging(c, d, [], [], h)
    ensures c.entries == d.entries && c.reverse == d.reverse
    ensures forall t :: t in c.entries ==> IsActive(c, t)
  {
    forall t | t in c.entries ensures IsActive(c, t) && t in d.entries && d.entries[t] == c.entries[t] {
      SettledOne(c, d, t, h);
    }
    forall t | t in d.entries ensures t in c.entries {
      SettledOne(d, c, t, h);
    }
    assert c.entries == d.entries;
    assert forall a :: a in c.reverse ==> IsActive(d, c.reverse[a]);
    assert forall a :: a in d.reverse ==> IsActive(c, d.reverse[a]);
    assert c.reverse == d.reverse;
  }

  lemma SettledOne(c: Conv, d: Conv, t: string, h: set<Binding>)
    requires Inv(c, d, [], [], h) && Converging(c, d, [], [], h) && t in c.entries
    ensures IsActive(c, t) && t in d.entries && d.entries[t] == c.entries[t]
  {
    var b := Binding(t, c.entries[t].abbrev);
    assert b in h && !IsProposed(c, t);
    assert CanRead(d, [], b) && t !in d.dropped;
    assert Binding(t, d.entries[t].abbrev) in h;
  }

  // -------- both invariants, item by item

  /** live says that nothing pending has been dropped so far. */
  ghost predicate Good(live: bool, x: Conv, y: Conv, xy: seq<Item>, yx: seq<Item>, h: set<Binding>) {
    Inv(x, y, xy, yx, h) && (live ==> Converging(x, y, xy, yx, h))
  }

  lemma GoodReceiveOffer(live: bool, c: Conv, d: Conv, out: seq<Item>, inn: seq<Item>, h: set<Binding>)
    requires Good(live, c, d, out, inn, h) && inn != [] && inn[0].Offer?
    ensures AcceptOne(c, inn[0].b) == (Activated(c, inn[0].b), inn[0].b)
    ensures Good(live, Activated(c, inn[0].b), d, out + [Ack(inn[0].b)], inn[1..], h)
  {
    ReceiveOffer(c, d, out, inn, h);
    OfferHandled(c, d, inn, h);
    if live {
      OfferHandles(c, d, out, inn, h);
      ConvAfterHead(c, Activated(c, inn[0].b), d, out, out + [Ack(inn[0].b)], inn, h);
    }
  }

  lemma OfferHandles(c: Conv, d: Conv, out: seq<Item>, inn: seq<Item>, h: set<Binding>)
    requires OneToOne(h) && LocalOk(c, h) && QueueOk(d, c, inn, h) && inn != [] && inn[0].Offer?
    ensures Handles(c, Activated(c, inn[0].b), out, out + [Ack(inn[0].b)], inn, h)
  {
    OfferHandled(c, d, inn, h);
    var out2 := out + [Ack(inn[0].b)];
    assert out2[|out|] == Ack(inn[0].b);
  }

  lemma GoodReceiveAck(live: bool, c: Conv, d: Conv, out: seq<Item>, inn: seq<Item>, h: set<Binding>)
    requires Good(live, c, d, out, inn, h) && inn != [] && inn[0].Ack?
    ensures Good(live, ConfirmOne(c, inn[0].b), d, out, inn[1..], h)
  {
    ReceiveAck(c, d, out, inn, h);
    if live {
      AckHandles(c, d, out, inn, h);
      ConvAfterHead(c, ConfirmOne(c, inn[0].b), d, out, out, inn, h);
    }
  }

  lemma AckHandles(c: Conv, d: Conv, out: seq<Item>, inn: seq<Item>, h: set<Binding>)
    requires OneToOne(h) && LocalOk(c, h) && Informed(c, inn, h) && QueueOk(d, c, inn, h)
    requires inn != [] && inn[0].Ack?
    ensures Handles(c, ConfirmOne(c, inn[0].b), out, out, inn, h)
  {
    AckHandled(c, d, inn, h);
  }

  lemma GoodReceiveDrop(live: bool, c: Conv, d: Conv, out: seq<Item>, inn: seq<Item>, h: set<Binding>)
    requires Good(live, c, d, out, inn, h) && inn != [] && inn[0].Drop?
    ensures Good(live, DeactivateOne(c, inn[0].abbrev), d, out, inn[1..], h)
  {
    ReceiveDrop(c, d, out, inn, h);
    if live {
      DeactivatedGrows(c, inn[0].abbrev, h);
      ConvAfterHead(c, DeactivateOne(c, inn[0].abbrev), d, out, out, inn, h);
    }
  }

  lemma GoodReceiveSay(live: bool, c: Conv, d: Conv, out: seq<Item>, inn: seq<Item>, h: set<Binding>)
    requires Good(live, c, d, out, inn, h) && inn != [] && inn[0].Say?
    ensures Good(live, c, d, out, inn[1..], h)
  {
    ReceiveSay(c, d, out, inn, h);
    if live {
      ConvAfterHead(c, c, d, out, out, inn, h);
    }
  }

  lemma GoodSay(live: bool, c: Conv, d: Conv, out: seq<Item>, inn: seq<Item>, it: Item, h: set<Binding>)
    requires Good(live, c, d, out, inn, h) && it.Say? && ItemOk(c, d, out, it, h)
    ensures Good(live, c, d, out + [it], inn, h)
  {
    Sends(c, d, out, inn, it, h);
    if live {
      ConvSends(c, d, out, inn, it, h);
    }
  }

  lemma GoodSendDrop(live: bool, c: Conv, d: Conv, out: seq<Item>, inn: seq<Item>, abbrev: string, h: set<Binding>)
    requires Good(live, c, d, out, inn, h) && (live ==> NotPending(c, abbrev))
    ensures Good(live, DeactivateOne(c, abbrev), d, out + [Drop(abbrev)], inn, h)
  {
    SendDrop(c, d, out, inn, abbrev, h);
    if live {
      ConvSendDrop(c, d, out, inn, abbrev, h);
    }
  }

  lemma GoodSendOffer(live: bool, c: Conv, d: Conv, out: seq<Item>, inn: seq<Item>, b: Binding, h: set<Binding>)
    requires Good(live, c, d, out, inn, h)
    requires !Knows(c, b.term) && b.abbrev !in c.reserved
    requires forall o :: Offer(o) in inn && (o.term == b.term || o.abbrev == b.abbrev) ==> o == b
    ensures Good(live, Offered(c, b), d, out + [Offer(b)], inn, h + {b})
  {
    SendOffer(c, d, out, inn, b, h);
    if live {
      if Settled(d, b.term) {
        KnownToSender(c, d, out, inn, b.term, h);
      }
      ConvSendOffer(c, d, out, inn, b, h);
    }
  }

  // -------- frames of several entries

  lemma HeadItem(q: seq<Item>, it: Item, rest: seq<Item>)
    requires q == [it] + rest
    ensures q != [] && q[0] == it && q[1..] == rest
  {
  }

  lemma AcksAppend(out: seq<Item>, bs: seq<Binding>)
    requires bs != []
    ensures out + [Ack(bs[0])] + Acks(bs[1..]) == out + Acks(bs)
  {
    assert Acks(bs) == [Ack(bs[0])] + Acks(bs[1..]);
  }

  lemma AcceptSteps(c: Conv, bs: seq<Binding>)
    requires bs != [] && AcceptOne(c, bs[0]) == (Activated(c, bs[0]), bs[0])
    requires Accept(Activated(c, bs[0]), bs[1..]).1 == bs[1..]
    ensures Accept(c, bs) == (Accept(Activated(c, bs[0]), bs[1..]).0, bs)
  {
    assert bs == [bs[0]] + bs[1..];
  }

  lemma ReceiveFirstOffer(live: bool, c: Conv, d: Conv, out: seq<Item>, bs: seq<Binding>, rest: seq<Item>,
                          h: set<Binding>)
    requires bs != [] && Good(live, c, d, out, Offers(bs) + rest, h)
    ensures AcceptOne(c, bs[0]) == (Activated(c, bs[0]), bs[0])
    ensures Good(live, Activated(c, bs[0]), d, out + [Ack(bs[0])], Offers(bs[1..]) + rest, h)
  {
    FirstOffer(bs, rest);
    GoodReceiveOffer(live, c, d, out, Offers(bs) + rest, h);
  }

  lemma FirstOffer(bs: seq<Binding>, rest: seq<Item>)
    requires bs != []
    ensures var q := Offers(bs) + rest; q != [] && q[0] == Offer(bs[0]) && q[1..] == Offers(bs[1..]) + rest
  {
    var q := Offers(bs) + rest;
    assert q == [Offer(bs[0])] + (Offers(bs[1..]) + rest);
  }

  lemma {:induction false} ReceiveOffers(live: bool, c: Conv, d: Conv, out: seq<Item>, bs: seq<Binding>,
                                         rest: seq<Item>, h: set<Binding>)
    requires Good(live, c, d, out, Offers(bs) + rest, h)
    ensures Accept(c, bs).1 == bs && Good(live, Accept(c, bs).0, d, out + Acks(bs), rest, h)
    decreases |bs|
  {
    if bs == [] {
      assert Offers(bs) + rest == rest && out + Acks(bs) == out;
    } else {
      ReceiveFirstOffer(live, c, d, out, bs, rest, h);
      ReceiveOffers(live, Activated(c, bs[0]), d, out + [Ack(bs[0])], bs[1..], rest, h);
      AcceptSteps(c, bs);
      AcksAppend(out, bs);
    }
  }

  lemma {:induction false} ReceiveAcks(live: bool, c: Conv, d: Conv, out: seq<Item>, bs: seq<Binding>,
                                       rest: seq<Item>, h: set<Binding>)
    requires Good(live, c, d, out, Acks(bs) + rest, h)
    ensures Good(live, Confirm(c, bs), d, out, rest, h)
    decreases |bs|
  {
    var inn := Acks(bs) + rest;
    if bs == [] {
      assert inn == rest;
    } else {
      assert inn == [Ack(bs[0])] + (Acks(bs[1..]) + rest);
      HeadItem(inn, Ack(bs[0]), Acks(bs[1..]) + rest);
      GoodReceiveAck(live, c, d, out, inn, h);
      ReceiveAcks(live, ConfirmOne(c, bs[0]), d, out, bs[1..], rest, h);
    }
  }

  lemma {:induction false} ReceiveDrops(live: bool, c: Conv, d: Conv, out: seq<Item>, terms: seq<string>,
                                        rest: seq<Item>, h: set<Binding>)
    requires Good(live, c, d, out, Drops(terms) + rest, h)
    ensures Good(live, Deactivate(c, terms), d, out, rest, h)
    decreases |terms|
  {
    var inn := Drops(terms) + rest;
    if terms == [] {
      assert inn == rest;
    } else {
      assert inn == [Drop(terms[0])] + (Drops(terms[1..]) + rest);
      HeadItem(inn, Drop(terms[0]), Drops(terms[1..]) + rest);
      GoodReceiveDrop(live, c, d, out, inn, h);
      ReceiveDrops(live, DeactivateOne(c, terms[0]), d, out, terms[1..], rest, h);
    }
  }

  ghost predicate FreshFor(c: Conv, bs: seq<Binding>) {
    && (forall i :: 0 <= i < |bs| ==> !Knows(c, bs[i].term) && bs[i].abbrev !in c.reserved + AbbrevsOf(bs[..i]))
    && (forall i, j :: 0 <= i < j < |bs| ==> bs[i].term != bs[j].term)
  }

  lemma {:induction false} OfferedAllEntries(c: Conv, bs: seq<Binding>)
    ensures forall t :: t in OfferedAll(c, bs).entries <==> t in c.entries || HasTerm(bs, t)
    decreases |bs|
  {
    if bs != [] {
      var pre, b := bs[..|bs| - 1], bs[|bs| - 1];
      OfferedAllEntries(c, pre);
      forall t ensures HasTerm(bs, t) <==> HasTerm(pre, t) || t == b.term {
        if HasTerm(pre, t) {
          var i :| 0 <= i < |pre| && pre[i].term == t;
          assert bs[i].term == t;
        }
      }
    }
  }

  function AsSet(bs: seq<Binding>): set<Binding> {
    set b | b in bs
  }

  lemma AsSetLast(h: set<Binding>, bs: seq<Binding>)
    requires bs != []
    ensures h + AsSet(bs[..|bs| - 1]) + {bs[|bs| - 1]} == h + AsSet(bs)
  {
    assert bs == bs[..|bs| - 1] + [bs[|bs| - 1]];
  }

  lemma {:induction false} SendOffers(live: bool, c: Conv, d: Conv, out: seq<Item>, inn: seq<Item>,
                                      bs: seq<Binding>, h: set<Binding>)
    requires Good(live, c, d, out, inn, h) && FreshFor(c, bs) && NoClash(bs, inn)
    ensures Good(live, OfferedAll(c, bs), d, out + Offers(bs), inn, h + AsSet(bs))
    decreases |bs|
  {
    if bs == [] {
      assert out + Offers([]) == out;
      assert h + AsSet(bs) == h;
    } else {
      var pre, b := bs[..|bs| - 1], bs[|bs| - 1];
      FreshPrefix(c, bs);
      FreshLast(c, bs);
      SendOffers(live, c, d, out, inn, pre, h);
      NoClashLast(bs, inn);
      GoodSendOffer(live, OfferedAll(c, pre), d, out + Offers(pre), inn, b, h + AsSet(pre));
      OffersAppend(out, bs);
      AsSetLast(h, bs);
    }
  }

  lemma NoClashLast(bs: seq<Binding>, inn: seq<Item>)
    requires NoClash(bs, inn) && bs != []
    ensures NoClash(bs[..|bs| - 1], inn)
    ensures var b := bs[|bs| - 1];
      forall o :: Offer(o) in inn && (o.term == b.term || o.abbrev == b.abbrev) ==> o == b
  {
    assert bs[|bs| - 1] in bs;
  }

  lemma OffersAppend(out: seq<Item>, bs: seq<Binding>)
    requires bs != []
    ensures out + Offers(bs[..|bs| - 1]) + [Offer(bs[|bs| - 1])] == out + Offers(bs)
  {
    assert Offers(bs) == Offers(bs[..|bs| - 1]) + [Offer(bs[|bs| - 1])];
  }

  lemma FreshPrefix(c: Conv, bs: seq<Binding>)
    requires FreshFor(c, bs) && bs != []
    ensures FreshFor(c, bs[..|bs| - 1])
  {
    var pre := bs[..|bs| - 1];
    forall i | 0 <= i < |pre| ensures !Knows(c, pre[i].term) && pre[i].abbrev !in c.reserved + AbbrevsOf(pre[..i]) {
      assert pre[..i] == bs[..i] && pre[i] == bs[i];
    }
    forall i, j | 0 <= i < j < |pre| ensures pre[i].term != pre[j].term {
      assert bs[i].term != bs[j].term;
    }
  }

  lemma FreshLast(c: Conv, bs: seq<Binding>)
    requires FreshFor(c, bs) && bs != []
    ensures var d := OfferedAll(c, bs[..|bs| - 1]); !Knows(d, bs[|bs| - 1].term) && bs[|bs| - 1].abbrev !in d.reserved
  {
    var pre, last := bs[..|bs| - 1], |bs| - 1;
    assert !Knows(c, bs[last].term) && bs[last].abbrev !in c.reserved + AbbrevsOf(bs[..last]);
    OfferedAllFields(c, pre);
    OfferedAllEntries(c, pre);
  }

  // -------- runs

  ghost predicate NetGood(p: Policy, n: Net) {
    Good(p != AnyDrop, n.x, n.y, Flat(n.xy), Flat(n.yx), n.hist)
  }

  lemma ProposalsAreFresh(c: Conv, text: string, c': Conv, bs: seq<Binding>)
    requires Proposes(c, text, c', bs)
    ensures FreshFor(c, bs)
  {
    forall i | 0 <= i < |bs| ensures !Knows(c, bs[i].term) && bs[i].abbrev !in c.reserved + AbbrevsOf(bs[..i]) {
      assert HasTerm(bs, bs[i].term) && IsCandidate(c.(seen := c'.seen), bs[i].term);
      assert GeneratedAt(c.reserved, bs, i);
    }
  }

  /** Counting terms does not matter to the negotiation. */
  lemma SeenIrrelevant(live: bool, c: Conv, seen: map<string, nat>, d: Conv, out: seq<Item>, inn: seq<Item>,
                       h: set<Binding>)
    requires Good(live, c, d, out, inn, h)
    ensures Good(live, c.(seen := seen), d, out, inn, h)
  {
    var c' := c.(seen := seen);
    QueueMoves(c, c', d, d, out, h, h);
    QueueMoves(d, d, c, c', inn, h, h);
    if live {
      SeenConverges(c, seen, d, out, inn, h);
    }
  }

  lemma SeenConverges(c: Conv, seen: map<string, nat>, d: Conv, out: seq<Item>, inn: seq<Item>, h: set<Binding>)
    requires Good(true, c, d, out, inn, h)
    ensures Converging(c.(seen := seen), d, out, inn, h)
  {
    var c' := c.(seen := seen);
    DropsMeantMoves(c, c', d, d, out, h, h);
    DropsMeantMoves(d, d, c, c', inn, h, h);
    DropsArriveMoves(d, c, c', inn, inn, h);
  }

  lemma ObserveKeepsInv(p: Policy, n: Net, text: string, bs: seq<Binding>, n': Net)
    requires NetGood(p, n) && Step(n, Observe(text, bs), n')
    ensures NetGood(p, n')
  {
    var live, out, inn := p != AnyDrop, Flat(n.xy), Flat(n.yx);
    ProposalsAreFresh(n.x, text, n'.x, bs);
    SeenIrrelevant(live, n.x, n'.x.seen, n.y, out, inn, n.hist);
    SendOffers(live, n.x.(seen := n'.x.seen), n.y, out, inn, bs, n.hist);
    FlatAppend(n.xy, Propose(bs));
    if bs == [] {
      assert out + Offers(bs) == out;
    }
  }

  lemma SpeakKeepsInv(p: Policy, n: Net, text: string, act: seq<Binding>, n': Net)
    requires NetGood(p, n) && Step(n, Speak(text, act), n')
    ensures NetGood(p, n')
  {
    var live, out, inn := p != AnyDrop, Flat(n.xy), Flat(n.yx);
    FlatAppend(n.xy, Msg(CompactWith(act, text), text, act));
    forall b | b in act ensures b in n.hist && CanRead(n.y, out, b) {
      assert IsLive(n.x, b);
      assert Binding(b.term, n.x.entries[b.term].abbrev) in n.hist;
    }
    GoodSay(live, n.x, n.y, out, inn, Say(CompactWith(act, text), text, act), n.hist);
  }

  lemma DropKeepsInv(p: Policy, n: Net, abbrev: string, n': Net)
    requires NetGood(p, n) && Takes(p, n, DropOwn(abbrev), n')
    ensures NetGood(p, n')
  {
    FlatAppend(n.xy, DropFrame([abbrev]));
    assert Drops([abbrev]) == [Drop(abbrev)];
    DropsOne(n.x, abbrev);
    GoodSendDrop(p != AnyDrop, n.x, n.y, Flat(n.xy), Flat(n.yx), abbrev, n.hist);
  }

  lemma StepKeepsInv(p: Policy, n: Net, e: Event, n': Net)
    requires NetGood(p, n) && Takes(p, n, e, n')
    ensures NetGood(p, n')
  {
    match e
    case Observe(text, bs) => ObserveKeepsInv(p, n, text, bs, n');
    case Speak(text, act) => SpeakKeepsInv(p, n, text, act, n');
    case DropOwn(abbrev) => DropKeepsInv(p, n, abbrev, n');
    case Receive => ReceiveKeepsInv(p, n, n');
  }

  lemma DropsOne(c: Conv, abbrev: string)
    ensures Deactivate(c, [abbrev]) == DeactivateOne(c, abbrev)
  {
    assert [abbrev][1..] == [];
  }

  lemma ReceiveKeepsInv(p: Policy, n: Net, n': Net)
    requires NetGood(p, n) && Step(n, Receive, n')
    ensures NetGood(p, n')
  {
    var live, out, rest := p != AnyDrop, Flat(n.xy), Flat(n.yx[1..]);
    assert Flat(n.yx) == Items(n.yx[0]) + rest;
    match n.yx[0]
    case Propose(bs) =>
      ReceiveOffers(live, n.x, n.y, out, bs, rest, n.hist);
      FlatAppend(n.xy, AckFrame(bs));
    case AckFrame(bs) =>
      ReceiveAcks(live, n.x, n.y, out, bs, rest, n.hist);
    case DropFrame(terms) =>
      ReceiveDrops(live, n.x, n.y, out, terms, rest, n.hist);
    case Msg(body, text, used) =>
      HeadItem(Flat(n.yx), Say(body, text, used), rest);
      GoodReceiveSay(live, n.x, n.y, out, Flat(n.yx), n.hist);
  }

  lemma {:induction false} RunKeepsInv(p: Policy, states: seq<Net>, i: nat)
    requires IsRun(p, states) && i < |states|
    ensures NetGood(p, states[i])
  {
    if i == 0 {
      assert NetGood(p, START);
    } else {
      RunKeepsInv(p, states, i - 1);
      var n, n' := states[i - 1], states[i];
      assert Next(p, n, n');
      var e :| Takes(p, n, e, n') || Takes(p, Flip(n), e, Flip(n'));
      if Takes(p, n, e, n') {
        StepKeepsInv(p, n, e, n');
      } else {
        StepKeepsInv(p, Flip(n), e, Flip(n'));
      }
    }
  }
}
