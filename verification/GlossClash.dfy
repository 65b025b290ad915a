/**
 * Proposals that clash, in runs without drops. Whatever is proposed on either side and however it
 * crosses, what the two glossaries hold in the end is decided by what each side proposed; and they
 * agree exactly when nothing clashed.
 */
module GlossClash {
  import opened Text
  import opened GlossText
  import opened GlossConv
  import opened GlossProtocol
  import opened GlossTraces
  import GlossSessions

  // -------- what holds at any time; hc and hd are what c and d have proposed

  /** What c has proposed is known and reserved there, and has not been proposed there twice. */
  ghost predicate OwnOk(c: Conv, hc: set<Binding>) {
    && (forall b :: b in hc ==> b.term in c.entries && b.abbrev in c.reserved)
    && OneToOne(hc)
  }

  /** What d has proposed is on its way to c or live there. */
  ghost predicate TheirsArrive(c: Conv, inn: seq<Item>, hd: set<Binding>) {
    forall b :: b in hd ==> Offer(b) in inn || IsLive(c, b)
  }

  /** What is pending at c is its own proposal, still offered or already acknowledged. */
  ghost predicate PendingOwn(c: Conv, out: seq<Item>, inn: seq<Item>, hc: set<Binding>) {
    forall t :: IsProposed(c, t) ==>
      var b := Binding(t, c.entries[t].abbrev);
      b in hc && (Offer(b) in out || Ack(b) in inn)
  }

  /** What is live at c was proposed, and d knows the term and has reserved the abbreviation. */
  ghost predicate LiveKnown(c: Conv, d: Conv, hc: set<Binding>, hd: set<Binding>) {
    forall b :: IsLive(c, b) ==>
      b in hc + hd && b.term in d.entries && b.abbrev in c.reserved && b.abbrev in d.reserved
  }

  /** A token stands for a live pair, and every live pair has a token. */
  ghost predicate TokensLive(c: Conv) {
    && (forall a :: a in c.reverse ==> IsLive(c, Binding(c.reverse[a], a)))
    && (forall b :: IsLive(c, b) ==> b.abbrev in c.reverse)
  }

  /** The pair is live at c, and d has never proposed its term: it was c's own, and was confirmed. */
  ghost predicate Confirmed(c: Conv, b: Binding, hd: set<Binding>) {
    IsLive(c, b) && !InHistory(hd, b.term)
  }

  /** A confirmed pair has the token, and no proposal on the way here takes it away. */
  ghost predicate ConfirmedReads(c: Conv, inn: seq<Item>, hd: set<Binding>) {
    forall b :: Confirmed(c, b, hd) ==>
      && b.abbrev in c.reverse && c.reverse[b.abbrev] == b.term
      && forall o :: Offer(o) in inn ==> o.abbrev != b.abbrev
  }

  /** What c sends are its own proposals of terms not live at d, and answers to d's, live at c. */
  ghost predicate ItemsOk(c: Conv, d: Conv, out: seq<Item>, hc: set<Binding>, hd: set<Binding>) {
    && (forall b :: Offer(b) in out ==> b in hc && !IsActive(d, b.term))
    && (forall b :: Ack(b) in out ==> b in hd && IsLive(c, b))
    && (forall a :: Drop(a) !in out)
  }

  predicate Names(it: Item) {
    it.Offer? || it.Ack?
  }

  /** A proposal follows nothing with its term or its abbreviation. */
  predicate Ordered(out: seq<Item>) {
    forall i, j :: 0 <= i < j < |out| && Names(out[i]) && out[j].Offer? ==>
      out[i].b.term != out[j].b.term && out[i].b.abbrev != out[j].b.abbrev
  }

  ghost predicate Half(c: Conv, d: Conv, out: seq<Item>, inn: seq<Item>, hc: set<Binding>, hd: set<Binding>) {
    && OwnOk(c, hc) && TheirsArrive(c, inn, hd) && PendingOwn(c, out, inn, hc) && LiveKnown(c, d, hc, hd)
    && TokensLive(c) && ConfirmedReads(c, inn, hd) && ItemsOk(c, d, out, hc, hd) && Ordered(out)
  }

  ghost predicate Both(l: Link, hx: set<Binding>, hy: set<Binding>) {
    Half(l.x, l.y, l.xy, l.yx, hx, hy) && Half(l.y, l.x, l.yx, l.xy, hy, hx)
  }

  lemma BothTurns(l: Link, hx: set<Binding>, hy: set<Binding>)
    requires Both(l, hx, hy)
    ensures Both(Turned(l), hy, hx)
  {
  }

  // -------- queues

  lemma OrderedAppends(out: seq<Item>, it: Item)
    requires Ordered(out)
    requires it.Offer? ==> forall o :: o in out && Names(o) ==> o.b.term != it.b.term && o.b.abbrev != it.b.abbrev
    ensures Ordered(out + [it])
  {
    var r := out + [it];
    forall i, j | 0 <= i < j < |r| && Names(r[i]) && r[j].Offer?
      ensures r[i].b.term != r[j].b.term && r[i].b.abbrev != r[j].b.abbrev
    {
      assert out[i] in out;
    }
  }

  /** Behind the head no proposal shares anything with it. */
  lemma HeadIsFirst(q: seq<Item>)
    requires Ordered(q) && q != []
    ensures Ordered(q[1..]) && forall it :: it in q <==> it == q[0] || it in q[1..]
    ensures Names(q[0]) ==> forall o :: Offer(o) in q[1..] ==> o.term != q[0].b.term && o.abbrev != q[0].b.abbrev
  {
    var r := q[1..];
    assert q == [q[0]] + r;
    forall i, j | 0 <= i < j < |r| && Names(r[i]) && r[j].Offer?
      ensures r[i].b.term != r[j].b.term && r[i].b.abbrev != r[j].b.abbrev
    {
      assert r[i] == q[i + 1] && r[j] == q[j + 1];
    }
    if Names(q[0]) {
      forall o | Offer(o) in r ensures o.term != q[0].b.term && o.abbrev != q[0].b.abbrev {
        var j :| 0 <= j < |r| && r[j] == Offer(o);
        assert q[j + 1] == r[j];
      }
    }
  }

  lemma InAppended(q: seq<Item>, last: Item)
    ensures forall it :: it in q + [last] <==> it in q || it == last
  {
  }

  lemma Remembered(h: set<Binding>, b: Binding)
    requires b in h
    ensures InHistory(h, b.term)
  {
  }

  lemma NotInMore(h: set<Binding>, b: Binding, t: string)
    requires !InHistory(h + {b}, t)
    ensures !InHistory(h, t) && t != b.term
  {
    forall o | o in h + {b} ensures o.term != t {
      assert o.term == t ==> InHistory(h + {b}, t);
    }
    assert b in h + {b};
  }

  // -------- proposing

  lemma OfferNames(l: Link, hx: set<Binding>, hy: set<Binding>, b: Binding)
    requires OwnOk(l.x, hx) && LiveKnown(l.x, l.y, hx, hy) && ItemsOk(l.x, l.y, l.xy, hx, hy) && Ordered(l.xy)
    requires b.term !in l.x.entries && b.abbrev !in l.x.reserved
    ensures Ordered(l.xy + [Offer(b)])
  {
    forall o | o in l.xy && Names(o) ensures o.b.term != b.term && o.b.abbrev != b.abbrev {
      if o.Offer? {
        assert Offer(o.b) in l.xy;
      } else {
        assert Ack(o.b) in l.xy && IsLive(l.x, o.b);
      }
    }
    OrderedAppends(l.xy, Offer(b));
  }

  lemma OfferLive(c: Conv, d: Conv, inn: seq<Item>, hc: set<Binding>, hd: set<Binding>, b: Binding)
    requires TheirsArrive(c, inn, hd) && LiveKnown(c, d, hc, hd) && TokensLive(c) && ConfirmedReads(c, inn, hd)
    requires b.term !in c.entries
    ensures var c' := Offered(c, b);
      TheirsArrive(c', inn, hd) && LiveKnown(c', d, hc + {b}, hd) && TokensLive(c') && ConfirmedReads(c', inn, hd)
  {
    assert forall o :: IsLive(Offered(c, b), o) <==> IsLive(c, o);
    assert forall o :: Confirmed(Offered(c, b), o, hd) <==> Confirmed(c, o, hd);
  }

  lemma OfferItems(l: Link, hx: set<Binding>, hy: set<Binding>, b: Binding)
    requires ItemsOk(l.x, l.y, l.xy, hx, hy) && LiveKnown(l.y, l.x, hy, hx) && b.term !in l.x.entries
    ensures ItemsOk(Offered(l.x, b), l.y, l.xy + [Offer(b)], hx + {b}, hy)
  {
    InAppended(l.xy, Offer(b));
    if IsActive(l.y, b.term) {
      assert IsLive(l.y, Binding(b.term, l.y.entries[b.term].abbrev));
    }
    assert forall o :: IsLive(Offered(l.x, b), o) <==> IsLive(l.x, o);
  }

  lemma OfferSender(l: Link, hx: set<Binding>, hy: set<Binding>, b: Binding)
    requires Both(l, hx, hy) && b.term !in l.x.entries && b.abbrev !in l.x.reserved
    ensures Half(Offered(l.x, b), l.y, l.xy + [Offer(b)], l.yx, hx + {b}, hy)
  {
    OfferNames(l, hx, hy, b);
    OfferLive(l.x, l.y, l.yx, hx, hy, b);
    OfferItems(l, hx, hy, b);
    OfferPending(l.x, l.xy, l.yx, hx, b);
  }

  lemma OfferPending(c: Conv, out: seq<Item>, inn: seq<Item>, hc: set<Binding>, b: Binding)
    requires OwnOk(c, hc) && PendingOwn(c, out, inn, hc) && b.term !in c.entries && b.abbrev !in c.reserved
    ensures OwnOk(Offered(c, b), hc + {b}) && PendingOwn(Offered(c, b), out + [Offer(b)], inn, hc + {b})
  {
    InAppended(out, Offer(b));
  }

  lemma OfferReceiver(l: Link, hx: set<Binding>, hy: set<Binding>, b: Binding)
    requires Both(l, hx, hy) && b.term !in l.x.entries && b.abbrev !in l.x.reserved
    ensures Half(l.y, Offered(l.x, b), l.yx, l.xy + [Offer(b)], hy, hx + {b})
  {
    InAppended(l.xy, Offer(b));
    assert forall t :: IsActive(Offered(l.x, b), t) <==> IsActive(l.x, t);
    forall o | Confirmed(l.y, o, hx + {b}) ensures Confirmed(l.y, o, hx) && o.abbrev != b.abbrev {
      NotInMore(hx, b, o.term);
    }
  }

  // -------- handling an item

  /** b becomes live at c, where its term was not. */
  lemma BecomesLive(c: Conv, d: Conv, inn: seq<Item>, hc: set<Binding>, hd: set<Binding>, b: Binding)
    requires LiveKnown(c, d, hc, hd) && TokensLive(c) && !IsActive(c, b.term)
    requires b in hc + hd && b.term in d.entries && b.abbrev in d.reserved
    ensures LiveKnown(Activated(c, b), d, hc, hd) && TokensLive(Activated(c, b))
    ensures forall o :: IsLive(Activated(c, b), o) <==> IsLive(c, o) || o == b
  {
  }

  lemma GetsOffer(l: Link, hx: set<Binding>, hy: set<Binding>)
    requires Both(l, hx, hy) && l.yx != [] && l.yx[0].Offer?
    ensures var b := l.yx[0].b;
      && AcceptOne(l.x, b) == (Activated(l.x, b), b)
      && Half(Activated(l.x, b), l.y, l.xy + [Ack(b)], l.yx[1..], hx, hy)
  {
    var b := l.yx[0].b;
    HeadIsFirst(l.yx);
    assert Offer(b) in l.yx && b in hy && !IsActive(l.x, b.term);
    OrderedAppends(l.xy, Ack(b));
    BecomesLive(l.x, l.y, l.yx, hx, hy, b);
    OfferTaken(l.x, l.xy, l.yx, hx, hy);
    AnswerItems(l, hx, hy, b);
  }

  lemma OfferTaken(c: Conv, out: seq<Item>, inn: seq<Item>, hc: set<Binding>, hd: set<Binding>)
    requires inn != [] && inn[0].Offer? && inn[0].b in hd && !IsActive(c, inn[0].b.term)
    requires OwnOk(c, hc) && TheirsArrive(c, inn, hd) && PendingOwn(c, out, inn, hc) && ConfirmedReads(c, inn, hd)
    ensures var b := inn[0].b;
      var c' := Activated(c, b);
      && OwnOk(c', hc) && TheirsArrive(c', inn[1..], hd) && PendingOwn(c', out + [Ack(b)], inn[1..], hc)
      && ConfirmedReads(c', inn[1..], hd)
  {
    var b := inn[0].b;
    InAppended(out, Ack(b));
    assert inn == [inn[0]] + inn[1..];
    assert forall o :: IsLive(Activated(c, b), o) <==> IsLive(c, o) || o == b;
    Remembered(hd, b);
    assert forall o :: Confirmed(Activated(c, b), o, hd) ==> Confirmed(c, o, hd) && o != b;
    assert Offer(b) in inn;
  }

  lemma AnswerItems(l: Link, hx: set<Binding>, hy: set<Binding>, b: Binding)
    requires ItemsOk(l.x, l.y, l.xy, hx, hy) && b in hy && !IsActive(l.x, b.term)
    ensures ItemsOk(Activated(l.x, b), l.y, l.xy + [Ack(b)], hx, hy)
  {
    InAppended(l.xy, Ack(b));
    assert forall o :: IsLive(Activated(l.x, b), o) <==> IsLive(l.x, o) || o == b;
  }

  lemma OfferGot(l: Link, hx: set<Binding>, hy: set<Binding>)
    requires Both(l, hx, hy) && l.yx != [] && l.yx[0].Offer?
    ensures Half(l.y, Activated(l.x, l.yx[0].b), l.yx[1..], l.xy + [Ack(l.yx[0].b)], hy, hx)
  {
    var b := l.yx[0].b;
    var c', out' := Activated(l.x, b), l.xy + [Ack(b)];
    HeadIsFirst(l.yx);
    assert forall it :: it in out' <==> it in l.xy || it == Ack(b);
    assert forall t :: IsActive(c', t) <==> IsActive(l.x, t) || t == b.term;
  }

  /** An acknowledgement of a pair that is still pending: d has never proposed the term. */
  lemma AckOfPending(l: Link, hx: set<Binding>, hy: set<Binding>)
    requires Both(l, hx, hy) && l.yx != [] && l.yx[0].Ack? && IsProposed(l.x, l.yx[0].b.term)
    ensures var b := l.yx[0].b; b in hx && IsLive(l.y, b) && !InHistory(hy, b.term)
  {
    var b := l.yx[0].b;
    HeadIsFirst(l.yx);
    assert Ack(b) in l.yx;
    forall o | o in hy ensures o.term != b.term {
      assert Offer(o) in l.yx || IsLive(l.x, o);
    }
  }

  lemma GetsAck(l: Link, hx: set<Binding>, hy: set<Binding>)
    requires Both(l, hx, hy) && l.yx != [] && l.yx[0].Ack? && IsProposed(l.x, l.yx[0].b.term)
    ensures Half(Activated(l.x, l.yx[0].b), l.y, l.xy, l.yx[1..], hx, hy)
  {
    var b := l.yx[0].b;
    AckOfPending(l, hx, hy);
    HeadIsFirst(l.yx);
    assert IsLive(l.y, b);
    BecomesLive(l.x, l.y, l.yx, hx, hy, b);
    AckTaken(l.x, l.xy, l.yx, hx, hy);
    AckReads(l.x, l.y, l.yx, hx, hy);
    assert ItemsOk(Activated(l.x, b), l.y, l.xy, hx, hy);
  }

  lemma AckTaken(c: Conv, out: seq<Item>, inn: seq<Item>, hc: set<Binding>, hd: set<Binding>)
    requires inn != [] && inn[0].Ack? && inn[0].b in hc && !IsActive(c, inn[0].b.term)
    requires OwnOk(c, hc) && TheirsArrive(c, inn, hd) && PendingOwn(c, out, inn, hc)
    ensures var c' := Activated(c, inn[0].b);
      OwnOk(c', hc) && TheirsArrive(c', inn[1..], hd) && PendingOwn(c', out, inn[1..], hc)
  {
    assert inn == [inn[0]] + inn[1..];
    assert forall o :: IsLive(c, o) ==> IsLive(Activated(c, inn[0].b), o);
  }

  /** The pair confirmed takes the token; no other pair confirmed here had it. */
  lemma AckReads(c: Conv, d: Conv, inn: seq<Item>, hc: set<Binding>, hd: set<Binding>)
    requires inn != [] && inn[0].Ack? && inn[0].b in hc && !IsActive(c, inn[0].b.term) && Ordered(inn)
    requires OwnOk(c, hc) && LiveKnown(c, d, hc, hd) && ConfirmedReads(c, inn, hd)
    ensures ConfirmedReads(Activated(c, inn[0].b), inn[1..], hd)
  {
    var b := inn[0].b;
    HeadIsFirst(inn);
    forall o | Confirmed(Activated(c, b), o, hd) && o != b ensures Confirmed(c, o, hd) && o.abbrev != b.abbrev {
      assert IsLive(c, o) && o in hc + hd;
      assert o in hd ==> InHistory(hd, o.term);
    }
  }

  lemma AckGot(l: Link, hx: set<Binding>, hy: set<Binding>)
    requires Both(l, hx, hy) && l.yx != [] && l.yx[0].Ack? && IsProposed(l.x, l.yx[0].b.term)
    ensures Half(l.y, Activated(l.x, l.yx[0].b), l.yx[1..], l.xy, hy, hx)
  {
    HeadIsFirst(l.yx);
    AckGotItems(l.y, l.x, l.yx, hy, hx);
  }

  lemma AckGotItems(d: Conv, c: Conv, q: seq<Item>, hd: set<Binding>, hc: set<Binding>)
    requires ItemsOk(d, c, q, hd, hc) && Ordered(q) && q != [] && q[0].Ack?
    ensures ItemsOk(d, Activated(c, q[0].b), q[1..], hd, hc)
  {
    HeadIsFirst(q);
    assert forall t :: IsActive(Activated(c, q[0].b), t) <==> IsActive(c, t) || t == q[0].b.term;
  }

  /** An item that changes nothing here is taken off the queue. */
  lemma Skips(l: Link, hx: set<Binding>, hy: set<Binding>)
    requires Both(l, hx, hy) && l.yx != []
    requires l.yx[0].Say? || (l.yx[0].Ack? && !IsProposed(l.x, l.yx[0].b.term))
    ensures Both(l.(yx := l.yx[1..]), hx, hy)
  {
    HeadIsFirst(l.yx);
    if l.yx[0].Ack? {
      assert forall b: Binding :: IsProposed(l.x, b.term) && Ack(b) in l.yx ==> Ack(b) in l.yx[1..];
    }
  }

  lemma TookKeepsBoth(l: Link, hx: set<Binding>, hy: set<Binding>)
    requires Both(l, hx, hy) && l.yx != []
    ensures Both(Took(l), hx, hy)
  {
    assert l.xy + [] == l.xy;
    if l.yx[0].Offer? {
      GetsOffer(l, hx, hy);
      OfferGot(l, hx, hy);
    } else if l.yx[0].Ack? && IsProposed(l.x, l.yx[0].b.term) {
      GetsAck(l, hx, hy);
      AckGot(l, hx, hy);
    } else {
      NoDropComes(l, hx, hy);
      Skips(l, hx, hy);
    }
  }

  lemma NoDropComes(l: Link, hx: set<Binding>, hy: set<Binding>)
    requires ItemsOk(l.y, l.x, l.yx, hy, hx) && l.yx != []
    ensures !l.yx[0].Drop?
  {
    assert l.yx[0] in l.yx;
  }

  // -------- steps

  lemma {:induction false} OffersKeepBoth(l: Link, bs: seq<Binding>, hx: set<Binding>, hy: set<Binding>)
    requires Both(l, hx, hy) && FreshFor(l.x, bs)
    ensures Both(l.(x := OfferedAll(l.x, bs), xy := l.xy + Offers(bs)), hx + AsSet(bs), hy)
    decreases |bs|
  {
    if bs == [] {
      assert l.xy + Offers(bs) == l.xy && hx + AsSet(bs) == hx;
    } else {
      var pre, b := bs[..|bs| - 1], bs[|bs| - 1];
      FreshPrefix(l.x, bs);
      FreshLast(l.x, bs);
      OffersKeepBoth(l, pre, hx, hy);
      var l1 := l.(x := OfferedAll(l.x, pre), xy := l.xy + Offers(pre));
      OfferSender(l1, hx + AsSet(pre), hy, b);
      OfferReceiver(l1, hx + AsSet(pre), hy, b);
      OffersAppend(l.xy, bs);
      AsSetLast(hx, bs);
    }
  }

  lemma SeenKeepsBoth(l: Link, seen: map<string, nat>, hx: set<Binding>, hy: set<Binding>)
    requires Both(l, hx, hy)
    ensures Both(l.(x := l.x.(seen := seen)), hx, hy)
  {
    var c' := l.x.(seen := seen);
    assert forall b :: IsLive(c', b) <==> IsLive(l.x, b);
    assert forall t :: IsProposed(c', t) <==> IsProposed(l.x, t);
    assert forall t :: IsActive(c', t) <==> IsActive(l.x, t);
    assert forall b :: Confirmed(c', b, hy) <==> Confirmed(l.x, b, hy);
  }

  lemma SayKeepsBoth(l: Link, it: Item, hx: set<Binding>, hy: set<Binding>)
    requires Both(l, hx, hy) && it.Say?
    ensures Both(l.(xy := l.xy + [it]), hx, hy)
  {
    InAppended(l.xy, it);
    OrderedAppends(l.xy, it);
  }

  /** What an event proposes. */
  function ProposedIn(e: Event): set<Binding> {
    if e.Observe? then AsSet(e.proposals) else {}
  }

  lemma ReceiveKeepsBoth(n: Net, n': Net, hx: set<Binding>, hy: set<Binding>)
    requires Both(FlatNet(n), hx, hy) && AnyStep(n, Receive, n')
    ensures Both(FlatNet(n'), hx, hy)
  {
    ReceiveAsItems(n, n');
    var its := Items(n.yx[0]);
    TookAllItems(FlatNet(n), its, Flat(n.yx[1..]));
    forall m: Link | Both(m, hx, hy) && m.yx != [] ensures Both(Took(m), hx, hy) {
      TookKeepsBoth(m, hx, hy);
    }
    TookAllKeeps(m => Both(m, hx, hy), FlatNet(n), |its|);
  }

  lemma ObserveKeepsBoth(n: Net, text: string, bs: seq<Binding>, n': Net, hx: set<Binding>, hy: set<Binding>)
    requires Both(FlatNet(n), hx, hy) && AnyStep(n, Observe(text, bs), n')
    ensures Both(FlatNet(n'), hx + AsSet(bs), hy)
  {
    var l := FlatNet(n);
    ProposalsAreFresh(n.x, text, n'.x, bs);
    SeenKeepsBoth(l, n'.x.seen, hx, hy);
    OffersKeepBoth(l.(x := n.x.(seen := n'.x.seen)), bs, hx, hy);
    FlatAppend(n.xy, Propose(bs));
    assert bs == [] ==> l.xy + Offers(bs) == l.xy;
  }

  lemma SpeakKeepsBoth(n: Net, text: string, act: seq<Binding>, n': Net, hx: set<Binding>, hy: set<Binding>)
    requires Both(FlatNet(n), hx, hy) && AnyStep(n, Speak(text, act), n')
    ensures Both(FlatNet(n'), hx, hy)
  {
    FlatAppend(n.xy, Msg(CompactWith(act, text), text, act));
    SayKeepsBoth(FlatNet(n), Say(CompactWith(act, text), text, act), hx, hy);
  }

  lemma XKeepsBoth(n: Net, e: Event, n': Net, hx: set<Binding>, hy: set<Binding>)
    requires Both(FlatNet(n), hx, hy) && AnyStep(n, e, n') && !e.DropOwn?
    ensures Both(FlatNet(n'), hx + ProposedIn(e), hy)
  {
    assert !e.Observe? ==> hx + ProposedIn(e) == hx;
    match e
    case Observe(text, bs) => ObserveKeepsBoth(n, text, bs, n', hx, hy);
    case Speak(text, act) =>
      SpeakKeepsBoth(n, text, act, n', hx, hy);
    case Receive => ReceiveKeepsBoth(n, n', hx, hy);
  }

  lemma YKeepsBoth(n: Net, e: Event, n': Net, hx: set<Binding>, hy: set<Binding>)
    requires Both(FlatNet(n), hx, hy) && AnyStep(Flip(n), e, Flip(n')) && !e.DropOwn?
    ensures Both(FlatNet(n'), hx, hy + ProposedIn(e))
  {
    BothTurns(FlatNet(n), hx, hy);
    assert Turned(FlatNet(n)) == FlatNet(Flip(n)) && Turned(FlatNet(Flip(n'))) == FlatNet(n');
    XKeepsBoth(Flip(n), e, Flip(n'), hy, hx);
    BothTurns(FlatNet(Flip(n')), hy + ProposedIn(e), hx);
  }

  lemma MoveKeepsBoth(n: Net, m: Move, n': Net, hx: set<Binding>, hy: set<Binding>)
    requires Both(FlatNet(n), hx, hy) && Moves(n, m, n') && !m.e.DropOwn?
    ensures Both(FlatNet(n'), if m.byX then hx + ProposedIn(m.e) else hx, if m.byX then hy else hy + ProposedIn(m.e))
  {
    if m.byX {
      XKeepsBoth(n, m.e, n', hx, hy);
    } else {
      YKeepsBoth(n, m.e, n', hx, hy);
    }
  }

  // -------- runs

  /** What one side has proposed in the first k moves. */
  function ProposedBy(moves: seq<Move>, byX: bool, k: nat): set<Binding>
    requires k <= |moves|
  {
    if k == 0 then {}
    else ProposedBy(moves, byX, k - 1) + if moves[k - 1].byX == byX then ProposedIn(moves[k - 1].e) else {}
  }

  ghost predicate BothAt(n: Net, moves: seq<Move>, k: nat)
    requires k <= |moves|
  {
    Both(FlatNet(n), ProposedBy(moves, true, k), ProposedBy(moves, false, k))
  }

  lemma MoveKeepsBothAt(states: seq<Net>, moves: seq<Move>, k: nat)
    requires IsTrace(states, moves) && DropFree(moves) && k < |moves| && BothAt(states[k], moves, k)
    ensures BothAt(states[k + 1], moves, k + 1)
  {
    var hx, hy := ProposedBy(moves, true, k), ProposedBy(moves, false, k);
    assert hx + {} == hx && hy + {} == hy;
    MoveKeepsBoth(states[k], moves[k], states[k + 1], hx, hy);
  }

  lemma {:induction false} RunKeepsBoth(states: seq<Net>, moves: seq<Move>, k: nat)
    requires IsTrace(states, moves) && DropFree(moves) && k <= |moves|
    ensures BothAt(states[k], moves, k)
  {
    if k == 0 {
      StartIsBoth(states, moves);
    } else {
      RunKeepsBoth(states, moves, k - 1);
      MoveKeepsBothAt(states, moves, k - 1);
    }
  }

  lemma StartIsBoth(states: seq<Net>, moves: seq<Move>)
    requires IsTrace(states, moves)
    ensures BothAt(states[0], moves, 0)
  {
    assert Flat([]) == [];
  }

  lemma {:induction false} ProposedGrows(moves: seq<Move>, byX: bool, i: nat, k: nat)
    requires i <= k <= |moves|
    ensures ProposedBy(moves, byX, i) <= ProposedBy(moves, byX, k)
    decreases k
  {
    if i < k {
      ProposedGrows(moves, byX, i, k - 1);
    }
  }

  // -------- the end of a run

  /**
   * What c holds in the end: everything proposed, all of it live; the peer's abbreviation wherever
   * the peer proposed the term, otherwise its own. A token stands for the pair of its own that was
   * confirmed under it, and without one for the peer's.
   */
  ghost predicate Finished(c: Conv, hc: set<Binding>, hd: set<Binding>) {
    && (forall t :: t in c.entries <==> InHistory(hc, t) || InHistory(hd, t))
    && (forall t :: t in c.entries ==> IsActive(c, t))
    && (forall b :: b in hd ==> IsLive(c, b))
    && (forall b :: b in hc && !InHistory(hd, b.term) ==> IsLive(c, b) && Stands(c, b))
    && (forall b :: b in hd && !OwnConfirmed(b.abbrev, hc, hd) ==> Stands(c, b))
    && (forall a :: a in c.reverse ==> exists b :: b in hc + hd && b.abbrev == a && IsLive(c, b))
  }

  predicate Stands(c: Conv, b: Binding) {
    b.abbrev in c.reverse && c.reverse[b.abbrev] == b.term
  }

  ghost predicate OwnConfirmed(a: string, hc: set<Binding>, hd: set<Binding>) {
    exists b :: b in hc && b.abbrev == a && !InHistory(hd, b.term)
  }

  lemma Finishes(c: Conv, d: Conv, hc: set<Binding>, hd: set<Binding>)
    requires Half(c, d, [], [], hc, hd) && OneToOne(hd)
    ensures Finished(c, hc, hd)
  {
    forall t | t in c.entries ensures IsActive(c, t) && (InHistory(hc, t) || InHistory(hd, t)) {
      var b := Binding(t, c.entries[t].abbrev);
      assert IsProposed(c, t) ==> b in hc && Offer(b) in [];
      assert IsLive(c, b) && b in hc + hd;
    }
    forall b | b in hc && !InHistory(hd, b.term) ensures IsLive(c, b) && Stands(c, b) {
      OwnIsLive(c, d, hc, hd, b);
      assert Confirmed(c, b, hd);
    }
    forall b | b in hd && !OwnConfirmed(b.abbrev, hc, hd) ensures Stands(c, b) {
      TheirsStands(c, d, hc, hd, b);
    }
    forall a | a in c.reverse ensures exists b :: b in hc + hd && b.abbrev == a && IsLive(c, b) {
      assert IsLive(c, Binding(c.reverse[a], a));
    }
  }

  lemma OwnIsLive(c: Conv, d: Conv, hc: set<Binding>, hd: set<Binding>, b: Binding)
    requires Half(c, d, [], [], hc, hd) && b in hc && !InHistory(hd, b.term) && IsActive(c, b.term)
    ensures IsLive(c, b)
  {
    var o := Binding(b.term, c.entries[b.term].abbrev);
    assert IsLive(c, o) && o in hc + hd;
    assert o in hd ==> InHistory(hd, o.term);
  }

  lemma TheirsStands(c: Conv, d: Conv, hc: set<Binding>, hd: set<Binding>, b: Binding)
    requires Half(c, d, [], [], hc, hd) && OneToOne(hd) && b in hd && !OwnConfirmed(b.abbrev, hc, hd)
    ensures Stands(c, b)
  {
    assert IsLive(c, b);
    var o := Binding(c.reverse[b.abbrev], b.abbrev);
    assert IsLive(c, o) && o in hc + hd;
    if o !in hd {
      assert InHistory(hd, o.term);
      var p :| p in hd && p.term == o.term;
      assert IsLive(c, p);
    }
  }

  /** In every run without drops, with nothing in flight, each side holds what the proposals say. */
  lemma FinalGlossaries(states: seq<Net>, moves: seq<Move>)
    requires IsTrace(states, moves) && DropFree(moves) && Quiet(states[|moves|])
    ensures var n, hx, hy := states[|moves|], ProposedBy(moves, true, |moves|), ProposedBy(moves, false, |moves|);
      Finished(n.x, hx, hy) && Finished(n.y, hy, hx) && OneToOne(hx) && OneToOne(hy)
  {
    var n, hx, hy := states[|moves|], ProposedBy(moves, true, |moves|), ProposedBy(moves, false, |moves|);
    RunKeepsBoth(states, moves, |moves|);
    Finishes(n.x, n.y, hx, hy);
    Finishes(n.y, n.x, hy, hx);
  }

  // -------- clashes

  /** Two proposals share just a term or just an abbreviation. */
  predicate Clash(p: Binding, o: Binding) {
    (p.term == o.term || p.abbrev == o.abbrev) && p != o
  }

  /** One term under two abbreviations: each side ends with the other's, and they differ for good. */
  lemma TermClashSplits(states: seq<Net>, moves: seq<Move>, p: Binding, o: Binding)
    requires IsTrace(states, moves) && DropFree(moves) && Quiet(states[|moves|])
    requires p in ProposedBy(moves, true, |moves|) && o in ProposedBy(moves, false, |moves|)
    requires p.term == o.term && p.abbrev != o.abbrev
    ensures var n := states[|moves|]; IsLive(n.x, o) && IsLive(n.y, p) && n.x.entries != n.y.entries
  {
    FinalGlossaries(states, moves);
  }

  /** One abbreviation under two terms that do not clash themselves: each side reads it as its own term. */
  lemma AbbrevClashSplits(states: seq<Net>, moves: seq<Move>, p: Binding, o: Binding)
    requires IsTrace(states, moves) && DropFree(moves) && Quiet(states[|moves|])
    requires p in ProposedBy(moves, true, |moves|) && o in ProposedBy(moves, false, |moves|)
    requires p.abbrev == o.abbrev && p.term != o.term
    requires !InHistory(ProposedBy(moves, false, |moves|), p.term)
    requires !InHistory(ProposedBy(moves, true, |moves|), o.term)
    ensures var n := states[|moves|];
      IsLive(n.x, o) && IsLive(n.y, p) && Stands(n.x, p) && Stands(n.y, o)
  {
    FinalGlossaries(states, moves);
  }

  /** If some term clashes as well, that is enough. */
  lemma ClashSplits(states: seq<Net>, moves: seq<Move>, p: Binding, o: Binding)
    requires IsTrace(states, moves) && DropFree(moves) && Quiet(states[|moves|])
    requires p in ProposedBy(moves, true, |moves|) && o in ProposedBy(moves, false, |moves|) && Clash(p, o)
    ensures !Agree(states[|moves|])
  {
    var n, hx, hy := states[|moves|], ProposedBy(moves, true, |moves|), ProposedBy(moves, false, |moves|);
    FinalGlossaries(states, moves);
    if p.term == o.term {
      TermClashSplits(states, moves, p, o);
    } else if InHistory(hy, p.term) {
      var q :| q in hy && q.term == p.term;
      TermClashSplits(states, moves, p, q);
    } else if InHistory(hx, o.term) {
      var q :| q in hx && q.term == o.term;
      TermClashSplits(states, moves, q, o);
    } else {
      AbbrevClashSplits(states, moves, p, o);
    }
  }

  /** What clashes at a step are proposals of both sides. */
  lemma ClashIsBetween(states: seq<Net>, moves: seq<Move>, i: nat) returns (p: Binding, o: Binding)
    requires IsTrace(states, moves) && DropFree(moves) && i < |moves| && Clashes(states[i], moves[i])
    ensures p in ProposedBy(moves, true, |moves|) && o in ProposedBy(moves, false, |moves|) && Clash(p, o)
  {
    var m := moves[i];
    RunKeepsBoth(states, moves, i);
    var b, c := ClashAtStep(states[i], m, ProposedBy(moves, true, i), ProposedBy(moves, false, i));
    ProposedGrows(moves, m.byX, i + 1, |moves|);
    ProposedGrows(moves, !m.byX, i, |moves|);
    assert b in ProposedBy(moves, m.byX, i + 1);
    p, o := if m.byX then b else c, if m.byX then c else b;
  }

  lemma ClashAtStep(n: Net, m: Move, hx: set<Binding>, hy: set<Binding>) returns (b: Binding, c: Binding)
    requires Both(FlatNet(n), hx, hy) && Clashes(n, m)
    ensures b in ProposedIn(m.e) && c in (if m.byX then hy else hx) && Clash(b, c)
  {
    ComingIsTheirs(n, m.byX, hx, hy);
    b, c := ClashIn(m.e.proposals, Flat(From(n, m.byX).yx));
  }

  lemma ComingIsTheirs(n: Net, byX: bool, hx: set<Binding>, hy: set<Binding>)
    requires Both(FlatNet(n), hx, hy)
    ensures forall c :: Offer(c) in Flat(From(n, byX).yx) ==> c in if byX then hy else hx
  {
    assert ItemsOk(n.x, n.y, Flat(n.xy), hx, hy) && ItemsOk(n.y, n.x, Flat(n.yx), hy, hx);
  }

  lemma ClashIn(bs: seq<Binding>, incoming: seq<Item>) returns (b: Binding, c: Binding)
    requires !NoClash(bs, incoming)
    ensures b in bs && Offer(c) in incoming && Clash(b, c)
  {
    b, c :| b in bs && Offer(c) in incoming && Clash(b, c);
  }

  /**
   * In a run without drops, with any proposals crossing in any way, once nothing is in flight the
   * two glossaries agree if and only if no proposal ever clashed with one on its way to the proposer.
   */
  lemma ClashDecides(states: seq<Net>, moves: seq<Move>)
    requires IsTrace(states, moves) && DropFree(moves) && Quiet(states[|moves|])
    ensures Agree(states[|moves|]) <==> ClashFree(states, moves)
  {
    if ClashFree(states, moves) {
      ClashFreeIsRun(states, moves);
      GlossSessions.QuietAgreement(NoDrop, states, |moves|);
    } else {
      var i: nat :| i < |moves| && Clashes(states[i], moves[i]);
      var p, o := ClashIsBetween(states, moves, i);
      ClashSplits(states, moves, p, o);
    }
  }
}
