/**
 * Runs with their moves written out, and nets with their frames taken apart into single items:
 * receiving a frame is handling its items one after the other.
 */
module GlossTraces {
  import opened Text
  import opened GlossText
  import opened GlossConv
  import opened GlossProtocol

  /** A step of x or of y. */
  datatype Move = Move(byX: bool, e: Event)

  /** The net from the mover's side. */
  function From(n: Net, byX: bool): Net {
    if byX then n else Flip(n)
  }

  ghost predicate Moves(n: Net, m: Move, n': Net) {
    AnyStep(From(n, m.byX), m.e, From(n', m.byX))
  }

  /** Any run at all: proposals may clash, and anything may be dropped at any time. */
  ghost predicate IsTrace(states: seq<Net>, moves: seq<Move>) {
    && |states| == |moves| + 1 && states[0] == START
    && forall i :: 0 <= i < |moves| ==> Moves(states[i], moves[i], states[i + 1])
  }

  /** Something proposed shares just a term or just an abbreviation with a proposal on its way here. */
  ghost predicate Clashes(n: Net, m: Move) {
    m.e.Observe? && !NoClash(m.e.proposals, Flat(From(n, m.byX).yx))
  }

  ghost predicate ClashFree(states: seq<Net>, moves: seq<Move>)
    requires |states| == |moves| + 1
  {
    forall i :: 0 <= i < |moves| ==> !Clashes(states[i], moves[i])
  }

  predicate DropFree(moves: seq<Move>) {
    forall i :: 0 <= i < |moves| ==> !moves[i].e.DropOwn?
  }

  predicate Quiet(n: Net) {
    n.xy == [] && n.yx == []
  }

  predicate Agree(n: Net) {
    n.x.entries == n.y.entries && n.x.reverse == n.y.reverse
  }

  /** Without clashes a trace is a run. */
  lemma ClashFreeIsRun(states: seq<Net>, moves: seq<Move>)
    requires IsTrace(states, moves) && ClashFree(states, moves)
    ensures IsRun(AnyDrop, states) && (DropFree(moves) ==> IsRun(NoDrop, states))
  {
    forall i | 0 <= i < |states| - 1
      ensures Next(AnyDrop, states[i], states[i + 1]) && (DropFree(moves) ==> Next(NoDrop, states[i], states[i + 1]))
    {
      MoveIsStep(states[i], moves[i], states[i + 1]);
    }
  }

  lemma MoveIsStep(n: Net, m: Move, n': Net)
    requires Moves(n, m, n') && !Clashes(n, m)
    ensures Step(From(n, m.byX), m.e, From(n', m.byX))
    ensures Next(AnyDrop, n, n') && (!m.e.DropOwn? ==> Next(NoDrop, n, n'))
  {
    assert Takes(AnyDrop, From(n, m.byX), m.e, From(n', m.byX));
    if !m.e.DropOwn? {
      assert Takes(NoDrop, From(n, m.byX), m.e, From(n', m.byX));
    }
  }

  // -------- single items

  /** A net with its frames taken apart into items. */
  datatype Link = Link(x: Conv, y: Conv, xy: seq<Item>, yx: seq<Item>, h: set<Binding>)

  function FlatNet(n: Net): Link {
    Link(n.x, n.y, Flat(n.xy), Flat(n.yx), n.hist)
  }

  function Turned(l: Link): Link {
    Link(l.y, l.x, l.yx, l.xy, l.h)
  }

  ghost predicate LinkOk(l: Link) {
    Inv(l.x, l.y, l.xy, l.yx, l.h)
  }

  // -------- one item at a time

  function HandleItem(c: Conv, it: Item): (Conv, seq<Item>) {
    match it
    case Offer(b) => (AcceptOne(c, b).0, [Ack(AcceptOne(c, b).1)])
    case Ack(b) => (ConfirmOne(c, b), [])
    case Drop(a) => (DeactivateOne(c, a), [])
    case Say(_, _, _) => (c, [])
  }

  function HandleItems(c: Conv, its: seq<Item>): (Conv, seq<Item>)
    decreases |its|
  {
    if its == [] then (c, [])
    else
      var (c1, r1) := HandleItem(c, its[0]);
      var (c2, r2) := HandleItems(c1, its[1..]);
      (c2, r1 + r2)
  }

  /** x handles the head of its queue. */
  function Took(l: Link): Link
    requires l.yx != []
  {
    var (x', reply) := HandleItem(l.x, l.yx[0]);
    l.(x := x', xy := l.xy + reply, yx := l.yx[1..])
  }

  lemma {:induction false} OffersAsItems(c: Conv, bs: seq<Binding>)
    ensures HandleItems(c, Offers(bs)) == (Accept(c, bs).0, Acks(Accept(c, bs).1))
    decreases |bs|
  {
    if bs == [] {
      assert Offers(bs) == [] && Acks([]) == [];
    } else {
      OffersAsItems(AcceptOne(c, bs[0]).0, bs[1..]);
      assert Offers(bs)[1..] == Offers(bs[1..]);
      var ack, acks := AcceptOne(c, bs[0]).1, Accept(AcceptOne(c, bs[0]).0, bs[1..]).1;
      assert Acks([ack] + acks) == [Ack(ack)] + Acks(acks);
    }
  }

  lemma {:induction false} AcksAsItems(c: Conv, bs: seq<Binding>)
    ensures HandleItems(c, Acks(bs)) == (Confirm(c, bs), [])
    decreases |bs|
  {
    if bs == [] {
      assert Acks(bs) == [];
    } else {
      AcksAsItems(ConfirmOne(c, bs[0]), bs[1..]);
      assert Acks(bs)[1..] == Acks(bs[1..]) && Acks(bs)[0] == Ack(bs[0]);
      assert HandleItem(c, Acks(bs)[0]).1 + HandleItems(ConfirmOne(c, bs[0]), Acks(bs[1..])).1 == [];
    }
  }

  lemma {:induction false} DropsAsItems(c: Conv, abbrevs: seq<string>)
    ensures HandleItems(c, Drops(abbrevs)) == (Deactivate(c, abbrevs), [])
    decreases |abbrevs|
  {
    if abbrevs == [] {
      assert Drops(abbrevs) == [];
    } else {
      DropsAsItems(DeactivateOne(c, abbrevs[0]), abbrevs[1..]);
      assert Drops(abbrevs)[1..] == Drops(abbrevs[1..]) && Drops(abbrevs)[0] == Drop(abbrevs[0]);
      var c1 := DeactivateOne(c, abbrevs[0]);
      assert HandleItem(c, Drops(abbrevs)[0]).1 + HandleItems(c1, Drops(abbrevs[1..])).1 == [];
    }
  }

  /** Receiving a frame is handling its items. */
  lemma ReceiveAsItems(n: Net, n': Net)
    requires AnyStep(n, Receive, n')
    ensures var (x', reply) := HandleItems(n.x, Items(n.yx[0]));
      && Flat(n.yx) == Items(n.yx[0]) + Flat(n.yx[1..])
      && FlatNet(n') == Link(x', n.y, Flat(n.xy) + reply, Flat(n.yx[1..]), n.hist)
  {
    match n.yx[0]
    case Propose(bs) =>
      OffersAsItems(n.x, bs);
      FlatAppend(n.xy, AckFrame(Accept(n.x, bs).1));
    case AckFrame(bs) =>
      AcksAsItems(n.x, bs);
      assert Flat(n.xy) + [] == Flat(n.xy);
    case DropFrame(abbrevs) =>
      DropsAsItems(n.x, abbrevs);
      assert Flat(n.xy) + [] == Flat(n.xy);
    case Msg(body, text, used) =>
      assert [Say(body, text, used)][1..] == [];
      assert Flat(n.xy) + [] == Flat(n.xy);
  }

  /** x handles the first k items of its queue. */
  function TookAll(l: Link, k: nat): Link
    requires k <= |l.yx|
    decreases k
  {
    if k == 0 then l else TookAll(Took(l), k - 1)
  }

  lemma {:induction false} TookAllItems(l: Link, its: seq<Item>, rest: seq<Item>)
    requires l.yx == its + rest
    ensures var (x', reply) := HandleItems(l.x, its); TookAll(l, |its|) == Link(x', l.y, l.xy + reply, rest, l.h)
    decreases |its|
  {
    if its == [] {
      assert [] + rest == rest && l.xy + [] == l.xy;
    } else {
      var (c1, r1) := HandleItem(l.x, its[0]);
      assert l.yx[0] == its[0] && l.yx[1..] == its[1..] + rest;
      TookAllItems(Took(l), its[1..], rest);
      var r2 := HandleItems(c1, its[1..]).1;
      assert (l.xy + r1) + r2 == l.xy + (r1 + r2);
    }
  }

  /** What one item keeps, any number of items keep. */
  lemma {:induction false} TookAllKeeps(p: Link -> bool, l: Link, k: nat)
    requires p(l) && k <= |l.yx| && forall m: Link :: p(m) && m.yx != [] ==> p(Took(m))
    ensures p(TookAll(l, k))
    decreases k
  {
    if k > 0 {
      TookAllKeeps(p, Took(l), k - 1);
    }
  }
}
