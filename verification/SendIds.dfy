/**
 * Duplicate suppression of send frames: per sender, a ring of the ids of the last accepted
 * sends. The ring is proved to hold exactly those, and the accept path to keep equal ids more
 * than a ring apart while rejected sends leave no trace.
 */
module SendIds {

  const SEND_ID_CAP := 4096

  /** The newest cap elements of the log. */
  function Newest(log: seq<string>): seq<string> {
    if |log| > SEND_ID_CAP then log[|log| - SEND_ID_CAP..] else log
  }

  /**
   * ring holds the newest log entries: in order until it is full, then rotated so that next is
   * the oldest.
   */
  ghost predicate IsRing(ring: seq<string>, next: nat, log: seq<string>) {
    && |ring| == |Newest(log)| && next < SEND_ID_CAP
    && (|log| <= SEND_ID_CAP ==> next == 0)
    && forall j :: 0 <= j < |ring| ==> ring[j] == Newest(log)[Age(next, j, |ring|)]
  }

  /** The rank by age, oldest first, of slot j. */
  function Age(next: nat, j: nat, size: nat): nat
    requires j < size && next < SEND_ID_CAP && (size < SEND_ID_CAP ==> next == 0) && size <= SEND_ID_CAP
    ensures Age(next, j, size) < size
  {
    if j >= next then j - next else j + SEND_ID_CAP - next
  }

  lemma AppendToRing(ring: seq<string>, log: seq<string>, id: string)
    requires IsRing(ring, 0, log) && |ring| < SEND_ID_CAP
    ensures IsRing(ring + [id], 0, log + [id])
  {
    assert |log| < SEND_ID_CAP;
  }

  lemma OverwriteOldest(ring: seq<string>, next: nat, log: seq<string>, id: string)
    requires IsRing(ring, next, log) && |ring| == SEND_ID_CAP
    ensures IsRing(ring[next := id], (next + 1) % SEND_ID_CAP, log + [id])
  {
    var r, n, more := ring[next := id], (next + 1) % SEND_ID_CAP, log + [id];
    forall j | 0 <= j < |r| ensures r[j] == Newest(more)[Age(n, j, |r|)] {
      if j != next {
        assert Age(next, j, |r|) >= 1 && Age(n, j, |r|) == Age(next, j, |r|) - 1;
      } else {
        assert Age(n, j, |r|) == SEND_ID_CAP - 1;
      }
    }
  }

  lemma RingHoldsNewest(ring: seq<string>, next: nat, log: seq<string>, id: string)
    requires IsRing(ring, next, log)
    ensures id in ring <==> id in Newest(log)
  {
    if id in Newest(log) {
      var a :| 0 <= a < |ring| && Newest(log)[a] == id;
      var j := if a + next < SEND_ID_CAP then a + next else a + next - SEND_ID_CAP;
      assert Age(next, j, |ring|) == a;
    }
  }

  /** Equal entries are more than a ring apart. */
  ghost predicate FarApart(log: seq<string>) {
    forall i, j :: 0 <= i < j < |log| && log[i] == log[j] ==> j - i > 4096
  }

  lemma RecentIsNewest(log: seq<string>, i: nat)
    requires i < |log| <= i + SEND_ID_CAP
    ensures log[i] in Newest(log)
  {
    assert log[i] == Newest(log)[|Newest(log)| - (|log| - i)];
  }

  lemma StaysFarApart(log: seq<string>, id: string)
    requires FarApart(log) && id !in Newest(log)
    ensures FarApart(log + [id])
  {
    var more := log + [id];
    forall i, j | 0 <= i < j < |more| && more[i] == more[j] ensures j - i > SEND_ID_CAP {
      if j == |log| && j - i <= SEND_ID_CAP {
        RecentIsNewest(log, i);
      }
    }
  }

  datatype Send = Send(to: string, channel: string, id: string, sigOk: bool, inWindow: bool)

  datatype Verdict = BadSignature | StaleTs | NoId | Replayed | NotRouted | Accepted

  /** The dedupe key of a send frame. */
  function Key(f: Send): string {
    f.to + "|" + f.channel + "|" + f.id
  }

  class SendIdCache {
    var ids: map<string, seq<string>>
    var next: map<string, nat>
    // all accepted keys of each sender, oldest first
    ghost var log: map<string, seq<string>>

    ghost function LogOf(pub: string): seq<string>
      reads this
    {
      if pub in log then log[pub] else []
    }

    function RingOf(pub: string): seq<string>
      reads this
    {
      if pub in ids then ids[pub] else []
    }

    function NextOf(pub: string): nat
      reads this
    {
      if pub in next then next[pub] else 0
    }

    /** Every sender's ring holds exactly its newest accepted keys. */
    ghost predicate Valid()
      reads this
    {
      forall pub :: IsRing(RingOf(pub), NextOf(pub), LogOf(pub))
    }

    /** No sender has had two equal keys accepted within one ring's length of each other. */
    ghost predicate NoNearRepeats()
      reads this
    {
      forall pub :: FarApart(LogOf(pub))
    }

    constructor ()
      ensures Valid() && NoNearRepeats() && log == map[]
    {
      ids, next, log := map[], map[], map[];
    }

    /** Whether the key is among the last accepted ones; changes nothing. */
    method Seen(pub: string, key: string) returns (found: bool)
      requires Valid()
      ensures found <==> key in Newest(LogOf(pub))
    {
      var ring := RingOf(pub);
      var i := 0;
      found := false;
      while i < |ring| && !found
        invariant 0 <= i <= |ring|
        invariant found <==> key in ring[..i]
      {
        found := ring[i] == key;
        i := i + 1;
      }
      assert found <==> key in ring by {
        assert !found ==> ring[..i] == ring;
      }
      RingHoldsNewest(ring, NextOf(pub), LogOf(pub), key);
    }

    /** Latches a key, over the oldest one once the ring is full. */
    method Add(pub: string, key: string)
      requires Valid()
      modifies this
      ensures Valid() && log == old(log)[pub := old(LogOf(pub)) + [key]]
    {
      var ring := RingOf(pub);
      ghost var was := LogOf(pub);
      if |ring| < SEND_ID_CAP {
        AppendToRing(ring, was, key);
        ids := ids[pub := ring + [key]];
      } else {
        var n := NextOf(pub);
        OverwriteOldest(ring, n, was, key);
        ids := ids[pub := ring[n := key]];
        next := next[pub := (n + 1) % SEND_ID_CAP];
      }
      log := log[pub := was + [key]];
      assert forall p :: p != pub ==>
        RingOf(p) == old(RingOf(p)) && NextOf(p) == old(NextOf(p)) && LogOf(p) == old(LogOf(p));
    }

    /**
     * The accept path of one send; routed is what delivery answers. The key is latched only
     * after everything else has succeeded.
     */
    method HandleSend(pub: string, f: Send, routed: bool) returns (v: Verdict)
      requires Valid() && NoNearRepeats()
      modifies this
      ensures Valid() && NoNearRepeats()
      ensures v == Accepted <==> f.sigOk && f.inWindow && f.id != "" && Key(f) !in Newest(old(LogOf(pub))) && routed
      ensures v == BadSignature <==> !f.sigOk
      ensures v == StaleTs <==> f.sigOk && !f.inWindow
      ensures v == NoId <==> f.sigOk && f.inWindow && f.id == ""
      ensures v == NotRouted <==>
        f.sigOk && f.inWindow && f.id != "" && Key(f) !in Newest(old(LogOf(pub))) && !routed
      ensures v == Replayed <==> f.sigOk && f.inWindow && f.id != "" && Key(f) in Newest(old(LogOf(pub)))
      ensures v == Accepted ==> log == old(log)[pub := old(LogOf(pub)) + [Key(f)]]
      ensures v != Accepted ==> log == old(log) && ids == old(ids) && next == old(next)
    {
      if !f.sigOk {
        return BadSignature;
      }
      if !f.inWindow {
        return StaleTs;
      }
      if f.id == "" {
        return NoId;
      }
      var key := Key(f);
      var seen := Seen(pub, key);
      if seen {
        return Replayed;
      }
      if !routed {
        return NotRouted;
      }
      ghost var was := LogOf(pub);
      StaysFarApart(was, key);
      Add(pub, key);
      assert forall p :: p != pub ==> LogOf(p) == old(LogOf(p));
      return Accepted;
    }
  }

  // -------- the key

  predicate SameParts(f: Send, g: Send) {
    f.to == g.to && f.channel == g.channel && f.id == g.id
  }

  /** Without '|' in the recipient and the channel, the key determines all three parts. */
  lemma KeyInjective(f: Send, g: Send)
    requires '|' !in f.to && '|' !in g.to && '|' !in f.channel && '|' !in g.channel
    requires Key(f) == Key(g)
    ensures SameParts(f, g)
  {
    Nested(f);
    Nested(g);
    SplitAtBar(f.to, f.channel + "|" + f.id, g.to, g.channel + "|" + g.id);
    SplitAtBar(f.channel, f.id, g.channel, g.id);
  }

  lemma Nested(f: Send)
    ensures Key(f) == f.to + "|" + (f.channel + "|" + f.id)
  {
  }

  lemma SplitAtBar(a: string, rest: string, b: string, other: string)
    requires '|' !in a && '|' !in b && a + "|" + rest == b + "|" + other
    ensures a == b && rest == other
  {
    var s := a + "|" + rest;
    assert s[|a|] == '|' && s[|b|] == '|';
    assert forall i :: 0 <= i < |a| ==> s[i] == a[i];
    assert forall i :: 0 <= i < |b| ==> s[i] == b[i];
    assert s[..|a|] == a && s[..|b|] == b && s[|a| + 1..] == rest && s[|b| + 1..] == other;
  }

  function Bars(s: string): (n: nat)
    ensures n == 0 <==> '|' !in s
  {
    if s == "" then 0 else (if s[0] == '|' then 1 else 0) + Bars(s[1..])
  }

  lemma {:induction false} BarsConcat(a: string, b: string)
    ensures Bars(a + b) == Bars(a) + Bars(b)
  {
    if a == "" {
      assert a + b == b;
    } else {
      assert (a + b)[1..] == a[1..] + b;
      BarsConcat(a[1..], b);
    }
  }

  lemma BarsOfKey(f: Send)
    ensures Bars(Key(f)) == Bars(f.to) + Bars(f.channel) + Bars(f.id) + 2
  {
    Nested(f);
    assert Bars("|") == 1 by {
      assert "|"[1..] == "";
    }
    BarsConcat(f.to + "|", f.channel + "|" + f.id);
    BarsConcat(f.to, "|");
    BarsConcat(f.channel + "|", f.id);
    BarsConcat(f.channel, "|");
  }

  /** s up to its first bar, and what follows the bar. */
  lemma CutAtBar(s: string) returns (p: string, q: string)
    requires '|' in s
    ensures s == p + "|" + q
  {
    var i :| 0 <= i < |s| && s[i] == '|';
    p, q := s[..i], s[i + 1..];
  }

  /** A bar in the channel: two sends of one agent to two channels share a key. */
  lemma ChannelCollides(to: string, x: string, y: string, id: string)
    ensures Key(Send(to, x + "|" + y, id, true, true)) == Key(Send(to, x, y + "|" + id, true, true))
    ensures !SameParts(Send(to, x + "|" + y, id, true, true), Send(to, x, y + "|" + id, true, true))
  {
    assert to + "|" + (x + "|" + y) + "|" + id == to + "|" + x + "|" + (y + "|" + id);
    assert |x + "|" + y| > |x|;
  }

  lemma RecipientCollides(x: string, y: string, channel: string, id: string)
    ensures Key(Send(x + "|" + y, channel, id, true, true)) == Key(Send(x, y + "|" + channel, id, true, true))
    ensures !SameParts(Send(x + "|" + y, channel, id, true, true), Send(x, y + "|" + channel, id, true, true))
  {
    assert x + "|" + y + "|" + channel + "|" + id == x + "|" + (y + "|" + channel) + "|" + id;
    assert |x + "|" + y| > |x|;
  }

  ghost predicate Shared(f: Send) {
    exists g: Send :: Key(g) == Key(f) && !SameParts(f, g)
  }

  /** Another send has the same key exactly when one of the three parts holds a bar. */
  lemma KeySharedExactly(f: Send)
    ensures Shared(f) <==> '|' in f.to || '|' in f.channel || '|' in f.id
  {
    if '|' in f.to {
      var p, q := CutAtBar(f.to);
      RecipientCollides(p, q, f.channel, f.id);
      assert Key(Send(p, q + "|" + f.channel, f.id, true, true)) == Key(f);
    } else if '|' in f.channel {
      var p, q := CutAtBar(f.channel);
      ChannelCollides(f.to, p, q, f.id);
      assert Key(Send(f.to, p, q + "|" + f.id, true, true)) == Key(f);
    } else if '|' in f.id {
      var p, q := CutAtBar(f.id);
      ChannelCollides(f.to, f.channel, p, q);
      assert Key(Send(f.to, f.channel + "|" + p, q, true, true)) == Key(f);
      assert !SameParts(f, Send(f.to, f.channel + "|" + p, q, true, true));
    } else {
      forall g: Send | Key(g) == Key(f) ensures SameParts(f, g) {
        BarsOfKey(f);
        BarsOfKey(g);
        KeyInjective(f, g);
      }
    }
  }
}
