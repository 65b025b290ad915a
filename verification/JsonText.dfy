/**
 * Strings as sequences of UTF-16 code units, their order, and their JSON form: escaping as
 * JSON.stringify does it, and the inverse (section 7 of RFC 8259).
 */
module JsonText {
  import opened Basics

  type Unit = x: int | 0 <= x < 0x1_0000

  type Str = seq<Unit>

  const QUOTE: Unit := 0x22
  const BACKSLASH: Unit := 0x5C
  const SLASH: Unit := 0x2F
  const LOWER_U: Unit := 0x75

  // -------- order of keys: by code unit, as the default sort compares strings

  predicate Less(a: Str, b: Str)
    decreases |a|
  {
    if b == [] then false
    else if a == [] then true
    else a[0] < b[0] || (a[0] == b[0] && Less(a[1..], b[1..]))
  }

  lemma {:induction false} LessTotal(a: Str, b: Str)
    ensures Less(a, b) || a == b || Less(b, a)
    ensures !(Less(a, b) && Less(b, a)) && !Less(a, a)
    decreases |a|
  {
    if a != [] {
      LessTotal(a[1..], a[1..]);
      if b != [] {
        LessTotal(a[1..], b[1..]);
        assert a[0] == b[0] && a[1..] == b[1..] ==> a == [a[0]] + a[1..] == b;
      }
    }
  }

  lemma {:induction false} LessTransitive(a: Str, b: Str, c: Str)
    requires Less(a, b) && Less(b, c)
    ensures Less(a, c)
    decreases |a|
  {
    if a != [] && a[0] == b[0] == c[0] {
      LessTransitive(a[1..], b[1..], c[1..]);
    }
  }

  /** At the first place where they differ a has the smaller unit, or a ends there. */
  predicate FirstSmaller(a: Str, b: Str, k: nat) {
    k <= |a| && k < |b| && a[..k] == b[..k] && (k == |a| || a[k] < b[k])
  }

  /** One key comes before another when it is a proper prefix or has the smaller unit where they first differ. */
  lemma {:induction false} LessExactly(a: Str, b: Str)
    ensures Less(a, b) <==> exists k :: 0 <= k <= |a| && FirstSmaller(a, b, k)
    decreases |a|
  {
    if b != [] {
      if a == [] || a[0] < b[0] {
        assert FirstSmaller(a, b, 0);
      } else if a[0] == b[0] {
        LessExactly(a[1..], b[1..]);
        FirstSmallerShifts(a, b);
      } else {
        FirstSmallerHead(a, b);
      }
    }
  }

  lemma FirstSmallerHead(a: Str, b: Str)
    requires a != [] && b != []
    ensures forall k :: 0 < k <= |a| && FirstSmaller(a, b, k) ==> a[0] == b[0]
  {
    forall k | 0 < k <= |a| && FirstSmaller(a, b, k) ensures a[0] == b[0] {
      assert a[..k][0] == b[..k][0];
    }
  }

  lemma FirstSmallerShifts(a: Str, b: Str)
    requires a != [] && b != [] && a[0] == b[0]
    ensures forall k :: 0 <= k <= |a[1..]| && FirstSmaller(a[1..], b[1..], k) ==> FirstSmaller(a, b, k + 1)
    ensures forall k :: 0 <= k <= |a| && FirstSmaller(a, b, k) ==> k > 0 && FirstSmaller(a[1..], b[1..], k - 1)
  {
    forall k | 0 <= k <= |a[1..]| && FirstSmaller(a[1..], b[1..], k) ensures FirstSmaller(a, b, k + 1) {
      assert a[..k + 1] == [a[0]] + a[1..][..k] && b[..k + 1] == [b[0]] + b[1..][..k];
    }
    forall k | 0 <= k <= |a| && FirstSmaller(a, b, k) ensures k > 0 && FirstSmaller(a[1..], b[1..], k - 1) {
      assert a[1..][..k - 1] == a[..k][1..] && b[1..][..k - 1] == b[..k][1..];
    }
  }

  // -------- escapes

  function HexDigit(d: int): (u: Unit)
    requires 0 <= d < 16
    ensures HexValue(u) == Some(d)
  {
    if d < 10 then 0x30 + d else 0x61 + d - 10
  }

  function HexValue(u: Unit): (d: Option<int>)
    ensures d.Some? ==> 0 <= d.value < 16
  {
    if 0x30 <= u <= 0x39 then Some(u - 0x30)
    else if 0x61 <= u <= 0x66 then Some(u - 0x61 + 10)
    else if 0x41 <= u <= 0x46 then Some(u - 0x41 + 10)
    else None
  }

  /** The letter of a two-character escape and what it stands for. */
  function ShortEscape(u: Unit): Option<Unit> {
    if u == 0x08 then Some(0x62)
    else if u == 0x09 then Some(0x74)
    else if u == 0x0A then Some(0x6E)
    else if u == 0x0C then Some(0x66)
    else if u == 0x0D then Some(0x72)
    else if u == QUOTE then Some(QUOTE)
    else if u == BACKSLASH then Some(BACKSLASH)
    else None
  }

  function ShortUnescape(letter: Unit): Option<Unit> {
    if letter == 0x62 then Some(0x08)
    else if letter == 0x74 then Some(0x09)
    else if letter == 0x6E then Some(0x0A)
    else if letter == 0x66 then Some(0x0C)
    else if letter == 0x72 then Some(0x0D)
    else if letter == QUOTE || letter == BACKSLASH || letter == SLASH then Some(letter)
    else None
  }

  predicate HighSurrogate(u: Unit) {
    0xD800 <= u < 0xDC00
  }

  predicate LowSurrogate(u: Unit) {
    0xDC00 <= u < 0xE000
  }

  function HexEscape(u: Unit): Str {
    [BACKSLASH, LOWER_U, HexDigit(u / 4096), HexDigit(u / 256 % 16), HexDigit(u / 16 % 16), HexDigit(u % 16)]
  }

  /** One code unit that is not part of a surrogate pair. */
  function EscapeUnit(u: Unit): Str {
    if ShortEscape(u).Some? then [BACKSLASH, ShortEscape(u).value]
    else if u < 0x20 || HighSurrogate(u) || LowSurrogate(u) then HexEscape(u)
    else [u]
  }

  function Escape(s: Str): Str {
    if s == [] then []
    else if |s| > 1 && HighSurrogate(s[0]) && LowSurrogate(s[1]) then s[..2] + Escape(s[2..])
    else EscapeUnit(s[0]) + Escape(s[1..])
  }

  function Quoted(s: Str): Str {
    [QUOTE] + Escape(s) + [QUOTE]
  }

  /** A lower-case hex digit of value d. */
  predicate LowerHex(u: Unit, d: int) {
    (0 <= d < 10 && u == 0x30 + d) || (10 <= d < 16 && u == 0x57 + d)
  }

  /** The six units of a hex escape, most significant digit first. */
  predicate HexForm(t: Str, u: Unit) {
    && |t| == 6 && t[0] == 0x5C && t[1] == 0x75
    && LowerHex(t[2], u / 4096) && LowerHex(t[3], u / 256 % 16)
    && LowerHex(t[4], u / 16 % 16) && LowerHex(t[5], u % 16)
  }

  /**
   * What a unit outside a surrogate pair is written as: two units for the seven with a letter of
   * their own, six for other control characters and lone surrogates, and itself for all others.
   */
  lemma EscapeForms(u: Unit)
    ensures var t := EscapeUnit(u);
      if u == 0x08 then t == [0x5C, 0x62]
      else if u == 0x09 then t == [0x5C, 0x74]
      else if u == 0x0A then t == [0x5C, 0x6E]
      else if u == 0x0C then t == [0x5C, 0x66]
      else if u == 0x0D then t == [0x5C, 0x72]
      else if u == 0x22 then t == [0x5C, 0x22]
      else if u == 0x5C then t == [0x5C, 0x5C]
      else if u < 0x20 || 0xD800 <= u <= 0xDFFF then HexForm(t, u)
      else t == [u]
  {
    DigitsOf(u);
  }

  /** A pair is written as it is, and every other unit by itself, in order. */
  lemma {:induction false} EscapeJoins(s: Str, t: Str)
    requires s == [] || t == [] || !(HighSurrogate(s[|s| - 1]) && LowSurrogate(t[0]))
    ensures Escape(s + t) == Escape(s) + Escape(t)
    decreases |s|
  {
    if s == [] {
      assert s + t == t;
    } else if StartsPair(s) {
      EscapeJoins(s[2..], t);
      PairFirst(s, t);
      Assoc(s[..2], Escape(s[2..]), Escape(t));
    } else {
      EscapeJoins(s[1..], t);
      UnitFirst(s, t);
      Assoc(EscapeUnit(s[0]), Escape(s[1..]), Escape(t));
    }
  }

  predicate StartsPair(s: Str) {
    |s| > 1 && HighSurrogate(s[0]) && LowSurrogate(s[1])
  }

  lemma PairFirst(s: Str, t: Str)
    requires StartsPair(s)
    ensures Escape(s) == s[..2] + Escape(s[2..]) && Escape(s + t) == s[..2] + Escape(s[2..] + t)
  {
    assert (s + t)[2..] == s[2..] + t && (s + t)[..2] == s[..2];
  }

  lemma UnitFirst(s: Str, t: Str)
    requires s != [] && !StartsPair(s) && (t == [] || !(HighSurrogate(s[|s| - 1]) && LowSurrogate(t[0])))
    ensures Escape(s) == EscapeUnit(s[0]) + Escape(s[1..]) && Escape(s + t) == EscapeUnit(s[0]) + Escape(s[1..] + t)
  {
    EscapeHead(s, s[0], s[1..]);
    StillNoPair(s, t);
    EscapeHead(s + t, s[0], s[1..] + t);
  }

  lemma StillNoPair(s: Str, t: Str)
    requires s != [] && !StartsPair(s) && (t == [] || !(HighSurrogate(s[|s| - 1]) && LowSurrogate(t[0])))
    ensures !StartsPair(s + t) && s + t == [s[0]] + (s[1..] + t)
  {
    if |s| == 1 {
      assert t != [] ==> (s + t)[1] == t[0];
    }
  }

  lemma EscapeHead(s: Str, first: Unit, rest: Str)
    requires !StartsPair(s) && s == [first] + rest
    ensures Escape(s) == EscapeUnit(first) + Escape(rest)
  {
    assert s[1..] == rest;
  }

  lemma EscapePair(h: Unit, l: Unit)
    requires HighSurrogate(h) && LowSurrogate(l)
    ensures Escape([h, l]) == [h, l]
  {
    assert [h, l][2..] == [] && [h, l][..2] == [h, l];
  }

  // -------- the inverse

  /** The first code unit of an escaped string, and what follows it. */
  function ReadUnit(s: Str): (r: Option<(Unit, Str)>)
    ensures r.Some? ==> |r.value.1| < |s|
  {
    if s == [] || s[0] == QUOTE || s[0] < 0x20 then None
    else if s[0] != BACKSLASH then Some((s[0], s[1..]))
    else if |s| < 2 then None
    else if s[1] == LOWER_U then
      if |s| < 6 then None
      else
        match (HexValue(s[2]), HexValue(s[3]), HexValue(s[4]), HexValue(s[5]))
        case (Some(a), Some(b), Some(c), Some(d)) => Some((a * 4096 + b * 256 + c * 16 + d, s[6..]))
        case _ => None
    else
      match ShortUnescape(s[1])
      case Some(u) => Some((u, s[2..]))
      case None => None
  }

  /** Characters up to the closing quote, which is consumed. */
  function ReadChars(s: Str): (r: Option<(Str, Str)>)
    ensures r.Some? ==> |r.value.1| < |s|
    decreases |s|
  {
    if s != [] && s[0] == QUOTE then Some(([], s[1..]))
    else
      match ReadUnit(s)
      case None => None
      case Some((u, rest)) =>
        match ReadChars(rest)
        case None => None
        case Some((us, end)) => Some(([u] + us, end))
  }

  function ReadString(s: Str): (r: Option<(Str, Str)>)
    ensures r.Some? ==> |r.value.1| < |s|
  {
    if s != [] && s[0] == QUOTE then ReadChars(s[1..]) else None
  }

  lemma DigitRoundTrip(d: int)
    requires 0 <= d < 16
    ensures HexValue(HexDigit(d)) == Some(d)
  {
  }

  lemma ReadDigits(a: int, b: int, c: int, d: int, rest: Str)
    requires 0 <= a < 16 && 0 <= b < 16 && 0 <= c < 16 && 0 <= d < 16
    ensures ReadUnit([BACKSLASH, LOWER_U, HexDigit(a), HexDigit(b), HexDigit(c), HexDigit(d)] + rest)
         == Some((a * 4096 + b * 256 + c * 16 + d, rest))
  {
    var s := [BACKSLASH, LOWER_U, HexDigit(a), HexDigit(b), HexDigit(c), HexDigit(d)] + rest;
    DigitRoundTrip(a);
    DigitRoundTrip(b);
    DigitRoundTrip(c);
    DigitRoundTrip(d);
    assert s[2] == HexDigit(a) && s[3] == HexDigit(b) && s[4] == HexDigit(c) && s[5] == HexDigit(d);
    assert s[6..] == rest;
  }

  /** The four digits of a code unit, most significant first. */
  lemma DigitsOf(u: Unit)
    ensures u == u / 4096 * 4096 + u / 256 % 16 * 256 + u / 16 % 16 * 16 + u % 16 && 0 <= u / 4096 < 16
  {
    var q, r := u / 16, u / 256;
    assert q == q / 16 * 16 + q % 16 && q / 16 == r;
    assert r == r / 16 * 16 + r % 16 && r / 16 == u / 4096;
  }

  lemma ReadShort(u: Unit, rest: Str)
    requires ShortEscape(u).Some?
    ensures ReadUnit([BACKSLASH, ShortEscape(u).value] + rest) == Some((u, rest))
  {
    var s := [BACKSLASH, ShortEscape(u).value] + rest;
    assert s[0] == BACKSLASH && s[1] == ShortEscape(u).value && s[2..] == rest;
  }

  lemma UnitRoundTrip(u: Unit, rest: Str)
    ensures ReadUnit(EscapeUnit(u) + rest) == Some((u, rest))
  {
    if ShortEscape(u).Some? {
      ReadShort(u, rest);
    } else if u < 0x20 || HighSurrogate(u) || LowSurrogate(u) {
      DigitsOf(u);
      ReadDigits(u / 4096, u / 256 % 16, u / 16 % 16, u % 16, rest);
    } else {
      assert ([u] + rest)[1..] == rest;
    }
  }

  lemma EscapeIsNotQuote(u: Unit, rest: Str)
    ensures (EscapeUnit(u) + rest)[0] != QUOTE
  {
  }

  lemma ReadOneMore(t: Str, u: Unit, tail: Str, us: Str, end: Str)
    requires t != [] && t[0] != QUOTE && ReadUnit(t) == Some((u, tail)) && ReadChars(tail) == Some((us, end))
    ensures ReadChars(t) == Some(([u] + us, end))
  {
  }

  /** A surrogate pair is written raw and read unit by unit. */
  lemma ReadPair(h: Unit, l: Unit, tail: Str, us: Str, end: Str)
    requires HighSurrogate(h) && LowSurrogate(l) && ReadChars(tail) == Some((us, end))
    ensures ReadChars([h, l] + tail) == Some(([h, l] + us, end))
  {
    var inner := [l] + tail;
    assert inner[1..] == tail && ([h] + inner)[1..] == inner && [h] + inner == [h, l] + tail;
    ReadOneMore(inner, l, tail, us, end);
    ReadOneMore([h] + inner, h, inner, [l] + us, end);
    assert [h] + ([l] + us) == [h, l] + us;
  }

  lemma {:induction false} CharsRoundTrip(s: Str, rest: Str)
    ensures ReadChars(Escape(s) + ([QUOTE] + rest)) == Some((s, rest))
  {
    var q := [QUOTE] + rest;
    if s == [] {
      assert Escape(s) + q == q && q[1..] == rest;
    } else if |s| > 1 && HighSurrogate(s[0]) && LowSurrogate(s[1]) {
      CharsRoundTrip(s[2..], rest);
      ReadPair(s[0], s[1], Escape(s[2..]) + q, s[2..], rest);
      assert s == [s[0], s[1]] + s[2..] && s[..2] == [s[0], s[1]];
      Assoc(s[..2], Escape(s[2..]), q);
    } else {
      CharsRoundTrip(s[1..], rest);
      var tail := Escape(s[1..]) + q;
      Assoc(EscapeUnit(s[0]), Escape(s[1..]), q);
      UnitRoundTrip(s[0], tail);
      EscapeIsNotQuote(s[0], tail);
      ReadOneMore(EscapeUnit(s[0]) + tail, s[0], tail, s[1..], rest);
      assert [s[0]] + s[1..] == s;
    }
  }

  lemma StringRoundTrip(s: Str, rest: Str)
    ensures ReadString(Quoted(s) + rest) == Some((s, rest))
    ensures (Quoted(s) + rest)[0] == QUOTE
  {
    CharsRoundTrip(s, rest);
    assert (Quoted(s) + rest)[1..] == Escape(s) + ([QUOTE] + rest);
  }
}
