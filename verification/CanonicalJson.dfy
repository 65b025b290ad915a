/**
 * The canonical form that frames are signed in: a recursive printer that drops undefined and
 * `sig` members at every depth and sorts keys. Proved: two values have one canonical form
 * exactly when they agree up to those omissions and key order, a parser recovers the value,
 * and the form survives the trip over the wire.
 */
module CanonicalJson {
  import opened Basics
  import opened JsonText

  const COMMA: Unit := 0x2C
  const COLON: Unit := 0x3A
  const LBRACKET: Unit := 0x5B
  const RBRACKET: Unit := 0x5D
  const LBRACE: Unit := 0x7B
  const RBRACE: Unit := 0x7D
  const MINUS: Unit := 0x2D
  const NULL_TEXT: Str := [0x6E, 0x75, 0x6C, 0x6C]
  const TRUE_TEXT: Str := [0x74, 0x72, 0x75, 0x65]
  const FALSE_TEXT: Str := [0x66, 0x61, 0x6C, 0x73, 0x65]
  const SIG: Str := [0x73, 0x69, 0x67]

  datatype Keyed<T> = Keyed(key: Str, val: T)

  /**
   * A JavaScript value as a frame may hold it. A finite number is given by the text it prints
   * as; NonFinite stands for NaN and the infinities. Members are in insertion order.
   */
  datatype Value =
    | Undefined
    | Null
    | Bool(b: bool)
    | Num(text: Str)
    | NonFinite
    | String(s: Str)
    | Arr(items: seq<Value>)
    | Obj(fields: seq<Keyed<Value>>)

  predicate NumChar(u: Unit) {
    0x30 <= u <= 0x39 || u == MINUS || u == 0x2B || u == 0x2E || u == 0x65 || u == 0x45
  }

  predicate NumStart(u: Unit) {
    0x30 <= u <= 0x39 || u == MINUS
  }

  predicate NumText(t: Str) {
    t != [] && NumStart(t[0]) && forall u :: u in t ==> NumChar(u)
  }

  predicate DistinctKeys<T>(fs: seq<Keyed<T>>) {
    forall i, j :: 0 <= i < j < |fs| ==> fs[i].key != fs[j].key
  }

  /** Objects have no two members of one key; numbers print as numbers. */
  predicate WellFormed(v: Value) {
    match v
    case Num(t) => NumText(t)
    case Arr(items) => forall i :: 0 <= i < |items| ==> WellFormed(items[i])
    case Obj(fs) => DistinctKeys(fs) && forall i :: 0 <= i < |fs| ==> WellFormed(fs[i].val)
    case _ => true
  }

  // -------- sorting by key

  function Insert<T>(m: Keyed<T>, ms: seq<Keyed<T>>): seq<Keyed<T>> {
    if ms == [] || !Less(ms[0].key, m.key) then [m] + ms else [ms[0]] + Insert(m, ms[1..])
  }

  function Sort<T>(ms: seq<Keyed<T>>): seq<Keyed<T>> {
    if ms == [] then [] else Insert(ms[0], Sort(ms[1..]))
  }

  // -------- the printer

  function Join(ts: seq<Str>): Str {
    if ts == [] then []
    else if |ts| == 1 then ts[0]
    else ts[0] + ([COMMA] + Join(ts[1..]))
  }

  function MemberTexts(ms: seq<Keyed<Str>>): seq<Str> {
    if ms == [] then [] else [Quoted(ms[0].key) + ([COLON] + ms[0].val)] + MemberTexts(ms[1..])
  }

  predicate Live(f: Keyed<Value>) {
    f.key != SIG && f.val != Undefined
  }

  function Canon(v: Value): Str
    decreases v, 1
  {
    match v
    case Undefined => NULL_TEXT
    case Null => NULL_TEXT
    case Bool(b) => if b then TRUE_TEXT else FALSE_TEXT
    case Num(t) => t
    case NonFinite => NULL_TEXT
    case String(s) => Quoted(s)
    case Arr(items) => [LBRACKET] + (Join(CanonItems(items)) + [RBRACKET])
    case Obj(fs) => [LBRACE] + (Join(MemberTexts(Sort(CanonMembers(fs)))) + [RBRACE])
  }

  function CanonItems(items: seq<Value>): seq<Str>
    decreases items, 0
  {
    if items == [] then [] else [Canon(items[0])] + CanonItems(items[1..])
  }

  /** The members that count, with the canonical text of their values. */
  function CanonMembers(fs: seq<Keyed<Value>>): seq<Keyed<Str>>
    decreases fs, 0
  {
    if fs == [] then []
    else (if Live(fs[0]) then [Keyed(fs[0].key, Canon(fs[0].val))] else []) + CanonMembers(fs[1..])
  }

  // -------- what the printer may not distinguish

  predicate NullLike(v: Value) {
    v.Undefined? || v.Null? || v.NonFinite?
  }

  /** v and w agree once undefined and sig members are dropped and missing array items are null. */
  predicate Same(v: Value, w: Value)
    decreases v
  {
    match v
    case Bool(_) => v == w
    case Num(_) => v == w
    case String(_) => v == w
    case Arr(a) => w.Arr? && |a| == |w.items| && forall i :: 0 <= i < |a| ==> Same(a[i], w.items[i])
    case Obj(f) => w.Obj? && Into(f, w.fields) && Onto(f, w.fields)
    case _ => NullLike(w)
  }

  /** Member j of g counts, and agrees with f. */
  predicate MemberSame(f: Keyed<Value>, g: seq<Keyed<Value>>, j: nat)
    decreases f
  {
    j < |g| && Live(g[j]) && g[j].key == f.key && Same(f.val, g[j].val)
  }

  predicate Into(f: seq<Keyed<Value>>, g: seq<Keyed<Value>>)
    decreases f
  {
    forall i :: 0 <= i < |f| && Live(f[i]) ==> exists j :: 0 <= j < |g| && MemberSame(f[i], g, j)
  }

  predicate Onto(f: seq<Keyed<Value>>, g: seq<Keyed<Value>>)
    decreases f
  {
    forall j :: 0 <= j < |g| && Live(g[j]) ==> exists i :: 0 <= i < |f| && Live(f[i]) && MemberSame(f[i], g, j)
  }

  // -------- values as they come off the wire

  /** No undefined, no non-finite numbers. */
  predicate Clean(v: Value) {
    match v
    case Undefined => false
    case NonFinite => false
    case Num(t) => NumText(t)
    case Arr(items) => forall i :: 0 <= i < |items| ==> Clean(items[i])
    case Obj(fs) => forall i :: 0 <= i < |fs| ==> Clean(fs[i].val)
    case _ => true
  }

  /** Plain printing, members in their order. */
  function Print(v: Value): Str
    decreases v, 1
  {
    match v
    case Bool(b) => if b then TRUE_TEXT else FALSE_TEXT
    case Num(t) => t
    case String(s) => Quoted(s)
    case Arr(items) => [LBRACKET] + (Join(PrintItems(items)) + [RBRACKET])
    case Obj(fs) => [LBRACE] + (Join(MemberTexts(PrintMembers(fs))) + [RBRACE])
    case _ => NULL_TEXT
  }

  function PrintItems(items: seq<Value>): seq<Str>
    decreases items, 0
  {
    if items == [] then [] else [Print(items[0])] + PrintItems(items[1..])
  }

  function PrintMembers(fs: seq<Keyed<Value>>): seq<Keyed<Str>>
    decreases fs, 0
  {
    if fs == [] then [] else [Keyed(fs[0].key, Print(fs[0].val))] + PrintMembers(fs[1..])
  }

  // -------- the parser

  function NumRun(s: Str): (t: Str)
    ensures t <= s
  {
    if s != [] && NumChar(s[0]) then [s[0]] + NumRun(s[1..]) else []
  }

  function ReadValue(s: Str): (r: Option<(Value, Str)>)
    ensures r.Some? ==> |r.value.1| < |s|
    decreases |s|, 1
  {
    if s == [] then None
    else if s[0] == QUOTE then
      match ReadString(s)
      case Some((t, rest)) => Some((String(t), rest))
      case None => None
    else if s[0] == LBRACKET then
      if |s| > 1 && s[1] == RBRACKET then Some((Arr([]), s[2..]))
      else
        match ReadItems(s[1..])
        case Some((items, rest)) => Some((Arr(items), rest))
        case None => None
    else if s[0] == LBRACE then
      if |s| > 1 && s[1] == RBRACE then Some((Obj([]), s[2..]))
      else
        match ReadMembers(s[1..])
        case Some((fs, rest)) => Some((Obj(fs), rest))
        case None => None
    else if NULL_TEXT <= s then Some((Null, s[4..]))
    else if TRUE_TEXT <= s then Some((Bool(true), s[4..]))
    else if FALSE_TEXT <= s then Some((Bool(false), s[5..]))
    else if NumStart(s[0]) then Some((Num(NumRun(s)), s[|NumRun(s)|..]))
    else None
  }

  /** At least one item, up to the closing bracket. */
  function ReadItems(s: Str): (r: Option<(seq<Value>, Str)>)
    ensures r.Some? ==> |r.value.1| < |s|
    decreases |s|, 2
  {
    match ReadValue(s)
    case None => None
    case Some((v, rest)) =>
      if rest != [] && rest[0] == RBRACKET then Some(([v], rest[1..]))
      else if rest != [] && rest[0] == COMMA then
        match ReadItems(rest[1..])
        case Some((vs, end)) => Some(([v] + vs, end))
        case None => None
      else None
  }

  function ReadMember(s: Str): (r: Option<(Keyed<Value>, Str)>)
    ensures r.Some? ==> |r.value.1| < |s|
    decreases |s|, 2
  {
    match ReadString(s)
    case None => None
    case Some((key, rest)) =>
      if rest == [] || rest[0] != COLON then None
      else
        match ReadValue(rest[1..])
        case Some((v, end)) => Some((Keyed(key, v), end))
        case None => None
  }

  function ReadMembers(s: Str): (r: Option<(seq<Keyed<Value>>, Str)>)
    ensures r.Some? ==> |r.value.1| < |s|
    decreases |s|, 3
  {
    match ReadMember(s)
    case None => None
    case Some((f, rest)) =>
      if rest != [] && rest[0] == RBRACE then Some(([f], rest[1..]))
      else if rest != [] && rest[0] == COMMA then
        match ReadMembers(rest[1..])
        case Some((fs, end)) => Some(([f] + fs, end))
        case None => None
      else None
  }

  // -------- the parser undoes the printer

  /** What may follow a number without becoming part of it. */
  predicate NumEnd(rest: Str) {
    rest == [] || !NumChar(rest[0])
  }

  lemma {:induction false} NumRunOf(t: Str, rest: Str)
    requires (forall u :: u in t ==> NumChar(u)) && NumEnd(rest)
    ensures NumRun(t + rest) == t
  {
    if t == [] {
      assert t + rest == rest;
    } else {
      assert (t + rest)[1..] == t[1..] + rest;
      NumRunOf(t[1..], rest);
    }
  }

  /** No printed value begins with a closing bracket or brace. */
  lemma PrintStarts(v: Value)
    requires Clean(v)
    ensures Print(v) != [] && Print(v)[0] != RBRACKET && Print(v)[0] != RBRACE
  {
  }

  lemma {:induction false} ReadPrinted(v: Value, rest: Str)
    requires Clean(v) && NumEnd(rest)
    ensures ReadValue(Print(v) + rest) == Some((v, rest))
    decreases v, 1
  {
    var s := Print(v) + rest;
    match v
    case Null =>
      assert s[4..] == rest;
    case Bool(b) =>
      assert s[|Print(v)|..] == rest;
    case Num(t) =>
      assert s[0] == t[0];
      NumRunOf(t, rest);
      assert s[|t|..] == rest;
    case String(t) =>
      StringRoundTrip(t, rest);
    case Arr(items) =>
      var inner := Join(PrintItems(items)) + ([RBRACKET] + rest);
      Assoc([LBRACKET], Join(PrintItems(items)) + [RBRACKET], rest);
      Assoc(Join(PrintItems(items)), [RBRACKET], rest);
      assert s == [LBRACKET] + inner && s[1..] == inner;
      if items == [] {
        assert inner == [RBRACKET] + rest && s[2..] == rest;
      } else {
        ReadPrintedItems(items, rest);
      }
    case Obj(fs) =>
      var inner := Join(MemberTexts(PrintMembers(fs))) + ([RBRACE] + rest);
      Assoc([LBRACE], Join(MemberTexts(PrintMembers(fs))) + [RBRACE], rest);
      Assoc(Join(MemberTexts(PrintMembers(fs))), [RBRACE], rest);
      assert s == [LBRACE] + inner && s[1..] == inner;
      if fs == [] {
        assert inner == [RBRACE] + rest && s[2..] == rest;
      } else {
        ReadPrintedMembers(fs, rest);
      }
  }

  lemma CommaThen(first: Str, inner: Str, close: Str)
    ensures (first + ([COMMA] + inner)) + close == first + ([COMMA] + (inner + close))
    ensures ([COMMA] + (inner + close))[1..] == inner + close
  {
    Assoc(first, [COMMA] + inner, close);
    Assoc([COMMA], inner, close);
  }

  lemma {:induction false} ReadPrintedItems(items: seq<Value>, rest: Str)
    requires items != [] && forall i :: 0 <= i < |items| ==> Clean(items[i])
    ensures var s := Join(PrintItems(items)) + ([RBRACKET] + rest);
      s[0] != RBRACKET && ReadItems(s) == Some((items, rest))
    decreases items, 0
  {
    var close := [RBRACKET] + rest;
    PrintStarts(items[0]);
    if |items| == 1 {
      assert items == [items[0]] && items[1..] == [];
      ReadPrinted(items[0], close);
      assert close[1..] == rest;
    } else {
      var more := Join(PrintItems(items[1..])) + close;
      ReadPrintedItems(items[1..], rest);
      ReadPrinted(items[0], [COMMA] + more);
      assert PrintItems(items)[1..] == PrintItems(items[1..]);
      CommaThen(Print(items[0]), Join(PrintItems(items[1..])), close);
      assert [items[0]] + items[1..] == items;
    }
  }

  lemma {:induction false} ReadPrintedMember(f: Keyed<Value>, rest: Str)
    requires Clean(f.val) && NumEnd(rest)
    ensures var s := Quoted(f.key) + ([COLON] + Print(f.val)) + rest;
      s[0] == QUOTE && ReadMember(s) == Some((f, rest))
    decreases f, 0
  {
    var tail := [COLON] + (Print(f.val) + rest);
    Assoc(Quoted(f.key), [COLON] + Print(f.val), rest);
    Assoc([COLON], Print(f.val), rest);
    StringRoundTrip(f.key, tail);
    assert tail[1..] == Print(f.val) + rest;
    ReadPrinted(f.val, rest);
  }

  lemma {:induction false} ReadPrintedMembers(fs: seq<Keyed<Value>>, rest: Str)
    requires fs != [] && forall i :: 0 <= i < |fs| ==> Clean(fs[i].val)
    ensures var s := Join(MemberTexts(PrintMembers(fs))) + ([RBRACE] + rest);
      s[0] != RBRACE && ReadMembers(s) == Some((fs, rest))
    decreases fs, 0
  {
    var close := [RBRACE] + rest;
    var texts := MemberTexts(PrintMembers(fs));
    var first := Quoted(fs[0].key) + ([COLON] + Print(fs[0].val));
    assert texts == [first] + MemberTexts(PrintMembers(fs[1..]));
    if |fs| == 1 {
      assert fs == [fs[0]] && fs[1..] == [];
      ReadPrintedMember(fs[0], close);
      assert close[1..] == rest;
    } else {
      var inner := Join(MemberTexts(PrintMembers(fs[1..])));
      ReadPrintedMembers(fs[1..], rest);
      ReadPrintedMember(fs[0], [COMMA] + (inner + close));
      assert texts[1..] == MemberTexts(PrintMembers(fs[1..]));
      CommaThen(first, inner, close);
      assert [fs[0]] + fs[1..] == fs;
    }
  }

  // -------- the canonical form is the plain printing of a stripped, sorted value

  function Strip(v: Value): Value
    decreases v, 1
  {
    match v
    case Arr(items) => Arr(StripItems(items))
    case Obj(fs) => Obj(Sort(StripMembers(fs)))
    case _ => if NullLike(v) then Null else v
  }

  function StripItems(items: seq<Value>): (r: seq<Value>)
    ensures |r| == |items|
    ensures forall i :: 0 <= i < |items| ==> r[i] == Strip(items[i])
    decreases items, 0
  {
    if items == [] then [] else [Strip(items[0])] + StripItems(items[1..])
  }

  function StripMembers(fs: seq<Keyed<Value>>): seq<Keyed<Value>>
    decreases fs, 0
  {
    if fs == [] then []
    else (if Live(fs[0]) then [Keyed(fs[0].key, Strip(fs[0].val))] else []) + StripMembers(fs[1..])
  }

  lemma {:induction false} PrintInsert(m: Keyed<Value>, ms: seq<Keyed<Value>>)
    ensures PrintMembers(Insert(m, ms)) == Insert(Keyed(m.key, Print(m.val)), PrintMembers(ms))
  {
    if ms == [] || !Less(ms[0].key, m.key) {
      assert ([m] + ms)[1..] == ms;
    } else {
      PrintInsert(m, ms[1..]);
      assert ([ms[0]] + Insert(m, ms[1..]))[1..] == Insert(m, ms[1..]);
    }
  }

  lemma {:induction false} PrintSort(ms: seq<Keyed<Value>>)
    ensures PrintMembers(Sort(ms)) == Sort(PrintMembers(ms))
  {
    if ms != [] {
      PrintSort(ms[1..]);
      PrintInsert(ms[0], Sort(ms[1..]));
    }
  }

  lemma {:induction false} CanonPrintsStrip(v: Value)
    ensures Canon(v) == Print(Strip(v))
    decreases v, 1
  {
    match v
    case Arr(items) => CanonPrintsItems(items);
    case Obj(fs) =>
      CanonPrintsMembers(fs);
      PrintSort(StripMembers(fs));
    case _ =>
  }

  lemma {:induction false} CanonPrintsItems(items: seq<Value>)
    ensures CanonItems(items) == PrintItems(StripItems(items))
    decreases items, 0
  {
    if items != [] {
      CanonPrintsStrip(items[0]);
      CanonPrintsItems(items[1..]);
      assert StripItems(items)[1..] == StripItems(items[1..]);
    }
  }

  lemma {:induction false} CanonPrintsMembers(fs: seq<Keyed<Value>>)
    ensures CanonMembers(fs) == PrintMembers(StripMembers(fs))
    decreases fs, 0
  {
    if fs != [] {
      CanonPrintsStrip(fs[0].val);
      CanonPrintsMembers(fs[1..]);
      if Live(fs[0]) {
        assert StripMembers(fs)[1..] == StripMembers(fs[1..]);
      } else {
        assert StripMembers(fs) == StripMembers(fs[1..]) && CanonMembers(fs) == CanonMembers(fs[1..]);
      }
    }
  }

  // -------- members of a stripped object

  /** x is the stripped form of the live member i. */
  predicate StripsFrom(fs: seq<Keyed<Value>>, i: nat, x: Keyed<Value>) {
    i < |fs| && Live(fs[i]) && x == Keyed(fs[i].key, Strip(fs[i].val))
  }

  lemma {:induction false} InStripMembers(fs: seq<Keyed<Value>>, x: Keyed<Value>)
    ensures x in StripMembers(fs) <==> exists i: nat :: StripsFrom(fs, i, x)
    decreases |fs|
  {
    if fs != [] {
      InStripMembers(fs[1..], x);
      if i: nat :| StripsFrom(fs, i, x) {
        if i > 0 {
          assert StripsFrom(fs[1..], i - 1, x);
        }
      }
      if i: nat :| StripsFrom(fs[1..], i, x) {
        assert StripsFrom(fs, i + 1, x);
      }
      if Live(fs[0]) && x == Keyed(fs[0].key, Strip(fs[0].val)) {
        assert StripsFrom(fs, 0, x);
      }
    }
  }

  predicate Increasing<T>(ms: seq<Keyed<T>>) {
    forall i, j :: 0 <= i < j < |ms| ==> Less(ms[i].key, ms[j].key)
  }

  lemma {:induction false} InInsert<T>(m: Keyed<T>, ms: seq<Keyed<T>>, x: Keyed<T>)
    ensures x in Insert(m, ms) <==> x == m || x in ms
  {
    if !(ms == [] || !Less(ms[0].key, m.key)) {
      InInsert(m, ms[1..], x);
    }
  }

  lemma {:induction false} InSort<T>(ms: seq<Keyed<T>>, x: Keyed<T>)
    ensures x in Sort(ms) <==> x in ms
  {
    if ms != [] {
      InSort(ms[1..], x);
      InInsert(ms[0], Sort(ms[1..]), x);
    }
  }

  lemma {:induction false} InsertIncreasing<T>(m: Keyed<T>, ms: seq<Keyed<T>>)
    requires Increasing(ms) && forall x :: x in ms ==> x.key != m.key
    ensures Increasing(Insert(m, ms))
  {
    if ms == [] {
    } else if !Less(ms[0].key, m.key) {
      forall i | 0 <= i < |ms| ensures Less(m.key, ms[i].key) {
        assert ms[0] in ms;
        LessTotal(m.key, ms[0].key);
        if i > 0 {
          LessTransitive(m.key, ms[0].key, ms[i].key);
        }
      }
    } else {
      InsertIncreasing(m, ms[1..]);
      var rest := Insert(m, ms[1..]);
      forall i | 0 <= i < |rest| ensures Less(ms[0].key, rest[i].key) {
        InInsert(m, ms[1..], rest[i]);
      }
    }
  }

  lemma {:induction false} SortIncreasing<T>(ms: seq<Keyed<T>>)
    requires DistinctKeys(ms)
    ensures Increasing(Sort(ms))
  {
    if ms != [] {
      SortIncreasing(ms[1..]);
      forall x | x in Sort(ms[1..]) ensures x.key != ms[0].key {
        InSort(ms[1..], x);
      }
      InsertIncreasing(ms[0], Sort(ms[1..]));
    }
  }

  lemma NoneMissing<T>(a: seq<T>, b: seq<T>)
    requires a != [] && forall x :: x in a ==> x in b
    ensures b != []
  {
    assert a[0] in b;
  }

  /** An increasing list is determined by its elements. */
  lemma {:induction false} IncreasingUnique<T>(a: seq<Keyed<T>>, b: seq<Keyed<T>>)
    requires Increasing(a) && Increasing(b) && forall x :: x in a <==> x in b
    ensures a == b
    decreases |a|
  {
    if a != [] {
      NoneMissing(a, b);
    }
    if b != [] {
      NoneMissing(b, a);
      assert a[0] in b && b[0] in a;
      LessTotal(a[0].key, b[0].key);
      assert a[0] == b[0];
      LessTotal(a[0].key, a[0].key);
      assert a[0] !in a[1..] && b[0] !in b[1..];
      forall x ensures x in a[1..] <==> x in b[1..] {
        assert x in a <==> x == a[0] || x in a[1..];
        assert x in b <==> x == b[0] || x in b[1..];
      }
      IncreasingUnique(a[1..], b[1..]);
      assert a == [a[0]] + a[1..] && b == [b[0]] + b[1..];
    }
  }

  lemma {:induction false} StripKeysDistinct(fs: seq<Keyed<Value>>)
    requires DistinctKeys(fs)
    ensures DistinctKeys(StripMembers(fs))
    decreases |fs|
  {
    if fs != [] {
      StripKeysDistinct(fs[1..]);
      forall x | x in StripMembers(fs[1..]) ensures x.key != fs[0].key {
        InStripMembers(fs[1..], x);
        var i: nat :| StripsFrom(fs[1..], i, x);
        assert fs[1..][i] == fs[i + 1];
      }
    }
  }

  lemma {:induction false} StripIsClean(v: Value)
    requires WellFormed(v)
    ensures Clean(Strip(v))
    decreases v
  {
    match v
    case Arr(items) =>
      forall i | 0 <= i < |items| ensures Clean(Strip(items[i])) {
        StripIsClean(items[i]);
      }
    case Obj(fs) =>
      var ms := Sort(StripMembers(fs));
      forall k | 0 <= k < |ms| ensures Clean(ms[k].val) {
        InSort(StripMembers(fs), ms[k]);
        InStripMembers(fs, ms[k]);
        var i: nat :| StripsFrom(fs, i, ms[k]);
        StripIsClean(fs[i].val);
      }
    case _ =>
  }

  // -------- the two forms of sameness coincide

  lemma {:induction false} SameIffStrip(v: Value, w: Value)
    requires WellFormed(v) && WellFormed(w)
    ensures Same(v, w) <==> Strip(v) == Strip(w)
    decreases v
  {
    match v
    case Arr(a) =>
      if w.Arr? && |a| == |w.items| {
        forall i | 0 <= i < |a| ensures Same(a[i], w.items[i]) <==> Strip(a[i]) == Strip(w.items[i]) {
          SameIffStrip(a[i], w.items[i]);
        }
        assert Strip(v) == Strip(w) ==> StripItems(a) == StripItems(w.items);
        assert Same(v, w) ==> StripItems(a) == StripItems(w.items);
      }
    case Obj(f) =>
      if w.Obj? {
        var g := w.fields;
        forall i, j | 0 <= i < |f| && 0 <= j < |g|
          ensures Same(f[i].val, g[j].val) <==> Strip(f[i].val) == Strip(g[j].val)
        {
          SameIffStrip(f[i].val, g[j].val);
        }
        if Same(v, w) {
          SameMembersSort(f, g);
        }
        if Strip(v) == Strip(w) {
          SortedMembersSame(f, g);
        }
      }
    case _ =>
  }

  ghost predicate Agree(f: seq<Keyed<Value>>, g: seq<Keyed<Value>>) {
    forall i, j :: 0 <= i < |f| && 0 <= j < |g| ==> (Same(f[i].val, g[j].val) <==> Strip(f[i].val) == Strip(g[j].val))
  }

  lemma MatchedStrip(f: seq<Keyed<Value>>, i: nat, g: seq<Keyed<Value>>, j: nat)
    requires Agree(f, g) && i < |f| && MemberSame(f[i], g, j)
    ensures Keyed(f[i].key, Strip(f[i].val)) == Keyed(g[j].key, Strip(g[j].val))
  {
  }

  lemma SameMembersStrip(f: seq<Keyed<Value>>, g: seq<Keyed<Value>>, x: Keyed<Value>)
    requires Agree(f, g) && Into(f, g) && x in StripMembers(f)
    ensures x in StripMembers(g)
  {
    InStripMembers(f, x);
    var i: nat :| StripsFrom(f, i, x);
    var j :| 0 <= j < |g| && MemberSame(f[i], g, j);
    MatchedStrip(f, i, g, j);
    assert StripsFrom(g, j, x);
    InStripMembers(g, x);
  }

  lemma SameMembersStripBack(f: seq<Keyed<Value>>, g: seq<Keyed<Value>>, x: Keyed<Value>)
    requires Agree(f, g) && Onto(f, g) && x in StripMembers(g)
    ensures x in StripMembers(f)
  {
    InStripMembers(g, x);
    var j: nat :| StripsFrom(g, j, x);
    var i :| 0 <= i < |f| && Live(f[i]) && MemberSame(f[i], g, j);
    MatchedStrip(f, i, g, j);
    assert StripsFrom(f, i, x);
    InStripMembers(f, x);
  }

  lemma SameMembersSort(f: seq<Keyed<Value>>, g: seq<Keyed<Value>>)
    requires DistinctKeys(f) && DistinctKeys(g) && Agree(f, g) && Into(f, g) && Onto(f, g)
    ensures Sort(StripMembers(f)) == Sort(StripMembers(g))
  {
    var a, b := StripMembers(f), StripMembers(g);
    forall x ensures x in Sort(a) <==> x in Sort(b) {
      InSort(a, x);
      InSort(b, x);
      if x in a {
        SameMembersStrip(f, g, x);
      }
      if x in b {
        SameMembersStripBack(f, g, x);
      }
    }
    StripKeysDistinct(f);
    StripKeysDistinct(g);
    SortIncreasing(a);
    SortIncreasing(b);
    IncreasingUnique(Sort(a), Sort(b));
  }

  /** A live member of f has a partner in g. */
  lemma Partner(f: seq<Keyed<Value>>, g: seq<Keyed<Value>>, i: nat) returns (j: nat)
    requires Sort(StripMembers(f)) == Sort(StripMembers(g)) && i < |f| && Live(f[i])
    ensures j < |g| && Live(g[j]) && g[j].key == f[i].key && Strip(f[i].val) == Strip(g[j].val)
  {
    var x := Keyed(f[i].key, Strip(f[i].val));
    assert StripsFrom(f, i, x);
    InStripMembers(f, x);
    InSort(StripMembers(f), x);
    InSort(StripMembers(g), x);
    InStripMembers(g, x);
    j :| StripsFrom(g, j, x);
  }

  lemma SortedMembersSame(f: seq<Keyed<Value>>, g: seq<Keyed<Value>>)
    requires Agree(f, g) && Sort(StripMembers(f)) == Sort(StripMembers(g))
    ensures Into(f, g) && Onto(f, g)
  {
    forall i | 0 <= i < |f| && Live(f[i]) ensures exists j :: 0 <= j < |g| && MemberSame(f[i], g, j) {
      var j := Partner(f, g, i);
      assert MemberSame(f[i], g, j);
    }
    forall j | 0 <= j < |g| && Live(g[j]) ensures exists i :: 0 <= i < |f| && Live(f[i]) && MemberSame(f[i], g, j) {
      var i := Partner(g, f, j);
      assert MemberSame(f[i], g, j);
    }
  }

  // -------- main results

  /** A parser recovers the stripped value from its canonical form, whatever follows. */
  lemma ParserInvertsCanon(v: Value, rest: Str)
    requires WellFormed(v) && NumEnd(rest)
    ensures ReadValue(Canon(v) + rest) == Some((Strip(v), rest))
  {
    CanonPrintsStrip(v);
    StripIsClean(v);
    ReadPrinted(Strip(v), rest);
  }

  /** One canonical form exactly for values that agree up to omissions and key order. */
  lemma CanonUnambiguous(v: Value, w: Value)
    requires WellFormed(v) && WellFormed(w)
    ensures Canon(v) == Canon(w) <==> Same(v, w)
  {
    CanonPrintsStrip(v);
    CanonPrintsStrip(w);
    ParserInvertsCanon(v, []);
    ParserInvertsCanon(w, []);
    SameIffStrip(v, w);
  }

  // -------- the order of members

  ghost predicate Before(a: Str, b: Str) {
    exists k :: 0 <= k <= |a| && FirstSmaller(a, b, k)
  }

  /** x is member i of an object, under its key and with the canonical text of its value. */
  predicate TextOf(fs: seq<Keyed<Value>>, i: nat, x: Keyed<Str>) {
    i < |fs| && fs[i].key != SIG && fs[i].val != Undefined && x == Keyed(fs[i].key, Canon(fs[i].val))
  }

  /** ms are the texts of the members of fs that count, by increasing key. */
  ghost predicate InOrder(fs: seq<Keyed<Value>>, ms: seq<Keyed<Str>>) {
    && (forall x :: x in ms <==> exists i: nat :: TextOf(fs, i, x))
    && (forall i, j :: 0 <= i < j < |ms| ==> Before(ms[i].key, ms[j].key))
  }

  lemma {:induction false} InCanonMembers(fs: seq<Keyed<Value>>, x: Keyed<Str>)
    ensures x in CanonMembers(fs) <==> exists i: nat :: TextOf(fs, i, x)
    decreases |fs|
  {
    if fs != [] {
      InCanonMembers(fs[1..], x);
      if i: nat :| TextOf(fs, i, x) {
        if i > 0 {
          assert TextOf(fs[1..], i - 1, x);
        }
      }
      if i: nat :| TextOf(fs[1..], i, x) {
        assert TextOf(fs, i + 1, x);
      }
      if Live(fs[0]) && x == Keyed(fs[0].key, Canon(fs[0].val)) {
        assert TextOf(fs, 0, x);
      }
    }
  }

  lemma {:induction false} CanonKeysDistinct(fs: seq<Keyed<Value>>)
    requires DistinctKeys(fs)
    ensures DistinctKeys(CanonMembers(fs))
    decreases |fs|
  {
    if fs != [] {
      CanonKeysDistinct(fs[1..]);
      forall x | x in CanonMembers(fs[1..]) ensures x.key != fs[0].key {
        InCanonMembers(fs[1..], x);
        var i: nat :| TextOf(fs[1..], i, x);
        assert fs[1..][i] == fs[i + 1];
      }
    }
  }

  /** An object prints the members that count, each once, by increasing code units of their keys. */
  lemma CanonOrders(fs: seq<Keyed<Value>>)
    requires DistinctKeys(fs)
    ensures exists ms :: InOrder(fs, ms) && Canon(Obj(fs)) == [LBRACE] + (Join(MemberTexts(ms)) + [RBRACE])
  {
    var ms := Sort(CanonMembers(fs));
    CanonKeysDistinct(fs);
    SortIncreasing(CanonMembers(fs));
    forall x ensures x in ms <==> exists i: nat :: TextOf(fs, i, x) {
      InSort(CanonMembers(fs), x);
      InCanonMembers(fs, x);
    }
    forall i, j | 0 <= i < j < |ms| ensures Before(ms[i].key, ms[j].key) {
      LessExactly(ms[i].key, ms[j].key);
    }
    assert InOrder(fs, ms);
  }

  function MemberText(f: Keyed<Value>): Str {
    Quoted(f.key) + ([COLON] + Canon(f.val))
  }

  lemma SortTwo<T>(a: Keyed<T>, b: Keyed<T>, k: nat)
    requires FirstSmaller(a.key, b.key, k)
    ensures Sort([a, b]) == [a, b] && Sort([b, a]) == [a, b]
  {
    LessExactly(a.key, b.key);
    LessTotal(a.key, b.key);
    assert [a, b][1..] == [b] && [b, a][1..] == [a] && [a][1..] == [] && [b][1..] == [];
    assert Sort<T>([]) == [] && Sort([a]) == [a] && Sort([b]) == [b];
    assert Insert(b, []) == [b];
  }

  lemma JoinTwo(a: Keyed<Str>, b: Keyed<Str>)
    ensures var s, t := Quoted(a.key) + ([COLON] + a.val), Quoted(b.key) + ([COLON] + b.val);
      Join(MemberTexts([a, b])) == s + ([COMMA] + t)
  {
    var s, t := Quoted(a.key) + ([COLON] + a.val), Quoted(b.key) + ([COLON] + b.val);
    assert [a, b][1..] == [b] && [b][1..] == [];
    assert MemberTexts([b]) == [t] + MemberTexts([]) == [t];
    assert MemberTexts([a, b]) == [s] + [t] && ([s] + [t])[1..] == [t];
    assert Join([t]) == t;
  }

  /** Of two members, given in either order, the one with the smaller unit where the keys first differ is first. */
  lemma CanonTwo(f: Keyed<Value>, g: Keyed<Value>, k: nat)
    requires Live(f) && Live(g) && FirstSmaller(f.key, g.key, k)
    ensures Canon(Obj([f, g])) == [0x7B] + ((MemberText(f) + ([0x2C] + MemberText(g))) + [0x7D])
    ensures Canon(Obj([g, f])) == Canon(Obj([f, g]))
  {
    var a, b := Keyed(f.key, Canon(f.val)), Keyed(g.key, Canon(g.val));
    SortTwo(a, b, k);
    TwoMembers(f, g);
    TwoMembers(g, f);
    JoinTwo(a, b);
  }

  lemma TwoMembers(f: Keyed<Value>, g: Keyed<Value>)
    requires Live(f) && Live(g)
    ensures CanonMembers([f, g]) == [Keyed(f.key, Canon(f.val)), Keyed(g.key, Canon(g.val))]
  {
    assert [f, g][1..] == [g] && [g][1..] == [];
    assert CanonMembers([g]) == [Keyed(g.key, Canon(g.val))];
  }

  /** op comes before ts: the texts of a hello with these two members, in either order. */
  lemma CanonOfHello()
    ensures var op := Keyed([0x6F, 0x70], String([0x68, 0x69]));
      var ts := Keyed([0x74, 0x73], Num([0x31]));
      && Canon(Obj([ts, op])) == Canon(Obj([op, ts]))
      && Canon(Obj([op, ts])) ==
           [0x7B, 0x22, 0x6F, 0x70, 0x22, 0x3A, 0x22, 0x68, 0x69, 0x22, 0x2C, 0x22, 0x74, 0x73, 0x22, 0x3A, 0x31, 0x7D]
  {
    var op, ts := Keyed([0x6F, 0x70], String([0x68, 0x69])), Keyed([0x74, 0x73], Num([0x31]));
    CanonTwo(op, ts, 0);
    OpText();
    TsText();
    HelloJoins();
  }

  lemma OpText()
    ensures MemberText(Keyed([0x6F, 0x70], String([0x68, 0x69]))) ==
      [0x22, 0x6F, 0x70, 0x22, 0x3A, 0x22, 0x68, 0x69, 0x22]
  {
    PlainTwo(0x6F, 0x70);
    PlainTwo(0x68, 0x69);
  }

  lemma TsText()
    ensures MemberText(Keyed([0x74, 0x73], Num([0x31]))) == [0x22, 0x74, 0x73, 0x22, 0x3A, 0x31]
  {
    PlainTwo(0x74, 0x73);
  }

  lemma HelloJoins()
    ensures var s: Str := [0x22, 0x6F, 0x70, 0x22, 0x3A, 0x22, 0x68, 0x69, 0x22];
      var t: Str := [0x22, 0x74, 0x73, 0x22, 0x3A, 0x31];
      [0x7B] + ((s + ([0x2C] + t)) + [0x7D]) ==
        [0x7B, 0x22, 0x6F, 0x70, 0x22, 0x3A, 0x22, 0x68, 0x69, 0x22, 0x2C, 0x22, 0x74, 0x73, 0x22, 0x3A, 0x31, 0x7D]
  {
  }

  lemma PlainTwo(u: Unit, v: Unit)
    requires 0x60 <= u < 0x7F && 0x60 <= v < 0x7F
    ensures Quoted([u, v]) == [0x22, u, v, 0x22]
  {
    EscapeHead([v], v, []);
    EscapeHead([u, v], u, [v]);
    assert Escape([v]) == [v] + [] && Escape([u, v]) == [u] + [v];
  }

  /** Lists keep their order, and an item JSON has no text for is null. */
  lemma CanonOfList()
    ensures Canon(Arr([Bool(true), Bool(false), Undefined])) ==
      [0x5B, 0x74, 0x72, 0x75, 0x65, 0x2C, 0x66, 0x61, 0x6C, 0x73, 0x65, 0x2C, 0x6E, 0x75, 0x6C, 0x6C, 0x5D]
  {
    var t, f, u := Bool(true), Bool(false), Undefined;
    ThreeItems(t, f, u);
    JoinThree(TRUE_TEXT, FALSE_TEXT, NULL_TEXT);
  }

  lemma ThreeItems(a: Value, b: Value, c: Value)
    ensures CanonItems([a, b, c]) == [Canon(a), Canon(b), Canon(c)]
  {
    assert [a, b, c][1..] == [b, c] && [b, c][1..] == [c] && [c][1..] == [];
    assert CanonItems([c]) == [Canon(c)] && CanonItems([b, c]) == [Canon(b)] + [Canon(c)];
  }

  lemma CanonOfOthers()
    ensures Canon(NonFinite) == Canon(Null) == Canon(Undefined) == [0x6E, 0x75, 0x6C, 0x6C]
    ensures Canon(Obj([])) == [0x7B, 0x7D] && Canon(Arr([])) == [0x5B, 0x5D]
  {
  }

  lemma JoinThree(a: Str, b: Str, c: Str)
    ensures Join([a, b, c]) == a + ([COMMA] + (b + ([COMMA] + c)))
  {
    assert [a, b, c][1..] == [b, c] && [b, c][1..] == [c];
    assert Join([b, c]) == b + ([COMMA] + Join([c]));
  }

  // -------- over the wire

  /** What JSON.parse(JSON.stringify(v)) gives: undefined members go, other gaps become null. */
  function Wire(v: Value): Value
    decreases v, 1
  {
    match v
    case Arr(items) => Arr(WireItems(items))
    case Obj(fs) => Obj(WireMembers(fs))
    case _ => if NullLike(v) then Null else v
  }

  function WireItems(items: seq<Value>): (r: seq<Value>)
    ensures |r| == |items|
    ensures forall i :: 0 <= i < |items| ==> r[i] == Wire(items[i])
    decreases items, 0
  {
    if items == [] then [] else [Wire(items[0])] + WireItems(items[1..])
  }

  function WireMembers(fs: seq<Keyed<Value>>): seq<Keyed<Value>>
    decreases fs, 0
  {
    if fs == [] then []
    else (if fs[0].val != Undefined then [Keyed(fs[0].key, Wire(fs[0].val))] else []) + WireMembers(fs[1..])
  }

  /** JSON.stringify, for anything but a bare undefined. */
  function Stringify(v: Value): Str {
    Print(Wire(v))
  }

  lemma {:induction false} WireStrips(v: Value)
    ensures Strip(Wire(v)) == Strip(v)
    decreases v, 1
  {
    match v
    case Arr(items) =>
      forall i | 0 <= i < |items| ensures Strip(Wire(items[i])) == Strip(items[i]) {
        WireStrips(items[i]);
      }
    case Obj(fs) => WireStripsMembers(fs);
    case _ =>
  }

  lemma {:induction false} WireStripsMembers(fs: seq<Keyed<Value>>)
    ensures StripMembers(WireMembers(fs)) == StripMembers(fs)
    decreases fs, 0
  {
    if fs != [] {
      WireStrips(fs[0].val);
      WireStripsMembers(fs[1..]);
      if fs[0].val == Undefined {
        assert WireMembers(fs) == WireMembers(fs[1..]);
      } else {
        assert WireMembers(fs)[1..] == WireMembers(fs[1..]);
      }
    }
  }

  lemma {:induction false} WireKeys(fs: seq<Keyed<Value>>, f: Keyed<Value>)
    requires f in WireMembers(fs)
    ensures exists i :: 0 <= i < |fs| && f.key == fs[i].key && f.val == Wire(fs[i].val)
    decreases |fs|
  {
    if f in WireMembers(fs[1..]) {
      WireKeys(fs[1..], f);
      var i :| 0 <= i < |fs[1..]| && f.key == fs[1..][i].key && f.val == Wire(fs[1..][i].val);
      assert fs[1..][i] == fs[i + 1];
    }
  }

  lemma {:induction false} WireDistinct(fs: seq<Keyed<Value>>)
    requires DistinctKeys(fs)
    ensures DistinctKeys(WireMembers(fs))
    decreases |fs|
  {
    if fs != [] {
      WireDistinct(fs[1..]);
      forall f | f in WireMembers(fs[1..]) ensures f.key != fs[0].key {
        WireKeys(fs[1..], f);
        var i :| 0 <= i < |fs[1..]| && f.key == fs[1..][i].key;
        assert fs[1..][i] == fs[i + 1];
      }
    }
  }

  lemma {:induction false} WireIsClean(v: Value)
    requires WellFormed(v)
    ensures Clean(Wire(v)) && WellFormed(Wire(v))
    decreases v
  {
    match v
    case Arr(items) =>
      forall i | 0 <= i < |items| ensures Clean(Wire(items[i])) && WellFormed(Wire(items[i])) {
        WireIsClean(items[i]);
      }
    case Obj(fs) =>
      WireDistinct(fs);
      var ms := WireMembers(fs);
      forall k | 0 <= k < |ms| ensures Clean(ms[k].val) && WellFormed(ms[k].val) {
        WireKeys(fs, ms[k]);
        var i :| 0 <= i < |fs| && ms[k].key == fs[i].key && ms[k].val == Wire(fs[i].val);
        WireIsClean(fs[i].val);
      }
    case _ =>
  }

  /** Stringified and parsed, a value keeps its canonical form. */
  lemma CanonSurvivesWire(v: Value)
    requires WellFormed(v)
    ensures ReadValue(Stringify(v)) == Some((Wire(v), []))
    ensures WellFormed(Wire(v)) && Canon(Wire(v)) == Canon(v)
  {
    WireIsClean(v);
    ReadPrinted(Wire(v), []);
    assert Stringify(v) + [] == Stringify(v);
    WireStrips(v);
    CanonPrintsStrip(v);
    CanonPrintsStrip(Wire(v));
  }

  // -------- the signed payload

  const OP: Str := [0x6F, 0x70]
  const TS: Str := [0x74, 0x73]
  const BAR: Unit := 0x7C
  const DAP1: Str := [0x64, 0x61, 0x70, 0x31, BAR]

  /** Member lookup; undefined when absent. */
  function Get(fs: seq<Keyed<Value>>, key: Str): Value {
    if fs == [] then Undefined else if fs[0].key == key then fs[0].val else Get(fs[1..], key)
  }

  /** hash is the hex digest, show what a template literal makes of a value. */
  function SigPayload(fs: seq<Keyed<Value>>, hash: Str -> Str, show: Value -> Str): Str {
    DAP1 + show(Get(fs, OP)) + [BAR] + show(Get(fs, TS)) + [BAR] + hash(Canon(Obj(fs)))
  }

  lemma {:induction false} GetFinds(fs: seq<Keyed<Value>>, i: nat)
    requires DistinctKeys(fs) && i < |fs|
    ensures Get(fs, fs[i].key) == fs[i].val
    decreases |fs|
  {
    if i > 0 {
      assert fs[1..][i - 1] == fs[i] && fs[0].key != fs[i].key;
      GetFinds(fs[1..], i - 1);
    }
  }

  /** What is signed: dap1, the op, the time stamp and the digest of the canonical text, between bars. */
  lemma PayloadParts(fs: seq<Keyed<Value>>, i: nat, j: nat, hash: Str -> Str, show: Value -> Str)
    requires DistinctKeys(fs) && i < |fs| && j < |fs| && fs[i].key == [0x6F, 0x70] && fs[j].key == [0x74, 0x73]
    ensures SigPayload(fs, hash, show) ==
      [0x64, 0x61, 0x70, 0x31, 0x7C] + show(fs[i].val) + [0x7C] + show(fs[j].val) + [0x7C] + hash(Canon(Obj(fs)))
  {
    GetFinds(fs, i);
    GetFinds(fs, j);
  }

  /**
   * With digests of one length and no collision between the two canonical forms, frames with one
   * payload agree in everything but sig.
   */
  lemma PayloadBindsFrame(f: seq<Keyed<Value>>, g: seq<Keyed<Value>>, hash: Str -> Str, show: Value -> Str)
    requires WellFormed(Obj(f)) && WellFormed(Obj(g))
    requires |hash(Canon(Obj(f)))| == |hash(Canon(Obj(g)))|
    requires hash(Canon(Obj(f))) == hash(Canon(Obj(g))) ==> Canon(Obj(f)) == Canon(Obj(g))
    requires SigPayload(f, hash, show) == SigPayload(g, hash, show)
    ensures Same(Obj(f), Obj(g))
  {
    var p, q := SigPayload(f, hash, show), SigPayload(g, hash, show);
    var n := |hash(Canon(Obj(f)))|;
    assert p[|p| - n..] == hash(Canon(Obj(f))) && q[|q| - n..] == hash(Canon(Obj(g)));
    CanonUnambiguous(Obj(f), Obj(g));
  }

  lemma {:induction false} StripAppendSig(fs: seq<Keyed<Value>>, sig: Value)
    ensures StripMembers(fs + [Keyed(SIG, sig)]) == StripMembers(fs)
    decreases |fs|
  {
    if fs == [] {
      assert ([] + [Keyed(SIG, sig)])[1..] == [];
    } else {
      assert (fs + [Keyed(SIG, sig)])[1..] == fs[1..] + [Keyed(SIG, sig)];
      StripAppendSig(fs[1..], sig);
    }
  }

  lemma {:induction false} WireGet(fs: seq<Keyed<Value>>, key: Str)
    requires DistinctKeys(fs) && Get(fs, key) != Undefined
    ensures Get(WireMembers(fs), key) == Wire(Get(fs, key))
    decreases |fs|
  {
    if fs != [] && fs[0].key != key {
      WireGet(fs[1..], key);
      if fs[0].val == Undefined {
        assert WireMembers(fs) == WireMembers(fs[1..]);
      } else {
        assert WireMembers(fs)[1..] == WireMembers(fs[1..]);
      }
    }
  }

  lemma {:induction false} GetBeforeSig(fs: seq<Keyed<Value>>, sig: Value, key: Str)
    requires key != SIG
    ensures Get(fs + [Keyed(SIG, sig)], key) == Get(fs, key)
    decreases |fs|
  {
    if fs == [] {
      assert ([] + [Keyed(SIG, sig)])[1..] == [];
    } else {
      assert (fs + [Keyed(SIG, sig)])[1..] == fs[1..] + [Keyed(SIG, sig)];
      GetBeforeSig(fs[1..], sig, key);
    }
  }

  /** The verifier, who parses the frame with its signature, computes the signer's payload. */
  lemma VerifierSeesSignerPayload(fs: seq<Keyed<Value>>, sig: Str, hash: Str -> Str, show: Value -> Str)
    requires WellFormed(Obj(fs)) && Get(fs, SIG) == Undefined && WellFormed(Obj(fs + [Keyed(SIG, String(sig))]))
    requires Get(fs, OP).String? && Get(fs, TS).Num?
    ensures var signed := Obj(fs + [Keyed(SIG, String(sig))]);
      && ReadValue(Stringify(signed)) == Some((Wire(signed), []))
      && SigPayload(Wire(signed).fields, hash, show) == SigPayload(fs, hash, show)
  {
    var signed := fs + [Keyed(SIG, String(sig))];
    CanonSurvivesWire(Obj(signed));
    StripAppendSig(fs, String(sig));
    CanonPrintsStrip(Obj(fs));
    CanonPrintsStrip(Obj(signed));
    assert OP != SIG && TS != SIG by {
      assert OP[0] != SIG[0] && TS[0] != SIG[0];
    }
    GetBeforeSig(fs, String(sig), OP);
    GetBeforeSig(fs, String(sig), TS);
    WireGet(signed, OP);
    WireGet(signed, TS);
  }

  /** A nested sig is not covered: frames that differ only inside one sign alike. */
  lemma NestedSigNotCovered(fs: seq<Keyed<Value>>, key: Str, inner: seq<Keyed<Value>>, a: Value, b: Value)
    requires key != SIG
    ensures Canon(Obj([Keyed(key, Obj(inner + [Keyed(SIG, a)]))] + fs))
         == Canon(Obj([Keyed(key, Obj(inner + [Keyed(SIG, b)]))] + fs))
  {
    StripAppendSig(inner, a);
    StripAppendSig(inner, b);
    var x, y := Obj(inner + [Keyed(SIG, a)]), Obj(inner + [Keyed(SIG, b)]);
    assert Strip(x) == Strip(y);
    assert ([Keyed(key, x)] + fs)[1..] == fs && ([Keyed(key, y)] + fs)[1..] == fs;
    CanonPrintsStrip(Obj([Keyed(key, x)] + fs));
    CanonPrintsStrip(Obj([Keyed(key, y)] + fs));
  }
}
