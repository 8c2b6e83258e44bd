/**
 * The canonical printer of idempotency.service.ts (stableStringify) and the text
 * that is hashed into a request fingerprint. Strings are sequences of UTF-16 code
 * units, quoted as in section 7 of RFC 8259 with lone surrogates escaped.
 */
module CanonicalJson {
  import opened Wrappers

  type Unit = u: int | 0 <= u < 0x10000
  type Text = seq<Unit>

  const QUOTE: Unit := 34
  const COMMA: Unit := 44
  const COLON: Unit := 58
  const OPEN_BRACKET: Unit := 91
  const BACKSLASH: Unit := 92
  const CLOSE_BRACKET: Unit := 93
  const OPEN_BRACE: Unit := 123
  const CLOSE_BRACE: Unit := 125
  const NEWLINE: Unit := 10

  const UNDEFINED: Text := [117, 110, 100, 101, 102, 105, 110, 101, 100]
  const NULL: Text := [110, 117, 108, 108]
  const TRUE: Text := [116, 114, 117, 101]
  const FALSE: Text := [102, 97, 108, 115, 101]

  /**
   * A JavaScript value. A number is given by the text JSON.stringify prints for it;
   * an object by its own entries in insertion order.
   */
  datatype Json =
    | Undefined | Null | Bool(b: bool) | Number(literal: Text) | Str(s: Text)
    | Arr(items: seq<Json>) | Obj(members: seq<Member>)
  datatype Member = Member(key: Text, value: Json)

  /** Digits, signs, the point and the exponent mark. */
  predicate Numeral(u: Unit) {
    48 <= u <= 57 || u == 45 || u == 43 || u == 46 || u == 101
  }

  /** Literals of finite numbers start with a digit or a minus sign; keys are distinct. */
  ghost predicate Valid(j: Json) {
    match j
    case Number(l) => l != [] && (48 <= l[0] <= 57 || l[0] == 45) && forall i :: 0 <= i < |l| ==> Numeral(l[i])
    case Arr(items) => forall i :: 0 <= i < |items| ==> Valid(items[i])
    case Obj(ms) =>
      && (forall i :: 0 <= i < |ms| ==> Valid(ms[i].value))
      && (forall i, j :: 0 <= i < j < |ms| ==> ms[i].key != ms[j].key)
    case _ => true
  }

  // ---------------------------------------------------------------------
  // Quoting
  // ---------------------------------------------------------------------

  predicate High(u: Unit) { 0xD800 <= u < 0xDC00 }
  predicate Low(u: Unit) { 0xDC00 <= u < 0xE000 }

  function HexDigit(d: int): Unit
    requires 0 <= d < 16
  {
    if d < 10 then 48 + d else 87 + d
  }

  function HexValue(u: Unit): int {
    if u < 58 then u - 48 else u - 87
  }

  function Hex4(u: Unit): (h: Text)
    ensures |h| == 4
  {
    [HexDigit(u / 4096), HexDigit(u / 256 % 16), HexDigit(u / 16 % 16), HexDigit(u % 16)]
  }

  function EscapeUnit(u: Unit): Text {
    if u == QUOTE || u == BACKSLASH then [BACKSLASH, u]
    else if u == 8 then [BACKSLASH, 98]
    else if u == 12 then [BACKSLASH, 102]
    else if u == 10 then [BACKSLASH, 110]
    else if u == 13 then [BACKSLASH, 114]
    else if u == 9 then [BACKSLASH, 116]
    else if u < 32 || High(u) || Low(u) then [BACKSLASH, 117] + Hex4(u)
    else [u]
  }

  /** A surrogate pair is kept; every other unit is escaped on its own. */
  function Escaped(s: Text): Text {
    if s == [] then []
    else if High(s[0]) && |s| > 1 && Low(s[1]) then [s[0], s[1]] + Escaped(s[2..])
    else EscapeUnit(s[0]) + Escaped(s[1..])
  }

  function Quoted(s: Text): Text {
    [QUOTE] + Escaped(s) + [QUOTE]
  }

  /** Reads the inside of a quoted string up to its closing quote: the string and the rest. */
  function Unquote(t: Text): Option<(Text, Text)> {
    if t == [] then None
    else if t[0] == QUOTE then Some(([], t[1..]))
    else if t[0] != BACKSLASH then Prefixed(t[0], Unquote(t[1..]))
    else if |t| < 2 then None
    else if t[1] != 117 then
      (match t[1]
       case 34 => Prefixed(QUOTE, Unquote(t[2..]))
       case 92 => Prefixed(BACKSLASH, Unquote(t[2..]))
       case 98 => Prefixed(8, Unquote(t[2..]))
       case 102 => Prefixed(12, Unquote(t[2..]))
       case 110 => Prefixed(10, Unquote(t[2..]))
       case 114 => Prefixed(13, Unquote(t[2..]))
       case 116 => Prefixed(9, Unquote(t[2..]))
       case _ => None)
    else if |t| < 6 then None
    else
      var u := HexValue(t[2]) * 4096 + HexValue(t[3]) * 256 + HexValue(t[4]) * 16 + HexValue(t[5]);
      if 0 <= u < 0x10000 then Prefixed(u, Unquote(t[6..])) else None
  }

  function Prefixed(u: Unit, r: Option<(Text, Text)>): Option<(Text, Text)> {
    match r
    case None => None
    case Some(p) => Some(([u] + p.0, p.1))
  }

  lemma HexRoundTrip(u: Unit)
    ensures var h := Hex4(u);
            HexValue(h[0]) * 4096 + HexValue(h[1]) * 256 + HexValue(h[2]) * 16 + HexValue(h[3]) == u
  {
    assert forall d :: 0 <= d < 16 ==> HexValue(HexDigit(d)) == d;
    var a, b := u / 16, u / 256;
    assert a / 16 == b && b / 16 == u / 4096;
    assert u == a * 16 + u % 16 && a == b * 16 + a % 16 && b == (u / 4096) * 16 + b % 16;
  }

  lemma RawRoundTrip(u: Unit, t: Text)
    requires u != QUOTE && u != BACKSLASH
    ensures Unquote([u] + t) == Prefixed(u, Unquote(t))
  {
    assert ([u] + t)[1..] == t;
  }

  lemma HexEscapeRoundTrip(u: Unit, t: Text)
    ensures Unquote([BACKSLASH, 117] + Hex4(u) + t) == Prefixed(u, Unquote(t))
  {
    HexRoundTrip(u);
    var h := Hex4(u);
    hide Hex4;
    var e := [BACKSLASH, 117] + h + t;
    assert |h| == 4 && e[2] == h[0] && e[3] == h[1] && e[4] == h[2] && e[5] == h[3];
    assert e[6..] == t;
  }

  lemma ShortEscapeRoundTrip(u: Unit, c: Unit, t: Text)
    requires EscapeUnit(u) == [BACKSLASH, c]
    ensures Unquote([BACKSLASH, c] + t) == Prefixed(u, Unquote(t))
  {
    hide Hex4;
    assert ([BACKSLASH, c] + t)[2..] == t;
  }

  lemma UnitRoundTrip(u: Unit, t: Text)
    ensures Unquote(EscapeUnit(u) + t) == Prefixed(u, Unquote(t))
  {
    hide Unquote, Hex4;
    if EscapeUnit(u) == [u] {
      RawRoundTrip(u, t);
    } else if EscapeUnit(u) == [BACKSLASH, 117] + Hex4(u) {
      HexEscapeRoundTrip(u, t);
    } else {
      ShortEscapeRoundTrip(u, EscapeUnit(u)[1], t);
    }
  }

  /** What was quoted can be read back, and where it ends is certain. */
  lemma {:induction false} QuoteRoundTrip(s: Text, rest: Text)
    ensures Unquote(Escaped(s) + [QUOTE] + rest) == Some((s, rest))
  {
    hide EscapeUnit;
    if s == [] {
      assert Escaped(s) + [QUOTE] + rest == [QUOTE] + rest;
    } else if High(s[0]) && |s| > 1 && Low(s[1]) {
      hide Unquote;
      QuoteRoundTrip(s[2..], rest);
      var u := Escaped(s[2..]) + [QUOTE] + rest;
      Regroup([s[0], s[1]], Escaped(s[2..]), [QUOTE]);
      Regroup([s[0], s[1]], Escaped(s[2..]) + [QUOTE], rest);
      assert [s[0], s[1]] + u == [s[0]] + ([s[1]] + u);
      RawRoundTrip(s[1], u);
      RawRoundTrip(s[0], [s[1]] + u);
      assert s == [s[0]] + ([s[1]] + s[2..]);
    } else {
      hide Unquote;
      QuoteRoundTrip(s[1..], rest);
      var u := Escaped(s[1..]) + [QUOTE] + rest;
      Regroup(EscapeUnit(s[0]), Escaped(s[1..]), [QUOTE]);
      Regroup(EscapeUnit(s[0]), Escaped(s[1..]) + [QUOTE], rest);
      UnitRoundTrip(s[0], u);
      assert s == [s[0]] + s[1..];
    }
  }

  // ---------------------------------------------------------------------
  // Printing
  // ---------------------------------------------------------------------

  /** Code-unit order, as `<` compares strings. */
  predicate Less(a: Text, b: Text) {
    b != [] && (a == [] || a[0] < b[0] || (a[0] == b[0] && Less(a[1..], b[1..])))
  }

  /** A printed member: its key and the text of its value. */
  type Pair = (Text, Text)

  function Insert(p: Pair, list: seq<Pair>): seq<Pair> {
    if list == [] || Less(p.0, list[0].0) then [p] + list else [list[0]] + Insert(p, list[1..])
  }

  function Sorted(list: seq<Pair>): seq<Pair> {
    if list == [] then [] else Insert(list[0], Sorted(list[1..]))
  }

  function Entry(p: Pair): Text {
    Quoted(p.0) + [COLON] + p.1
  }

  /** Further entries, each after a comma. */
  function MoreEntries(list: seq<Pair>): Text {
    if list == [] then [] else [COMMA] + Entry(list[0]) + MoreEntries(list[1..])
  }

  function Entries(list: seq<Pair>): Text {
    if list == [] then [] else Entry(list[0]) + MoreEntries(list[1..])
  }

  /** stableStringify. Members are printed before they are sorted; sorting reads keys only. */
  function Print(j: Json): Text
    decreases j, 1
  {
    match j
    case Undefined => UNDEFINED
    case Null => NULL
    case Bool(b) => if b then TRUE else FALSE
    case Number(l) => l
    case Str(s) => Quoted(s)
    case Arr(items) => [OPEN_BRACKET] + Items(items) + [CLOSE_BRACKET]
    case Obj(ms) => [OPEN_BRACE] + Entries(Sorted(Pairs(ms))) + [CLOSE_BRACE]
  }

  function Items(items: seq<Json>): Text
    decreases items, 1
  {
    if items == [] then [] else Print(items[0]) + MoreItems(items[1..])
  }

  /** Further items, each after a comma. */
  function MoreItems(items: seq<Json>): Text
    decreases items, 0
  {
    if items == [] then [] else [COMMA] + Print(items[0]) + MoreItems(items[1..])
  }

  /** The defined members, printed. */
  function Pairs(ms: seq<Member>): seq<Pair>
    decreases ms, 0
  {
    if ms == [] then []
    else (if ms[0].value == Undefined then [] else [(ms[0].key, Print(ms[0].value))]) + Pairs(ms[1..])
  }

  // ---------------------------------------------------------------------
  // Meaning: undefined members dropped, key order forgotten
  // ---------------------------------------------------------------------

  datatype Value =
    | VUndefined | VNull | VBool(b: bool) | VNumber(literal: Text) | VStr(s: Text)
    | VArr(items: seq<Value>) | VObj(members: map<Text, Value>)

  function Meaning(j: Json): Value
    decreases j, 1
  {
    match j
    case Undefined => VUndefined
    case Null => VNull
    case Bool(b) => VBool(b)
    case Number(l) => VNumber(l)
    case Str(s) => VStr(s)
    case Arr(items) => VArr(Meanings(items))
    case Obj(ms) => VObj(MemberMap(ms))
  }

  function Meanings(items: seq<Json>): seq<Value>
    decreases items, 0
  {
    if items == [] then [] else [Meaning(items[0])] + Meanings(items[1..])
  }

  function MemberMap(ms: seq<Member>): map<Text, Value>
    decreases ms, 0
  {
    if ms == [] then map[]
    else if ms[0].value == Undefined then MemberMap(ms[1..])
    else MemberMap(ms[1..])[ms[0].key := Meaning(ms[0].value)]
  }

  // ---------------------------------------------------------------------
  // Sorted lists of pairs
  // ---------------------------------------------------------------------

  lemma {:induction false} LessTotal(a: Text, b: Text)
    ensures a == b || Less(a, b) || Less(b, a)
  {
    if a != [] && b != [] && a[0] == b[0] {
      LessTotal(a[1..], b[1..]);
      assert a == [a[0]] + a[1..] && b == [b[0]] + b[1..];
    }
  }

  lemma {:induction false} LessTransitive(a: Text, b: Text, c: Text)
    requires Less(a, b) && Less(b, c)
    ensures Less(a, c) && a != c
  {
    if a != [] && a[0] == b[0] == c[0] {
      LessTransitive(a[1..], b[1..], c[1..]);
    }
  }

  lemma {:induction false} LessIrreflexive(a: Text)
    ensures !Less(a, a)
  {
    if a != [] {
      LessIrreflexive(a[1..]);
    }
  }

  ghost predicate Ordered(list: seq<Pair>) {
    forall i, j :: 0 <= i < j < |list| ==> Less(list[i].0, list[j].0)
  }

  lemma {:induction false} InsertKeeps(p: Pair, list: seq<Pair>)
    requires Ordered(list) && forall i :: 0 <= i < |list| ==> list[i].0 != p.0
    ensures Ordered(Insert(p, list))
    ensures multiset(Insert(p, list)) == multiset{p} + multiset(list)
  {
    if list == [] {
    } else if Less(p.0, list[0].0) {
      forall j | 0 < j < |list| ensures Less(p.0, list[j].0) {
        LessTransitive(p.0, list[0].0, list[j].0);
      }
    } else {
      var rest := list[1..];
      InsertKeeps(p, rest);
      LessTotal(p.0, list[0].0);
      var r := Insert(p, rest);
      assert list == [list[0]] + rest;
      forall j | 0 <= j < |r| ensures Less(list[0].0, r[j].0) {
        assert r[j] in multiset(r);
        if r[j] != p {
          assert r[j] in rest;
        }
      }
    }
  }

  ghost predicate DistinctKeys(list: seq<Pair>) {
    forall i, j :: 0 <= i < j < |list| ==> list[i].0 != list[j].0
  }

  lemma {:induction false} SortedKeeps(list: seq<Pair>)
    requires DistinctKeys(list)
    ensures Ordered(Sorted(list)) && multiset(Sorted(list)) == multiset(list)
  {
    if list != [] {
      SortedKeeps(list[1..]);
      var rest := Sorted(list[1..]);
      forall i | 0 <= i < |rest| ensures rest[i].0 != list[0].0 {
        assert rest[i] in multiset(rest);
        assert rest[i] in list[1..];
      }
      InsertKeeps(list[0], rest);
      assert list == [list[0]] + list[1..];
    }
  }

  lemma SortedMembers(list: seq<Pair>, p: Pair)
    requires DistinctKeys(list)
    ensures p in Sorted(list) <==> p in list
  {
    SortedKeeps(list);
    assert p in Sorted(list) <==> p in multiset(Sorted(list));
    assert p in list <==> p in multiset(list);
  }

  lemma OrderedTail(a: seq<Pair>)
    requires Ordered(a) && a != []
    ensures Ordered(a[1..]) && forall p :: p in a[1..] <==> p in a && p != a[0]
  {
    LessIrreflexive(a[0].0);
    forall p ensures p in a[1..] <==> p in a && p != a[0] {
      assert a == [a[0]] + a[1..];
    }
  }

  /** An ordered list is determined by its elements. */
  lemma {:induction false} OrderedUnique(a: seq<Pair>, b: seq<Pair>)
    requires Ordered(a) && Ordered(b) && forall p :: p in a <==> p in b
    ensures a == b
  {
    assert b != [] ==> b[0] in b;
    if a != [] {
      assert a[0] in a;
      LessIrreflexive(a[0].0);
      if a[0] != b[0] {
        LessTransitive(a[0].0, b[0].0, a[0].0);
      }
      OrderedTail(a);
      OrderedTail(b);
      OrderedUnique(a[1..], b[1..]);
    }
  }

  // ---------------------------------------------------------------------
  // Members behind the pairs
  // ---------------------------------------------------------------------

  ghost predicate MembersOk(ms: seq<Member>) {
    && (forall i :: 0 <= i < |ms| ==> Valid(ms[i].value))
    && (forall i, j :: 0 <= i < j < |ms| ==> ms[i].key != ms[j].key)
  }

  /** The position of the defined member with key `k`. */
  ghost predicate At(ms: seq<Member>, k: Text, i: int) {
    0 <= i < |ms| && ms[i].key == k && ms[i].value != Undefined
  }

  lemma AtTail(ms: seq<Member>, k: Text)
    requires ms != []
    ensures (exists i :: At(ms, k, i)) <==> At(ms, k, 0) || exists i :: At(ms[1..], k, i)
    ensures forall i :: At(ms[1..], k, i) <==> 0 <= i < |ms| - 1 && At(ms, k, i + 1)
  {
    if i :| At(ms, k, i) {
      assert i > 0 ==> At(ms[1..], k, i - 1);
    }
    if i :| At(ms[1..], k, i) {
      assert At(ms, k, i + 1);
    }
  }

  /** A pair is in the list exactly when some defined member prints it. */
  lemma {:induction false} PairsElements(ms: seq<Member>, p: Pair)
    requires MembersOk(ms)
    ensures p in Pairs(ms) <==> exists i :: At(ms, p.0, i) && p.1 == Print(ms[i].value)
  {
    if ms != [] {
      var tail := ms[1..];
      PairsElements(tail, p);
      AtTail(ms, p.0);
      if i :| At(tail, p.0, i) && p.1 == Print(tail[i].value) {
        assert At(ms, p.0, i + 1);
      }
      if i :| At(ms, p.0, i) && p.1 == Print(ms[i].value) {
        assert i > 0 ==> At(tail, p.0, i - 1);
      }
    }
  }

  lemma {:induction false} PairsDistinct(ms: seq<Member>)
    requires MembersOk(ms)
    ensures DistinctKeys(Pairs(ms))
  {
    if ms != [] {
      var rest := Pairs(ms[1..]);
      PairsDistinct(ms[1..]);
      forall i | 0 <= i < |rest| ensures rest[i].0 != ms[0].key {
        PairsElements(ms[1..], rest[i]);
        var j :| At(ms[1..], rest[i].0, j);
        assert ms[j + 1].key == rest[i].0;
      }
    }
  }

  lemma {:induction false} MapElements(ms: seq<Member>, k: Text)
    requires MembersOk(ms)
    ensures k in MemberMap(ms) <==> exists i :: At(ms, k, i)
    ensures forall i :: At(ms, k, i) ==> k in MemberMap(ms) && MemberMap(ms)[k] == Meaning(ms[i].value)
  {
    if ms != [] {
      MapElements(ms[1..], k);
      AtTail(ms, k);
      forall i | At(ms, k, i) ensures k in MemberMap(ms) && MemberMap(ms)[k] == Meaning(ms[i].value) {
        if i > 0 {
          assert At(ms[1..], k, i - 1);
        }
      }
    }
  }

  lemma PairsFromMembers(ms: seq<Member>)
    requires MembersOk(ms)
    ensures DistinctKeys(Pairs(ms))
    ensures forall p :: p in Pairs(ms) <==> exists i :: At(ms, p.0, i) && p.1 == Print(ms[i].value)
    ensures forall k :: k in MemberMap(ms) <==> exists i :: At(ms, k, i)
    ensures forall i :: 0 <= i < |ms| && ms[i].value != Undefined ==>
              ms[i].key in MemberMap(ms) && MemberMap(ms)[ms[i].key] == Meaning(ms[i].value)
  {
    PairsDistinct(ms);
    forall p ensures p in Pairs(ms) <==> exists i :: At(ms, p.0, i) && p.1 == Print(ms[i].value) {
      PairsElements(ms, p);
    }
    forall k ensures k in MemberMap(ms) <==> exists i :: At(ms, k, i) {
      MapElements(ms, k);
    }
    forall i | 0 <= i < |ms| && ms[i].value != Undefined
      ensures ms[i].key in MemberMap(ms) && MemberMap(ms)[ms[i].key] == Meaning(ms[i].value)
    {
      MapElements(ms, ms[i].key);
      assert At(ms, ms[i].key, i);
    }
  }

  ghost predicate Behind(ms: seq<Member>, p: Pair, i: int) {
    At(ms, p.0, i) && p.1 == Print(ms[i].value)
  }

  /** Every pair of the list prints a defined member. */
  ghost predicate From(ms: seq<Member>, list: seq<Pair>) {
    forall p :: p in list ==> exists i :: Behind(ms, p, i)
  }

  lemma SortedPairs(ms: seq<Member>)
    requires MembersOk(ms)
    ensures Ordered(Sorted(Pairs(ms))) && From(ms, Sorted(Pairs(ms)))
    ensures forall k :: k in MemberMap(ms) <==> exists i :: 0 <= i < |Sorted(Pairs(ms))| && Sorted(Pairs(ms))[i].0 == k
  {
    PairsFromMembers(ms);
    var list := Sorted(Pairs(ms));
    SortedKeeps(Pairs(ms));
    forall p | p in list ensures exists i :: Behind(ms, p, i) {
      SortedMembers(Pairs(ms), p);
      var i :| At(ms, p.0, i) && p.1 == Print(ms[i].value);
      assert Behind(ms, p, i);
    }
    forall k ensures k in MemberMap(ms) <==> exists i :: 0 <= i < |list| && list[i].0 == k {
      if k in MemberMap(ms) {
        var i :| At(ms, k, i);
        var p := (k, Print(ms[i].value));
        assert p in Pairs(ms);
        SortedMembers(Pairs(ms), p);
      }
      if i :| 0 <= i < |list| && list[i].0 == k {
        assert list[i] in list;
        var j :| Behind(ms, list[i], j);
      }
    }
  }

  // ---------------------------------------------------------------------
  // A text is printed from one meaning only
  // ---------------------------------------------------------------------

  /** What may follow a printed value. */
  predicate Ends(x: Text) {
    x == [] || x[0] == COMMA || x[0] == CLOSE_BRACKET || x[0] == CLOSE_BRACE
  }

  /** The kind of a value shows in the first unit of its text. */
  predicate Opens(j: Json, u: Unit) {
    match j
    case Undefined => u == 117
    case Null => u == 110
    case Bool(b) => u == (if b then 116 else 102)
    case Number(l) => 48 <= u <= 57 || u == 45
    case Str(_) => u == QUOTE
    case Arr(_) => u == OPEN_BRACKET
    case Obj(_) => u == OPEN_BRACE
  }

  lemma FirstUnit(j: Json)
    requires Valid(j)
    ensures Print(j) != [] && Opens(j, Print(j)[0])
  {
  }

  /** The same pieces in the same order, one after the other. */
  lemma SplitAt(a: Text, x: Text, b: Text, y: Text)
    requires a + x == b + y && |a| == |b|
    ensures a == b && x == y
  {
    assert a == (a + x)[..|a|] && b == (b + y)[..|b|];
    assert x == (a + x)[|a|..] && y == (b + y)[|b|..];
  }

  lemma Cancel(u: Unit, x: Text, y: Text)
    requires [u] + x == [u] + y
    ensures x == y
  {
    SplitAt([u], x, [u], y);
  }

  lemma NumeralUnique(a: Text, b: Text, x: Text, y: Text)
    requires (forall i :: 0 <= i < |a| ==> Numeral(a[i])) && (forall i :: 0 <= i < |b| ==> Numeral(b[i]))
    requires Ends(x) && Ends(y) && a + x == b + y
    ensures a == b && x == y
  {
    var t := a + x;
    assert |a| < |t| ==> t[|a|] == x[0] && !Numeral(t[|a|]);
    assert |b| < |t| ==> t[|b|] == y[0] && !Numeral(t[|b|]);
    assert forall i :: 0 <= i < |a| || 0 <= i < |b| ==> Numeral(t[i]);
    SplitAt(a, x, b, y);
  }

  lemma QuotedUnique(s: Text, r: Text, x: Text, y: Text)
    requires Quoted(s) + x == Quoted(r) + y
    ensures s == r && x == y
  {
    hide Unquote, Escaped;
    QuoteRoundTrip(s, x);
    QuoteRoundTrip(r, y);
    assert (Quoted(s) + x)[1..] == Escaped(s) + [QUOTE] + x;
    assert (Quoted(r) + y)[1..] == Escaped(r) + [QUOTE] + y;
  }

  lemma {:induction false} ParseUnique(a: Json, b: Json, x: Text, y: Text)
    requires Valid(a) && Valid(b) && Ends(x) && Ends(y) && Print(a) + x == Print(b) + y
    ensures Meaning(a) == Meaning(b) && x == y
    decreases a, 1
  {
    hide Unquote, Escaped, Quoted, Pairs, Sorted, MoreEntries, MemberMap;
    FirstUnit(a);
    FirstUnit(b);
    assert Print(a)[0] == (Print(a) + x)[0] == (Print(b) + y)[0] == Print(b)[0];
    match a {
      case Number(l) =>
        NumeralUnique(l, b.literal, x, y);
      case Str(s) =>
        QuotedUnique(s, b.s, x, y);
      case Arr(items) =>
        ArrayUnique(items, b.items, x, y);
      case Obj(ms) =>
        ObjectUnique(ms, b.members, x, y);
      case _ =>
        SplitAt(Print(a), x, Print(b), y);
    }
  }

  /** Printed with a comma before every item, the first one too. */
  lemma ArrayShape(items: seq<Json>, x: Text)
    ensures [COMMA] + (Print(Arr(items)) + x)[1..] ==
            if items == [] then [COMMA] + ([CLOSE_BRACKET] + x) else MoreItems(items) + ([CLOSE_BRACKET] + x)
  {
    ItemsText(items);
    hide Print, MoreItems, Items;
    if items != [] {
      Rewrapped(OPEN_BRACKET, MoreItems(items), CLOSE_BRACKET, x);
      assert Print(Arr(items)) == [OPEN_BRACKET] + MoreItems(items)[1..] + [CLOSE_BRACKET];
    }
  }

  lemma Rewrapped(open: Unit, more: Text, close: Unit, x: Text)
    requires more != [] && more[0] == COMMA
    ensures [COMMA] + ([open] + more[1..] + [close] + x)[1..] == more + ([close] + x)
  {
    assert ([open] + more[1..] + [close] + x)[1..] == more[1..] + [close] + x;
  }

  lemma ItemsText(items: seq<Json>)
    ensures Print(Arr(items)) == [OPEN_BRACKET] + Items(items) + [CLOSE_BRACKET]
    ensures items == [] ==> Items(items) == []
    ensures items != [] ==>
              MoreItems(items) != [] && MoreItems(items)[0] == COMMA && Items(items) == MoreItems(items)[1..]
  {
    if items != [] {
      assert MoreItems(items)[1..] == Print(items[0]) + MoreItems(items[1..]);
    }
  }

  lemma EntriesText(list: seq<Pair>)
    ensures list == [] ==> Entries(list) == []
    ensures list != [] ==>
              MoreEntries(list) != [] && MoreEntries(list)[0] == COMMA && Entries(list) == MoreEntries(list)[1..]
  {
    if list != [] {
      hide Entry;
      assert MoreEntries(list)[1..] == Entry(list[0]) + MoreEntries(list[1..]);
    }
  }

  lemma {:induction false} ArrayUnique(a: seq<Json>, b: seq<Json>, x: Text, y: Text)
    requires Valid(Arr(a)) && Valid(Arr(b)) && Print(Arr(a)) + x == Print(Arr(b)) + y
    ensures Meanings(a) == Meanings(b) && x == y
    decreases a, 1
  {
    ArrayShape(a, x);
    ArrayShape(b, y);
    hide Print, MoreItems;
    if a != [] && b != [] {
      ItemsUnique(a, b, x, y);
    } else if a == [] && b == [] {
      Cancel(COMMA, [CLOSE_BRACKET] + x, [CLOSE_BRACKET] + y);
      Cancel(CLOSE_BRACKET, x, y);
    } else if a == [] {
      ItemOpens(b, [CLOSE_BRACKET] + y);
    } else {
      ItemOpens(a, [CLOSE_BRACKET] + x);
    }
  }

  lemma ItemOpens(items: seq<Json>, z: Text)
    requires items != [] && Valid(items[0])
    ensures |MoreItems(items)| > 1 && (MoreItems(items) + z)[1] != CLOSE_BRACKET
  {
    FirstUnit(items[0]);
  }

  lemma {:induction false} ItemsUnique(a: seq<Json>, b: seq<Json>, x: Text, y: Text)
    requires Valid(Arr(a)) && Valid(Arr(b))
    requires MoreItems(a) + ([CLOSE_BRACKET] + x) == MoreItems(b) + ([CLOSE_BRACKET] + y)
    ensures Meanings(a) == Meanings(b) && x == y
    decreases a, 0
  {
    var t, u := MoreItems(a) + ([CLOSE_BRACKET] + x), MoreItems(b) + ([CLOSE_BRACKET] + y);
    assert t[0] == if a == [] then CLOSE_BRACKET else COMMA;
    assert u[0] == if b == [] then CLOSE_BRACKET else COMMA;
    if a == [] {
      assert t == [CLOSE_BRACKET] + x && u == [CLOSE_BRACKET] + y;
      Cancel(CLOSE_BRACKET, x, y);
    } else {
      var p, m := Print(a[0]), MoreItems(a[1..]) + ([CLOSE_BRACKET] + x);
      var q, n := Print(b[0]), MoreItems(b[1..]) + ([CLOSE_BRACKET] + y);
      assert t == [COMMA] + (p + m) && u == [COMMA] + (q + n);
      Cancel(COMMA, p + m, q + n);
      ParseUnique(a[0], b[0], m, n);
      ItemsUnique(a[1..], b[1..], x, y);
    }
  }

  lemma ObjectShape(ms: seq<Member>, x: Text)
    ensures var list := Sorted(Pairs(ms));
            [COMMA] + (Print(Obj(ms)) + x)[1..] ==
            if list == [] then [COMMA] + ([CLOSE_BRACE] + x) else MoreEntries(list) + ([CLOSE_BRACE] + x)
  {
    hide Pairs, Sorted, Entries, MoreEntries;
    var list := Sorted(Pairs(ms));
    EntriesText(list);
    if list != [] {
      Rewrapped(OPEN_BRACE, MoreEntries(list), CLOSE_BRACE, x);
    }
  }

  lemma EntryOpens(list: seq<Pair>, z: Text)
    requires list != []
    ensures |MoreEntries(list)| > 1 && (MoreEntries(list) + z)[1] == QUOTE
  {
  }

  lemma {:induction false} ObjectUnique(a: seq<Member>, b: seq<Member>, x: Text, y: Text)
    requires Valid(Obj(a)) && Valid(Obj(b)) && Print(Obj(a)) + x == Print(Obj(b)) + y
    ensures MemberMap(a) == MemberMap(b) && x == y
    decreases a, |a| + 1
  {
    ObjectShape(a, x);
    ObjectShape(b, y);
    SortedPairs(a);
    SortedPairs(b);
    SortedLength(a);
    hide Print, Pairs, Sorted, MemberMap;
    var la, lb := Sorted(Pairs(a)), Sorted(Pairs(b));
    if la != [] && lb != [] {
      EntriesUnique(a, b, la, lb, x, y);
    } else if la == [] && lb == [] {
      Cancel(COMMA, [CLOSE_BRACE] + x, [CLOSE_BRACE] + y);
      Cancel(CLOSE_BRACE, x, y);
    } else if la == [] {
      EntryOpens(lb, [CLOSE_BRACE] + y);
    } else {
      EntryOpens(la, [CLOSE_BRACE] + x);
    }
    SameMap(a, b, la, lb);
  }

  /** Two lists of the same keys whose members mean the same. */
  ghost predicate Agree(a: seq<Member>, b: seq<Member>, la: seq<Pair>, lb: seq<Pair>) {
    && |la| == |lb|
    && forall i :: 0 <= i < |la| ==>
         && la[i].0 == lb[i].0 && la[i].0 in MemberMap(a) && la[i].0 in MemberMap(b)
         && MemberMap(a)[la[i].0] == MemberMap(b)[la[i].0]
  }

  lemma SameMap(a: seq<Member>, b: seq<Member>, la: seq<Pair>, lb: seq<Pair>)
    requires Agree(a, b, la, lb)
    requires forall k :: k in MemberMap(a) <==> exists i :: 0 <= i < |la| && la[i].0 == k
    requires forall k :: k in MemberMap(b) <==> exists i :: 0 <= i < |lb| && lb[i].0 == k
    ensures MemberMap(a) == MemberMap(b)
  {
    var m, n := MemberMap(a), MemberMap(b);
    forall k ensures (k in m <==> k in n) && (k in m ==> m[k] == n[k]) {
      if k in m {
        var i :| 0 <= i < |la| && la[i].0 == k;
      }
      if k in n {
        var i :| 0 <= i < |lb| && lb[i].0 == k;
        assert la[i].0 == k;
      }
    }
  }

  lemma SortedLength(ms: seq<Member>)
    requires MembersOk(ms)
    ensures |Sorted(Pairs(ms))| <= |ms|
  {
    PairsFromMembers(ms);
    SortedKeeps(Pairs(ms));
    assert |Sorted(Pairs(ms))| == |multiset(Sorted(Pairs(ms)))| == |Pairs(ms)|;
    PairsLength(ms);
  }

  lemma PairsLength(ms: seq<Member>)
    ensures |Pairs(ms)| <= |ms|
  {
  }

  lemma EntryShape(list: seq<Pair>, z: Text)
    requires list != []
    ensures MoreEntries(list) + z
            == [COMMA] + (Quoted(list[0].0) + ([COLON] + (list[0].1 + (MoreEntries(list[1..]) + z))))
  {
    hide Quoted;
    var q, v, m := Quoted(list[0].0), list[0].1, MoreEntries(list[1..]);
    assert MoreEntries(list) == [COMMA] + ((q + [COLON]) + v) + m;
  }

  lemma {:induction false} EntriesUnique(
      a: seq<Member>, b: seq<Member>, la: seq<Pair>, lb: seq<Pair>, x: Text, y: Text)
    requires MembersOk(a) && MembersOk(b) && From(a, la) && From(b, lb) && |la| <= |a|
    requires MoreEntries(la) + ([CLOSE_BRACE] + x) == MoreEntries(lb) + ([CLOSE_BRACE] + y)
    ensures Agree(a, b, la, lb) && x == y
    decreases a, |la|
  {
    hide Quoted, Print, MemberMap;
    var t, u := MoreEntries(la) + ([CLOSE_BRACE] + x), MoreEntries(lb) + ([CLOSE_BRACE] + y);
    assert t[0] == if la == [] then CLOSE_BRACE else COMMA;
    assert u[0] == if lb == [] then CLOSE_BRACE else COMMA;
    if la == [] {
      assert t == [CLOSE_BRACE] + x && u == [CLOSE_BRACE] + y;
      Cancel(CLOSE_BRACE, x, y);
    } else {
      EntryShape(la, [CLOSE_BRACE] + x);
      EntryShape(lb, [CLOSE_BRACE] + y);
      hide MoreEntries;
      var m, n := MoreEntries(la[1..]) + ([CLOSE_BRACE] + x), MoreEntries(lb[1..]) + ([CLOSE_BRACE] + y);
      Cancel(COMMA, Quoted(la[0].0) + ([COLON] + (la[0].1 + m)), Quoted(lb[0].0) + ([COLON] + (lb[0].1 + n)));
      QuotedUnique(la[0].0, lb[0].0, [COLON] + (la[0].1 + m), [COLON] + (lb[0].1 + n));
      Cancel(COLON, la[0].1 + m, lb[0].1 + n);
      assert la[0] in la && lb[0] in lb;
      var i :| Behind(a, la[0], i);
      var j :| Behind(b, lb[0], j);
      EntriesEnd(la[1..], x);
      EntriesEnd(lb[1..], y);
      ParseUnique(a[i].value, b[j].value, m, n);
      FromTail(a, la);
      FromTail(b, lb);
      EntriesUnique(a, b, la[1..], lb[1..], x, y);
      PairsFromMembers(a);
      PairsFromMembers(b);
      AgreeStep(a, b, la, lb);
    }
  }

  lemma FromTail(ms: seq<Member>, list: seq<Pair>)
    requires From(ms, list) && list != []
    ensures From(ms, list[1..])
  {
    assert forall p :: p in list[1..] ==> p in list;
  }

  lemma EntriesEnd(list: seq<Pair>, x: Text)
    ensures Ends(MoreEntries(list) + ([CLOSE_BRACE] + x))
  {
  }

  lemma AgreeStep(a: seq<Member>, b: seq<Member>, la: seq<Pair>, lb: seq<Pair>)
    requires la != [] && lb != [] && Agree(a, b, la[1..], lb[1..])
    requires la[0].0 == lb[0].0 && la[0].0 in MemberMap(a) && la[0].0 in MemberMap(b)
    requires MemberMap(a)[la[0].0] == MemberMap(b)[la[0].0]
    ensures Agree(a, b, la, lb)
  {
    forall i | 0 <= i < |la|
      ensures la[i].0 == lb[i].0 && la[i].0 in MemberMap(a) && la[i].0 in MemberMap(b)
      ensures MemberMap(a)[la[i].0] == MemberMap(b)[la[i].0]
    {
      if i > 0 {
        assert la[i] == la[1..][i - 1] && lb[i] == lb[1..][i - 1];
      }
    }
  }

  // ---------------------------------------------------------------------
  // Equal meanings print the same text
  // ---------------------------------------------------------------------

  lemma {:induction false} SameText(a: Json, b: Json)
    requires Valid(a) && Valid(b) && Meaning(a) == Meaning(b)
    ensures Print(a) == Print(b)
    decreases a, 1
  {
    hide Escaped, Quoted, Pairs, Sorted, Entries, MoreItems, Items;
    match a {
      case Arr(items) =>
        SameItems(items, b.items);
        ItemsText(items);
        ItemsText(b.items);
      case Obj(ms) =>
        SamePairs(ms, b.members);
      case _ =>
    }
  }

  lemma {:induction false} SameItems(a: seq<Json>, b: seq<Json>)
    requires Valid(Arr(a)) && Valid(Arr(b)) && Meanings(a) == Meanings(b)
    ensures MoreItems(a) == MoreItems(b) && |a| == |b|
    decreases a, 0
  {
    if a != [] && b != [] {
      assert Meanings(a)[0] == Meaning(a[0]) && Meanings(b)[0] == Meaning(b[0]);
      assert Meanings(a)[1..] == Meanings(a[1..]) && Meanings(b)[1..] == Meanings(b[1..]);
      SameText(a[0], b[0]);
      SameItems(a[1..], b[1..]);
    }
  }

  lemma {:induction false} SamePairs(a: seq<Member>, b: seq<Member>)
    requires MembersOk(a) && MembersOk(b) && MemberMap(a) == MemberMap(b)
    ensures Sorted(Pairs(a)) == Sorted(Pairs(b))
    decreases a, 0
  {
    PairsFromMembers(a);
    PairsFromMembers(b);
    SortedKeeps(Pairs(a));
    SortedKeeps(Pairs(b));
    hide Print, Meaning, MemberMap, Pairs, Sorted;
    forall p ensures p in Sorted(Pairs(a)) <==> p in Sorted(Pairs(b)) {
      SortedMembers(Pairs(a), p);
      SortedMembers(Pairs(b), p);
      if p.0 in MemberMap(a) {
        var i :| At(a, p.0, i);
        var j :| At(b, p.0, j);
        assert MemberMap(a)[p.0] == Meaning(a[i].value) && MemberMap(b)[p.0] == Meaning(b[j].value);
        SameText(a[i].value, b[j].value);
        SameMember(a, p, i);
        SameMember(b, p, j);
      }
    }
    OrderedUnique(Sorted(Pairs(a)), Sorted(Pairs(b)));
  }

  /** The one pair with a given key is printed from the one member with that key. */
  lemma SameMember(ms: seq<Member>, p: Pair, i: int)
    requires MembersOk(ms) && At(ms, p.0, i)
    ensures p in Pairs(ms) <==> p.1 == Print(ms[i].value)
  {
    PairsFromMembers(ms);
    if p in Pairs(ms) {
      var j :| At(ms, p.0, j) && p.1 == Print(ms[j].value);
      assert j == i;
    }
  }

  /** stableStringify prints two values alike exactly when they mean the same. */
  lemma PrintDecidesEquality(a: Json, b: Json)
    requires Valid(a) && Valid(b)
    ensures Print(a) == Print(b) <==> Meaning(a) == Meaning(b)
  {
    if Print(a) == Print(b) {
      ParseUnique(a, b, [], []);
    }
    if Meaning(a) == Meaning(b) {
      SameText(a, b);
    }
  }

  const SAMPLE_LIST := [Null, Bool(true)]

  const SAMPLE := [Member([98], Arr(SAMPLE_LIST)), Member([97], Undefined), Member([65], Str([10, 34]))]

  /** An object with three members, one of them undefined, prints as {"A":"\n\"","b":[null,true]}. */
  lemma SampleText()
    ensures var text, list := [QUOTE, BACKSLASH, 110, BACKSLASH, QUOTE, QUOTE],
                              [OPEN_BRACKET] + NULL + [COMMA] + TRUE + [CLOSE_BRACKET];
            Print(Obj(SAMPLE)) ==
            [OPEN_BRACE]
            + (([QUOTE, 65, QUOTE] + [COLON] + text) + ([COMMA] + ([QUOTE, 98, QUOTE] + [COLON] + list)))
            + [CLOSE_BRACE]
  {
    var list := [OPEN_BRACKET] + NULL + [COMMA] + TRUE + [CLOSE_BRACKET];
    var text := [QUOTE, BACKSLASH, 110, BACKSLASH, QUOTE, QUOTE];
    var pb, pc: Pair := ([98], list), ([65], text);
    SampleList();
    SampleString();
    SamplePairs(pb, pc);
    SampleSorted(pb, pc);
    SampleKey(98);
    SampleKey(65);
    assert Print(Obj(SAMPLE)) == [OPEN_BRACE] + Entries(Sorted(Pairs(SAMPLE))) + [CLOSE_BRACE];
    SampleEntries(pb, pc);
    assert Entry(pc) == [QUOTE, 65, QUOTE] + [COLON] + text;
    assert Entry(pb) == [QUOTE, 98, QUOTE] + [COLON] + list;
    hide *;
  }

  lemma SampleEntries(pb: Pair, pc: Pair)
    ensures Entries([pc, pb]) == Entry(pc) + ([COMMA] + Entry(pb))
  {
    var none: seq<Pair> := [];
    hide Entry;
    assert [pc, pb][1..] == [pb] && [pb][1..] == none;
    assert MoreEntries([pb]) == [COMMA] + Entry(pb) + MoreEntries(none);
  }

  lemma SampleList()
    ensures Print(Arr(SAMPLE_LIST)) == [OPEN_BRACKET] + NULL + [COMMA] + TRUE + [CLOSE_BRACKET]
  {
    assert SAMPLE_LIST[1..] == [Bool(true)] && [Bool(true)][1..] == [];
    assert MoreItems([Bool(true)]) == [COMMA] + TRUE + MoreItems([]);
    assert Items(SAMPLE_LIST) == NULL + MoreItems([Bool(true)]);
  }

  lemma SamplePairs(pb: Pair, pc: Pair)
    requires pb == ([98], Print(Arr(SAMPLE_LIST))) && pc == ([65], Print(Str([10, 34])))
    ensures Pairs(SAMPLE) == [pb, pc]
  {
    var b, c := SAMPLE[1], SAMPLE[2];
    assert SAMPLE[1..] == [b, c] && [b, c][1..] == [c] && [c][1..] == [];
    hide Print;
    assert Pairs([c]) == [pc] + Pairs([]);
    assert Pairs([b, c]) == [] + Pairs([c]);
    assert Pairs(SAMPLE) == [pb] + Pairs([b, c]);
  }

  lemma SampleSorted(pb: Pair, pc: Pair)
    requires pb.0 == [98] && pc.0 == [65]
    ensures Sorted([pb, pc]) == [pc, pb]
  {
    var none: seq<Pair> := [];
    assert [pb, pc][1..] == [pc] && [pc][1..] == none;
    assert Sorted([pc]) == Insert(pc, none) == [pc];
    assert !Less(pb.0, pc.0);
    assert Insert(pb, [pc]) == [pc] + Insert(pb, none);
  }

  lemma SampleString()
    ensures Print(Str([10, 34])) == [QUOTE, BACKSLASH, 110, BACKSLASH, QUOTE, QUOTE]
  {
    var s: Text := [10, 34];
    assert s[1..] == [34] && s[1..][1..] == [];
    assert Escaped([34]) == [BACKSLASH, QUOTE];
    assert Escaped(s) == [BACKSLASH, 110] + Escaped([34]);
  }

  lemma SampleKey(u: Unit)
    requires u == 65 || u == 98
    ensures Quoted([u]) == [QUOTE, u, QUOTE]
  {
    var s: Text := [u];
    assert s[1..] == [] && EscapeUnit(u) == [u];
    assert Escaped(s) == [u] + Escaped([]);
  }

  // ---------------------------------------------------------------------
  // Fingerprints
  // ---------------------------------------------------------------------

  predicate NoNewline(t: Text) {
    forall i :: 0 <= i < |t| ==> t[i] != NEWLINE
  }

  lemma {:induction false} EscapedNoNewline(s: Text)
    ensures NoNewline(Escaped(s))
  {
    if s != [] {
      if High(s[0]) && |s| > 1 && Low(s[1]) {
        EscapedNoNewline(s[2..]);
      } else {
        EscapedNoNewline(s[1..]);
      }
    }
  }

  lemma Within(inner: Text, outer: Text, open: Unit, close: Unit)
    requires NoNewline(outer) && (inner == [] || (outer != [] && inner == outer[1..]))
    requires open != NEWLINE && close != NEWLINE
    ensures NoNewline([open] + inner + [close])
  {
  }

  lemma {:induction false} PrintNoNewline(j: Json)
    requires Valid(j)
    ensures NoNewline(Print(j))
    decreases j, 1
  {
    hide Escaped, Pairs, Sorted, Entries, MoreEntries, MoreItems, Items;
    match j {
      case Str(s) =>
        EscapedNoNewline(s);
      case Arr(items) =>
        ItemsNoNewline(items);
        ItemsText(items);
        Within(Items(items), MoreItems(items), OPEN_BRACKET, CLOSE_BRACKET);
      case Obj(ms) =>
        var list := Sorted(Pairs(ms));
        SortedPairs(ms);
        forall p | p in list ensures NoNewline(p.1) {
          var i :| Behind(ms, p, i);
          PrintNoNewline(ms[i].value);
        }
        EntriesNoNewline(list);
        EntriesText(list);
        Within(Entries(list), MoreEntries(list), OPEN_BRACE, CLOSE_BRACE);
      case _ =>
    }
  }

  lemma {:induction false} ItemsNoNewline(items: seq<Json>)
    requires Valid(Arr(items))
    ensures NoNewline(MoreItems(items))
    decreases items, 0
  {
    if items != [] {
      PrintNoNewline(items[0]);
      ItemsNoNewline(items[1..]);
    }
  }

  lemma {:induction false} EntriesNoNewline(list: seq<Pair>)
    requires forall p :: p in list ==> NoNewline(p.1)
    ensures NoNewline(MoreEntries(list))
  {
    if list != [] {
      EscapedNoNewline(list[0].0);
      EntriesNoNewline(list[1..]);
    }
  }

  /** The text fingerprintOf hashes. */
  function FingerprintText(scope: Text, action: Text, payload: Json): Text {
    scope + [NEWLINE] + action + [NEWLINE] + Print(payload)
  }

  /**
   * Two requests hash the same text exactly when they name the same scope and action
   * and their payloads mean the same. Scope ids hold no newline; actions may.
   */
  lemma FingerprintDecidesRequest(s1: Text, a1: Text, p1: Json, s2: Text, a2: Text, p2: Json)
    requires Valid(p1) && Valid(p2) && NoNewline(s1) && NoNewline(s2)
    ensures FingerprintText(s1, a1, p1) == FingerprintText(s2, a2, p2) <==>
            s1 == s2 && a1 == a2 && Meaning(p1) == Meaning(p2)
  {
    PrintDecidesEquality(p1, p2);
    PrintNoNewline(p1);
    PrintNoNewline(p2);
    hide Print, Meaning, NoNewline;
    Grouped(s1, a1, Print(p1));
    Grouped(s2, a2, Print(p2));
    if FingerprintText(s1, a1, p1) == FingerprintText(s2, a2, p2) {
      FirstNewline(s1, a1 + ([NEWLINE] + Print(p1)), s2, a2 + ([NEWLINE] + Print(p2)));
      LastNewline(a1, Print(p1), a2, Print(p2));
    }
  }

  lemma Grouped(s: Text, a: Text, p: Text)
    ensures s + [NEWLINE] + a + [NEWLINE] + p == s + ([NEWLINE] + (a + ([NEWLINE] + p)))
  {
  }

  /** The scope ends at the first newline. */
  lemma FirstNewline(a: Text, x: Text, b: Text, y: Text)
    requires NoNewline(a) && NoNewline(b) && a + ([NEWLINE] + x) == b + ([NEWLINE] + y)
    ensures a == b && x == y
  {
    var t := a + ([NEWLINE] + x);
    assert t[|a|] == NEWLINE && t[|b|] == NEWLINE;
    assert forall i :: 0 <= i < |a| || 0 <= i < |b| ==> t[i] != NEWLINE;
    SplitAt(a, [NEWLINE] + x, b, [NEWLINE] + y);
    Cancel(NEWLINE, x, y);
  }

  /** The printed payload starts after the last newline. */
  lemma LastNewline(a: Text, x: Text, b: Text, y: Text)
    requires NoNewline(x) && NoNewline(y) && a + ([NEWLINE] + x) == b + ([NEWLINE] + y)
    ensures a == b && x == y
  {
    var t := a + ([NEWLINE] + x);
    assert t[|a|] == NEWLINE && t[|b|] == NEWLINE;
    assert forall i :: |a| < i < |t| ==> t[i] == x[i - |a| - 1];
    assert forall i :: |b| < i < |t| ==> t[i] == y[i - |b| - 1];
    SplitAt(a, [NEWLINE] + x, b, [NEWLINE] + y);
    Cancel(NEWLINE, x, y);
  }
}
