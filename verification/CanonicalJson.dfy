/** The canonical JSON printer that approvals and replay detection compare, and a reader for
    the RFC 8259 grammar (integers only) that proves the printer loses nothing but key order. */
module CanonicalJson {
  import opened Wrappers
  import opened Utf8

  datatype Json =
    | Null
    | Bool(b: bool)
    | Number(n: int)
    | String(s: Str)
    | Array(items: seq<Json>)
    | Object(members: seq<Member>)   // insertion order of the dict

  datatype Member = Member(key: Str, value: Json)

  // ---- Printing ----

  const QUOTE: CodePoint := 34
  const BACKSLASH: CodePoint := 92
  const COMMA: CodePoint := 44
  const COLON: CodePoint := 58
  const LBRACKET: CodePoint := 91
  const RBRACKET: CodePoint := 93
  const LBRACE: CodePoint := 123
  const RBRACE: CodePoint := 125
  const MINUS: CodePoint := 45
  const LOWER_U: CodePoint := 117

  const NULL_TEXT: Str := [110, 117, 108, 108]
  const TRUE_TEXT: Str := [116, 114, 117, 101]
  const FALSE_TEXT: Str := [102, 97, 108, 115, 101]

  function Digits(n: nat): (r: Str)
    ensures |r| > 0
  {
    if n < 10 then [48 + n] else Digits(n / 10) + [48 + n % 10]
  }

  function NumberText(n: int): Str {
    if n < 0 then [MINUS] + Digits(-n) else Digits(n)
  }

  function HexDigit(d: nat): CodePoint
    requires d < 16
  {
    if d < 10 then 48 + d else 87 + d
  }

  /** Only the quote, the backslash and the C0 controls are escaped. */
  function EscapeChar(c: CodePoint): Str {
    if c == QUOTE then [BACKSLASH, QUOTE]
    else if c == BACKSLASH then [BACKSLASH, BACKSLASH]
    else if c == 8 then [BACKSLASH, 98]
    else if c == 9 then [BACKSLASH, 116]
    else if c == 10 then [BACKSLASH, 110]
    else if c == 12 then [BACKSLASH, 102]
    else if c == 13 then [BACKSLASH, 114]
    else if c < 0x20 then [BACKSLASH, LOWER_U, 48, 48, HexDigit(c / 16), HexDigit(c % 16)]
    else [c]
  }

  function Escape(s: Str): Str {
    if s == [] then [] else EscapeChar(s[0]) + Escape(s[1..])
  }

  function Quote(s: Str): Str { [QUOTE] + Escape(s) + [QUOTE] }

  /** Prints members in the order given, without whitespace. */
  function Print(j: Json): Str
    decreases j, 0
  {
    match j
    case Null => NULL_TEXT
    case Bool(b) => if b then TRUE_TEXT else FALSE_TEXT
    case Number(n) => NumberText(n)
    case String(s) => Quote(s)
    case Array(items) => [LBRACKET] + PrintItems(items) + [RBRACKET]
    case Object(members) => [LBRACE] + PrintMembers(members) + [RBRACE]
  }

  function PrintItems(items: seq<Json>): Str
    decreases items, 1
  {
    if items == [] then []
    else if |items| == 1 then Print(items[0])
    else Print(items[0]) + [COMMA] + PrintItems(items[1..])
  }

  function PrintMember(m: Member): Str
    decreases m, 1
  {
    Quote(m.key) + [COLON] + Print(m.value)
  }

  function PrintMembers(members: seq<Member>): Str
    decreases members, 2
  {
    if members == [] then []
    else if |members| == 1 then PrintMember(members[0])
    else PrintMember(members[0]) + [COMMA] + PrintMembers(members[1..])
  }

  // ---- Key order ----

  /** Comparison of `str` keys: code point by code point, a proper prefix first. */
  predicate KeyLess(a: Str, b: Str) {
    b != [] && (a == [] || a[0] < b[0] || (a[0] == b[0] && KeyLess(a[1..], b[1..])))
  }

  function Insert(m: Member, sorted: seq<Member>): seq<Member> {
    if sorted == [] || KeyLess(m.key, sorted[0].key) then [m] + sorted
    else [sorted[0]] + Insert(m, sorted[1..])
  }

  function SortMembers(ms: seq<Member>): seq<Member> {
    if ms == [] then [] else Insert(ms[0], SortMembers(ms[1..]))
  }

  /** The value with every object's members in key order. */
  function Sorted(j: Json): Json
    decreases j, 0
  {
    match j
    case Array(items) => Array(SortedItems(items))
    case Object(members) => Object(SortMembers(SortedMembers(members)))
    case _ => j
  }

  function SortedItems(items: seq<Json>): (r: seq<Json>)
    ensures |r| == |items|
    decreases items, 1
  {
    if items == [] then [] else [Sorted(items[0])] + SortedItems(items[1..])
  }

  function SortedMembers(ms: seq<Member>): (r: seq<Member>)
    ensures |r| == |ms|
    decreases ms, 1
  {
    if ms == [] then [] else [Member(ms[0].key, Sorted(ms[0].value))] + SortedMembers(ms[1..])
  }

  /** `canonicalize_payload`; None is CanonicalPayloadError (a lone surrogate somewhere). */
  function Canonicalize(j: Json): Option<Bytes> {
    var text := Print(Sorted(j));
    if AllScalars(text) then Some(Encode(text)) else None
  }

  // ---- Reading ----

  datatype Read<+T> = Reject | Accept(value: T, rest: Str)

  predicate IsDigit(c: CodePoint) { 48 <= c <= 57 }

  predicate IsSpace(c: CodePoint) { c == 0x20 || c == 9 || c == 10 || c == 13 }

  function SkipSpace(s: Str): (r: Str)
    ensures |r| <= |s|
  {
    if s != [] && IsSpace(s[0]) then SkipSpace(s[1..]) else s
  }

  function LeadingDigits(s: Str): (k: nat)
    ensures k <= |s|
    ensures forall i | 0 <= i < k :: IsDigit(s[i])
  {
    if s != [] && IsDigit(s[0]) then 1 + LeadingDigits(s[1..]) else 0
  }

  function DigitsValue(s: Str): nat
    requires forall i | 0 <= i < |s| :: IsDigit(s[i])
  {
    if s == [] then 0 else
      var last: int := s[|s| - 1];
      assert IsDigit(last);
      DigitsValue(s[..|s| - 1]) * 10 + (last - 48)
  }

  function ReadNat(s: Str): (r: Read<nat>)
    ensures r.Accept? ==> |r.rest| < |s|
  {
    var k := LeadingDigits(s);
    if k == 0 || (k > 1 && s[0] == 48) then Reject
    else Accept(DigitsValue(s[..k]), s[k..])
  }

  function HexValue(c: CodePoint): Option<nat> {
    if 48 <= c <= 57 then Some(c - 48)
    else if 97 <= c <= 102 then Some(c - 87)
    else if 65 <= c <= 70 then Some(c - 55)
    else None
  }

  function ReadHex4(s: Str): (r: Option<nat>)
    ensures r.Some? ==> |s| >= 4 && r.value < 0x1_0000
  {
    if |s| < 4 then None
    else match (HexValue(s[0]), HexValue(s[1]), HexValue(s[2]), HexValue(s[3]))
      case (Some(a), Some(b), Some(c), Some(d)) =>
        if a < 16 && b < 16 && c < 16 && d < 16 then Some(((a * 16 + b) * 16 + c) * 16 + d) else None
      case _ => None
  }

  function SimpleEscape(c: CodePoint): Option<CodePoint> {
    if c == QUOTE || c == BACKSLASH || c == 47 then Some(c)
    else if c == 98 then Some(8)
    else if c == 102 then Some(12)
    else if c == 110 then Some(10)
    else if c == 114 then Some(13)
    else if c == 116 then Some(9)
    else None
  }

  /** One string character, escaped or not; a \u surrogate pair is one code point. */
  function ReadChar(s: Str): (r: Read<CodePoint>)
    ensures r.Accept? ==> |r.rest| < |s|
  {
    if s == [] || s[0] < 0x20 || s[0] == QUOTE then Reject
    else if s[0] != BACKSLASH then Accept(s[0], s[1..])
    else if |s| < 2 then Reject
    else if s[1] != LOWER_U then
      match SimpleEscape(s[1])
      case Some(c) => Accept(c, s[2..])
      case None => Reject
    else
      match ReadHex4(s[2..])
      case None => Reject
      case Some(u) =>
        if 0xD800 <= u < 0xDC00 && |s| >= 8 && s[6] == BACKSLASH && s[7] == LOWER_U
           && ReadHex4(s[8..]).Some? && 0xDC00 <= ReadHex4(s[8..]).value < 0xE000
        then Accept(0x1_0000 + (u - 0xD800) * 0x400 + (ReadHex4(s[8..]).value - 0xDC00), s[12..])
        else Accept(u, s[6..])
  }

  /** The characters up to and including the closing quote. */
  function ReadChars(s: Str): (r: Read<Str>)
    ensures r.Accept? ==> |r.rest| < |s|
    decreases |s|
  {
    if s != [] && s[0] == QUOTE then Accept([], s[1..])
    else match ReadChar(s)
      case Reject => Reject
      case Accept(c, rest) =>
        match ReadChars(rest)
        case Reject => Reject
        case Accept(cs, rest') => Accept([c] + cs, rest')
  }

  predicate StartsWith(s: Str, c: CodePoint) { s != [] && s[0] == c }

  function ReadValue(text: Str): (r: Read<Json>)
    ensures r.Accept? ==> |r.rest| < |text|
    decreases |text|, 1
  {
    var s := SkipSpace(text);
    if s == [] then Reject
    else if NULL_TEXT <= s then Accept(Null, s[4..])
    else if TRUE_TEXT <= s then Accept(Bool(true), s[4..])
    else if FALSE_TEXT <= s then Accept(Bool(false), s[5..])
    else if s[0] == QUOTE then
      match ReadChars(s[1..])
      case Reject => Reject
      case Accept(cs, rest) => Accept(String(cs), rest)
    else if s[0] == LBRACKET then
      if StartsWith(SkipSpace(s[1..]), RBRACKET) then Accept(Array([]), SkipSpace(s[1..])[1..])
      else match ReadItems(s[1..])
        case Reject => Reject
        case Accept(items, rest) => Accept(Array(items), rest)
    else if s[0] == LBRACE then
      if StartsWith(SkipSpace(s[1..]), RBRACE) then Accept(Object([]), SkipSpace(s[1..])[1..])
      else match ReadMembers(s[1..])
        case Reject => Reject
        case Accept(members, rest) => Accept(Object(members), rest)
    else if s[0] == MINUS then
      match ReadNat(s[1..])
      case Reject => Reject
      case Accept(n, rest) => Accept(Number(0 - n), rest)
    else
      match ReadNat(s)
      case Reject => Reject
      case Accept(n, rest) => Accept(Number(n), rest)
  }

  /** One or more values separated by commas, and the closing bracket. */
  function ReadItems(s: Str): (r: Read<seq<Json>>)
    ensures r.Accept? ==> |r.rest| < |s|
    decreases |s|, 2
  {
    match ReadValue(s)
    case Reject => Reject
    case Accept(v, rest) =>
      var s' := SkipSpace(rest);
      if StartsWith(s', RBRACKET) then Accept([v], s'[1..])
      else if !StartsWith(s', COMMA) then Reject
      else match ReadItems(s'[1..])
        case Reject => Reject
        case Accept(vs, rest') => Accept([v] + vs, rest')
  }

  function ReadMember(text: Str): (r: Read<Member>)
    ensures r.Accept? ==> |r.rest| < |text|
    decreases |text|, 2
  {
    var s := SkipSpace(text);
    if !StartsWith(s, QUOTE) then Reject
    else match ReadChars(s[1..])
      case Reject => Reject
      case Accept(key, rest) =>
        var s' := SkipSpace(rest);
        if !StartsWith(s', COLON) then Reject
        else match ReadValue(s'[1..])
          case Reject => Reject
          case Accept(v, rest') => Accept(Member(key, v), rest')
  }

  function ReadMembers(s: Str): (r: Read<seq<Member>>)
    ensures r.Accept? ==> |r.rest| < |s|
    decreases |s|, 3
  {
    match ReadMember(s)
    case Reject => Reject
    case Accept(m, rest) =>
      var s' := SkipSpace(rest);
      if StartsWith(s', RBRACE) then Accept([m], s'[1..])
      else if !StartsWith(s', COMMA) then Reject
      else match ReadMembers(s'[1..])
        case Reject => Reject
        case Accept(ms, rest') => Accept([m] + ms, rest')
  }

  /** A whole document: one value with nothing but space after it. */
  function ReadDocument(text: Str): Option<Json> {
    match ReadValue(text)
    case Reject => None
    case Accept(v, rest) => if SkipSpace(rest) == [] then Some(v) else None
  }

  // ---- What is printed is read back ----

  lemma {:induction false} DigitsRead(n: nat, rest: Str)
    requires rest != [] ==> !IsDigit(rest[0])
    ensures ReadNat(Digits(n) + rest) == Accept(n, rest)
  {
    DigitsShape(n);
    LeadingDigitsExact(Digits(n), rest);
    var s := Digits(n) + rest;
    assert s[..|Digits(n)|] == Digits(n) && s[|Digits(n)|..] == rest;
  }

  lemma {:induction false} DigitsShape(n: nat)
    ensures forall i | 0 <= i < |Digits(n)| :: IsDigit(Digits(n)[i])
    ensures DigitsValue(Digits(n)) == n
    ensures n > 0 ==> Digits(n)[0] != 48
    ensures n < 10 ==> |Digits(n)| == 1
  {
    if n >= 10 {
      DigitsShape(n / 10);
      var d := Digits(n);
      assert d[..|d| - 1] == Digits(n / 10);
    }
  }

  lemma {:induction false} LeadingDigitsExact(d: Str, rest: Str)
    requires forall i | 0 <= i < |d| :: IsDigit(d[i])
    requires rest != [] ==> !IsDigit(rest[0])
    ensures LeadingDigits(d + rest) == |d|
  {
    if d == [] {
      assert d + rest == rest;
    } else {
      assert (d + rest)[1..] == d[1..] + rest;
      LeadingDigitsExact(d[1..], rest);
    }
  }

  lemma EscapeCharRead(c: CodePoint, rest: Str)
    ensures ReadChar(EscapeChar(c) + rest) == Accept(c, rest)
    ensures EscapeChar(c) != [] && EscapeChar(c)[0] != QUOTE
  {
    var e := EscapeChar(c);
    var s := e + rest;
    assert s[|e|..] == rest;
    if c < 0x20 && |e| == 6 {
      assert s[2..][0] == 48 && s[2..][1] == 48;
      assert s[2..][2] == HexDigit(c / 16) && s[2..][3] == HexDigit(c % 16);
      assert ReadHex4(s[2..]) == Some(c);
    }
  }

  lemma {:induction false} EscapeRead(s: Str, rest: Str)
    ensures ReadChars(Escape(s) + [QUOTE] + rest) == Accept(s, rest)
  {
    hide ReadChar, EscapeChar;
    if s == [] {
      assert Escape(s) + [QUOTE] + rest == [QUOTE] + rest;
    } else {
      var tail := Escape(s[1..]) + [QUOTE] + rest;
      assert Escape(s) + [QUOTE] + rest == EscapeChar(s[0]) + tail;
      EscapeCharRead(s[0], tail);
      EscapeRead(s[1..], rest);
      assert s == [s[0]] + s[1..];
    }
  }

  lemma QuoteRead(s: Str, rest: Str)
    ensures var q := Quote(s) + rest; q[0] == QUOTE && ReadChars(q[1..]) == Accept(s, rest)
  {
    hide Escape, ReadChars;
    EscapeRead(s, rest);
    assert (Quote(s) + rest)[1..] == Escape(s) + [QUOTE] + rest;
  }

  /** A printed value starts with a character that is neither space nor a closing mark. */
  lemma PrintStart(j: Json)
    ensures Print(j) != [] && !IsSpace(Print(j)[0])
    ensures Print(j)[0] != RBRACKET && Print(j)[0] != RBRACE
  {
    match j
    case Number(n) => DigitsShape(if n < 0 then -n else n);
    case _ =>
  }

  /** What may follow a value without becoming part of it. */
  predicate Delimited(rest: Str) { rest == [] || !IsDigit(rest[0]) }

  lemma NumberRead(n: int, rest: Str)
    requires Delimited(rest)
    ensures ReadValue(NumberText(n) + rest) == Accept(Number(n), rest)
  {
    hide Digits, ReadNat;
    var m: nat := if n < 0 then -n else n;
    DigitsShape(m);
    assert IsDigit(Digits(m)[0]);
    DigitsRead(m, rest);
    var s := NumberText(n) + rest;
    assert SkipSpace(s) == s;
    if n < 0 {
      assert s[1..] == Digits(m) + rest;
    }
  }

  lemma {:induction false} PrintRead(j: Json, rest: Str)
    requires Delimited(rest)
    ensures ReadValue(Print(j) + rest) == Accept(j, rest)
    decreases j, 0
  {
    hide Escape, Digits, ReadChars, ReadNat, Delimited;
    PrintStart(j);
    var s := Print(j) + rest;
    assert SkipSpace(s) == s;
    match j
    case Null => assert s[4..] == rest;
    case Bool(b) =>
      if b { assert s[4..] == rest; } else { assert s[5..] == rest; }
    case Number(n) => NumberRead(n, rest);
    case String(t) => QuoteRead(t, rest);
    case Array(items) =>
      var body := PrintItems(items) + [RBRACKET] + rest;
      assert s[1..] == body;
      if items == [] {
        assert body == [RBRACKET] + rest;
        assert SkipSpace(body) == body && body[1..] == rest;
      } else {
        PrintStart(items[0]);
        ItemsRead(items, rest);
        assert SkipSpace(body) == body && body[0] == Print(items[0])[0];
      }
    case Object(members) =>
      var body := PrintMembers(members) + [RBRACE] + rest;
      assert s[1..] == body;
      if members == [] {
        assert body == [RBRACE] + rest;
        assert SkipSpace(body) == body && body[1..] == rest;
      } else {
        MembersRead(members, rest);
        assert body[0] == QUOTE && SkipSpace(body) == body;
      }
  }

  lemma {:induction false} ItemsRead(items: seq<Json>, rest: Str)
    requires items != []
    ensures ReadItems(PrintItems(items) + [RBRACKET] + rest) == Accept(items, rest)
    decreases items, 1
  {
    hide Print, ReadValue;
    var s := PrintItems(items) + [RBRACKET] + rest;
    if |items| == 1 {
      assert s == Print(items[0]) + ([RBRACKET] + rest);
      PrintRead(items[0], [RBRACKET] + rest);
      assert ([RBRACKET] + rest)[1..] == rest;
      assert items == [items[0]];
    } else {
      var next := PrintItems(items[1..]) + [RBRACKET] + rest;
      assert s == Print(items[0]) + ([COMMA] + next);
      PrintRead(items[0], [COMMA] + next);
      assert ([COMMA] + next)[1..] == next;
      ItemsRead(items[1..], rest);
      assert items == [items[0]] + items[1..];
    }
  }

  lemma {:induction false} MemberRead(m: Member, rest: Str)
    requires Delimited(rest)
    ensures ReadMember(PrintMember(m) + rest) == Accept(m, rest)
    decreases m, 1
  {
    hide Print, ReadValue, Quote, Delimited;
    var value := Print(m.value) + rest;
    var tail := [COLON] + value;
    var s := PrintMember(m) + rest;
    assert s == Quote(m.key) + tail;
    QuoteRead(m.key, tail);
    assert SkipSpace(s) == s && SkipSpace(tail) == tail;
    assert tail[1..] == value;
    PrintRead(m.value, rest);
  }

  lemma {:induction false} MembersRead(members: seq<Member>, rest: Str)
    requires members != []
    ensures ReadMembers(PrintMembers(members) + [RBRACE] + rest) == Accept(members, rest)
    ensures PrintMembers(members) != [] && PrintMembers(members)[0] == QUOTE
    decreases members, 2
  {
    hide Print, ReadMember;
    var s := PrintMembers(members) + [RBRACE] + rest;
    if |members| == 1 {
      assert s == PrintMember(members[0]) + ([RBRACE] + rest);
      MemberRead(members[0], [RBRACE] + rest);
      assert ([RBRACE] + rest)[1..] == rest;
      assert members == [members[0]];
    } else {
      var next := PrintMembers(members[1..]) + [RBRACE] + rest;
      assert s == PrintMember(members[0]) + ([COMMA] + next);
      MemberRead(members[0], [COMMA] + next);
      assert ([COMMA] + next)[1..] == next;
      MembersRead(members[1..], rest);
      assert members == [members[0]] + members[1..];
    }
  }

  lemma PrintInjective(a: Json, b: Json)
    requires Print(a) == Print(b)
    ensures a == b
  {
    PrintRead(a, []);
    PrintRead(b, []);
    assert Print(a) + [] == Print(b) + [];
  }

  // ---- Equality up to key order ----

  ghost predicate DistinctKeys(ms: seq<Member>) {
    forall i, k | 0 <= i < k < |ms| :: ms[i].key != ms[k].key
  }

  /** What every Python value satisfies: a dict holds a key once. */
  ghost predicate WellFormed(j: Json) {
    match j
    case Array(items) => forall i | 0 <= i < |items| :: WellFormed(items[i])
    case Object(ms) => DistinctKeys(ms) && forall i | 0 <= i < |ms| :: WellFormed(ms[i].value)
    case _ => true
  }

  function IndexOf(ms: seq<Member>, key: Str): (k: nat)
    ensures k <= |ms|
    ensures k < |ms| ==> ms[k].key == key
    ensures k == |ms| ==> forall i | 0 <= i < |ms| :: ms[i].key != key
  {
    if ms == [] || ms[0].key == key then 0 else 1 + IndexOf(ms[1..], key)
  }

  /** Equality of the values themselves; dicts hold equal values under the same keys. */
  ghost predicate Same(a: Json, b: Json) {
    match (a, b)
    case (Array(xs), Array(ys)) =>
      |xs| == |ys| && forall i | 0 <= i < |xs| :: Same(xs[i], ys[i])
    case (Object(xs), Object(ys)) =>
      && (forall i | 0 <= i < |xs| ::
            var k := IndexOf(ys, xs[i].key); k < |ys| && Same(xs[i].value, ys[k].value))
      && (forall k | 0 <= k < |ys| :: IndexOf(xs, ys[k].key) < |xs|)
    case _ => a == b
  }

  lemma {:induction false} KeyLessTransitive(a: Str, b: Str, c: Str)
    requires KeyLess(a, b) && KeyLess(b, c)
    ensures KeyLess(a, c)
  {
    if a != [] && a[0] == b[0] == c[0] { KeyLessTransitive(a[1..], b[1..], c[1..]); }
  }

  lemma {:induction false} KeyLessTotal(a: Str, b: Str)
    ensures KeyLess(a, b) || KeyLess(b, a) || a == b
    ensures !(KeyLess(a, b) && KeyLess(b, a)) && !KeyLess(a, a)
  {
    if a != [] && b != [] {
      KeyLessTotal(a[1..], b[1..]);
      if a[0] == b[0] && a[1..] == b[1..] { assert a == [a[0]] + a[1..] && b == [b[0]] + b[1..]; }
    }
    if a != [] { KeyLessTotal(a[1..], a[1..]); }
  }

  ghost predicate StrictlySorted(ms: seq<Member>) {
    forall i, k | 0 <= i < k < |ms| :: KeyLess(ms[i].key, ms[k].key)
  }

  lemma {:induction false} InsertSorts(m: Member, s: seq<Member>)
    requires StrictlySorted(s)
    requires forall i | 0 <= i < |s| :: s[i].key != m.key
    ensures StrictlySorted(Insert(m, s))
    ensures forall x :: x in Insert(m, s) <==> x == m || x in s
  {
    if s != [] {
      KeyLessTotal(m.key, s[0].key);
      if KeyLess(m.key, s[0].key) {
        forall k | 0 <= k < |s|
          ensures KeyLess(m.key, s[k].key)
        {
          if k > 0 { KeyLessTransitive(m.key, s[0].key, s[k].key); }
        }
      } else {
        InsertSorts(m, s[1..]);
        var r := Insert(m, s[1..]);
        forall k | 0 <= k < |r|
          ensures KeyLess(s[0].key, r[k].key)
        {
          assert r[k] in r;
          assert r[k] == m || r[k] in s[1..];
        }
        forall x
          ensures x in Insert(m, s) <==> x == m || x in s
        {
          assert x in s <==> x == s[0] || x in s[1..];
        }
      }
    }
  }

  lemma {:induction false} SortMembersSorts(ms: seq<Member>)
    requires DistinctKeys(ms)
    ensures StrictlySorted(SortMembers(ms))
    ensures forall x :: x in SortMembers(ms) <==> x in ms
  {
    if ms != [] {
      SortMembersSorts(ms[1..]);
      var s := SortMembers(ms[1..]);
      forall i | 0 <= i < |s|
        ensures s[i].key != ms[0].key
      {
        assert s[i] in s;
        assert s[i] in ms[1..];
      }
      InsertSorts(ms[0], s);
      forall x
        ensures x in SortMembers(ms) <==> x in ms
      {
        assert x in ms <==> x == ms[0] || x in ms[1..];
      }
    }
  }

  lemma HeadNotRepeated(x: seq<Member>)
    requires StrictlySorted(x) && x != []
    ensures x[0] !in x[1..]
  {
    KeyLessTotal(x[0].key, x[0].key);
    forall p | 0 <= p < |x| - 1
      ensures x[1..][p] != x[0]
    {
      assert KeyLess(x[0].key, x[p + 1].key);
    }
  }

  lemma HeadLeast(x: seq<Member>, k: nat)
    requires StrictlySorted(x) && k < |x|
    ensures x[0] == x[k] || KeyLess(x[0].key, x[k].key)
  {}

  /** A strictly sorted listing of a set of members is unique. */
  lemma {:induction false} SortedListingUnique(x: seq<Member>, y: seq<Member>)
    requires StrictlySorted(x) && StrictlySorted(y)
    requires forall m :: m in x <==> m in y
    ensures x == y
  {
    assert y != [] ==> y[0] in y;
    if x != [] {
      assert x[0] in y && y[0] in x;
      var i :| 0 <= i < |y| && y[i] == x[0];
      var k :| 0 <= k < |x| && x[k] == y[0];
      KeyLessTotal(x[0].key, y[0].key);
      HeadLeast(y, i);
      HeadLeast(x, k);
      assert x[0] == y[0];
      HeadNotRepeated(x);
      HeadNotRepeated(y);
      forall m
        ensures m in x[1..] <==> m in y[1..]
      {
        assert m in x <==> m == x[0] || m in x[1..];
        assert m in y <==> m == y[0] || m in y[1..];
      }
      SortedListingUnique(x[1..], y[1..]);
    }
  }

  lemma {:induction false} SortedItemsAt(items: seq<Json>, i: nat)
    requires i < |items|
    ensures SortedItems(items)[i] == Sorted(items[i])
  {
    if i > 0 { SortedItemsAt(items[1..], i - 1); }
  }

  lemma {:induction false} SortedMembersAt(ms: seq<Member>, i: nat)
    requires i < |ms|
    ensures SortedMembers(ms)[i] == Member(ms[i].key, Sorted(ms[i].value))
  {
    if i > 0 { SortedMembersAt(ms[1..], i - 1); }
  }

  lemma SortedMembersDistinct(ms: seq<Member>)
    requires DistinctKeys(ms)
    ensures DistinctKeys(SortedMembers(ms))
  {
    forall i, k | 0 <= i < k < |ms|
      ensures SortedMembers(ms)[i].key != SortedMembers(ms)[k].key
    {
      SortedMembersAt(ms, i);
      SortedMembersAt(ms, k);
    }
  }

  /** Sorting keys is a normal form of equality up to key order. */
  lemma {:induction false} SortedIffSame(a: Json, b: Json)
    requires WellFormed(a) && WellFormed(b)
    ensures Sorted(a) == Sorted(b) <==> Same(a, b)
    decreases a
  {
    hide SortedMembers, SortMembers, IndexOf;
    match (a, b)
    case (Array(xs), Array(ys)) =>
      if |xs| == |ys| {
        forall i | 0 <= i < |xs|
          ensures (Sorted(xs[i]) == Sorted(ys[i])) <==> Same(xs[i], ys[i])
          ensures SortedItems(xs)[i] == Sorted(xs[i]) && SortedItems(ys)[i] == Sorted(ys[i])
        {
          SortedIffSame(xs[i], ys[i]);
          SortedItemsAt(xs, i);
          SortedItemsAt(ys, i);
        }
        assert SortedItems(xs) == SortedItems(ys)
               <==> forall i | 0 <= i < |xs| :: SortedItems(xs)[i] == SortedItems(ys)[i];
      }
    case (Object(xs), Object(ys)) =>
      var sx, sy := SortedMembers(xs), SortedMembers(ys);
      forall i | 0 <= i < |xs|
        ensures var k := IndexOf(ys, xs[i].key);
                && IndexOf(sy, sx[i].key) == k
                && (k < |ys| ==> (sx[i].value == sy[k].value <==> Same(xs[i].value, ys[k].value)))
      {
        var k := IndexOf(ys, xs[i].key);
        SortedMembersAt(xs, i);
        IndexOfSortedMembers(ys, xs[i].key);
        if k < |ys| {
          SortedMembersAt(ys, k);
          SortedIffSame(xs[i].value, ys[k].value);
        }
      }
      forall k | 0 <= k < |ys|
        ensures IndexOf(sx, sy[k].key) == IndexOf(xs, ys[k].key)
      {
        SortedMembersAt(ys, k);
        IndexOfSortedMembers(xs, ys[k].key);
      }
      assert SameSorted(sx, sy) <==> Same(a, b);
      ObjectsSortedIffSame(xs, ys);
    case _ =>
  }

  /** Dict equality, read on the members whose values are already sorted. */
  ghost predicate SameSorted(sx: seq<Member>, sy: seq<Member>) {
    && (forall i | 0 <= i < |sx| ::
          var k := IndexOf(sy, sx[i].key); k < |sy| && sx[i].value == sy[k].value)
    && (forall k | 0 <= k < |sy| :: IndexOf(sx, sy[k].key) < |sx|)
  }

  lemma {:induction false} IndexOfSortedMembers(ms: seq<Member>, key: Str)
    ensures IndexOf(SortedMembers(ms), key) == IndexOf(ms, key)
  {
    if ms != [] && ms[0].key != key { IndexOfSortedMembers(ms[1..], key); }
  }

  lemma SameSortedIffSameSet(sx: seq<Member>, sy: seq<Member>)
    requires DistinctKeys(sx) && DistinctKeys(sy)
    ensures SameSorted(sx, sy) <==> forall m :: m in sx <==> m in sy
  {
    if SameSorted(sx, sy) {
      forall i | 0 <= i < |sx| ensures sx[i] in sy {
        assert sx[i] == sy[IndexOf(sy, sx[i].key)];
      }
      forall k | 0 <= k < |sy| ensures sy[k] in sx {
        var i := IndexOf(sx, sy[k].key);
        var k' := IndexOf(sy, sx[i].key);
        assert sx[i] == sy[k'] && k' == k;
      }
      assert forall m :: m in sx <==> m in sy;
    } else if forall m :: m in sx <==> m in sy {
      forall i | 0 <= i < |sx|
        ensures var k := IndexOf(sy, sx[i].key); k < |sy| && sx[i].value == sy[k].value
      {
        assert sx[i] in sx;
        var k :| 0 <= k < |sy| && sy[k] == sx[i];
      }
      forall k | 0 <= k < |sy| ensures IndexOf(sx, sy[k].key) < |sx| {
        assert sy[k] in sy;
      }
    }
  }

  lemma ObjectsSortedIffSame(xs: seq<Member>, ys: seq<Member>)
    requires DistinctKeys(xs) && DistinctKeys(ys)
    ensures SortMembers(SortedMembers(xs)) == SortMembers(SortedMembers(ys))
            <==> SameSorted(SortedMembers(xs), SortedMembers(ys))
  {
    hide SortedMembers, SortMembers, SameSorted, DistinctKeys;
    var sx, sy := SortedMembers(xs), SortedMembers(ys);
    SortedMembersDistinct(xs);
    SortedMembersDistinct(ys);
    SortMembersSorts(sx);
    SortMembersSorts(sy);
    SameSortedIffSameSet(sx, sy);
    if SameSorted(sx, sy) {
      assert forall m :: m in SortMembers(sx) <==> m in sx;
      SortedListingUnique(SortMembers(sx), SortMembers(sy));
    }
  }

  /** Two payloads have the same canonical bytes exactly when they are the same value. */
  lemma CanonicalBytesExact(a: Json, b: Json)
    requires WellFormed(a) && WellFormed(b)
    requires Canonicalize(a).Some? && Canonicalize(b).Some?
    ensures Canonicalize(a) == Canonicalize(b) <==> Same(a, b)
  {
    SortedIffSame(a, b);
    if Canonicalize(a) == Canonicalize(b) {
      EncodeInjective(Print(Sorted(a)), Print(Sorted(b)));
      PrintInjective(Sorted(a), Sorted(b));
    }
  }

  lemma {:induction false} SortedIsSame(j: Json)
    requires WellFormed(j)
    ensures WellFormed(Sorted(j)) && Sorted(Sorted(j)) == Sorted(j)
    decreases j
  {
    match j
    case Array(items) =>
      forall i | 0 <= i < |items|
        ensures WellFormed(SortedItems(items)[i])
        ensures Sorted(SortedItems(items)[i]) == SortedItems(items)[i]
      {
        SortedItemsAt(items, i);
        SortedIsSame(items[i]);
      }
      forall i | 0 <= i < |items|
        ensures SortedItems(SortedItems(items))[i] == SortedItems(items)[i]
      {
        SortedItemsAt(SortedItems(items), i);
      }
    case Object(ms) =>
      var s := SortMembers(SortedMembers(ms));
      SortedMembersDistinct(ms);
      SortMembersSorts(SortedMembers(ms));
      forall k | 0 <= k < |s|
        ensures WellFormed(s[k].value) && Sorted(s[k].value) == s[k].value
      {
        assert s[k] in s;
        var i :| 0 <= i < |ms| && SortedMembers(ms)[i] == s[k];
        SortedMembersAt(ms, i);
        SortedIsSame(ms[i].value);
      }
      SortedObjectStays(s);
    case _ =>
  }

  lemma SortedObjectStays(s: seq<Member>)
    requires StrictlySorted(s)
    requires forall k | 0 <= k < |s| :: Sorted(s[k].value) == s[k].value
    ensures DistinctKeys(s) && SortMembers(SortedMembers(s)) == s
  {
    forall i, k | 0 <= i < k < |s| ensures s[i].key != s[k].key { KeyLessTotal(s[i].key, s[k].key); }
    forall k | 0 <= k < |s| ensures SortedMembers(s)[k] == s[k] { SortedMembersAt(s, k); }
    assert SortedMembers(s) == s;
    SortMembersSorts(s);
    SortedListingUnique(SortMembers(s), s);
  }

  function ReadBytes(b: Bytes): Option<Json> {
    match StrictDecode(b)
    case None => None
    case Some(t) => ReadDocument(t)
  }

  /** Canonical bytes parse back to the value with its keys in order, which is the same value. */
  lemma CanonicalBytesReadBack(j: Json)
    requires WellFormed(j) && Canonicalize(j).Some?
    ensures ReadBytes(Canonicalize(j).value) == Some(Sorted(j))
    ensures Same(j, Sorted(j))
  {
    hide Print, Sorted, ReadValue, Encode, StrictDecode, Same, WellFormed;
    var t := Print(Sorted(j));
    StrictDecodeExact(Encode(t));
    PrintRead(Sorted(j), []);
    assert t + [] == t;
    SortedIsSame(j);
    SortedIffSame(j, Sorted(j));
  }

  // ---- Which values have canonical bytes ----

  /** No string and no key holds a lone surrogate. */
  predicate Encodable(j: Json)
    decreases j, 0
  {
    match j
    case String(s) => AllScalars(s)
    case Array(items) => EncodableItems(items)
    case Object(members) => EncodableMembers(members)
    case _ => true
  }

  predicate EncodableItems(items: seq<Json>)
    decreases items, 1
  {
    items == [] || (Encodable(items[0]) && EncodableItems(items[1..]))
  }

  predicate EncodableMembers(ms: seq<Member>)
    decreases ms, 1
  {
    ms == [] || (AllScalars(ms[0].key) && Encodable(ms[0].value) && EncodableMembers(ms[1..]))
  }

  lemma ScalarsAppend(a: Str, b: Str)
    ensures AllScalars(a + b) <==> AllScalars(a) && AllScalars(b)
  {
    var s := a + b;
    if AllScalars(s) {
      forall i | 0 <= i < |a| ensures !IsSurrogate(a[i]) { assert s[i] == a[i]; }
      forall i | 0 <= i < |b| ensures !IsSurrogate(b[i]) { assert s[|a| + i] == b[i]; }
    }
  }

  lemma {:induction false} EscapeScalars(s: Str)
    ensures AllScalars(Escape(s)) <==> AllScalars(s)
  {
    if s != [] {
      EscapeScalars(s[1..]);
      ScalarsAppend(EscapeChar(s[0]), Escape(s[1..]));
      ScalarsAppend([s[0]], s[1..]);
      assert s == [s[0]] + s[1..];
      EscapeCharScalars(s[0]);
      hide EscapeChar, Escape, AllScalars;
    }
  }

  lemma EscapeCharScalars(c: CodePoint)
    ensures AllScalars(EscapeChar(c)) <==> AllScalars([c])
  {
    if IsSurrogate(c) { assert EscapeChar(c)[0] == c && [c][0] == c; }
  }

  lemma QuoteScalars(s: Str)
    ensures AllScalars(Quote(s)) <==> AllScalars(s)
  {
    EscapeScalars(s);
    ScalarsAppend([QUOTE] + Escape(s), [QUOTE]);
    ScalarsAppend([QUOTE], Escape(s));
    assert !IsSurrogate(QUOTE);
    hide Escape;
  }

  lemma {:induction false} DigitsScalars(n: nat)
    ensures AllScalars(Digits(n))
  {
    if n >= 10 { DigitsScalars(n / 10); }
  }

  lemma {:induction false} PrintScalars(j: Json)
    ensures AllScalars(Print(j)) <==> Encodable(j)
    decreases j, 0
  {
    match j
    case Number(n) => DigitsScalars(if n < 0 then -n else n);
    case String(s) => QuoteScalars(s);
    case Array(items) =>
      PrintItemsScalars(items);
      ScalarsAppend([LBRACKET] + PrintItems(items), [RBRACKET]);
      ScalarsAppend([LBRACKET], PrintItems(items));
    case Object(members) =>
      PrintMembersScalars(members);
      ScalarsAppend([LBRACE] + PrintMembers(members), [RBRACE]);
      ScalarsAppend([LBRACE], PrintMembers(members));
    case _ =>
  }

  lemma {:induction false} PrintItemsScalars(items: seq<Json>)
    ensures AllScalars(PrintItems(items)) <==> EncodableItems(items)
    decreases items, 1
  {
    if items != [] {
      PrintScalars(items[0]);
      PrintItemsScalars(items[1..]);
      ScalarsAppend(Print(items[0]) + [COMMA], PrintItems(items[1..]));
      ScalarsAppend(Print(items[0]), [COMMA]);
    }
  }

  lemma {:induction false} PrintMembersScalars(ms: seq<Member>)
    ensures AllScalars(PrintMembers(ms)) <==> EncodableMembers(ms)
    decreases ms, 1
  {
    if ms != [] {
      var m := ms[0];
      QuoteScalars(m.key);
      PrintScalars(m.value);
      ScalarsAppend(Quote(m.key) + [COLON], Print(m.value));
      ScalarsAppend(Quote(m.key), [COLON]);
      PrintMembersScalars(ms[1..]);
      ScalarsAppend(PrintMember(m) + [COMMA], PrintMembers(ms[1..]));
      ScalarsAppend(PrintMember(m), [COMMA]);
    }
  }

  lemma {:induction false} InsertEncodable(m: Member, s: seq<Member>)
    ensures EncodableMembers(Insert(m, s)) <==> AllScalars(m.key) && Encodable(m.value) && EncodableMembers(s)
  {
    if s != [] && !KeyLess(m.key, s[0].key) { InsertEncodable(m, s[1..]); }
  }

  lemma {:induction false} SortEncodable(ms: seq<Member>)
    ensures EncodableMembers(SortMembers(ms)) <==> EncodableMembers(ms)
  {
    if ms != [] {
      SortEncodable(ms[1..]);
      InsertEncodable(ms[0], SortMembers(ms[1..]));
    }
  }

  lemma {:induction false} SortedEncodable(j: Json)
    ensures Encodable(Sorted(j)) <==> Encodable(j)
    decreases j, 0
  {
    match j
    case Array(items) => SortedItemsEncodable(items);
    case Object(members) => SortedMembersEncodable(members); SortEncodable(SortedMembers(members));
    case _ =>
  }

  lemma {:induction false} SortedItemsEncodable(items: seq<Json>)
    ensures EncodableItems(SortedItems(items)) <==> EncodableItems(items)
    decreases items, 1
  {
    if items != [] { SortedEncodable(items[0]); SortedItemsEncodable(items[1..]); }
  }

  lemma {:induction false} SortedMembersEncodable(ms: seq<Member>)
    ensures EncodableMembers(SortedMembers(ms)) <==> EncodableMembers(ms)
    decreases ms, 1
  {
    if ms != [] { SortedEncodable(ms[0].value); SortedMembersEncodable(ms[1..]); }
  }

  /** A value has canonical bytes if and only if none of its strings and keys holds a lone surrogate. */
  lemma CanonicalIffEncodable(j: Json)
    ensures Canonicalize(j).Some? <==> Encodable(j)
  {
    PrintScalars(Sorted(j));
    SortedEncodable(j);
    hide Print, Sorted, Encode, Encodable, AllScalars;
  }

  /** The form itself: keys in order, no space, only what must be escaped is. */
  lemma CanonicalForm()
    ensures Print(Sorted(Object([ExampleB(), ExampleA()])))
         == [LBRACE] + [34, 97, 34, 58, 34, 92, 34, 92, 110, 233, 34] + [COMMA]
              + [34, 98, 34, 58, 91, 45, 49, 50, 44, 110, 117, 108, 108, 93] + [RBRACE]
  {
    var a, b := ExampleA(), ExampleB();
    ExampleSorted();
    ExamplePrintsA();
    ExamplePrintsB();
    assert [a, b][1..] == [b];
    hide ExampleA, ExampleB, PrintMember, Sorted, SortMembers;
    assert PrintMembers([b]) == PrintMember(b);
    assert PrintMembers([a, b]) == PrintMember(a) + [COMMA] + PrintMember(b);
    assert Print(Object([a, b])) == [LBRACE] + (PrintMember(a) + [COMMA] + PrintMember(b)) + [RBRACE];
  }

  function ExampleA(): Member { Member([97], String([34, 10, 233])) }

  function ExampleB(): Member { Member([98], Array([Number(-12), Null])) }

  lemma ExampleSorted()
    ensures Sorted(Object([ExampleB(), ExampleA()])) == Object([ExampleA(), ExampleB()])
  {
    var a, b := ExampleA(), ExampleB();
    assert [b, a][1..] == [a] && [a][1..] == [];
    assert SortedMembers([a]) == [a];
    assert SortedItems([Null]) == [Null] && [Number(-12), Null][1..] == [Null];
    assert SortedMembers([b, a]) == [b] + SortedMembers([a]) by {
      assert [b, a][0] == b && Sorted(b.value) == b.value;
    }
    assert SortMembers([a]) == [a] && !KeyLess([98], [97]);
    assert Insert(b, []) == [b];
    assert Insert(b, [a]) == [a] + [b] == [a, b];
  }

  lemma ExamplePrintsA()
    ensures PrintMember(ExampleA()) == [34, 97, 34, 58, 34, 92, 34, 92, 110, 233, 34]
  {
    assert [97][1..] == [] && Escape([97]) == [97];
    assert [34, 10, 233][1..] == [10, 233] && [10, 233][1..] == [233] && [233][1..] == [];
    assert Escape([233]) == [233] && Escape([10, 233]) == [92, 110, 233];
    assert Escape([34, 10, 233]) == [92, 34, 92, 110, 233];
  }

  lemma ExamplePrintsB()
    ensures PrintMember(ExampleB()) == [34, 98, 34, 58, 91, 45, 49, 50, 44, 110, 117, 108, 108, 93]
  {
    assert [98][1..] == [] && Escape([98]) == [98];
    assert [Number(-12), Null][1..] == [Null];
    assert Digits(1) == [49] && Digits(12) == [49, 50];
    assert PrintItems([Null]) == NULL_TEXT;
  }
}
