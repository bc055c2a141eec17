/** UTF-8 as sections 3 and 4 of RFC 3629 define it, and the two ways the bridge reads it:
    strict decoding, which rejects, and lenient decoding, which drops ill-formed bytes. */
module Utf8 {

  import opened Wrappers

  type Byte = b: int | 0 <= b < 0x100
  type Bytes = seq<Byte>

  // A `str` element may be a lone surrogate; only scalar values can be encoded.
  type CodePoint = c: int | 0 <= c < 0x11_0000
  type Str = seq<CodePoint>

  predicate IsSurrogate(c: CodePoint) { 0xD800 <= c < 0xE000 }

  type Scalar = c: CodePoint | !IsSurrogate(c)
  type Text = seq<Scalar>

  predicate AllScalars(s: Str) { forall i | 0 <= i < |s| :: !IsSurrogate(s[i]) }

  function Min(a: int, b: int): int { if a <= b then a else b }

  /** The encoding table of section 3. */
  function EncodeScalar(c: Scalar): (b: Bytes)
    ensures 1 <= |b| <= 4
  {
    if c < 0x80 then [c]
    else if c < 0x800 then [0xC0 + c / 64, 0x80 + c % 64]
    else if c < 0x1_0000 then [0xE0 + c / 64 / 64, 0x80 + c / 64 % 64, 0x80 + c % 64]
    else [0xF0 + c / 64 / 64 / 64, 0x80 + c / 64 / 64 % 64, 0x80 + c / 64 % 64, 0x80 + c % 64]
  }

  function Encode(t: Text): Bytes {
    if t == [] then [] else EncodeScalar(t[0]) + Encode(t[1..])
  }

  // ---- The grammar of section 4 ----

  predicate Tail(b: Byte) { 0x80 <= b <= 0xBF }

  /** Length announced by a lead byte; 0 when no sequence starts with it. */
  function Need(lead: Byte): (n: nat)
    ensures n <= 4
  {
    if lead <= 0x7F then 1
    else if 0xC2 <= lead <= 0xDF then 2
    else if 0xE0 <= lead <= 0xEF then 3
    else if 0xF0 <= lead <= 0xF4 then 4
    else 0
  }

  predicate SecondByte(lead: Byte, b: Byte) {
    && Tail(b)
    && (lead == 0xE0 ==> 0xA0 <= b)
    && (lead == 0xED ==> b <= 0x9F)
    && (lead == 0xF0 ==> 0x90 <= b)
    && (lead == 0xF4 ==> b <= 0x8F)
  }

  /** `b` is a nonempty prefix of some UTF8-char of the grammar. */
  predicate CharPrefix(b: Bytes) {
    && 1 <= |b| <= Need(b[0])
    && (|b| >= 2 ==> SecondByte(b[0], b[1]))
    && (|b| >= 3 ==> Tail(b[2]))
    && (|b| >= 4 ==> Tail(b[3]))
  }

  predicate Utf8Char(b: Bytes) { CharPrefix(b) && |b| == Need(b[0]) }

  /** Appends six payload bits. */
  function Shift6(hi: int, tail: Byte): (c: int)
    requires Tail(tail)
    ensures c / 64 == hi && 0x80 + c % 64 == tail
  {
    hi * 64 + (tail - 0x80)
  }

  function DecodeChar(b: Bytes): (c: Scalar)
    requires Utf8Char(b)
    ensures EncodeScalar(c) == b
  {
    var b0: int := b[0];
    if |b| == 1 then b0
    else if |b| == 2 then Shift6(b0 - 0xC0, b[1])
    else if |b| == 3 then Shift6(Shift6(b0 - 0xE0, b[1]), b[2])
    else Shift6(Shift6(Shift6(b0 - 0xF0, b[1]), b[2]), b[3])
  }

  /** The encoder's image is exactly the grammar, and the grammar's decoder inverts it. */
  lemma EncodeScalarIsUtf8Char(c: Scalar)
    ensures Utf8Char(EncodeScalar(c)) && DecodeChar(EncodeScalar(c)) == c
  {
    var b := EncodeScalar(c);
    assert Utf8Char(b) by {
      assert !IsSurrogate(c);
      if 0x800 <= c < 0x1_0000 {
        assert c == c / 64 / 64 * 4096 + c / 64 % 64 * 64 + c % 64;
      } else if 0x1_0000 <= c {
        assert c == c / 64 / 64 / 64 * 26_2144 + c / 64 / 64 % 64 * 4096 + c / 64 % 64 * 64 + c % 64;
      }
    }
  }

  /** Longest prefix of `b` that some UTF8-char starts with (the "maximal subpart"). */
  function MaximalSubpart(b: Bytes): (k: nat)
    ensures k <= |b| && k <= 4
    ensures k > 0 ==> CharPrefix(b[..k])
    ensures k < |b| ==> !CharPrefix(b[..k + 1])
  {
    if |b| == 0 || !CharPrefix(b[..1]) then 0
    else if |b| == 1 || !CharPrefix(b[..2]) then 1
    else if |b| == 2 || !CharPrefix(b[..3]) then 2
    else if |b| == 3 || !CharPrefix(b[..4]) then 3
    else 4
  }

  predicate StartsWithChar(b: Bytes) {
    b != [] && MaximalSubpart(b) > 0 && MaximalSubpart(b) == Need(b[0])
  }

  /** `bytes.decode("utf-8")`: None where Python raises UnicodeDecodeError. */
  function StrictDecode(b: Bytes): Option<Text> {
    if b == [] then Some([])
    else if !StartsWithChar(b) then None
    else
      var k := MaximalSubpart(b);
      match StrictDecode(b[k..])
      case None => None
      case Some(rest) => Some([DecodeChar(b[..k])] + rest)
  }

  /** `bytes.decode("utf-8", errors="ignore")`: each error drops one maximal subpart. */
  function LenientDecode(b: Bytes): Text {
    if b == [] then []
    else
      var k := MaximalSubpart(b);
      if StartsWithChar(b) then [DecodeChar(b[..k])] + LenientDecode(b[k..])
      else LenientDecode(b[if k == 0 then 1 else k..])
  }

  // ---- Facts about the encoder ----

  lemma Associative<T>(a: seq<T>, b: seq<T>, c: seq<T>)
    ensures (a + b) + c == a + (b + c)
  {}

  lemma {:induction false} EncodeAppend(a: Text, b: Text)
    ensures Encode(a + b) == Encode(a) + Encode(b)
  {
    if a == [] {
      assert a + b == b && [] + Encode(b) == Encode(b);
    } else {
      EncodeAppend(a[1..], b);
      assert (a + b)[1..] == a[1..] + b && (a + b)[0] == a[0];
      var first, rest := EncodeScalar(a[0]), Encode(a[1..]);
      assert Encode(a) == first + rest;
      assert Encode(a + b) == first + Encode(a[1..] + b);
      hide Encode, EncodeScalar;
      Associative(first, rest, Encode(b));
    }
  }

  lemma EncodeSplit(t: Text, k: nat)
    requires k <= |t|
    ensures Encode(t) == Encode(t[..k]) + Encode(t[k..])
  {
    hide Encode;
    EncodeAppend(t[..k], t[k..]);
    assert t == t[..k] + t[k..];
  }

  /** A whole encoded character is recognised whatever follows it. */
  lemma HeadChar(c: Scalar, rest: Bytes)
    ensures var b := EncodeScalar(c) + rest;
            StartsWithChar(b) && MaximalSubpart(b) == |EncodeScalar(c)|
            && b[..MaximalSubpart(b)] == EncodeScalar(c) && b[MaximalSubpart(b)..] == rest
  {
    EncodeScalarIsUtf8Char(c);
    var e := EncodeScalar(c);
    var b := e + rest;
    assert b[0] == e[0];
    var k := MaximalSubpart(b);
    assert forall j | 1 <= j <= |e| :: b[..j] == e[..j] && CharPrefix(e[..j]);
    assert b[..|e|] == e && b[|e|..] == rest;
  }

  /** A character cut short is one maximal subpart, so lenient decoding drops all of it. */
  lemma CutChar(c: Scalar, j: nat)
    requires j < |EncodeScalar(c)|
    ensures LenientDecode(EncodeScalar(c)[..j]) == []
    ensures j > 0 ==> StrictDecode(EncodeScalar(c)[..j]) == None
  {
    EncodeScalarIsUtf8Char(c);
    var b := EncodeScalar(c)[..j];
    if j > 0 {
      assert b[0] == EncodeScalar(c)[0];
      assert CharPrefix(b);
      assert b[..j] == b;
      var k := MaximalSubpart(b);
      assert k == j;
      assert b[j..] == [];
    }
  }

  // ---- Decoding and encoding are inverse ----

  lemma DecodeEncoded(t: Text, tail: Bytes)
    ensures LenientDecode(Encode(t) + tail) == t + LenientDecode(tail)
    ensures StrictDecode(Encode(t) + tail)
            == match StrictDecode(tail) case None => None case Some(r) => Some(t + r)
  {
    LenientOfEncoded(t, tail);
    StrictOfEncoded(t, tail);
  }

  lemma {:induction false} LenientOfEncoded(t: Text, tail: Bytes)
    ensures LenientDecode(Encode(t) + tail) == t + LenientDecode(tail)
  {
    if t == [] {
      assert [] + tail == tail && [] + LenientDecode(tail) == LenientDecode(tail);
    } else {
      var first, more := EncodeScalar(t[0]), Encode(t[1..]);
      assert Encode(t) == first + more;
      hide LenientDecode, Encode, EncodeScalar;
      Associative(first, more, tail);
      DecodeHead(t[0], more + tail);
      LenientOfEncoded(t[1..], tail);
      assert [t[0]] + t[1..] == t;
      Associative([t[0]], t[1..], LenientDecode(tail));
    }
  }

  lemma {:induction false} StrictOfEncoded(t: Text, tail: Bytes)
    ensures StrictDecode(Encode(t) + tail)
            == match StrictDecode(tail) case None => None case Some(r) => Some(t + r)
  {
    if t == [] {
      assert [] + tail == tail;
      if StrictDecode(tail).Some? { assert [] + StrictDecode(tail).value == StrictDecode(tail).value; }
    } else {
      var first, more := EncodeScalar(t[0]), Encode(t[1..]);
      assert Encode(t) == first + more;
      hide StrictDecode, Encode, EncodeScalar;
      Associative(first, more, tail);
      DecodeHead(t[0], more + tail);
      StrictOfEncoded(t[1..], tail);
      assert [t[0]] + t[1..] == t;
      if StrictDecode(tail).Some? { Associative([t[0]], t[1..], StrictDecode(tail).value); }
    }
  }

  /** Decoding takes one encoded character off the front. */
  lemma DecodeHead(c: Scalar, rest: Bytes)
    ensures LenientDecode(EncodeScalar(c) + rest) == [c] + LenientDecode(rest)
    ensures StrictDecode(EncodeScalar(c) + rest)
            == match StrictDecode(rest) case None => None case Some(r) => Some([c] + r)
  {
    hide EncodeScalar, StartsWithChar, MaximalSubpart, DecodeChar, Utf8Char;
    HeadChar(c, rest);
    EncodeScalarIsUtf8Char(c);
  }

  /** Strict decoding accepts exactly the encodings and returns the unique preimage. */
  lemma {:induction false} StrictDecodeExact(b: Bytes)
    ensures forall t: Text :: StrictDecode(b) == Some(t) <==> Encode(t) == b
    ensures StrictDecode(b).Some? <==> exists t: Text :: Encode(t) == b
  {
    forall t: Text | Encode(t) == b
      ensures StrictDecode(b) == Some(t)
    {
      DecodeEncoded(t, []);
      assert Encode(t) + [] == b;
      assert t + [] == t;
    }
    if StrictDecode(b).Some? {
      StrictDecodeSound(b);
    }
  }

  lemma {:induction false} StrictDecodeSound(b: Bytes)
    requires StrictDecode(b).Some?
    ensures Encode(StrictDecode(b).value) == b
  {
    hide EncodeScalar, DecodeChar, CharPrefix;
    if b != [] {
      var k := MaximalSubpart(b);
      StrictDecodeSound(b[k..]);
      var rest := StrictDecode(b[k..]).value;
      var t := [DecodeChar(b[..k])] + rest;
      assert t[1..] == rest;
      assert b[..k] + b[k..] == b;
    }
  }

  // ---- What lenient decoding drops ----

  ghost predicate Begins(p: Bytes) { exists c: Scalar :: p <= EncodeScalar(c) }

  lemma BeginsIffPrefix(p: Bytes)
    requires p != []
    ensures Begins(p) <==> CharPrefix(p)
  {
    if CharPrefix(p) {
      var second := if p[0] == 0xE0 then 0xA0 else if p[0] == 0xF0 then 0x90 else 0x80;
      var fill: Bytes := if |p| == 1 then [second, 0x80, 0x80] else [0x80, 0x80, 0x80];
      var whole := p + fill[..Need(p[0]) - |p|];
      assert whole[0] == p[0] && Utf8Char(whole);
      assert p <= EncodeScalar(DecodeChar(whole));
    }
    if c: Scalar :| p <= EncodeScalar(c) {
      EncodeScalarIsUtf8Char(c);
      assert p[0] == EncodeScalar(c)[0];
    }
  }

  /** Where no character is encoded, lenient decoding drops the longest part that begins one, or a single byte, and
      goes on behind it. With LenientOfEncoded this says what it makes of any bytes at all. */
  lemma LenientDrops(b: Bytes, k: nat)
    requires 1 <= k <= |b| && forall c: Scalar :: !(EncodeScalar(c) <= b)
    requires (k == 1 || Begins(b[..k])) && forall j | k < j <= |b| :: !Begins(b[..j])
    ensures LenientDecode(b) == LenientDecode(b[k..])
  {
    StartsMeansEncoded(b);
    BeginsIffPrefix(b[..k]);
    var m := MaximalSubpart(b);
    if m > 0 { BeginsIffPrefix(b[..m]); }
    if CharPrefix(b[..k]) { SubpartLongest(b, k); }
  }

  lemma StartsMeansEncoded(b: Bytes)
    ensures StartsWithChar(b) ==> exists c: Scalar :: EncodeScalar(c) <= b
  {
    if StartsWithChar(b) {
      assert EncodeScalar(DecodeChar(b[..MaximalSubpart(b)])) <= b;
    }
  }

  lemma SubpartLongest(b: Bytes, k: nat)
    requires 1 <= k <= |b| && CharPrefix(b[..k])
    ensures k <= MaximalSubpart(b)
  {
    forall j | 1 <= j <= k ensures CharPrefix(b[..j]) {
      assert b[..k][..j] == b[..j] && b[..j][0] == b[..k][0];
    }
  }

  lemma EncodeInjective(a: Text, b: Text)
    requires Encode(a) == Encode(b)
    ensures a == b
  {
    StrictDecodeExact(Encode(a));
  }

  /** Lenient decoding never grows, and keeps the length only when it dropped nothing. */
  lemma {:induction false} LenientLength(b: Bytes)
    ensures |Encode(LenientDecode(b))| <= |b|
    ensures |Encode(LenientDecode(b))| == |b| ==> Encode(LenientDecode(b)) == b
  {
    hide EncodeScalar, DecodeChar, CharPrefix;
    if b != [] {
      var k := MaximalSubpart(b);
      var skip := if k == 0 then 1 else k;
      LenientLength(b[skip..]);
      if StartsWithChar(b) {
        var t := [DecodeChar(b[..k])] + LenientDecode(b[k..]);
        assert t[1..] == LenientDecode(b[k..]);
        assert b[..k] + b[k..] == b;
      }
    }
  }

  // ---- Positions inside an encoded text ----

  /** `o` is the byte position at which some whole prefix of `t` ends. */
  ghost predicate Boundary(t: Text, o: nat) {
    exists k | 0 <= k <= |t| :: o == |Encode(t[..k])|
  }

  /** Number of whole characters of `t` inside its first `o` encoded bytes. */
  function WholeChars(t: Text, o: nat): (k: nat)
    ensures k <= |t|
  {
    if t == [] || |EncodeScalar(t[0])| > o then 0
    else 1 + WholeChars(t[1..], o - |EncodeScalar(t[0])|)
  }

  lemma {:induction false} WholeCharsCut(t: Text, o: nat) returns (cut: Bytes)
    requires o <= |Encode(t)|
    ensures var k := WholeChars(t, o);
            && Encode(t)[..o] == Encode(t[..k]) + cut
            && (k == |t| ==> cut == [])
            && (k < |t| ==> |cut| < |EncodeScalar(t[k])| && cut == EncodeScalar(t[k])[..|cut|])
  {
    hide EncodeScalar;
    if t == [] {
      cut := [];
    } else if |EncodeScalar(t[0])| > o {
      cut := EncodeScalar(t[0])[..o];
      assert Encode(t)[..o] == cut;
      assert t[..0] == [];
    } else {
      var n := |EncodeScalar(t[0])|;
      cut := WholeCharsCut(t[1..], o - n);
      var k := WholeChars(t, o);
      assert t[..k][1..] == t[1..][..k - 1];
      assert Encode(t)[..o] == EncodeScalar(t[0]) + Encode(t[1..])[..o - n];
    }
  }

  lemma {:induction false} PrefixLengths(t: Text, j: nat, k: nat)
    requires j < k <= |t|
    ensures |Encode(t[..j])| + |EncodeScalar(t[j])| <= |Encode(t[..k])| <= |Encode(t)|
  {
    EncodeSplit(t, k);
    EncodeSplit(t[..k], j);
    assert t[..k][..j] == t[..j];
    assert t[..k][j..][0] == t[j];
  }

  /** WholeChars is the largest count of characters that fits. */
  lemma WholeCharsLargest(t: Text, o: nat)
    requires o <= |Encode(t)|
    ensures |Encode(t[..WholeChars(t, o)])| <= o
    ensures forall j :: WholeChars(t, o) < j <= |t| ==> o < |Encode(t[..j])|
  {
    var cut := WholeCharsCut(t, o);
    var k := WholeChars(t, o);
    forall j | k < j <= |t|
      ensures o < |Encode(t[..j])|
    {
      PrefixLengths(t, k, j);
    }
  }

  /** Strict decoding of a byte prefix succeeds exactly at the boundaries. */
  lemma StrictPrefixIffBoundary(t: Text, o: nat)
    requires o <= |Encode(t)|
    ensures StrictDecode(Encode(t)[..o]).Some? <==> Boundary(t, o)
    ensures Boundary(t, o) <==> o == |Encode(t[..WholeChars(t, o)])|
  {
    hide EncodeScalar, LenientDecode, Encode, WholeChars;
    var cut := WholeCharsCut(t, o);
    var k := WholeChars(t, o);
    DecodeEncoded(t[..k], cut);
    if cut == [] {
      assert Boundary(t, o);
    } else {
      CutChar(t[k], |cut|);
      if Boundary(t, o) {
        var j :| 0 <= j <= |t| && o == |Encode(t[..j])|;
        WholeCharsLargest(t, o);
        if j < k {
          PrefixLengths(t, j, k);
        }
        assert false;
      }
    }
  }

  /** Lenient decoding of a byte prefix is the longest whole-character prefix that fits. */
  lemma LenientPrefix(t: Text, o: nat)
    requires o <= |Encode(t)|
    ensures LenientDecode(Encode(t)[..o]) == t[..WholeChars(t, o)]
  {
    var cut := WholeCharsCut(t, o);
    var k := WholeChars(t, o);
    DecodeEncoded(t[..k], cut);
    if k < |t| {
      CutChar(t[k], |cut|);
    }
    assert t[..k] + [] == t[..k];
  }
}
