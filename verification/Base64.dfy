/** The two size-limited decoders of an inline file write: strict base64 (sections 3.5 and 4 of
    RFC 4648) and UTF-8 text whose size is counted before anything is allocated. */
module Base64 {
  import opened Wrappers
  import opened Utf8

  datatype Outcome = Ok(bytes: Bytes) | SizeLimit | Invalid

  // ---- The alphabet ----

  type Sextet = v: int | 0 <= v < 64

  const PAD: CodePoint := 61

  function Symbol(v: Sextet): CodePoint {
    if v < 26 then 65 + v
    else if v < 52 then 97 + (v - 26)
    else if v < 62 then 48 + (v - 52)
    else if v == 62 then 43
    else 47
  }

  function Value(c: CodePoint): (v: Option<Sextet>)
    ensures v.Some? ==> Symbol(v.value) == c
  {
    if 65 <= c <= 90 then Some(c - 65)
    else if 97 <= c <= 122 then Some(c - 97 + 26)
    else if 48 <= c <= 57 then Some(c - 48 + 52)
    else if c == 43 then Some(62)
    else if c == 47 then Some(63)
    else None
  }

  // ---- Encoding ----

  function Encode64(b: Bytes): Str {
    if |b| == 0 then []
    else if |b| == 1 then [Symbol(Bits1(b[0])), Symbol(Bits2(b[0], 0)), PAD, PAD]
    else if |b| == 2 then [Symbol(Bits1(b[0])), Symbol(Bits2(b[0], b[1])), Symbol(Bits3(b[1], 0)), PAD]
    else Quad(b[0], b[1], b[2]) + Encode64(b[3..])
  }

  function Quad(x: Byte, y: Byte, z: Byte): (q: Str)
    ensures |q| == 4
  {
    [Symbol(Bits1(x)), Symbol(Bits2(x, y)), Symbol(Bits3(y, z)), Symbol(Bits4(z))]
  }

  // The four sextets of three bytes, and back.
  function Bits1(x: Byte): Sextet { x / 4 }
  function Bits2(x: Byte, y: Byte): Sextet { x % 4 * 16 + y / 16 }
  function Bits3(y: Byte, z: Byte): Sextet { y % 16 * 4 + z / 64 }
  function Bits4(z: Byte): Sextet { z % 64 }

  function Byte1(v0: Sextet, v1: Sextet): Byte { v0 * 4 + v1 / 16 }
  function Byte2(v1: Sextet, v2: Sextet): Byte { v1 % 16 * 16 + v2 / 4 }
  function Byte3(v2: Sextet, v3: Sextet): Byte { v2 % 4 * 64 + v3 }

  lemma BitsJoin(x: Byte, y: Byte, z: Byte)
    ensures Byte1(Bits1(x), Bits2(x, y)) == x
    ensures Byte2(Bits2(x, y), Bits3(y, z)) == y
    ensures Byte3(Bits3(y, z), Bits4(z)) == z
  {}

  /** The examples of section 9 of RFC 4648: FPucA9l+, FPucA9k=, FPucAw== and, for the last symbol, 'P///'. */
  lemma Section9Examples()
    ensures Encode64([0x14, 0xFB, 0x9C, 0x03, 0xD9, 0x7E]) == [70, 80, 117, 99, 65, 57, 108, 43]
    ensures Encode64([0x14, 0xFB, 0x9C, 0x03, 0xD9]) == [70, 80, 117, 99, 65, 57, 107, 61]
    ensures Encode64([0x14, 0xFB, 0x9C, 0x03]) == [70, 80, 117, 99, 65, 119, 61, 61]
    ensures Encode64([0x3F, 0xFF, 0xFF]) == [80, 47, 47, 47]
  {
    var b: Bytes := [0x14, 0xFB, 0x9C];
    var c1: Bytes, c2: Bytes, c3: Bytes := [0x03], [0x03, 0xD9], [0x03, 0xD9, 0x7E];
    assert Encode64([]) == [];
    assert Encode64(c3) == [65, 57, 108, 43] && Encode64(c2) == [65, 57, 107, 61] && Encode64(c1) == [65, 119, 61, 61];
    assert (b + c1)[3..] == c1 && (b + c2)[3..] == c2 && (b + c3)[3..] == c3;
    assert b + c1 == [0x14, 0xFB, 0x9C, 0x03] && b + c2 == [0x14, 0xFB, 0x9C, 0x03, 0xD9];
    assert b + c3 == [0x14, 0xFB, 0x9C, 0x03, 0xD9, 0x7E];
  }

  // ---- Strict decoding: padding may only end the last group, and its spare bits are ignored ----

  function Decode64(s: Str): Option<Bytes> {
    if |s| == 0 then Some([])
    else if |s| < 4 || Value(s[0]).None? || Value(s[1]).None? then None
    else
      var v0, v1 := Value(s[0]).value, Value(s[1]).value;
      if |s| == 4 && s[2] == PAD && s[3] == PAD then Some([Byte1(v0, v1)])
      else if Value(s[2]).None? then None
      else
        var v2 := Value(s[2]).value;
        if |s| == 4 && s[3] == PAD then Some([Byte1(v0, v1), Byte2(v1, v2)])
        else if Value(s[3]).None? then None
        else
          var v3 := Value(s[3]).value;
          var rest := Decode64(s[4..]);
          if rest.None? then None
          else Some([Byte1(v0, v1), Byte2(v1, v2), Byte3(v2, v3)] + rest.value)
  }

  /** `decode_base64`. */
  function DecodeBase64(value: Str, max: nat): Outcome {
    if |value| > (max + 2) / 3 * 4 then SizeLimit
    else if |value| % 4 != 0 || exists i | 0 <= i < |value| :: value[i] > 127 then Invalid
    else
      var decoded := Decode64(value);
      if decoded.None? then Invalid
      else if Encode64(decoded.value) != value then Invalid
      else if |decoded.value| > max then SizeLimit
      else Ok(decoded.value)
  }

  // ---- encode_utf8 ----

  function Utf8Size(c: CodePoint): nat {
    if c <= 0x7F then 1 else if c <= 0x7FF then 2 else if c <= 0xFFFF then 3 else 4
  }

  function Utf8Count(s: Str): nat {
    if s == [] then 0 else Utf8Size(s[0]) + Utf8Count(s[1..])
  }

  /** Invalid stands for the encoder's error on a lone surrogate. */
  function EncodeUtf8(s: Str, max: nat): Outcome {
    if Utf8Count(s) > max then SizeLimit
    else if !AllScalars(s) then Invalid
    else if |Encode(s)| > max then SizeLimit
    else Ok(Encode(s))
  }

  // ---- What base64 guarantees ----

  lemma ValueOfSymbol(v: Sextet)
    ensures Value(Symbol(v)) == Some(v) && Symbol(v) != PAD && Symbol(v) <= 127
  {}

  lemma {:induction false} EncodedShape(b: Bytes)
    ensures |Encode64(b)| == (|b| + 2) / 3 * 4
    ensures forall i | 0 <= i < |Encode64(b)| :: Encode64(b)[i] <= 127
  {
    if |b| >= 3 { EncodedShape(b[3..]); }
  }

  lemma {:induction false} DecodeOfEncode(b: Bytes)
    ensures Decode64(Encode64(b)) == Some(b)
  {
    hide Symbol, Value, Byte1, Byte2, Byte3, Bits1, Bits2, Bits3, Bits4;
    if |b| == 0 {
    } else if |b| == 1 {
      BitsJoin(b[0], 0, 0);
      ValueOfSymbol(Bits1(b[0]));
      ValueOfSymbol(Bits2(b[0], 0));
      assert b == [b[0]];
    } else if |b| == 2 {
      BitsJoin(b[0], b[1], 0);
      ValueOfSymbol(Bits1(b[0]));
      ValueOfSymbol(Bits2(b[0], b[1]));
      ValueOfSymbol(Bits3(b[1], 0));
      assert b == [b[0], b[1]];
    } else {
      DecodeOfQuad(b[0], b[1], b[2], Encode64(b[3..]));
      DecodeOfEncode(b[3..]);
      assert b == [b[0], b[1], b[2]] + b[3..];
    }
  }

  lemma DecodeOfQuad(x: Byte, y: Byte, z: Byte, rest: Str)
    ensures Decode64(Quad(x, y, z) + rest)
         == if Decode64(rest).None? then None else Some([x, y, z] + Decode64(rest).value)
  {
    hide Symbol, Value, Byte1, Byte2, Byte3, Bits1, Bits2, Bits3, Bits4;
    BitsJoin(x, y, z);
    ValueOfSymbol(Bits1(x));
    ValueOfSymbol(Bits2(x, y));
    ValueOfSymbol(Bits3(y, z));
    ValueOfSymbol(Bits4(z));
    var s := Quad(x, y, z) + rest;
    assert s[4..] == rest;
    assert s[0] == Symbol(Bits1(x)) && s[1] == Symbol(Bits2(x, y)) && s[2] == Symbol(Bits3(y, z)) && s[3] == Symbol(Bits4(z));
  }

  /** Exactly the canonical encodings of byte strings within the limit are accepted, each with its one
      preimage; the size error goes to every canonical encoding above the limit, and otherwise only to
      inputs too long for any byte string within it; everything else is invalid. */
  lemma Base64Exact(value: Str, max: nat)
    ensures forall b: Bytes :: DecodeBase64(value, max) == Ok(b) <==> value == Encode64(b) && |b| <= max
    ensures DecodeBase64(value, max).SizeLimit? <==>
              (exists b: Bytes :: value == Encode64(b) && |b| > max) || |value| > (max + 2) / 3 * 4
    ensures DecodeBase64(value, max).Invalid? <==>
              (forall b: Bytes :: value != Encode64(b)) && |value| <= (max + 2) / 3 * 4
  {
    forall b: Bytes | value == Encode64(b)
      ensures DecodeBase64(value, max) == if |b| <= max then Ok(b) else SizeLimit
    {
      DecodeBase64OfEncoded(b, max);
    }
    hide Encode64, Decode64;
    var n := (max + 2) / 3 * 4;
    var r := DecodeBase64(value, max);
    assert r.Ok? ==> value == Encode64(r.bytes) && |r.bytes| <= max;
    assert r.SizeLimit? && |value| <= n ==> value == Encode64(Decode64(value).value) && |Decode64(value).value| > max;
    assert |value| > n ==> r.SizeLimit?;
  }

  lemma DecodeBase64OfEncoded(b: Bytes, max: nat)
    ensures DecodeBase64(Encode64(b), max) == if |b| <= max then Ok(b) else SizeLimit
  {
    EncodedShape(b);
    DecodeOfEncode(b);
    hide Encode64, Decode64;
    assert |b| <= max ==> (|b| + 2) / 3 * 4 <= (max + 2) / 3 * 4;
  }

  /** The length precheck looks only at the length, and no shorter bound would do: the longest accepted
      input is exactly as long as it allows. */
  lemma PrecheckIsTight(max: nat)
    ensures forall b: Bytes | |b| <= max :: |Encode64(b)| <= (max + 2) / 3 * 4
    ensures exists b: Bytes :: |b| <= max && |Encode64(b)| == (max + 2) / 3 * 4
  {
    forall b: Bytes | |b| <= max ensures |Encode64(b)| <= (max + 2) / 3 * 4 { EncodedShape(b); }
    var full: Bytes := seq(max, i => 0);
    EncodedShape(full);
  }

  lemma Base64Injective(a: Bytes, b: Bytes)
    requires Encode64(a) == Encode64(b)
    ensures a == b
  {
    DecodeOfEncode(a);
    DecodeOfEncode(b);
  }

  /** Why the result is encoded again: the strict decoder alone reads 'QQ==' and 'QR==' as one byte string. */
  lemma SpareBitsAreIgnored()
    ensures Decode64([81, 81, PAD, PAD]) == Decode64([81, 82, PAD, PAD]) == Some([65])
    ensures forall max: nat :: max >= 1 ==>
              DecodeBase64([81, 81, PAD, PAD], max) == Ok([65]) && DecodeBase64([81, 82, PAD, PAD], max) == Invalid
  {
    assert Encode64([65]) == [81, 81, PAD, PAD];
    var s: Str, t: Str := [81, 81, PAD, PAD], [81, 82, PAD, PAD];
    assert s[0] == 81 && s[1] == 81 && t[1] == 82;
    assert Decode64(s) == Some([65]) && Decode64(t) == Some([65]);
    assert t != s && forall i | 0 <= i < |t| :: t[i] <= 127;
    hide Decode64, Encode64;
    forall max: nat | max >= 1
      ensures DecodeBase64(s, max) == Ok([65]) && DecodeBase64(t, max) == Invalid
    {
      DecodeBase64OfEncoded([65], max);
      assert (max + 2) / 3 >= 1;
    }
  }

  // ---- What counting guarantees ----

  /** Counting before encoding gives the encoded length. */
  lemma {:induction false} CountIsEncodedLength(t: Text)
    ensures Utf8Count(t) == |Encode(t)|
  {
    if t != [] { CountIsEncodedLength(t[1..]); }
  }

  /** A lone surrogate is reported only when the text would otherwise fit; the second size check of the
      source never decides anything. */
  lemma EncodeUtf8Exact(s: Str, max: nat)
    ensures EncodeUtf8(s, max).SizeLimit? <==> Utf8Count(s) > max
    ensures EncodeUtf8(s, max).Invalid? <==> Utf8Count(s) <= max && !AllScalars(s)
    ensures forall b: Bytes :: EncodeUtf8(s, max) == Ok(b) <==> AllScalars(s) && b == Encode(s) && |b| <= max
    ensures EncodeUtf8(s, max).Ok? ==> StrictDecode(EncodeUtf8(s, max).bytes) == Some(s)
  {
    if AllScalars(s) {
      CountIsEncodedLength(s);
      DecodeEncoded(s, []);
      assert Encode(s) + [] == Encode(s);
      StrictDecodeExact(Encode(s));
    }
  }
}
