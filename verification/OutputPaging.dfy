/** Byte windows over a stored output that never split a character, and the bounded prefix that
    browser text is cut to. */
module OutputPaging {
  import opened Wrappers
  import opened Utf8

  const MAX_JOB_OUTPUT_CHUNK_BYTES := 65_536

  datatype Window =
    | InvalidWindow
    | Window(data: Text, offset: nat, nextOffset: nat, complete: bool, retainedBytes: nat)

  /** Python slicing: bounds past the end are clamped. */
  function Slice(b: Bytes, lo: nat, hi: nat): Bytes
    requires lo <= hi
  {
    if lo >= |b| then [] else b[lo..Min(hi, |b|)]
  }

  /** `JobRegistry.output` on the stored bytes. */
  function ReadWindow(stored: Bytes, offset: int, limit: int): Window {
    if offset < 0 || limit < 1 || limit > MAX_JOB_OUTPUT_CHUNK_BYTES then InvalidWindow
    else if StrictDecode(Slice(stored, 0, offset)).None? then InvalidWindow
    else
      var text := LenientDecode(Slice(stored, offset, offset + limit));
      var next := offset + |Encode(text)|;
      Window(text, offset, next, next >= |stored|, |stored|)
  }

  /** The prefix check accepts an offset exactly at a character boundary or past the end. */
  lemma WindowAccepted(t: Text, offset: int, limit: int)
    ensures !ReadWindow(Encode(t), offset, limit).InvalidWindow?
            <==> && 0 <= offset && 1 <= limit <= MAX_JOB_OUTPUT_CHUNK_BYTES
                 && (Boundary(t, offset) || offset > |Encode(t)|)
  {
    hide Encode, StrictDecode, LenientDecode;
    if 0 <= offset <= |Encode(t)| {
      StrictPrefixIffBoundary(t, offset);
      assert Slice(Encode(t), 0, offset) == Encode(t)[..offset];
    } else if offset > |Encode(t)| {
      StrictPrefixIffBoundary(t, |Encode(t)|);
      assert t[..|t|] == t;
      assert Encode(t)[..|Encode(t)|] == Encode(t) == Slice(Encode(t), 0, offset);
    }
  }

  lemma BoundaryAt(t: Text, k: nat)
    requires k <= |t|
    ensures |Encode(t[..k])| <= |Encode(t)| && Boundary(t, |Encode(t[..k])|)
  {
    EncodeSplit(t, k);
  }

  /** A window that starts after k characters holds the next whole characters that fit, moves to the
      boundary after them, is complete exactly at the end, and stands still exactly when it was at
      the end or the next character is wider than the limit. */
  lemma WindowExact(t: Text, k: nat, limit: int)
    requires k <= |t| && 1 <= limit <= MAX_JOB_OUTPUT_CHUNK_BYTES
    ensures var w := ReadWindow(Encode(t), |Encode(t[..k])|, limit);
            var n := WholeChars(t[k..], limit);
            && w.Window?
            && k + n <= |t| && w.data == t[k..k + n]
            && w.nextOffset == |Encode(t[..k + n])|
            && Boundary(t, w.nextOffset) && w.offset == |Encode(t[..k])| && w.retainedBytes == |Encode(t)|
            && (w.complete <==> k + n == |t|)
            && (n == 0 <==> k == |t| || limit < |EncodeScalar(t[k])|)
  {
    hide Encode, StrictDecode, LenientDecode, WholeChars, EncodeScalar, Boundary;
    var offset, n := |Encode(t[..k])|, WholeChars(t[k..], limit);
    BoundaryAt(t, k);
    WindowAccepted(t, offset, limit);
    var rest := Encode(t[k..]);
    EncodeSplit(t, k);
    var cut := Min(limit, |rest|);
    assert Slice(Encode(t), offset, offset + limit) == rest[..cut];
    WholeCharsClamped(t[k..], limit);
    LenientPrefix(t[k..], cut);
    FirstFits(t[k..], limit);
    NextBoundary(t, k, n);
  }

  /** Where a window of n characters after the first k ends. */
  lemma NextBoundary(t: Text, k: nat, n: nat)
    requires k + n <= |t|
    ensures t[k..][..n] == t[k..k + n] && Boundary(t, |Encode(t[..k + n])|)
    ensures |Encode(t[..k + n])| == |Encode(t[..k])| + |Encode(t[k..k + n])|
    ensures |Encode(t[..k + n])| <= |Encode(t)|
    ensures |Encode(t[..k + n])| == |Encode(t)| <==> k + n == |t|
  {
    hide Encode, Boundary;
    EncodeSplit(t[..k + n], k);
    assert t[..k + n][..k] == t[..k] && t[..k + n][k..] == t[k..k + n];
    BoundaryAt(t, k + n);
    assert t[..|t|] == t;
    if k + n < |t| { PrefixLengths(t, k + n, |t|); }
  }

  lemma {:induction false} WholeCharsClamped(t: Text, limit: nat)
    ensures WholeChars(t, limit) == WholeChars(t, Min(limit, |Encode(t)|))
    decreases t
  {
    hide EncodeScalar;
    if t != [] && |EncodeScalar(t[0])| <= limit {
      WholeCharsClamped(t[1..], limit - |EncodeScalar(t[0])|);
    }
  }

  lemma FirstFits(t: Text, limit: nat)
    ensures WholeChars(t, limit) == 0 <==> t == [] || limit < |EncodeScalar(t[0])|
  {
    hide EncodeScalar;
  }

  /** A client that pages by `next_offset`: the text it has collected and where it stands. */
  function Page(stored: Bytes, offset: nat, limits: seq<int>): (Text, nat)
    decreases limits
  {
    if limits == [] then ([], offset)
    else
      var w := ReadWindow(stored, offset, limits[0]);
      if w.InvalidWindow? then ([], offset)
      else
        var (text, end) := Page(stored, w.nextOffset, limits[1..]);
        (w.data + text, end)
  }

  predicate ValidLimits(limits: seq<int>, least: int) {
    forall i | 0 <= i < |limits| :: least <= limits[i] <= MAX_JOB_OUTPUT_CHUNK_BYTES
  }

  /** From a boundary, any valid limits give back a run of whole characters and end at a boundary; with
      limits of at least 4 every page but a final empty one moves at least one character on. */
  lemma {:induction false} PagesAreWhole(t: Text, k: nat, limits: seq<int>) returns (m: nat)
    requires k <= |t| && ValidLimits(limits, 1)
    ensures k <= m <= |t|
    ensures Page(Encode(t), |Encode(t[..k])|, limits) == (t[k..m], |Encode(t[..m])|)
    ensures ValidLimits(limits, 4) ==> m >= Min(|t|, k + |limits|)
    decreases limits
  {
    hide Encode, ReadWindow, WholeChars, EncodeScalar;
    if limits == [] {
      m := k;
      assert t[k..m] == [];
    } else {
      WindowExact(t, k, limits[0]);
      var n := WholeChars(t[k..], limits[0]);
      m := PagesAreWhole(t, k + n, limits[1..]);
      assert t[k..k + n] + t[k + n..m] == t[k..m];
    }
  }

  /** Paging from 0 with limits of at least 4 ends, and the pages concatenate to the whole text. */
  lemma PagingReadsAll(t: Text, limits: seq<int>)
    requires ValidLimits(limits, 4) && |limits| >= |t|
    ensures Page(Encode(t), 0, limits) == (t, |Encode(t)|)
  {
    assert t[..0] == [] && |Encode(t[..0])| == 0;
    assert ValidLimits(limits, 1);
    hide Encode, Page, ValidLimits;
    var m := PagesAreWhole(t, 0, limits);
    assert m == |t|;
    assert t[0..m] == t && t[..m] == t;
  }

  /** Limits below 4 may get stuck: a wide character is never passed by a limit narrower than it. */
  lemma {:induction false} NarrowLimitsGetStuck(t: Text, k: nat, limits: seq<int>)
    requires k < |t| && ValidLimits(limits, 1)
    requires forall i | 0 <= i < |limits| :: limits[i] < |EncodeScalar(t[k])|
    ensures Page(Encode(t), |Encode(t[..k])|, limits) == ([], |Encode(t[..k])|)
    decreases limits
  {
    hide Encode, ReadWindow, WholeChars, EncodeScalar;
    if limits != [] {
      WindowExact(t, k, limits[0]);
      var w := ReadWindow(Encode(t), |Encode(t[..k])|, limits[0]);
      assert WholeChars(t[k..], limits[0]) == 0;
      assert w.data == [] && w.nextOffset == |Encode(t[..k])|;
      NarrowLimitsGetStuck(t, k, limits[1..]);
      assert w.data + Page(Encode(t), w.nextOffset, limits[1..]).0 == [];
    }
  }

  // ---- bounded_utf8 ----

  /** None is the UnicodeEncodeError a lone surrogate raises. */
  function BoundedUtf8(value: Str, limit: nat): Option<(Text, bool)> {
    if !AllScalars(value) then None
    else
      var encoded := Encode(value);
      if |encoded| <= limit then Some((value, false))
      else Some((LenientDecode(encoded[..limit]), true))
  }

  /** The result is the longest prefix of whole characters that fits, marked when it is not all. */
  lemma BoundedUtf8Longest(value: Text, limit: nat)
    ensures AllScalars(value) && BoundedUtf8(value, limit).Some?
    ensures var (text, truncated) := BoundedUtf8(value, limit).value;
            && text <= value && |Encode(text)| <= limit
            && (forall longer: Text | text < longer <= value :: |Encode(longer)| > limit)
            && (truncated <==> text != value)
  {
    assert AllScalars(value) by {
      forall i | 0 <= i < |value| ensures !IsSurrogate(value[i]) { var c: Scalar := value[i]; }
    }
    hide Encode, LenientDecode;
    if |Encode(value)| > limit {
      LenientPrefix(value, limit);
      WholeCharsLargest(value, limit);
      var k := WholeChars(value, limit);
      assert value[..k] <= value;
      forall longer: Text | value[..k] < longer <= value ensures |Encode(longer)| > limit {
        assert longer == value[..|longer|];
      }
    }
  }
}
