/** Two reader threads drain a child's pipes into one byte budget; the result says whether anything
    was lost on the way. */
module OutputCapture {
  import opened Utf8

  function Prefix(b: Bytes, n: nat): Bytes { if n <= |b| then b[..n] else b }

  function Concat(chunks: seq<Bytes>): Bytes {
    if chunks == [] then [] else Concat(chunks[..|chunks| - 1]) + chunks[|chunks| - 1]
  }

  // ---- The budget and one thread, as the source has them ----

  class ByteBudget {
    var remaining: nat

    constructor (limit: nat)
      ensures remaining == limit
    {
      remaining := limit;
    }

    method Take(chunk: Bytes) returns (kept: Bytes)
      modifies this
      ensures kept == Prefix(chunk, old(remaining)) && remaining == old(remaining) - |kept|
    {
      kept := Prefix(chunk, remaining);
      remaining := remaining - |kept|;
    }
  }

  class Capture {
    const budget: ByteBudget
    var chunks: seq<Bytes>
    var totalBytes: nat

    constructor (budget: ByteBudget)
      ensures this.budget == budget && chunks == [] && totalBytes == 0
    {
      this.budget := budget;
      chunks, totalBytes := [], 0;
    }

    /** `drain` when no other thread takes from the budget meanwhile: the kept bytes are the longest
        prefix of the pipe's bytes that the budget allows. `pipe` is what its reads return. */
    method Drain(pipe: seq<Bytes>)
      requires chunks == [] && totalBytes == 0
      requires forall i | 0 <= i < |pipe| :: pipe[i] != []
      modifies this, budget
      ensures totalBytes == |Concat(pipe)|
      ensures Concat(chunks) == Prefix(Concat(pipe), old(budget.remaining))
      ensures budget.remaining == old(budget.remaining) - |Concat(chunks)|
    {
      var i := 0;
      while i < |pipe|
        invariant 0 <= i <= |pipe|
        invariant totalBytes == |Concat(pipe[..i])|
        invariant Concat(chunks) == Prefix(Concat(pipe[..i]), old(budget.remaining))
        invariant budget.remaining == old(budget.remaining) - |Concat(chunks)|
      {
        var chunk := pipe[i];
        assert pipe[..i + 1][..i] == pipe[..i];
        totalBytes := totalBytes + |chunk|;
        var kept := budget.Take(chunk);
        if kept != [] {
          assert (chunks + [kept])[..|chunks|] == chunks;
          chunks := chunks + [kept];
        }
        i := i + 1;
      }
      assert pipe[..i] == pipe;
    }
  }

  // ---- Two threads ----

  /** Where a drain loop stands: about to read, holding a chunk it counted, holding what it may keep. */
  datatype Stage = Reading | Counted(chunk: Bytes) | Taken(kept: Bytes) | AtEof

  /** `read` is everything this pipe has delivered so far. */
  datatype Drain = Drain(read: Bytes, totalBytes: nat, chunks: seq<Bytes>, stage: Stage)

  datatype Streams = Streams(remaining: nat, out: Drain, err: Drain)

  datatype Which = Out | Err

  datatype Step = Read(which: Which, chunk: Bytes) | TakeBudget(which: Which) | Append(which: Which) | Eof(which: Which)

  function Of(s: Streams, w: Which): Drain { if w.Out? then s.out else s.err }

  function With(s: Streams, w: Which, d: Drain): Streams { if w.Out? then s.(out := d) else s.(err := d) }

  const CHUNK_SIZE := 8_192

  /** One atomic action of one thread; an action the thread cannot take now changes nothing. */
  function Next(s: Streams, step: Step): Streams {
    var d := Of(s, step.which);
    match step
    case Read(w, chunk) =>
      if d.stage.Reading? && 1 <= |chunk| <= CHUNK_SIZE
      then With(s, w, d.(read := d.read + chunk, totalBytes := d.totalBytes + |chunk|, stage := Counted(chunk)))
      else s
    case TakeBudget(w) =>
      if d.stage.Counted? then
        var kept := Prefix(d.stage.chunk, s.remaining);
        With(s, w, d.(stage := Taken(kept))).(remaining := s.remaining - |kept|)
      else s
    case Append(w) =>
      if d.stage.Taken? then
        With(s, w, d.(chunks := if d.stage.kept == [] then d.chunks else d.chunks + [d.stage.kept], stage := Reading))
      else s
    case Eof(w) => if d.stage.Reading? then With(s, w, d.(stage := AtEof)) else s
  }

  function Start(limit: nat): Streams {
    Streams(limit, Drain([], 0, [], Reading), Drain([], 0, [], Reading))
  }

  function Run(s: Streams, steps: seq<Step>): Streams
    decreases steps
  {
    if steps == [] then s else Run(Next(s, steps[0]), steps[1..])
  }

  /** What a stream has kept, including a part not appended yet. */
  function Kept(d: Drain): Bytes { Concat(d.chunks) + (if d.stage.Taken? then d.stage.kept else []) }

  /** What of a stream has met the budget. */
  function Settled(d: Drain): Bytes
    requires d.stage.Counted? ==> |d.stage.chunk| <= |d.read|
  {
    if d.stage.Counted? then d.read[..|d.read| - |d.stage.chunk|] else d.read
  }

  ghost predicate DrainInv(d: Drain, remaining: nat) {
    && d.totalBytes == |d.read|
    && (d.stage.Counted? ==> |d.stage.chunk| <= |d.read| && d.read == Settled(d) + d.stage.chunk)
    && Kept(d) <= Settled(d)
    && (Kept(d) != Settled(d) ==> remaining == 0)
  }

  ghost predicate Inv(limit: nat, s: Streams) {
    && DrainInv(s.out, s.remaining) && DrainInv(s.err, s.remaining)
    && s.remaining + |Kept(s.out)| + |Kept(s.err)| == limit
  }

  lemma ConcatPush(chunks: seq<Bytes>, c: Bytes)
    ensures Concat(chunks + [c]) == Concat(chunks) + c
  {
    assert (chunks + [c])[..|chunks|] == chunks;
  }

  lemma DrainStep(s: Streams, step: Step)
    requires DrainInv(Of(s, step.which), s.remaining)
    ensures var s' := Next(s, step);
            var d, d' := Of(s, step.which), Of(s', step.which);
            && DrainInv(d', s'.remaining)
            && s'.remaining + |Kept(d')| == s.remaining + |Kept(d)|
            && s'.remaining <= s.remaining
            && Of(s', if step.which.Out? then Err else Out) == Of(s, if step.which.Out? then Err else Out)
  {
    hide Concat;
    var d := Of(s, step.which);
    match step
    case Read(w, chunk) =>
      assert (d.read + chunk)[..|d.read|] == d.read;
    case TakeBudget(w) =>
      if d.stage.Counted? {
        var kept := Prefix(d.stage.chunk, s.remaining);
        assert kept <= d.stage.chunk;
        if Kept(d) == Settled(d) {
          assert Concat(d.chunks) + kept <= d.read;
        }
      }
    case Append(w) =>
      if d.stage.Taken? { ConcatPush(d.chunks, d.stage.kept); }
    case Eof(w) =>
  }

  lemma {:induction false} RunKeepsInv(limit: nat, s: Streams, steps: seq<Step>)
    requires Inv(limit, s)
    ensures Inv(limit, Run(s, steps))
    decreases steps
  {
    hide DrainInv, Next, Kept;
    if steps != [] {
      DrainStep(s, steps[0]);
      OtherStreamUnmoved(s.out, s.err, s, Next(s, steps[0]));
      RunKeepsInv(limit, Next(s, steps[0]), steps[1..]);
    }
  }

  lemma OtherStreamUnmoved(out: Drain, err: Drain, s: Streams, s': Streams)
    requires s'.remaining <= s.remaining
    ensures DrainInv(out, s.remaining) ==> DrainInv(out, s'.remaining)
    ensures DrainInv(err, s.remaining) ==> DrainInv(err, s'.remaining)
  {}

  /** In every interleaving, at every moment: each stream keeps a prefix of what it read, and together
      they never keep more than the limit; when both threads are done they kept min(limit, read). */
  lemma KeptAreFairPrefixes(limit: nat, steps: seq<Step>)
    ensures var s := Run(Start(limit), steps);
            && Concat(s.out.chunks) <= s.out.read && Concat(s.err.chunks) <= s.err.read
            && s.out.totalBytes == |s.out.read| && s.err.totalBytes == |s.err.read|
            && |Concat(s.out.chunks)| + |Concat(s.err.chunks)| <= limit
            && (s.out.stage.AtEof? && s.err.stage.AtEof? ==>
                  |Concat(s.out.chunks)| + |Concat(s.err.chunks)| == Min(limit, |s.out.read| + |s.err.read|))
  {
    RunKeepsInv(limit, Start(limit), steps);
    var s := Run(Start(limit), steps);
    StreamFacts(s.out, s.remaining);
    StreamFacts(s.err, s.remaining);
    hide Run, Concat, Kept, DrainInv;
  }

  lemma StreamFacts(d: Drain, remaining: nat)
    requires DrainInv(d, remaining)
    ensures d.totalBytes == |d.read| && Concat(d.chunks) <= d.read && |Concat(d.chunks)| <= |Kept(d)| <= |d.read|
    ensures d.stage.AtEof? ==> Kept(d) == Concat(d.chunks) && (|Kept(d)| == |d.read| || remaining == 0)
  {
    hide Concat;
    assert Settled(d) <= d.read;
    assert Concat(d.chunks) <= Kept(d);
  }

  // ---- The job result ----

  datatype JobOutput = JobOutput(stdout: Text, stderr: Text, stdoutBytes: nat, stderrBytes: nat, truncated: bool)

  /** The assembly at the end of `RunningJobProcess.wait`. */
  function Assemble(s: Streams): JobOutput {
    var stdout, stderr := LenientDecode(Concat(s.out.chunks)), LenientDecode(Concat(s.err.chunks));
    JobOutput(stdout, stderr, s.out.totalBytes, s.err.totalBytes,
              |Encode(stdout)| + |Encode(stderr)| < s.out.totalBytes + s.err.totalBytes)
  }

  /** When both readers are done, each text is the lenient decoding of a first part of its own stream, each count
      is that stream's, and the two parts together are all that the limit allows. */
  lemma ResultSpeaksOfItsStreams(limit: nat, steps: seq<Step>)
    ensures var s := Run(Start(limit), steps);
            s.out.stage.AtEof? && s.err.stage.AtEof? ==>
              var r := Assemble(s);
              && r.stdoutBytes == |s.out.read| && r.stderrBytes == |s.err.read|
              && exists m, n :: 0 <= m <= |s.out.read| && 0 <= n <= |s.err.read| && m + n == Min(limit, |s.out.read| + |s.err.read|)
                   && r.stdout == LenientDecode(s.out.read[..m]) && r.stderr == LenientDecode(s.err.read[..n])
  {
    KeptAreFairPrefixes(limit, steps);
    var s := Run(Start(limit), steps);
    hide Run, Concat, Encode, LenientDecode;
    if s.out.stage.AtEof? && s.err.stage.AtEof? {
      var m, n := |Concat(s.out.chunks)|, |Concat(s.err.chunks)|;
      assert Concat(s.out.chunks) == s.out.read[..m] && Concat(s.err.chunks) == s.err.read[..n];
    }
  }

  ghost predicate ValidUtf8(b: Bytes) { StrictDecode(b).Some? }

  /** A result is unmarked exactly when everything read fits the limit and is valid UTF-8, and then
      its texts re-encode to exactly the bytes read. */
  lemma TruncationIsHonest(limit: nat, steps: seq<Step>)
    ensures var s := Run(Start(limit), steps);
            s.out.stage.AtEof? && s.err.stage.AtEof? ==>
              var r := Assemble(s);
              && (!r.truncated <==> |s.out.read| + |s.err.read| <= limit && ValidUtf8(s.out.read) && ValidUtf8(s.err.read))
              && (!r.truncated ==> Encode(r.stdout) == s.out.read && Encode(r.stderr) == s.err.read)
              && |Encode(r.stdout)| + |Encode(r.stderr)| <= limit
  {
    KeptAreFairPrefixes(limit, steps);
    var s := Run(Start(limit), steps);
    hide Run, Concat, Encode, LenientDecode, StrictDecode;
    if s.out.stage.AtEof? && s.err.stage.AtEof? {
      LenientKeepsIff(Concat(s.out.chunks));
      LenientKeepsIff(Concat(s.err.chunks));
      if |s.out.read| + |s.err.read| <= limit {
        assert Concat(s.out.chunks) == s.out.read && Concat(s.err.chunks) == s.err.read;
      }
    }
  }

  lemma LenientKeepsIff(b: Bytes)
    ensures |Encode(LenientDecode(b))| <= |b|
    ensures |Encode(LenientDecode(b))| == |b| <==> ValidUtf8(b)
    ensures ValidUtf8(b) ==> Encode(LenientDecode(b)) == b
  {
    LenientLength(b);
    StrictDecodeExact(b);
    if ValidUtf8(b) {
      DecodeEncoded(StrictDecode(b).value, []);
      assert b + [] == b;
      assert StrictDecode(b).value + [] == StrictDecode(b).value;
    }
  }

  // ---- The shell result ----

  /** `_PipeCapture.text` after the first decoding: a second budget over the UTF-8 form. */
  function ShellText(decoded: Text, remaining: nat): (r: (Text, bool, nat))
    ensures r.2 <= remaining
  {
    var encoded := Encode(decoded);
    var kept := Prefix(encoded, remaining);
    var text := LenientDecode(kept);
    (text, |Encode(text)| < |encoded|, remaining - |kept|)
  }

  datatype ShellOutput = ShellOutput(stdout: Text, stderr: Text, stdoutBytes: nat, stderrBytes: nat, truncated: bool)

  /** `out` and `err` are the texts the two captures decode to, in UTF-8 or UTF-16. */
  function AssembleShell(limit: nat, out: Text, err: Text, outBytes: nat, errBytes: nat): ShellOutput {
    var (stdout, outTrimmed, left) := ShellText(out, limit);
    var (stderr, errTrimmed, _) := ShellText(err, left);
    ShellOutput(stdout, stderr, outBytes, errBytes, outBytes + errBytes > limit || outTrimmed || errTrimmed)
  }

  lemma ShellTextExact(decoded: Text, remaining: nat)
    ensures var (text, trimmed, left) := ShellText(decoded, remaining);
            && text <= decoded
            && |Encode(text)| + left <= remaining && left == remaining - Min(remaining, |Encode(decoded)|)
            && (forall longer: Text | text < longer <= decoded :: |Encode(longer)| > remaining)
            && (trimmed <==> text != decoded)
  {
    hide Encode, LenientDecode;
    var encoded := Encode(decoded);
    var o := Min(remaining, |encoded|);
    assert Prefix(encoded, remaining) == encoded[..o];
    LenientPrefix(decoded, o);
    WholeCharsLargest(decoded, o);
    var k := WholeChars(decoded, o);
    assert decoded[..|decoded|] == decoded;
    forall longer: Text | decoded[..k] < longer <= decoded ensures |Encode(longer)| > remaining {
      assert longer == decoded[..|longer|];
      if |longer| < |decoded| { PrefixLengths(decoded, |longer|, |decoded|); }
    }
    if k < |decoded| {
      PrefixLengths(decoded, k, |decoded|);
    } else {
      assert decoded[..k] == decoded;
    }
  }

  /** Combined shell output stays within the limit in UTF-8, whatever the child's encoding; each text
      is a prefix of what was decoded, and an unmarked result lost none of it. */
  lemma ShellOutputBounded(limit: nat, out: Text, err: Text, outBytes: nat, errBytes: nat)
    ensures var r := AssembleShell(limit, out, err, outBytes, errBytes);
            && |Encode(r.stdout)| + |Encode(r.stderr)| <= limit
            && r.stdout <= out && r.stderr <= err
            && (forall longer: Text | r.stdout < longer <= out :: |Encode(longer)| > limit)
            && (r.stdout == out ==> forall longer: Text | r.stderr < longer <= err :: |Encode(out)| + |Encode(longer)| > limit)
            && r.stdoutBytes == outBytes && r.stderrBytes == errBytes
            && (r.truncated <==> outBytes + errBytes > limit || r.stdout != out || r.stderr != err)
  {
    hide Encode, ShellText;
    ShellTextExact(out, limit);
    ShellTextExact(err, ShellText(out, limit).2);
  }

  /** The shell's mark is weaker than the job's: bytes that are not valid UTF-8 vanish in the first
      decoding without a mark. Unmarked output is exact exactly when both streams are valid. */
  lemma ShellMarkMissesInvalidBytes(limit: nat, steps: seq<Step>)
    ensures var s := Run(Start(limit), steps);
            s.out.stage.AtEof? && s.err.stage.AtEof? ==>
              var r := AssembleShell(limit, LenientDecode(Concat(s.out.chunks)), LenientDecode(Concat(s.err.chunks)),
                                     s.out.totalBytes, s.err.totalBytes);
              && (!r.truncated <==> |s.out.read| + |s.err.read| <= limit)
              && (!r.truncated ==>
                    (Encode(r.stdout) == s.out.read && Encode(r.stderr) == s.err.read
                     <==> ValidUtf8(s.out.read) && ValidUtf8(s.err.read)))
  {
    KeptAreFairPrefixes(limit, steps);
    var s := Run(Start(limit), steps);
    hide Run, Concat, Encode, LenientDecode, StrictDecode, AssembleShell;
    if s.out.stage.AtEof? && s.err.stage.AtEof? {
      var out, err := LenientDecode(Concat(s.out.chunks)), LenientDecode(Concat(s.err.chunks));
      LenientKeepsIff(Concat(s.out.chunks));
      LenientKeepsIff(Concat(s.err.chunks));
      ShellOutputBounded(limit, out, err, s.out.totalBytes, s.err.totalBytes);
      ShellWholeFits(limit, out, err, s.out.totalBytes, s.err.totalBytes);
      if |s.out.read| + |s.err.read| <= limit {
        assert Concat(s.out.chunks) == s.out.read && Concat(s.err.chunks) == s.err.read;
      }
    }
  }

  lemma ShellWholeFits(limit: nat, out: Text, err: Text, outBytes: nat, errBytes: nat)
    requires |Encode(out)| + |Encode(err)| <= limit
    ensures var r := AssembleShell(limit, out, err, outBytes, errBytes); r.stdout == out && r.stderr == err
  {
    hide Encode, LenientDecode;
    DecodeEncoded(out, []);
    DecodeEncoded(err, []);
    assert Encode(out) + [] == Encode(out) && Encode(err) + [] == Encode(err);
    assert LenientDecode([]) == [] by { CutChar(0, 0); assert EncodeScalar(0)[..0] == []; }
    assert out + [] == out && err + [] == err;
  }
}
