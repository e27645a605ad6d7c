/** LZ4 blocks as a ZSO image stores them: the format, its meaning, and the decoder. */
module Lz4 {
  import opened Storage
  import opened Layout

  datatype Error = InvalidZso | IncompleteZso | OutOfRange

  datatype Result<+T> = Success(value: T) | Failure(error: Error) {
    predicate IsFailure() { Failure? }

    function PropagateFailure<U>(): Result<U>
      requires Failure?
    {
      Failure(error)
    }

    function Extract(): T
      requires Success?
    {
      value
    }
  }

  // ---- The format: sequences of literals and matches, then final literals.

  datatype Sequence = Sequence(literals: Bytes, offset: nat, length: nat)

  datatype Block = Block(sequences: seq<Sequence>, last: Bytes)

  function Nibble(n: nat): nat { if n < 15 then n else 15 }

  /** Length bytes beyond a nibble of 15. */
  function LengthBytes(n: nat): Bytes {
    if n < 255 then [n as byte] else [255] + LengthBytes(n - 255)
  }

  function Extension(n: nat): Bytes { if n < 15 then [] else LengthBytes(n - 15) }

  function OffsetBytes(offset: nat): (bytes: Bytes)
    requires offset < 0x1_0000
    ensures |bytes| == 2
  {
    [(offset % 256) as byte, (offset / 256) as byte]
  }

  function EncodeSequence(s: Sequence): Bytes
    requires 4 <= s.length && s.offset < 0x1_0000
  {
    [(Nibble(|s.literals|) * 16 + Nibble(s.length - 4)) as byte]
    + (Extension(|s.literals|)
       + (s.literals + (OffsetBytes(s.offset) + Extension(s.length - 4))))
  }

  function EncodeLast(last: Bytes): Bytes {
    [(Nibble(|last|) * 16) as byte] + Extension(|last|) + last
  }

  /** `n` bytes copied one at a time from `offset` back, so that a match may overlap
      the bytes it is producing. */
  function Copy(out: Bytes, offset: nat, n: nat): (copied: Bytes)
    requires 0 < offset <= |out|
    ensures |copied| == |out| + n
    decreases n
  {
    if n == 0 then out else Copy(out + [out[|out| - offset]], offset, n - 1)
  }

  /** Matches are at least 4 long and never reach before the start of the output. */
  predicate WellFormed(b: Block, produced: nat)
    decreases |b.sequences|
  {
    b.sequences == []
    || (var s := b.sequences[0];
        && 4 <= s.length && 0 < s.offset < 0x1_0000 && s.offset <= produced + |s.literals|
        && WellFormed(b.(sequences := b.sequences[1..]), produced + |s.literals| + s.length))
  }

  function Encode(b: Block, produced: nat): Bytes
    requires WellFormed(b, produced)
    decreases |b.sequences|
  {
    if b.sequences == [] then EncodeLast(b.last)
    else
      var s := b.sequences[0];
      EncodeSequence(s) + Encode(b.(sequences := b.sequences[1..]), produced + |s.literals| + s.length)
  }

  /** What a block means after `out` has been produced. */
  function Expand(out: Bytes, b: Block): (all: Bytes)
    requires WellFormed(b, |out|)
    ensures |out| <= |all|
    decreases |b.sequences|
  {
    if b.sequences == [] then out + b.last
    else
      var s := b.sequences[0];
      Expand(Copy(out + s.literals, s.offset, s.length), b.(sequences := b.sequences[1..]))
  }

  // ---- The decoder.

  /** A length: the nibble, and while it is 15 or a byte is 255, more bytes.  `None`
      when the bytes run out, which the arithmetic of the decoder turns into NaN. */
  function ReadLength(source: Bytes, at: nat, nibble: nat): (Option<nat>, nat) {
    if nibble == 15 then ReadExtension(source, at, 15) else (Some(nibble), at)
  }

  function ReadExtension(source: Bytes, at: nat, sum: nat): (r: (Option<nat>, nat))
    ensures at < r.1 && (r.0.None? <==> r.1 > |source|)
    decreases |source| - at
  {
    if at >= |source| then (None, at + 1)
    else if source[at] == 255 then ReadExtension(source, at + 1, sum + 255)
    else (Some(sum + source[at] as nat), at + 1)
  }

  /** The literals at `at`; bytes beyond the end of the source stay zero. */
  function Literals(source: Bytes, at: nat, n: nat): (bytes: Bytes)
    requires at <= |source|
    ensures |bytes| == n
  {
    if at + n <= |source| then source[at..at + n] else source[at..] + Zeros(at + n - |source|)
  }

  /** A match copy that stops at the expected size. */
  function CopyUpTo(out: Bytes, offset: nat, n: nat, expected: nat): (copied: Bytes)
    requires 0 < offset <= |out|
    ensures |copied| == if |out| >= expected then |out| else if |out| + n <= expected then |out| + n else expected
    decreases n
  {
    if n == 0 || |out| >= expected then out else CopyUpTo(out + [out[|out| - offset]], offset, n - 1, expected)
  }

  function Finish(out: Bytes, expected: nat): Result<Bytes> {
    if |out| == expected then Success(out) else Failure(IncompleteZso)
  }

  /** What one round of the decoder leads to. */
  datatype Round = Stop(result: Result<Bytes>) | Go(input: nat, out: Bytes)

  /** The literals of a round, and what follows them. */
  function AfterLiterals(source: Bytes, next: nat, written: Bytes, low: nat, expected: nat): (round: Round)
    requires next + 2 <= |source|
    ensures round.Go? ==> next < round.input <= |source|
    ensures round.Stop? && round.result.Success? ==> |round.result.value| == expected
  {
    var offset := source[next] as nat + 256 * source[next + 1] as nat;
    if offset == 0 || offset > |written| then Stop(Failure(InvalidZso))
    else
      var (length, after) := ReadLength(source, next + 2, low);
      if length.None? then Stop(Finish(written, expected))
      else Go(after, CopyUpTo(written, offset, length.value + 4, expected))
  }

  /** One round: token, literals, offset, match. */
  function DecodeRound(source: Bytes, input: nat, out: Bytes, expected: nat): (round: Round)
    requires input < |source|
    ensures round.Go? ==> input < round.input <= |source|
    ensures round.Stop? && round.result.Success? ==> |round.result.value| == expected
  {
    var token := source[input] as nat;
    var (literals, start) := ReadLength(source, input + 1, token / 16);
    if literals.None? then Stop(Failure(OutOfRange))
    else
      var next := start + literals.value;
      var written := out + Literals(source, start, literals.value);
      if next >= |source| then Stop(Finish(written, expected))
      else if next + 2 > |source| then Stop(Failure(OutOfRange))
      else AfterLiterals(source, next, written, token % 16, expected)
  }

  /** The decoder from cursor `input` with `out` already written. */
  function DecodeFrom(source: Bytes, input: nat, out: Bytes, expected: nat): (r: Result<Bytes>)
    ensures r.Success? ==> |r.value| == expected
    decreases |source| - input
  {
    if input >= |source| || |out| >= expected then Finish(out, expected)
    else
      match DecodeRound(source, input, out, expected)
      case Stop(result) => result
      case Go(input', out') => DecodeFrom(source, input', out', expected)
  }

  function Decode(source: Bytes, expected: nat): Result<Bytes> { DecodeFrom(source, 0, [], expected) }

  // ---- Decoding undoes encoding.

  lemma {:induction false} ReadsLengthBytes(source: Bytes, at: nat, n: nat, sum: nat)
    requires At(source, at, LengthBytes(n))
    ensures ReadExtension(source, at, sum) == (Some(sum + n), at + |LengthBytes(n)|)
    decreases n
  {
    assert source[at] == source[at..at + |LengthBytes(n)|][0];
    if n >= 255 {
      assert source[at + 1..at + |LengthBytes(n)|] == source[at..at + |LengthBytes(n)|][1..];
      ReadsLengthBytes(source, at + 1, n - 255, sum + 255);
    }
  }

  lemma ReadsLength(source: Bytes, at: nat, n: nat)
    requires At(source, at, Extension(n))
    ensures ReadLength(source, at, Nibble(n)) == (Some(n), at + |Extension(n)|)
  {
    if n >= 15 { ReadsLengthBytes(source, at, n - 15, 15); }
  }

  lemma {:induction false} CopyWithinSize(out: Bytes, offset: nat, n: nat, expected: nat)
    requires 0 < offset <= |out| && |out| + n <= expected
    ensures CopyUpTo(out, offset, n, expected) == Copy(out, offset, n)
    decreases n
  {
    if n > 0 { CopyWithinSize(out + [out[|out| - offset]], offset, n - 1, expected); }
  }

  /** The pieces of an encoded sequence stand where the decoder will look for them. */
  ghost predicate Laid(source: Bytes, input: nat, s: Sequence) {
    4 <= s.length &&
    var n, m := |s.literals|, s.length - 4;
    var start := input + 1 + |Extension(n)|;
    && start + n + 2 <= |source|
    && source[input] as nat == Nibble(n) * 16 + Nibble(m)
    && At(source, input + 1, Extension(n)) && At(source, start, s.literals)
    && source[start + n] as nat + 256 * source[start + n + 1] as nat == s.offset
    && At(source, start + n + 2, Extension(m))
  }

  function SizeOfSequence(s: Sequence): nat
    requires 4 <= s.length
  {
    1 + |Extension(|s.literals|)| + |s.literals| + 2 + |Extension(s.length - 4)|
  }

  lemma OffsetIsRead(source: Bytes, at: nat, offset: nat)
    requires offset < 0x1_0000 && At(source, at, OffsetBytes(offset))
    ensures at + 2 <= |source| && source[at] as nat + 256 * source[at + 1] as nat == offset
  {
    assert source[at] == source[at..at + 2][0] && source[at + 1] == source[at..at + 2][1];
  }

  lemma PiecesStand(source: Bytes, at: nat, a: Bytes, b: Bytes, c: Bytes, d: Bytes, e: Bytes)
    requires At(source, at, a + (b + (c + (d + e))))
    ensures At(source, at, a) && At(source, at + |a|, b) && At(source, at + |a| + |b|, c)
    ensures At(source, at + |a| + |b| + |c|, d) && At(source, at + |a| + |b| + |c| + |d|, e)
  {
    hide At;
    AtSplit(source, at, a, b + (c + (d + e)));
    AtSplit(source, at + |a|, b, c + (d + e));
    AtSplit(source, at + |a| + |b|, c, d + e);
    AtSplit(source, at + |a| + |b| + |c|, d, e);
  }

  lemma SizeIsRight(s: Sequence)
    requires 4 <= s.length && s.offset < 0x1_0000
    ensures |EncodeSequence(s)| == SizeOfSequence(s)
  {
    hide Extension, OffsetBytes, Nibble;
  }

  lemma TokenStands(source: Bytes, input: nat, n: nat, m: nat)
    requires Nibble(n) * 16 + Nibble(m) < 256 && At(source, input, [(Nibble(n) * 16 + Nibble(m)) as byte])
    ensures input < |source| && source[input] as nat == Nibble(n) * 16 + Nibble(m)
  {
    hide Nibble;
    HeadOf(source, input, [(Nibble(n) * 16 + Nibble(m)) as byte]);
  }

  lemma SequenceIsLaid(source: Bytes, input: nat, s: Sequence)
    requires 4 <= s.length && s.offset < 0x1_0000 && At(source, input, EncodeSequence(s))
    ensures Laid(source, input, s) && |EncodeSequence(s)| == SizeOfSequence(s)
  {
    var n, m := |s.literals|, s.length - 4;
    SizeIsRight(s);
    assert Nibble(n) * 16 + Nibble(m) < 256;
    var token := [(Nibble(n) * 16 + Nibble(m)) as byte];
    hide At, Extension, OffsetBytes, Nibble;
    PiecesStand(source, input, token, Extension(n), s.literals, OffsetBytes(s.offset), Extension(m));
    TokenStands(source, input, n, m);
    OffsetIsRead(source, input + 1 + |Extension(n)| + n, s.offset);
  }

  lemma Token(hi: nat, lo: nat)
    requires hi < 16 && lo < 16
    ensures (hi * 16 + lo) / 16 == hi && (hi * 16 + lo) % 16 == lo
  {
  }

  lemma MatchOfSequence(source: Bytes, next: nat, written: Bytes, s: Sequence, expected: nat)
    requires 4 <= s.length && 0 < s.offset <= |written|
    requires next + 2 <= |source| && source[next] as nat + 256 * source[next + 1] as nat == s.offset
    requires At(source, next + 2, Extension(s.length - 4))
    ensures AfterLiterals(source, next, written, Nibble(s.length - 4), expected)
            == Go(next + 2 + |Extension(s.length - 4)|, CopyUpTo(written, s.offset, s.length, expected))
  {
    ReadsLength(source, next + 2, s.length - 4);
    assert s.length - 4 + 4 == s.length;
  }

  lemma LiteralsAt(source: Bytes, at: nat, bytes: Bytes)
    requires At(source, at, bytes)
    ensures Literals(source, at, |bytes|) == bytes
  {
  }

  lemma TokenOfSequence(source: Bytes, input: nat, s: Sequence)
    requires Laid(source, input, s)
    ensures source[input] as nat % 16 == Nibble(s.length - 4)
    ensures ReadLength(source, input + 1, source[input] as nat / 16)
            == (Some(|s.literals|), input + 1 + |Extension(|s.literals|)|)
  {
    hide At, Extension, ReadLength;
    Token(Nibble(|s.literals|), Nibble(s.length - 4));
    ReadsLength(source, input + 1, |s.literals|);
  }

  lemma LiteralsOfSequence(source: Bytes, input: nat, out: Bytes, literals: Bytes, low: nat, start: nat, expected: nat)
    requires input < |source| && source[input] as nat % 16 == low
    requires ReadLength(source, input + 1, source[input] as nat / 16) == (Some(|literals|), start)
    requires At(source, start, literals) && start + |literals| + 2 <= |source|
    ensures DecodeRound(source, input, out, expected)
            == AfterLiterals(source, start + |literals|, out + literals, low, expected)
  {
    LiteralsAt(source, start, literals);
  }

  /** One encoded sequence is one round of the decoder. */
  lemma RoundOfSequence(source: Bytes, input: nat, out: Bytes, s: Sequence, expected: nat, after: Bytes)
    requires Laid(source, input, s) && 0 < s.offset <= |out| + |s.literals|
    requires after == CopyUpTo(out + s.literals, s.offset, s.length, expected)
    ensures DecodeRound(source, input, out, expected) == Go(input + SizeOfSequence(s), after)
  {
    hide DecodeRound, AfterLiterals, ReadLength, CopyUpTo, At, Nibble;
    var start := input + 1 + |Extension(|s.literals|)|;
    TokenOfSequence(source, input, s);
    LiteralsOfSequence(source, input, out, s.literals, Nibble(s.length - 4), start, expected);
    MatchOfSequence(source, start + |s.literals|, out + s.literals, s, expected);
  }

  /** Final literals stand at `input`, and after them `pad` zeros end the source. */
  ghost predicate LastLaid(source: Bytes, input: nat, last: Bytes, pad: nat) {
    var end := input + 1 + |Extension(|last|)| + |last|;
    && input < |source| && source[input] as nat == Nibble(|last|) * 16
    && At(source, input + 1, Extension(|last|)) && At(source, input + 1 + |Extension(|last|)|, last)
    && end + pad == |source| && forall k :: end <= k < |source| ==> source[k] == 0
  }

  lemma LastIsLaid(source: Bytes, input: nat, last: Bytes, pad: nat)
    requires At(source, input, EncodeLast(last)) && input + |EncodeLast(last)| + pad == |source|
    requires forall k :: |source| - pad <= k < |source| ==> source[k] == 0
    ensures LastLaid(source, input, last, pad)
  {
    var token := [(Nibble(|last|) * 16) as byte];
    assert EncodeLast(last) == token + (Extension(|last|) + last);
    AtSplit(source, input, token, Extension(|last|) + last);
    HeadOf(source, input, token);
    AtSplit(source, input + 1, Extension(|last|), last);
  }

  /** How a block ends whose final literals are followed by `pad` bytes of padding: the decoder
      takes padding for an offset, unless the output is already complete. */
  function Ending(out: Bytes, last: Bytes, pad: nat, expected: nat): Result<Bytes> {
    if |out| == expected then Success(out)
    else if pad == 1 then Failure(OutOfRange)
    else if pad > 1 then Failure(InvalidZso)
    else if |out| + |last| == expected then Success(out + last)
    else Failure(IncompleteZso)
  }

  lemma RoundOfLast(source: Bytes, input: nat, out: Bytes, last: Bytes, pad: nat, expected: nat)
    requires LastLaid(source, input, last, pad) && |out| < expected
    ensures DecodeRound(source, input, out, expected) == Stop(Ending(out, last, pad, expected))
  {
    hide DecodeRound, ReadLength, At, Extension;
    TokenOfLast(source, input, last, pad);
    EndsWithLiterals(source, input, out, last, input + 1 + |Extension(|last|)|, pad, expected);
  }

  lemma TokenOfLast(source: Bytes, input: nat, last: Bytes, pad: nat)
    requires LastLaid(source, input, last, pad)
    ensures ReadLength(source, input + 1, source[input] as nat / 16) == (Some(|last|), input + 1 + |Extension(|last|)|)
  {
    hide ReadLength, At, Extension;
    Token(Nibble(|last|), 0);
    ReadsLength(source, input + 1, |last|);
  }

  lemma EndsWithLiterals(source: Bytes, input: nat, out: Bytes, last: Bytes, start: nat, pad: nat, expected: nat)
    requires input < |source| && ReadLength(source, input + 1, source[input] as nat / 16) == (Some(|last|), start)
    requires At(source, start, last) && start + |last| + pad == |source| && |out| < expected
    requires forall k :: start + |last| <= k < |source| ==> source[k] == 0
    ensures DecodeRound(source, input, out, expected) == Stop(Ending(out, last, pad, expected))
  {
    hide ReadLength, At;
    LiteralsAt(source, start, last);
  }

  /** Final literals end the block. */
  lemma DecodesLast(source: Bytes, input: nat, out: Bytes, last: Bytes, pad: nat, expected: nat)
    requires LastLaid(source, input, last, pad) && |out| <= expected
    ensures DecodeFrom(source, input, out, expected) == Ending(out, last, pad, expected)
  {
    if |out| < expected { RoundOfLast(source, input, out, last, pad, expected); }
    hide DecodeRound;
  }

  lemma GoesOn(source: Bytes, input: nat, out: Bytes, expected: nat, input': nat, out': Bytes)
    requires input < |source| && |out| < expected && DecodeRound(source, input, out, expected) == Go(input', out')
    ensures DecodeFrom(source, input, out, expected) == DecodeFrom(source, input', out', expected)
  {
  }

  /** The decoder moves over one sequence. */
  lemma DecodesSequence(source: Bytes, input: nat, out: Bytes, s: Sequence, expected: nat)
    requires Laid(source, input, s) && 0 < s.offset <= |out| + |s.literals|
    requires |out| + |s.literals| + s.length <= expected
    ensures DecodeFrom(source, input, out, expected)
            == DecodeFrom(source, input + SizeOfSequence(s), Copy(out + s.literals, s.offset, s.length), expected)
  {
    hide DecodeFrom, DecodeRound, Copy, CopyUpTo, At, Extension, Nibble;
    var next := Copy(out + s.literals, s.offset, s.length);
    CopyWithinSize(out + s.literals, s.offset, s.length, expected);
    RoundOfSequence(source, input, out, s, expected, next);
    GoesOn(source, input, out, expected, input + SizeOfSequence(s), next);
  }

  /** A match that reaches before the start of the output is refused. */
  lemma BadOffsetIsRefused(source: Bytes, input: nat, out: Bytes, s: Sequence, expected: nat)
    requires Laid(source, input, s) && (s.offset == 0 || |out| + |s.literals| < s.offset) && |out| < expected
    ensures DecodeFrom(source, input, out, expected) == Failure(InvalidZso)
  {
    hide ReadLength, At, Nibble;
    var start := input + 1 + |Extension(|s.literals|)|;
    TokenOfSequence(source, input, s);
    LiteralsOfSequence(source, input, out, s.literals, Nibble(s.length - 4), start, expected);
  }

  /** The whole block stands at `input`, and after it `pad` zeros end the source. */
  ghost predicate BlockLaid(source: Bytes, input: nat, b: Block, pad: nat)
    decreases |b.sequences|
  {
    if b.sequences == [] then LastLaid(source, input, b.last, pad)
    else Laid(source, input, b.sequences[0])
         && BlockLaid(source, input + SizeOfSequence(b.sequences[0]), b.(sequences := b.sequences[1..]), pad)
  }

  lemma {:induction false} EncodedBlockIsLaid(source: Bytes, input: nat, b: Block, produced: nat, pad: nat)
    requires WellFormed(b, produced) && At(source, input, Encode(b, produced))
    requires input + |Encode(b, produced)| + pad == |source|
    requires forall k :: |source| - pad <= k < |source| ==> source[k] == 0
    ensures BlockLaid(source, input, b, pad)
    decreases |b.sequences|
  {
    hide EncodeSequence, EncodeLast, Laid, LastLaid;
    if b.sequences == [] {
      LastIsLaid(source, input, b.last, pad);
    } else {
      var s, rest := b.sequences[0], b.(sequences := b.sequences[1..]);
      AtSplit(source, input, EncodeSequence(s), Encode(rest, produced + |s.literals| + s.length));
      SequenceIsLaid(source, input, s);
      EncodedBlockIsLaid(source, input + SizeOfSequence(s), rest, produced + |s.literals| + s.length, pad);
    }
  }

  /** What the decoder makes of a block, asked for at least as many bytes as it means. */
  function Outcome(out: Bytes, b: Block, pad: nat, expected: nat): Result<Bytes>
    requires WellFormed(b, |out|)
  {
    if b.last == [] && |Expand(out, b)| == expected then Success(Expand(out, b))
    else if pad == 1 then Failure(OutOfRange)
    else if pad > 1 then Failure(InvalidZso)
    else if |Expand(out, b)| == expected then Success(Expand(out, b))
    else Failure(IncompleteZso)
  }

  lemma {:induction false} DecodesFrom(source: Bytes, input: nat, out: Bytes, b: Block, pad: nat, expected: nat)
    requires WellFormed(b, |out|) && BlockLaid(source, input, b, pad) && |Expand(out, b)| <= expected
    ensures DecodeFrom(source, input, out, expected) == Outcome(out, b, pad, expected)
    decreases |b.sequences|
  {
    hide Laid, LastLaid, DecodeRound;
    if b.sequences == [] {
      DecodesLast(source, input, out, b.last, pad, expected);
      if b.last == [] { assert out + b.last == out; }
    } else {
      var s, rest := b.sequences[0], b.(sequences := b.sequences[1..]);
      DecodesSequence(source, input, out, s, expected);
      DecodesFrom(source, input + SizeOfSequence(s), Copy(out + s.literals, s.offset, s.length), rest, pad, expected);
    }
  }

  /** Round trip: decoding an encoded block gives exactly what the block means,
      overlapping matches and extended lengths included. */
  lemma RoundTrip(b: Block)
    requires WellFormed(b, 0)
    ensures Decode(Encode(b, 0), |Expand([], b)|) == Success(Expand([], b))
  {
    PaddedBlock(b, 0, |Expand([], b)|);
    assert Encode(b, 0) + Zeros(0) == Encode(b, 0);
  }

  /** A block followed by padding is decoded if and only if it ends with a match; a byte of padding
      runs the decoder out of the source, more of them are an offset of zero.  A block that means
      fewer bytes than expected is incomplete. */
  lemma PaddedBlock(b: Block, pad: nat, expected: nat)
    requires WellFormed(b, 0) && |Expand([], b)| <= expected
    ensures Decode(Encode(b, 0) + Zeros(pad), expected)
            == if |Expand([], b)| == expected && (pad == 0 || b.last == []) then Success(Expand([], b))
               else if pad == 0 then Failure(IncompleteZso)
               else if pad == 1 then Failure(OutOfRange)
               else Failure(InvalidZso)
  {
    hide Encode, Expand, DecodeFrom;
    var source := Encode(b, 0) + Zeros(pad);
    assert source[0..|Encode(b, 0)|] == Encode(b, 0);
    EncodedBlockIsLaid(source, 0, b, 0, pad);
    DecodesFrom(source, 0, [], b, pad, expected);
  }

  /** What a match means: the output so far, then bytes each equal to the one `offset`
      places before it. */
  lemma {:induction false} CopyRepeats(out: Bytes, offset: nat, n: nat)
    requires 0 < offset <= |out|
    ensures var c := Copy(out, offset, n);
            c[..|out|] == out && forall k :: |out| <= k < |c| ==> c[k] == c[k - offset]
    decreases n
  {
    if n > 0 {
      var more := out + [out[|out| - offset]];
      CopyRepeats(more, offset, n - 1);
      var c := Copy(out, offset, n);
      assert c[..|out|] == c[..|more|][..|out|] == out;
      assert c[|out|] == c[..|more|][|out|] == c[..|more|][|out| - offset] == c[|out| - offset];
    }
  }

  // ---- The decoder as the program runs it, filling a buffer in place.

  /** The zero-filled buffer after `out` has been written to it, clipped to its size. */
  ghost predicate Shows(buffer: Bytes, out: Bytes) {
    forall k :: 0 <= k < |buffer| ==> buffer[k] == if k < |out| then out[k] else 0
  }

  method ExtendLength(source: Bytes, at: nat, nibble: nat) returns (length: Option<nat>, next: nat)
    ensures (length, next) == ReadLength(source, at, nibble)
  {
    if nibble != 15 { return Some(nibble), at; }
    var sum := nibble;
    next := at;
    while next < |source| && source[next] == 255
      invariant ReadExtension(source, at, 15) == ReadExtension(source, next, sum)
      decreases |source| - next
    {
      sum, next := sum + 255, next + 1;
    }
    if next >= |source| { return None, next + 1; }
    length, next := Some(sum + source[next] as nat), next + 1;
  }

  method CopyLiterals(source: Bytes, output: array<byte>, written: nat, at: nat, n: nat, ghost out: Bytes)
    requires |out| == written <= output.Length && at <= |source| && Shows(output[..], out)
    modifies output
    ensures Shows(output[..], out + Literals(source, at, n))
  {
    var available := if at + n <= |source| then n else |source| - at;
    var i := 0;
    while i < available && written + i < output.Length
      invariant 0 <= i <= available && written + i <= output.Length
      invariant forall k :: 0 <= k < output.Length ==>
                  output[k] == if k < written then out[k] else if k < written + i then source[at + k - written] else 0
    {
      output[written + i] := source[at + i];
      i := i + 1;
    }
  }

  method CopyMatch(output: array<byte>, written: nat, offset: nat, n: nat, ghost out: Bytes) returns (after: nat)
    requires |out| == written && 0 < offset <= written && Shows(output[..], out)
    modifies output
    ensures Shows(output[..], CopyUpTo(out, offset, n, output.Length))
    ensures after == |CopyUpTo(out, offset, n, output.Length)|
  {
    after := written;
    ghost var copied := out;
    var index := 0;
    while index < n && after < output.Length
      invariant 0 <= index <= n && |copied| == after && offset <= after
      invariant Shows(output[..], copied)
      invariant CopyUpTo(out, offset, n, output.Length) == CopyUpTo(copied, offset, n - index, output.Length)
    {
      assert output[..][after - offset] == copied[after - offset];
      output[after] := output[after - offset];
      copied := copied + [copied[after - offset]];
      after, index := after + 1, index + 1;
    }
  }

  /** The body of the decoding loop.  `done` leaves the loop, `error` throws. */
  method RunRound(source: Bytes, output: array<byte>, at: nat, count: nat, ghost before: Bytes)
    returns (error: Option<Error>, done: bool, input: nat, written: nat, ghost out: Bytes)
    requires at < |source| && |before| == count < output.Length && Shows(output[..], before)
    modifies output
    ensures error.Some? ==> DecodeRound(source, at, before, output.Length) == Stop(Failure(error.value))
    ensures error.None? ==>
              && |out| == written && Shows(output[..], out)
              && DecodeRound(source, at, before, output.Length)
                == if done then Stop(Finish(out, output.Length)) else Go(input, out)
  {
    error, done, written, out := None, false, count, before;
    var token := source[at] as nat;
    var literals;
    literals, input := ExtendLength(source, at + 1, token / 16);
    if literals.None? { error := Some(OutOfRange); return; }
    CopyLiterals(source, output, written, input, literals.value, out);
    out := out + Literals(source, input, literals.value);
    input, written := input + literals.value, written + literals.value;
    if input >= |source| { done := true; return; }
    if input + 2 > |source| { error := Some(OutOfRange); return; }
    error, done, input, written, out := RunMatch(source, output, input, written, token % 16, out);
  }

  /** Offset, match length and match copy of a round. */
  method RunMatch(source: Bytes, output: array<byte>, at: nat, count: nat, low: nat, ghost before: Bytes)
    returns (error: Option<Error>, done: bool, input: nat, written: nat, ghost out: Bytes)
    requires at + 2 <= |source| && |before| == count && Shows(output[..], before)
    modifies output
    ensures error.Some? ==> AfterLiterals(source, at, before, low, output.Length) == Stop(Failure(error.value))
    ensures error.None? ==>
              && |out| == written && Shows(output[..], out)
              && AfterLiterals(source, at, before, low, output.Length)
                == if done then Stop(Finish(out, output.Length)) else Go(input, out)
  {
    error, done, written, out := None, false, count, before;
    var offset := source[at] as nat + 256 * source[at + 1] as nat;
    input := at + 2;
    if offset == 0 || offset > written { error := Some(InvalidZso); return; }
    var length;
    length, input := ExtendLength(source, input, low);
    if length.None? { done := true; return; }
    written := CopyMatch(output, written, offset, length.value + 4, out);
    out := CopyUpTo(out, offset, length.value + 4, output.Length);
  }

  /** `decodeLz4`: every input, well formed or not. */
  method DecodeLz4(source: Bytes, expectedBytes: nat) returns (r: Result<Bytes>)
    ensures r == Decode(source, expectedBytes)
  {
    var output := new byte[expectedBytes](_ => 0);
    var input, written := 0, 0;
    ghost var out: Bytes := [];
    while input < |source| && written < expectedBytes
      invariant |out| == written && Shows(output[..], out)
      invariant Decode(source, expectedBytes) == DecodeFrom(source, input, out, expectedBytes)
      decreases |source| - input
    {
      hide DecodeRound;
      var error, done;
      error, done, input, written, out := RunRound(source, output, input, written, out);
      if error.Some? { return Failure(error.value); }
      if done { break; }
    }
    if written != expectedBytes { return Failure(IncompleteZso); }
    assert output[..] == out;
    r := Success(output[..]);
  }
}
