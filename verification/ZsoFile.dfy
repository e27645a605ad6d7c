/** Building a ZSO file: header, index and blocks, each block stored as it is or
    compressed.  What is built is accepted by the reader and stands for its image. */
module ZsoFiles {
  import opened Storage
  import opened Layout
  import opened Lz4
  import opened Zso

  /** A number in `k` bytes, at least four. */
  function Wide(n: nat, k: nat): (bytes: Bytes)
    requires 4 <= k && n < Bound(k)
    ensures |bytes| == k
  {
    if k == 4 then Little(n) else [(n % 256) as byte] + Wide(n / 256, k - 1)
  }

  function Bound(k: nat): nat
    requires 4 <= k
  {
    if k == 4 then 0x1_0000_0000 else 256 * Bound(k - 1)
  }

  lemma {:induction false} WideBack(source: Bytes, at: nat, n: nat, k: nat)
    requires 4 <= k && n < Bound(k) && At(source, at, Wide(n, k))
    ensures LittleEndian(source, at, k) == n
    decreases k
  {
    if k == 4 {
      LittleBack(source, at, n);
    } else {
      var low := [(n % 256) as byte];
      AtSplit(source, at, low, Wide(n / 256, k - 1));
      HeadOf(source, at, low);
      WideBack(source, at + 1, n / 256, k - 1);
    }
  }

  /** A stored block: its bytes, and whether they are the block itself. */
  datatype Chunk = Chunk(raw: bool, bytes: Bytes)

  /** Where chunk `i` starts when the first one starts at `start`. */
  function Position(chunks: seq<Chunk>, start: nat, i: nat): (at: nat)
    requires i <= |chunks|
    ensures start <= at
  {
    if i == 0 then start else Position(chunks[1..], start + |chunks[0].bytes|, i - 1)
  }

  /** The index: position, in units, and raw flag of each chunk, and the end of the last one. */
  function Index(chunks: seq<Chunk>, start: nat, unit: nat): (bytes: Bytes)
    requires 0 < unit && Position(chunks, start, |chunks|) < 0x8000_0000 * unit
    ensures |bytes| == 4 * (|chunks| + 1)
    decreases |chunks|
  {
    UnitsFit(start, Position(chunks, start, |chunks|), unit);
    if chunks == [] then Little(start / unit)
    else
      Little(start / unit + if chunks[0].raw then 0x8000_0000 else 0)
      + Index(chunks[1..], start + |chunks[0].bytes|, unit)
  }

  lemma UnitsFit(at: nat, end: nat, unit: nat)
    requires at <= end < 0x8000_0000 * unit && 0 < unit
    ensures at / unit < 0x8000_0000
  {
    DivMod(at, unit);
    if at / unit >= 0x8000_0000 { Monotone(0x8000_0000, at / unit, unit); }
  }

  function Body(chunks: seq<Chunk>): Bytes {
    if chunks == [] then [] else chunks[0].bytes + Body(chunks[1..])
  }

  /** The first 24 bytes of a ZSO. */
  function Head(headerSize: nat, total: nat, blockSize: nat, align: byte): (bytes: Bytes)
    requires headerSize < 0x1_0000_0000 && total < Bound(8) && blockSize < 0x1_0000_0000
    ensures |bytes| == 24
  {
    MAGIC + (Little(headerSize) + (Wide(total, 8) + (Little(blockSize) + [align, 0, 0, 0])))
  }

  /** Where the first chunk starts: after the index, at the next whole unit. */
  function Start(chunks: seq<Chunk>, unit: nat): (start: nat)
    requires 0 < unit
    ensures 24 + 4 * (|chunks| + 1) <= start && start % unit == 0
  {
    WholeUnits(24 + 4 * (|chunks| + 1), unit);
    BlockCount(24 + 4 * (|chunks| + 1), unit) * unit
  }

  lemma WholeUnits(n: nat, unit: nat)
    requires 0 < n && 0 < unit
    ensures var m := BlockCount(n, unit) * unit; n <= m && m % unit == 0
  {
    LeastCover(n, unit);
    MultipleHasNoRest(BlockCount(n, unit), unit);
  }

  lemma MultipleHasNoRest(n: nat, unit: nat)
    requires 0 < unit
    ensures (n * unit) % unit == 0
  {
    DivMod(n * unit, unit);
    var q, r := n * unit / unit, (n * unit) % unit;
    assert r == (n - q) * unit && r == -((q - n) * unit);
    if n > q { Monotone(1, n - q, unit); } else if n < q { Monotone(1, q - n, unit); }
  }

  /** What a writer keeps to: every chunk takes whole units of `Pow2(align)` bytes. */
  ghost predicate Fits(total: nat, blockSize: nat, align: byte, chunks: seq<Chunk>) {
    var unit := Pow2(align as nat);
    && 0 < total < Bound(8) && 512 <= blockSize <= 1024 * 1024
    && |chunks| == BlockCount(total, blockSize)
    && Position(chunks, Start(chunks, unit), |chunks|) < 0x8000_0000 * unit
    && forall i :: 0 <= i < |chunks| ==>
         0 < |chunks[i].bytes| <= blockSize + 64 * 1024 && |chunks[i].bytes| % unit == 0
  }

  ghost function Build(total: nat, blockSize: nat, align: byte, chunks: seq<Chunk>): Bytes
    requires Fits(total, blockSize, align, chunks)
  {
    var unit := Pow2(align as nat);
    var start := Start(chunks, unit);
    Head(24, total, blockSize, align)
    + (Index(chunks, start, unit) + (Zeros(start - 24 - 4 * (|chunks| + 1)) + Body(chunks)))
  }

  function HeaderOf(total: nat, blockSize: nat, align: byte, chunks: seq<Chunk>): Header {
    Header(24, total, blockSize, align as nat, |chunks|)
  }

  lemma HeadIsRead(file: Bytes, headerSize: nat, total: nat, blockSize: nat, align: byte)
    requires headerSize < 0x1_0000_0000 && total < Bound(8) && blockSize < 0x1_0000_0000
    requires At(file, 0, Head(headerSize, total, blockSize, align))
    ensures |file| >= 24 && file[..4] == MAGIC && LittleEndian(file, 4, 4) == headerSize
    ensures LittleEndian(file, 8, 8) == total && LittleEndian(file, 16, 4) == blockSize && file[20] == align
  {
    hide Little, Wide, LittleEndian, Bound;
    var last: Bytes := [align, 0, 0, 0];
    AtSplit(file, 0, MAGIC, Little(headerSize) + (Wide(total, 8) + (Little(blockSize) + last)));
    AtSplit(file, 4, Little(headerSize), Wide(total, 8) + (Little(blockSize) + last));
    AtSplit(file, 8, Wide(total, 8), Little(blockSize) + last);
    AtSplit(file, 16, Little(blockSize), last);
    LittleBack(file, 4, headerSize);
    WideBack(file, 8, total, 8);
    LittleBack(file, 16, blockSize);
    HeadOf(file, 20, last);
  }

  /** Which headers are accepted, for all values of their fields, and why another is not. */
  lemma HeaderVerdict(file: Bytes, headerSize: nat, total: nat, blockSize: nat, align: byte, blocks: nat)
    requires headerSize < 0x1_0000_0000 && total < Bound(8) && blockSize < 0x1_0000_0000
    requires At(file, 0, Head(headerSize, total, blockSize, align))
    requires 0 < total && (blocks - 1) * blockSize < total <= blocks * blockSize
    ensures ReadHeader(file)
            == if headerSize < 24 || blockSize < 512 || 1048576 < blockSize then Failure(InvalidZso)
               else if |file| < headerSize + 4 * (blocks + 1) then Failure(IncompleteZso)
               else Success(Header(headerSize, total, blockSize, align as nat, blocks))
  {
    hide Head, LittleEndian, Bound, BlockCount;
    HeadIsRead(file, headerSize, total, blockSize, align);
    if 0 < blockSize { OneCount(total, blockSize, blocks); }
  }

  lemma OneCount(total: nat, size: nat, n: nat)
    requires 0 < size && 0 < total && (n - 1) * size < total <= n * size
    ensures BlockCount(total, size) == n
  {
    LeastCover(total, size);
    var m := BlockCount(total, size);
    if m < n { Monotone(m, n - 1, size); } else if n < m { Monotone(n, m - 1, size); }
  }

  /** A file that is short, does not begin with ZISO or holds an image of no bytes is refused. */
  lemma ForeignFile(file: Bytes)
    requires |file| < 24 || file[..4] != [0x5A, 0x49, 0x53, 0x4F] || file[8..16] == [0, 0, 0, 0, 0, 0, 0, 0]
    ensures ReadHeader(file) == Failure(InvalidZso)
  {
    if 24 <= |file| && file[8..16] == [0, 0, 0, 0, 0, 0, 0, 0] {
      assert forall k :: 0 <= k < 8 ==> file[8 + k] == file[8..16][k];
      ZerosAreZero(file, 8, 8);
    }
  }

  lemma {:induction false} ZerosAreZero(file: Bytes, at: nat, k: nat)
    requires 4 <= k && at + k <= |file| && forall i :: at <= i < at + k ==> file[i] == 0
    ensures LittleEndian(file, at, k) == 0
    decreases k
  {
    if k > 4 { ZerosAreZero(file, at + 1, k - 1); }
  }

  /** What two neighbouring index entries say about a block: where it is, and when it is refused. */
  lemma BlockVerdict(file: Bytes, h: Header, index: nat, raw: bool, first: nat, nextRaw: bool, next: nat)
    requires first < 0x8000_0000 && next < 0x8000_0000
    requires At(file, h.headerSize + index * 4, Little(first + if raw then 0x8000_0000 else 0))
    requires At(file, h.headerSize + index * 4 + 4, Little(next + if nextRaw then 0x8000_0000 else 0))
    ensures var from, to := first * Pow2(h.align), next * Pow2(h.align);
            StoredBytes(file, h, index)
            == if to <= from || h.blockSize + 65536 < to - from then Failure(InvalidZso)
               else if |file| < to then Failure(IncompleteZso)
               else Success((raw, file[from..to]))
  {
    hide LittleEndian, Little, Pow2;
    LittleBack(file, h.headerSize + index * 4, first + if raw then 0x8000_0000 else 0);
    LittleBack(file, h.headerSize + index * 4 + 4, next + if nextRaw then 0x8000_0000 else 0);
  }

  lemma BuiltPieces(total: nat, blockSize: nat, align: byte, chunks: seq<Chunk>)
    requires Fits(total, blockSize, align, chunks)
    ensures var unit, file := Pow2(align as nat), Build(total, blockSize, align, chunks);
            var start := Start(chunks, unit);
            && At(file, 0, Head(24, total, blockSize, align)) && At(file, 24, Index(chunks, start, unit))
            && At(file, start, Body(chunks)) && |file| >= start
  {
    hide Head, Index, Body, Pow2, Start;
    var unit, file := Pow2(align as nat), Build(total, blockSize, align, chunks);
    var head := Head(24, total, blockSize, align);
    var start := Start(chunks, unit);
    var index, body := Index(chunks, start, unit), Body(chunks);
    var gap := Zeros(start - 24 - 4 * (|chunks| + 1));
    assert file[0..|file|] == file;
    AtSplit(file, 0, head, index + (gap + body));
    AtSplit(file, 24, index, gap + body);
    AtSplit(file, 24 + |index|, gap, body);
  }

  /** The header of a built file is accepted. */
  lemma BuiltHeader(total: nat, blockSize: nat, align: byte, chunks: seq<Chunk>)
    requires Fits(total, blockSize, align, chunks)
    ensures ReadHeader(Build(total, blockSize, align, chunks)) == Success(HeaderOf(total, blockSize, align, chunks))
  {
    hide Build, Head, LittleEndian, BlockCount, Pow2, Start;
    BuiltPieces(total, blockSize, align, chunks);
    HeadIsRead(Build(total, blockSize, align, chunks), 24, total, blockSize, align);
  }

  lemma {:induction false} IndexIsRead(file: Bytes, at: nat, chunks: seq<Chunk>, start: nat, unit: nat, i: nat)
    requires 0 < unit && i <= |chunks| && Position(chunks, start, |chunks|) < 0x8000_0000 * unit
    requires At(file, at, Index(chunks, start, unit))
    ensures at + 4 * i + 4 <= |file|
    ensures LittleEndian(file, at + 4 * i, 4)
            == Position(chunks, start, i) / unit + if i < |chunks| && chunks[i].raw then 0x8000_0000 else 0
    decreases |chunks|
  {
    hide Little, LittleEndian;
    UnitsFit(start, Position(chunks, start, |chunks|), unit);
    if chunks == [] {
      LittleBack(file, at, start / unit);
    } else {
      var word, next := start / unit + (if chunks[0].raw then 0x8000_0000 else 0), start + |chunks[0].bytes|;
      AtSplit(file, at, Little(word), Index(chunks[1..], next, unit));
      if i == 0 { LittleBack(file, at, word); } else { IndexIsRead(file, at + 4, chunks[1..], next, unit, i - 1); }
    }
  }

  lemma {:induction false} BodyIsRead(file: Bytes, at: nat, chunks: seq<Chunk>, i: nat)
    requires i < |chunks| && At(file, at, Body(chunks))
    ensures At(file, Position(chunks, at, i), chunks[i].bytes)
    ensures Position(chunks, at, i + 1) == Position(chunks, at, i) + |chunks[i].bytes|
    decreases i
  {
    AtSplit(file, at, chunks[0].bytes, Body(chunks[1..]));
    if i > 0 { BodyIsRead(file, at + |chunks[0].bytes|, chunks[1..], i - 1); }
  }

  lemma {:induction false} PositionsGrow(chunks: seq<Chunk>, start: nat, i: nat)
    requires i <= |chunks|
    ensures Position(chunks, start, i) <= Position(chunks, start, |chunks|)
    decreases i
  {
    if i > 0 { PositionsGrow(chunks[1..], start + |chunks[0].bytes|, i - 1); }
  }

  lemma SumOfUnits(a: nat, b: nat, unit: nat)
    requires 0 < unit && a % unit == 0 && b % unit == 0
    ensures (a + b) % unit == 0
  {
    DivMod(a, unit);
    DivMod(b, unit);
    assert a + b == (a / unit + b / unit) * unit;
    MultipleHasNoRest(a / unit + b / unit, unit);
  }

  lemma {:induction false} PositionsAreWhole(chunks: seq<Chunk>, start: nat, unit: nat, i: nat)
    requires 0 < unit && i <= |chunks| && start % unit == 0
    requires forall k :: 0 <= k < |chunks| ==> |chunks[k].bytes| % unit == 0
    ensures Position(chunks, start, i) % unit == 0
    decreases i
  {
    if i > 0 {
      SumOfUnits(start, |chunks[0].bytes|, unit);
      PositionsAreWhole(chunks[1..], start + |chunks[0].bytes|, unit, i - 1);
    }
  }

  /** Each chunk of a built file is found through the index, whatever the alignment. */
  lemma BuiltBlock(total: nat, blockSize: nat, align: byte, chunks: seq<Chunk>, i: nat)
    requires Fits(total, blockSize, align, chunks) && i < |chunks|
    ensures StoredBytes(Build(total, blockSize, align, chunks), HeaderOf(total, blockSize, align, chunks), i)
            == Success((chunks[i].raw, chunks[i].bytes))
  {
    hide Build, Head, LittleEndian, BlockCount, Index, Body, Pow2, Start;
    var file, h := Build(total, blockSize, align, chunks), HeaderOf(total, blockSize, align, chunks);
    var unit := Pow2(align as nat);
    var start := Start(chunks, unit);
    BuiltPieces(total, blockSize, align, chunks);
    BodyIsRead(file, start, chunks, i);
    PositionsGrow(chunks, start, i);
    PositionsGrow(chunks, start, i + 1);
    EntryIsRead(file, h, chunks, start, i);
    EntryIsRead(file, h, chunks, start, i + 1);
  }

  lemma EntryIsRead(file: Bytes, h: Header, chunks: seq<Chunk>, start: nat, i: nat)
    requires i <= |chunks| && h.headerSize == 24
    requires var unit := Pow2(h.align);
             && start % unit == 0 && Position(chunks, start, |chunks|) < 0x8000_0000 * unit
             && (forall k :: 0 <= k < |chunks| ==> |chunks[k].bytes| % unit == 0)
             && At(file, 24, Index(chunks, start, unit))
    ensures 24 + i * 4 + 4 <= |file|
    ensures Entry(file, h, i) == (i < |chunks| && chunks[i].raw, Position(chunks, start, i))
  {
    hide LittleEndian, Index, Pow2;
    var unit := Pow2(h.align);
    IndexIsRead(file, 24, chunks, start, unit, i);
    PositionsGrow(chunks, start, i);
    PositionsAreWhole(chunks, start, unit, i);
    hide Position;
    EntryOf(file, h, i, i < |chunks| && chunks[i].raw, Position(chunks, start, i));
  }

  lemma EntryOf(file: Bytes, h: Header, i: nat, raw: bool, at: nat)
    requires h.headerSize + i * 4 + 4 <= |file|
    requires var unit := Pow2(h.align);
             && at < 0x8000_0000 * unit && at % unit == 0
             && LittleEndian(file, h.headerSize + i * 4, 4) == at / unit + if raw then 0x8000_0000 else 0
    ensures Entry(file, h, i) == (raw, at)
  {
    hide LittleEndian, Pow2;
    var unit := Pow2(h.align);
    UnitsFit(at, at, unit);
    DivMod(at, unit);
  }

  // ---- Files of an image.

  function Part(image: Bytes, blockSize: nat, i: nat): Bytes { Slice(image, i * blockSize, blockSize) }

  /** `chunk` holds `part` in the way `how`, perhaps with padding up to a whole unit. */
  ghost predicate HoldsPart(chunk: Chunk, part: Bytes, how: Stored) {
    match how
    case Raw => chunk.raw && |part| <= |chunk.bytes| && chunk.bytes[..|part|] == part
    case Compressed(b) => !chunk.raw && WellFormed(b, 0) && Padded(chunk.bytes, b) && Expand([], b) == part
  }

  /** `chunks` store the blocks of `image`, block `i` in the way `how[i]`. */
  ghost predicate Stores(image: Bytes, blockSize: nat, chunks: seq<Chunk>, how: seq<Stored>) {
    |how| == |chunks| && forall i :: 0 <= i < |chunks| ==> HoldsPart(chunks[i], Part(image, blockSize, i), how[i])
  }

  /** Whatever mixture of raw and compressed blocks a file is built of, at whatever alignment, its
      header is accepted and it stands for its image - so every read gives the slice asked for. */
  lemma BuiltFileStandsForImage(image: Bytes, blockSize: nat, align: byte, chunks: seq<Chunk>, how: seq<Stored>)
    requires Fits(|image|, blockSize, align, chunks) && Stores(image, blockSize, chunks, how)
    ensures var file := Build(|image|, blockSize, align, chunks);
            ReadHeader(file).Success? && Represents(file, ReadHeader(file).value, image)
  {
    hide Build, ReadHeader, StoredBytes, BlockOf, Represents, Encode, Expand, WellFormed, Position, Slice, BlockCount;
    hide Padded, Pow2, Start;
    var file, h := Build(|image|, blockSize, align, chunks), HeaderOf(|image|, blockSize, align, chunks);
    BuiltHeader(|image|, blockSize, align, chunks);
    LeastCover(|image|, blockSize);
    var ways := (i: nat) => if i < |how| then how[i] else Raw;
    forall i: nat | i * blockSize < |image|
      ensures StoredAs(file, h, i, Slice(image, i * blockSize, blockSize), ways(i))
    {
      if |chunks| <= i { Monotone(|chunks|, i, blockSize); }
      BuiltBlock(|image|, blockSize, align, chunks, i);
      assert HoldsPart(chunks[i], Part(image, blockSize, i), how[i]);
    }
    StoredImageIsRepresented(file, h, image, ways);
  }
}
