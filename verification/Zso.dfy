/** ZSO images: header, block index, and the random-access reader with its cache. */
module Zso {
  import opened Storage
  import opened Layout
  import opened Lz4

  const MAX_SAFE_INTEGER: nat := 0x1F_FFFF_FFFF_FFFF
  const CACHED_BLOCKS: nat := 8

  datatype Header = Header(headerSize: nat, totalBytes: nat, blockSize: nat, align: nat, blocks: nat)

  const MAGIC: Bytes := [0x5A, 0x49, 0x53, 0x4F]  // "ZISO"

  /** Blocks of `size` bytes that cover `total` bytes. */
  function BlockCount(total: nat, size: nat): (n: nat)
    requires 0 < size
  {
    (total + size - 1) / size
  }

  function ReadHeader(file: Bytes): Result<Header> {
    if |file| < 24 || file[..4] != MAGIC then Failure(InvalidZso)
    else
      var headerSize, totalBytes, blockSize, align :=
        LittleEndian(file, 4, 4), LittleEndian(file, 8, 8), LittleEndian(file, 16, 4), file[20] as nat;
      if headerSize < 24 || blockSize < 512 || blockSize > 1024 * 1024 || totalBytes == 0 then Failure(InvalidZso)
      else
        var blocks := BlockCount(totalBytes, blockSize);
        if |file| < headerSize + (blocks + 1) * 4 then Failure(IncompleteZso)
        else Success(Header(headerSize, totalBytes, blockSize, align, blocks))
  }

  /** The block count is the least that covers the image. */
  lemma BlocksCoverImage(file: Bytes)
    requires ReadHeader(file).Success?
    ensures var h := ReadHeader(file).value;
            512 <= h.blockSize && 0 < h.blocks && (h.blocks - 1) * h.blockSize < h.totalBytes <= h.blocks * h.blockSize
  {
    hide LittleEndian, BlockCount;
    var h := ReadHeader(file).value;
    LeastCover(h.totalBytes, h.blockSize);
  }

  lemma LeastCover(total: nat, size: nat)
    requires 0 < total && 0 < size
    ensures var n := BlockCount(total, size); 0 < n && (n - 1) * size < total <= n * size
  {
    var n := BlockCount(total, size);
    DivMod(total + size - 1, size);
    assert (n - 1) * size == n * size - size;
    assert n == 0 ==> n * size == 0;
  }

  /** Both index entries of the block of any position lie inside the file. */
  lemma IndexIsComplete(file: Bytes, at: nat)
    requires ReadHeader(file).Success? && at < ReadHeader(file).value.totalBytes
    ensures var h := ReadHeader(file).value;
            at / h.blockSize < h.blocks && h.headerSize + at / h.blockSize * 4 + 8 <= |file|
  {
    var h := ReadHeader(file).value;
    BlocksCoverImage(file);
    DivMod(at, h.blockSize);
    hide LittleEndian;
    if h.blocks <= at / h.blockSize {
      Monotone(h.blocks, at / h.blockSize, h.blockSize);
      assert false;
    }
  }

  lemma Monotone(a: nat, b: nat, d: nat)
    requires a <= b
    ensures a * d <= b * d
  {
    assert (b - a) * d >= 0;
  }

  function Pow2(n: nat): (p: nat)
    ensures 0 < p
  {
    if n == 0 then 1 else 2 * Pow2(n - 1)
  }

  /** Bytes that block `index` holds once decoded. */
  function BlockLength(h: Header, index: nat): nat {
    if index * h.blockSize >= h.totalBytes then 0
    else if h.totalBytes - index * h.blockSize < h.blockSize then h.totalBytes - index * h.blockSize
    else h.blockSize
  }

  /** Position and raw flag of an index entry. */
  function Entry(file: Bytes, h: Header, index: nat): (bool, nat)
    requires h.headerSize + index * 4 + 4 <= |file|
  {
    var word := LittleEndian(file, h.headerSize + index * 4, 4);
    (word >= 0x8000_0000, word % 0x8000_0000 * Pow2(h.align))
  }

  /** The stored bytes of block `index`, and whether they are the block itself. */
  function StoredBytes(file: Bytes, h: Header, index: nat): Result<(bool, Bytes)> {
    if h.headerSize + index * 4 + 8 > |file| then Failure(IncompleteZso)
    else
      var (raw, from) := Entry(file, h, index);
      var (_, to) := Entry(file, h, index + 1);
      if to <= from || to - from > h.blockSize + 64 * 1024 then Failure(InvalidZso)
      else if to > |file| then Failure(IncompleteZso)
      else Success((raw, file[from..to]))
  }

  /** What block `index` of the file decodes to. */
  function BlockOf(file: Bytes, h: Header, index: nat): Result<Bytes> {
    var (raw, encoded) :- StoredBytes(file, h, index);
    if raw then Success(Slice(encoded, 0, BlockLength(h, index))) else Decode(encoded, BlockLength(h, index))
  }

  /** The file is a ZSO of `image`: every block decodes to its part of it. */
  ghost predicate Represents(file: Bytes, h: Header, image: Bytes) {
    && |image| == h.totalBytes
    && forall index: nat :: index * h.blockSize < |image| ==>
         BlockOf(file, h, index) == Success(Slice(image, index * h.blockSize, h.blockSize))
  }

  /** `encoded` is block `b`, followed by padding at most if it ends with a match. */
  predicate Padded(encoded: Bytes, b: Block)
    requires WellFormed(b, 0)
  {
    var pad := |encoded| - |Encode(b, 0)|;
    0 <= pad && encoded == Encode(b, 0) + Zeros(pad) && (pad == 0 || b.last == [])
  }

  /** How a block may be stored: as it is, or as an encoded LZ4 block. */
  datatype Stored = Raw | Compressed(block: Block)

  /** The bytes the index points to hold `part` in that way. */
  ghost predicate StoredAs(file: Bytes, h: Header, index: nat, part: Bytes, how: Stored) {
    match StoredBytes(file, h, index)
    case Failure(_) => false
    case Success((raw, encoded)) =>
      match how
      case Raw => raw && |part| <= |encoded| && encoded[..|part|] == part
      case Compressed(b) => !raw && WellFormed(b, 0) && Padded(encoded, b) && Expand([], b) == part
  }

  lemma CompressedDecodes(encoded: Bytes, b: Block)
    requires WellFormed(b, 0) && Padded(encoded, b)
    ensures Decode(encoded, |Expand([], b)|) == Success(Expand([], b))
  {
    hide Encode, Expand, Decode, WellFormed;
    PaddedBlock(b, |encoded| - |Encode(b, 0)|, |Expand([], b)|);
  }

  /** A stored block is read back, compressed or not. */
  lemma StoredBlockDecodes(file: Bytes, h: Header, index: nat, part: Bytes, how: Stored)
    requires StoredAs(file, h, index, part, how) && |part| == BlockLength(h, index)
    ensures BlockOf(file, h, index) == Success(part)
  {
    hide StoredBytes, Encode, Expand, Decode, WellFormed, Padded, BlockLength;
    if how.Compressed? { CompressedDecodes(StoredBytes(file, h, index).value.1, how.block); }
  }

  /** A file whose blocks are all stored, each in either way, is a ZSO of its image. */
  lemma StoredImageIsRepresented(file: Bytes, h: Header, image: Bytes, how: nat -> Stored)
    requires |image| == h.totalBytes
    requires forall index: nat :: index * h.blockSize < |image| ==>
               StoredAs(file, h, index, Slice(image, index * h.blockSize, h.blockSize), how(index))
    ensures Represents(file, h, image)
  {
    forall index: nat | index * h.blockSize < |image|
      ensures BlockOf(file, h, index) == Success(Slice(image, index * h.blockSize, h.blockSize))
    {
      StoredBlockDecodes(file, h, index, Slice(image, index * h.blockSize, h.blockSize), how(index));
    }
  }

  /** The block that holds position `at` of the image, and where in it. */
  lemma BlockOfPosition(file: Bytes, h: Header, image: Bytes, at: nat)
    requires Represents(file, h, image) && at < |image| && 0 < h.blockSize
    ensures BlockOf(file, h, at / h.blockSize) == Success(Slice(image, at - at % h.blockSize, h.blockSize))
  {
    hide BlockOf;
    DivMod(at, h.blockSize);
    assert at / h.blockSize * h.blockSize < |image|;
  }

  /** Reads and decodes one block from the file. */
  method LoadBlock(file: Bytes, h: Header, index: nat) returns (r: Result<Bytes>)
    ensures r == BlockOf(file, h, index)
  {
    hide StoredBytes, Decode, BlockLength;
    var stored := StoredBytes(file, h, index);
    if stored.Failure? { return Failure(stored.error); }
    var (raw, encoded) := stored.value;
    var expected := BlockLength(h, index);
    if raw { return Success(Slice(encoded, 0, expected)); }
    r := DecodeLz4(encoded, expected);
  }

  /** The random-access reader.  `order` lists the cached blocks, oldest first. */
  class ZsoReader {
    const file: Bytes
    const header: Header
    var cache: map<nat, Bytes>
    var order: seq<nat>

    ghost predicate Valid()
      reads this
    {
      && 0 < header.blockSize && header.totalBytes <= MAX_SAFE_INTEGER
      && |cache| == |order| <= CACHED_BLOCKS && Listed(cache, order)
      && (forall index :: index in cache ==> BlockOf(file, header, index) == Success(cache[index]))
    }

    constructor (file: Bytes, header: Header)
      requires 0 < header.blockSize && header.totalBytes <= MAX_SAFE_INTEGER
      ensures Valid() && this.file == file && this.header == header && cache == map[]
    {
      this.file, this.header, this.cache, this.order := file, header, map[], [];
    }

    /** One block, from the cache or decoded; at most eight stay cached. */
    method FetchBlock(index: nat) returns (r: Result<Bytes>)
      requires Valid()
      modifies this
      ensures Valid()
      ensures r == BlockOf(file, header, index)
      ensures order == if r.Failure? || index in old(cache) then old(order)
                       else (if |old(order)| < 8 then old(order) else old(order)[1..]) + [index]
    {
      hide BlockOf, Listed;
      if index in cache { return Success(cache[index]); }
      r := LoadBlock(file, header, index);
      if r.Failure? { return; }
      if |cache| >= CACHED_BLOCKS {
        OldestOut(cache, order);
        cache, order := cache - {order[0]}, order[1..];
      }
      NewestIn(cache, order, index, r.value);
      cache, order := cache[index := r.value], order + [index];
    }

    /** At most `wanted` bytes from `position` on, all from its block. */
    method ReadWithinBlock(position: nat, wanted: nat) returns (r: Result<Bytes>)
      requires Valid() && position + wanted <= header.totalBytes && 0 < wanted
      modifies this
      ensures Valid()
      ensures r.Success? ==> 0 < |r.value| <= wanted && Agrees(file, header, position, r.value)
      ensures r.Failure? ==> NoImage(file, header)
    {
      hide BlockOf, Represents, Listed;
      var size := header.blockSize;
      var block := FetchBlock(position / size);
      var within := position % size;
      DivMod(position, size);
      BlockOfEachImage(file, header, position);
      if block.Failure? { return Failure(block.error); }
      var bytes := if |block.value| - within < wanted then |block.value| - within else wanted;
      if bytes <= 0 { return Failure(IncompleteZso); }
      r := Success(block.value[within..within + bytes]);
    }

    /** `length` bytes from `offset`, fewer only at the end of the image: on a ZSO of
        an image, exactly that slice of it, whatever the cache holds. */
    method Read(offset: int, length: int) returns (r: Result<Bytes>)
      requires Valid()
      modifies this
      ensures Valid()
      ensures offset < 0 || length < 0 ==> r == Failure(OutOfRange)
      ensures r.Success? ==> 0 <= offset && 0 <= length && |r.value| == Clipped(header.totalBytes, offset, length)
      ensures forall image :: Represents(file, header, image) && 0 <= offset && 0 <= length ==>
                r == Success(Slice(image, offset, length))
    {
      if offset < 0 || length < 0 { return Failure(OutOfRange); }
      hide Represents, BlockOf, Listed, Agrees, Slice;
      var output := new byte[Clipped(header.totalBytes, offset, length)];
      var error := Fill(output, offset);
      if error.Some? { return Failure(error.value); }
      AgreesWithSlice(file, header, offset, length, output[..]);
      r := Success(output[..]);
    }

    /** Fills `output` block by block with what the image holds from `offset` on. */
    method Fill(output: array<byte>, offset: nat) returns (error: Option<Error>)
      requires Valid() && (output.Length == 0 || offset + output.Length <= header.totalBytes)
      modifies this, output
      ensures Valid()
      ensures if error.None? then Agrees(file, header, offset, output[..]) else NoImage(file, header)
    {
      hide Represents, BlockOf, Listed, Agrees, Slice, NoImage;
      AgreesOnNothing(file, header, offset);
      var done := 0;
      while done < output.Length
        invariant done <= output.Length && Valid()
        invariant Agrees(file, header, offset, output[..done])
      {
        var part := ReadWithinBlock(offset + done, output.Length - done);
        if part.Failure? { return Some(part.error); }
        AgreesOnBoth(file, header, offset, output[..done], part.value);
        CopyInto(output, done, part.value);
        done := done + |part.value|;
      }
      assert output[..] == output[..done];
      error := None;
    }
  }

  /** `part` is what every image of the file holds from `at` on. */
  ghost predicate Agrees(file: Bytes, h: Header, at: nat, part: Bytes) {
    forall image :: Represents(file, h, image) ==> part == Slice(image, at, |part|)
  }

  ghost predicate NoImage(file: Bytes, h: Header) {
    forall image :: !Represents(file, h, image)
  }

  lemma AgreesOnNothing(file: Bytes, h: Header, at: nat)
    ensures Agrees(file, h, at, [])
  {
    forall image | Represents(file, h, image) ensures [] == Slice(image, at, 0) { }
  }

  lemma AgreesOnBoth(file: Bytes, h: Header, at: nat, first: Bytes, second: Bytes)
    requires Agrees(file, h, at, first) && Agrees(file, h, at + |first|, second)
    ensures Agrees(file, h, at, first + second)
  {
    hide Represents;
    forall image | Represents(file, h, image) ensures first + second == Slice(image, at, |first + second|) {
      if second == [] { assert first + second == first; }
    }
  }

  lemma AgreesWithSlice(file: Bytes, h: Header, offset: nat, length: nat, part: Bytes)
    requires Agrees(file, h, offset, part) && |part| == Clipped(h.totalBytes, offset, length)
    ensures forall image :: Represents(file, h, image) ==> part == Slice(image, offset, length)
  {
    hide BlockOf;
    forall image | Represents(file, h, image) ensures part == Slice(image, offset, length) {
      assert |image| == h.totalBytes;
      assert |Slice(image, offset, length)| == |part|;
    }
  }

  /** What the block of position `at` is, in every image of the file. */
  lemma BlockOfEachImage(file: Bytes, h: Header, at: nat)
    requires 0 < h.blockSize && at < h.totalBytes
    ensures forall image :: Represents(file, h, image) ==>
              BlockOf(file, h, at / h.blockSize) == Success(Slice(image, at - at % h.blockSize, h.blockSize))
    ensures forall image :: Represents(file, h, image) ==> |image| == h.totalBytes
  {
    hide BlockOf;
    forall image | Represents(file, h, image)
      ensures BlockOf(file, h, at / h.blockSize) == Success(Slice(image, at - at % h.blockSize, h.blockSize))
    {
      BlockOfPosition(file, h, image, at);
    }
  }

  /** `Buffer.copy` of all of `part`. */
  method CopyInto(output: array<byte>, at: nat, part: Bytes)
    requires at + |part| <= output.Length
    modifies output
    ensures output[..at + |part|] == old(output[..at]) + part
    ensures output[at + |part|..] == old(output[at + |part|..])
  {
    forall k | 0 <= k < |part| { output[at + k] := part[k]; }
  }

  /** Bytes of `length` from `offset` that exist in an image of `size`. */
  function Clipped(size: nat, offset: nat, length: nat): nat {
    if offset + length <= size then length else if offset < size then size - offset else 0
  }

  /** `order` names the keys of `cache`, each once. */
  ghost predicate Listed(cache: map<nat, Bytes>, order: seq<nat>) {
    && (forall i, j :: 0 <= i < j < |order| ==> order[i] != order[j])
    && (forall index :: index in cache <==> index in order)
  }

  lemma OldestOut(cache: map<nat, Bytes>, order: seq<nat>)
    requires Listed(cache, order) && order != []
    ensures Listed(cache - {order[0]}, order[1..]) && |cache - {order[0]}| == |cache| - 1
  {
    assert order == [order[0]] + order[1..];
    assert order[0] in cache;
    assert (cache - {order[0]}).Keys == cache.Keys - {order[0]};
  }

  lemma NewestIn(cache: map<nat, Bytes>, order: seq<nat>, index: nat, block: Bytes)
    requires Listed(cache, order) && index !in cache
    ensures Listed(cache[index := block], order + [index]) && |cache[index := block]| == |cache| + 1
  {
    assert cache[index := block].Keys == cache.Keys + {index};
  }

  /** Opens a ZSO file for random access. */
  method OpenReader(file: Bytes) returns (r: Result<ZsoReader>)
    ensures ReadHeader(file).Failure? ==> r == Failure(ReadHeader(file).error)
    ensures ReadHeader(file).Success? && ReadHeader(file).value.totalBytes > 9007199254740991 ==>
              r == Failure(InvalidZso)
    ensures ReadHeader(file).Success? && ReadHeader(file).value.totalBytes <= 9007199254740991 ==>
              r.Success? && fresh(r.value) && r.value.Valid() && r.value.file == file
                && r.value.header == ReadHeader(file).value
  {
    var header := ReadHeader(file);
    if header.Failure? { return Failure(header.error); }
    BlocksCoverImage(file);
    if header.value.totalBytes > MAX_SAFE_INTEGER { return Failure(InvalidZso); }
    var reader := new ZsoReader(file, header.value);
    r := Success(reader);
  }
}
