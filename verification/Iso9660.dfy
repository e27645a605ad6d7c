/** ISO9660 directories (ECMA-119): how their records are packed into sectors, and the
    parser that reads them back. */
module Iso9660 {
  import opened Storage
  import opened Layout

  const SECTOR: nat := 2048

  /** The primary volume descriptor in sector 16 has its type and identifier: an image has
      34816 bytes at least, and in bytes 32768 to 32773 a one and "CD001". */
  predicate ValidIso(image: Bytes)
    ensures ValidIso(image) <==> 34816 <= |image| && image[32768..32774] == [1, 67, 68, 48, 48, 49]
  {
    var descriptor := Slice(image, 16 * SECTOR, SECTOR);
    assert 34816 <= |image| ==> descriptor[..6] == image[32768..32774];
    |descriptor| == SECTOR && descriptor[0] == 1 && descriptor[1..6] == [67, 68, 48, 48, 49]
  }

  /** A directory record, section 9.1 of ECMA-119.  `systemUse` holds the padding byte too. */
  datatype Record = Record(
    attributes: byte, extent: nat, size: nat, date: Bytes, flags: byte, unit: byte, gap: byte, volume: Bytes,
    identifier: Bytes, systemUse: Bytes)

  /** What the parser keeps of a record. */
  datatype Entry = Entry(name: string, extent: nat, size: nat, directory: bool)

  predicate WellFormed(r: Record) {
    && r.extent < 0x1_0000_0000 && r.size < 0x1_0000_0000 && |r.date| == 7 && |r.volume| == 4
    && 1 <= |r.identifier| && Length(r) < 256
  }

  function Length(r: Record): nat { 33 + |r.identifier| + |r.systemUse| }

  function Big(n: nat): (bytes: Bytes)
    requires n < 0x1_0000_0000
    ensures |bytes| == 4
  {
    [(n / 0x100_0000) as byte, (n / 0x1_0000 % 256) as byte, (n / 0x100 % 256) as byte, (n % 256) as byte]
  }

  /** The first 18 bytes: length, extended attributes, extent and size in both byte orders. */
  function Head(r: Record): Bytes
    requires WellFormed(r)
  {
    [Length(r) as byte, r.attributes] + (Little(r.extent) + (Big(r.extent) + (Little(r.size) + Big(r.size))))
  }

  /** The next 15 bytes: date, flags, interleaving, volume, length of the identifier. */
  function Middle(r: Record): Bytes
    requires WellFormed(r)
  {
    r.date + ([r.flags, r.unit, r.gap] + (r.volume + [|r.identifier| as byte]))
  }

  function Encode(r: Record): (bytes: Bytes)
    requires WellFormed(r)
    ensures |bytes| == Length(r)
  {
    Head(r) + (Middle(r) + (r.identifier + r.systemUse))
  }

  predicate AllWellFormed(records: seq<Record>) { forall k :: 0 <= k < |records| ==> WellFormed(records[k]) }

  function EncodeAll(records: seq<Record>): Bytes
    requires AllWellFormed(records)
  {
    if records == [] then [] else Encode(records[0]) + EncodeAll(records[1..])
  }

  /** Records that fit in one sector. */
  predicate Fits(records: seq<Record>) { AllWellFormed(records) && |EncodeAll(records)| <= SECTOR }

  predicate AllFit(sectors: seq<seq<Record>>) { forall k :: 0 <= k < |sectors| ==> Fits(sectors[k]) }

  /** Sectors of records, each filled up with zeros. */
  function Pack(sectors: seq<seq<Record>>): (bytes: Bytes)
    requires AllFit(sectors)
    ensures |bytes| == |sectors| * SECTOR
  {
    if sectors == [] then []
    else EncodeAll(sectors[0]) + Zeros(SECTOR - |EncodeAll(sectors[0])|) + Pack(sectors[1..])
  }

  function Flatten(sectors: seq<seq<Record>>): seq<Record> {
    if sectors == [] then [] else sectors[0] + Flatten(sectors[1..])
  }

  // ---- Names.

  predicate IsDigit(c: char) { '0' <= c <= '9' }

  function Ascii(raw: Bytes): string { seq(|raw|, i requires 0 <= i < |raw| => (raw[i] as int % 128) as char) }

  function Upper(c: char): char { if 'a' <= c <= 'z' then ((c as int) - 32) as char else c }

  function UpperCase(s: string): (u: string)
    ensures |u| == |s|
  {
    seq(|s|, i requires 0 <= i < |s| => Upper(s[i]))
  }

  function WithoutDigits(s: string): (t: string)
    ensures |t| <= |s|
  {
    if s != [] && IsDigit(s[|s| - 1]) then WithoutDigits(s[..|s| - 1]) else s
  }

  /** Drops a version such as `;1` from the end. */
  function WithoutVersion(s: string): string {
    var t := WithoutDigits(s);
    if t != [] && |t| < |s| && t[|t| - 1] == ';' then t[..|t| - 1] else s
  }

  function Name(raw: Bytes): string { UpperCase(WithoutVersion(Ascii(raw))) }

  lemma {:induction false} TrailingDigits(s: string, digits: string)
    requires forall c :: c in digits ==> IsDigit(c)
    ensures WithoutDigits(s + digits) == WithoutDigits(s)
    decreases |digits|
  {
    if digits == [] {
      assert s + digits == s;
    } else {
      var rest := digits[..|digits| - 1];
      assert (s + digits)[..|s + digits| - 1] == s + rest;
      TrailingDigits(s, rest);
    }
  }

  /** The version goes, all of it and nothing else. */
  lemma VersionGoes(s: string, digits: string)
    requires digits != [] && forall c :: c in digits ==> IsDigit(c)
    ensures WithoutVersion(s + ";" + digits) == s
  {
    TrailingDigits(s + ";", digits);
  }

  /** A name of seven-bit characters: small letters become capitals, and a version goes. */
  lemma NameMeans(raw: Bytes, version: Bytes)
    requires forall i :: 0 <= i < |raw| ==> raw[i] < 128 && raw[i] != 59
    requires forall i :: 0 <= i < |version| ==> 48 <= version[i] <= 57
    ensures var name := Name(if version == [] then raw else raw + [59] + version);
            |name| == |raw| && forall i :: 0 <= i < |raw| ==>
              name[i] as int == if 97 <= raw[i] <= 122 then raw[i] as int - 32 else raw[i] as int
  {
    if version != [] {
      var digits := Ascii(version);
      forall c | c in digits ensures IsDigit(c) {
        var i :| 0 <= i < |version| && digits[i] == c;
      }
      assert Ascii(raw + [59] + version) == Ascii(raw) + ";" + digits;
      VersionGoes(Ascii(raw), digits);
    } else {
      NoVersion(Ascii(raw));
    }
  }

  lemma NoVersion(s: string)
    requires ';' !in s
    ensures WithoutVersion(s) == s
  {
    PrefixOfDigits(s);
  }

  lemma {:induction false} PrefixOfDigits(s: string)
    ensures WithoutDigits(s) <= s
  {
    if s != [] && IsDigit(s[|s| - 1]) { PrefixOfDigits(s[..|s| - 1]); }
  }

  // ---- The parser.

  /** `.` and `..` */
  predicate Special(raw: Bytes) { raw == [0] || raw == [1] }

  function ToEntry(raw: Bytes, extent: nat, size: nat, flags: byte): Entry {
    Entry(Name(raw), extent, size, flags as int / 2 % 2 == 1)
  }

  /** The record at `at`, if it is to be kept. */
  function EntryAt(buffer: Bytes, at: nat): seq<Entry>
    requires at + 34 <= |buffer|
  {
    var raw := Slice(buffer, at + 33, buffer[at + 32] as nat);
    if buffer[at + 32] == 1 && (raw[0] == 0 || raw[0] == 1) then []
    else [ToEntry(raw, LittleEndian(buffer, at + 2, 4), LittleEndian(buffer, at + 10, 4), buffer[at + 25])]
  }

  function NextSector(at: nat): (next: nat)
    ensures at < next
  {
    (at + SECTOR) / SECTOR * SECTOR
  }

  function ParseFrom(buffer: Bytes, at: nat): seq<Entry>
    decreases |buffer| - at
  {
    if at >= |buffer| then []
    else
      var length := buffer[at] as nat;
      if length == 0 then ParseFrom(buffer, NextSector(at))
      else if length < 34 || at + length > |buffer| then []
      else EntryAt(buffer, at) + ParseFrom(buffer, at + length)
  }

  function Parse(buffer: Bytes): seq<Entry> { ParseFrom(buffer, 0) }

  /** The loop over a directory's bytes. */
  method ParseDirectory(buffer: Bytes) returns (entries: seq<Entry>)
    ensures entries == Parse(buffer)
  {
    entries := [];
    var offset := 0;
    hide EntryAt, NextSector;
    while offset < |buffer|
      invariant entries + ParseFrom(buffer, offset) == Parse(buffer)
      decreases |buffer| - offset
    {
      var length := buffer[offset] as nat;
      if length == 0 {
        offset := NextSector(offset);
        continue;
      }
      if length < 34 || offset + length > |buffer| { break; }
      entries := entries + EntryAt(buffer, offset);
      offset := offset + length;
    }
  }

  // ---- Parsing undoes packing.

  /** The entries of records, `.` and `..` left out, in order. */
  function Entries(records: seq<Record>): seq<Entry> {
    if records == [] then [] else EntriesOfOne(records[0]) + Entries(records[1..])
  }

  function EntriesOfOne(r: Record): seq<Entry> {
    if Special(r.identifier) then [] else [ToEntry(r.identifier, r.extent, r.size, r.flags)]
  }

  /** What is kept of a record: its name, extent and size, and whether bit 1 of its flags is set. */
  lemma EntryMeans(r: Record)
    ensures if r.identifier in {[0], [1]} then Entries([r]) == []
            else Entries([r]) == [Entry(Name(r.identifier), r.extent, r.size, r.flags as int % 4 >= 2)]
  {
    hide Name;
    assert [r][1..] == [];
    var flags := r.flags as int;
    assert flags / 2 % 2 == 1 <==> flags % 4 >= 2;
  }

  lemma HeadIsRead(buffer: Bytes, at: nat, r: Record)
    requires WellFormed(r) && At(buffer, at, Head(r))
    ensures at + 18 <= |buffer| && buffer[at] as nat == Length(r)
    ensures LittleEndian(buffer, at + 2, 4) == r.extent && LittleEndian(buffer, at + 10, 4) == r.size
  {
    hide Little, Big, LittleEndian;
    var first := [Length(r) as byte, r.attributes];
    var sizes := Little(r.size) + Big(r.size);
    AtSplit(buffer, at, first, Little(r.extent) + (Big(r.extent) + sizes));
    HeadOf(buffer, at, first);
    AtSplit(buffer, at + 2, Little(r.extent), Big(r.extent) + sizes);
    AtSplit(buffer, at + 6, Big(r.extent), sizes);
    AtSplit(buffer, at + 10, Little(r.size), Big(r.size));
    LittleBack(buffer, at + 2, r.extent);
    LittleBack(buffer, at + 10, r.size);
  }

  lemma MiddleIsRead(buffer: Bytes, at: nat, r: Record)
    requires WellFormed(r) && At(buffer, at, Middle(r))
    ensures at + 15 <= |buffer| && buffer[at + 7] == r.flags && buffer[at + 14] as nat == |r.identifier|
  {
    var flags, last := [r.flags, r.unit, r.gap], [|r.identifier| as byte];
    AtSplit(buffer, at, r.date, flags + (r.volume + last));
    AtSplit(buffer, at + 7, flags, r.volume + last);
    HeadOf(buffer, at + 7, flags);
    AtSplit(buffer, at + 10, r.volume, last);
    HeadOf(buffer, at + 14, last);
  }

  lemma SliceOf(buffer: Bytes, at: nat, bytes: Bytes)
    requires At(buffer, at, bytes)
    ensures Slice(buffer, at, |bytes|) == bytes
  {
    if bytes == [] { assert Slice(buffer, at, 0) == []; }
  }

  lemma ParsesRecord(buffer: Bytes, at: nat, r: Record)
    requires WellFormed(r) && At(buffer, at, Encode(r))
    ensures ParseFrom(buffer, at) == Entries([r]) + ParseFrom(buffer, at + Length(r))
  {
    hide Head, Middle, Name, LittleEndian, ParseFrom;
    HeadSize(r);
    AtSplit(buffer, at, Head(r), Middle(r) + (r.identifier + r.systemUse));
    HeadIsRead(buffer, at, r);
    AtSplit(buffer, at + 18, Middle(r), r.identifier + r.systemUse);
    MiddleIsRead(buffer, at + 18, r);
    AtSplit(buffer, at + 33, r.identifier, r.systemUse);
    SliceOf(buffer, at + 33, r.identifier);
    assert Entries([r][1..]) == [];
    StepsOverRecord(buffer, at, Length(r), Entries([r]));
  }

  /** One step of the parser over a record that fits. */
  lemma StepsOverRecord(buffer: Bytes, at: nat, length: nat, kept: seq<Entry>)
    requires 34 <= length && at + length <= |buffer| && buffer[at] as nat == length && kept == EntryAt(buffer, at)
    ensures ParseFrom(buffer, at) == kept + ParseFrom(buffer, at + length)
  {
    hide EntryAt;
  }

  lemma HeadSize(r: Record)
    requires WellFormed(r)
    ensures |Head(r)| == 18 && |Middle(r)| == 15
  {
  }

  lemma {:induction false} ParsesRecords(buffer: Bytes, at: nat, records: seq<Record>)
    requires AllWellFormed(records) && At(buffer, at, EncodeAll(records))
    ensures ParseFrom(buffer, at) == Entries(records) + ParseFrom(buffer, at + |EncodeAll(records)|)
    decreases |records|
  {
    hide *;
    if records != [] {
      var r, rest := records[0], records[1..];
      EncodesFirst(records);
      AtSplit(buffer, at, Encode(r), EncodeAll(rest));
      ParsesRecord(buffer, at, r);
      ParsesRecords(buffer, at + Length(r), rest);
      EntriesOfFirst(records);
      Associates(Entries([r]), Entries(rest), ParseFrom(buffer, at + |EncodeAll(records)|));
    } else {
      NoRecords(records);
    }
  }

  lemma NoRecords(records: seq<Record>)
    requires records == []
    ensures EncodeAll(records) == [] && Entries(records) == []
  {
  }

  lemma EntriesOfFirst(records: seq<Record>)
    requires records != []
    ensures Entries(records) == Entries([records[0]]) + Entries(records[1..])
  {
    assert records == [records[0]] + records[1..];
    EntriesOfBoth([records[0]], records[1..]);
  }

  lemma EncodesFirst(records: seq<Record>)
    requires AllWellFormed(records) && records != []
    ensures AllWellFormed(records[1..]) && WellFormed(records[0])
    ensures EncodeAll(records) == Encode(records[0]) + EncodeAll(records[1..])
    ensures |EncodeAll(records)| == Length(records[0]) + |EncodeAll(records[1..])|
  {
    hide Encode;
  }

  lemma Associates(a: seq<Entry>, b: seq<Entry>, c: seq<Entry>)
    ensures a + (b + c) == a + b + c
  {
  }

  lemma NextSectorOf(sector: nat, used: nat)
    requires used < SECTOR
    ensures NextSector(sector * SECTOR + used) == sector * SECTOR + SECTOR
  {
    assert (sector * SECTOR + used + SECTOR) / SECTOR == sector + 1;
  }

  lemma ZeroSkips(buffer: Bytes, at: nat)
    requires at < |buffer| && buffer[at] == 0
    ensures ParseFrom(buffer, at) == ParseFrom(buffer, NextSector(at))
  {
    hide NextSector, EntryAt;
  }

  /** Zeros up to the end of a sector are skipped. */
  lemma SkipsZeros(buffer: Bytes, begin: nat, used: nat)
    requires used <= SECTOR && At(buffer, begin + used, Zeros(SECTOR - used))
    requires used < SECTOR ==> NextSector(begin + used) == begin + SECTOR
    ensures ParseFrom(buffer, begin + used) == ParseFrom(buffer, begin + SECTOR)
  {
    hide NextSector, EntryAt, ParseFrom;
    if used < SECTOR {
      HeadOf(buffer, begin + used, Zeros(SECTOR - used));
      ZeroSkips(buffer, begin + used);
    }
  }

  lemma {:induction false} EntriesOfBoth(first: seq<Record>, second: seq<Record>)
    ensures Entries(first + second) == Entries(first) + Entries(second)
    decreases |first|
  {
    hide EntriesOfOne;
    if first == [] {
      assert first + second == second;
    } else {
      assert (first + second)[0] == first[0] && (first + second)[1..] == first[1..] + second;
      EntriesOfBoth(first[1..], second);
      var one := EntriesOfOne(first[0]);
      assert one + (Entries(first[1..]) + Entries(second)) == (one + Entries(first[1..])) + Entries(second);
    }
  }

  /** The first sector of a packed directory. */
  lemma SectorIsRead(buffer: Bytes, sector: nat, sectors: seq<seq<Record>>)
    requires AllFit(sectors) && sectors != [] && At(buffer, sector * SECTOR, Pack(sectors))
    ensures AllFit(sectors[1..]) && At(buffer, (sector + 1) * SECTOR, Pack(sectors[1..]))
    ensures ParseFrom(buffer, sector * SECTOR) == Entries(sectors[0]) + ParseFrom(buffer, (sector + 1) * SECTOR)
  {
    hide EncodeAll, ParseFrom, Entries, AllWellFormed, At, NextSector;
    var encoded := EncodeAll(sectors[0]);
    var at, zeros := sector * SECTOR, Zeros(SECTOR - |encoded|);
    AtSplit(buffer, at, encoded + zeros, Pack(sectors[1..]));
    AtSplit(buffer, at, encoded, zeros);
    ParsesRecords(buffer, at, sectors[0]);
    if |encoded| < SECTOR { NextSectorOf(sector, |encoded|); }
    SkipsZeros(buffer, at, |encoded|);
    assert (sector + 1) * SECTOR == at + SECTOR;
  }

  lemma EntriesOfFirstSector(sectors: seq<seq<Record>>)
    requires sectors != []
    ensures Entries(Flatten(sectors)) == Entries(sectors[0]) + Entries(Flatten(sectors[1..]))
  {
    EntriesOfBoth(sectors[0], Flatten(sectors[1..]));
  }

  lemma {:induction false} ParsesSectors(buffer: Bytes, sector: nat, sectors: seq<seq<Record>>)
    requires AllFit(sectors) && At(buffer, sector * SECTOR, Pack(sectors))
    requires |buffer| == (sector + |sectors|) * SECTOR
    ensures ParseFrom(buffer, sector * SECTOR) == Entries(Flatten(sectors))
    decreases |sectors|
  {
    if sectors != [] {
      hide *;
      SectorIsRead(buffer, sector, sectors);
      EntriesOfFirstSector(sectors);
      ParsesSectors(buffer, sector + 1, sectors[1..]);
    }
  }

  /** Any records, packed in any way into sectors, are read back in order. */
  lemma ParsingUndoesPacking(sectors: seq<seq<Record>>)
    requires AllFit(sectors)
    ensures Parse(Pack(sectors)) == Entries(Flatten(sectors))
  {
    var buffer := Pack(sectors);
    assert buffer[0..|buffer|] == buffer;
    ParsesSectors(buffer, 0, sectors);
  }
}
