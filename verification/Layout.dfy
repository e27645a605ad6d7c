/** Bytes at positions: little-endian numbers and pieces of a larger buffer. */
module Layout {
  import opened Storage

  /** `n` bytes from `at` as an unsigned little-endian number. */
  function LittleEndian(file: Bytes, at: nat, n: nat): (value: nat)
    requires at + n <= |file|
    ensures n == 4 ==> value < 0x1_0000_0000
    decreases n
  {
    if n == 0 then 0
    else if n == 4 then
      file[at] as nat + 0x100 * file[at + 1] as nat + 0x1_0000 * file[at + 2] as nat + 0x100_0000 * file[at + 3] as nat
    else file[at] as nat + 0x100 * LittleEndian(file, at + 1, n - 1)
  }

  function Zeros(n: nat): (z: Bytes)
    ensures |z| == n && forall k :: 0 <= k < n ==> z[k] == 0
  {
    seq(n, _ => 0)
  }

  /** `bytes` stand at position `at` of `source`. */
  ghost predicate At(source: Bytes, at: nat, bytes: Bytes) {
    at + |bytes| <= |source| && source[at..at + |bytes|] == bytes
  }

  lemma AtSplit(source: Bytes, at: nat, a: Bytes, b: Bytes)
    requires At(source, at, a + b)
    ensures At(source, at, a) && At(source, at + |a|, b)
  {
    assert source[at..at + |a + b|][..|a|] == source[at..at + |a|];
    assert source[at..at + |a + b|][|a|..] == source[at + |a|..at + |a| + |b|];
  }

  lemma HeadOf(source: Bytes, at: nat, bytes: Bytes)
    requires At(source, at, bytes) && bytes != []
    ensures source[at] == bytes[0]
  {
    assert source[at..at + |bytes|][0] == source[at];
  }

  lemma DivMod(n: nat, d: nat)
    requires d > 0
    ensures n / d * d <= n < n / d * d + d && n % d == n - n / d * d
  {
  }

  function Little(n: nat): (bytes: Bytes)
    requires n < 0x1_0000_0000
    ensures |bytes| == 4
  {
    [(n % 256) as byte, (n / 0x100 % 256) as byte, (n / 0x1_0000 % 256) as byte, (n / 0x100_0000) as byte]
  }

  lemma LittleBack(buffer: Bytes, at: nat, n: nat)
    requires n < 0x1_0000_0000 && At(buffer, at, Little(n))
    ensures LittleEndian(buffer, at, 4) == n
  {
    var bytes := Little(n);
    forall k | 0 <= k < 4 ensures buffer[at + k] == bytes[k] {
      assert buffer[at..at + 4][k] == buffer[at + k];
    }
    Digits(n);
  }

  lemma Digits(n: nat)
    ensures n == n % 256 + 0x100 * (n / 0x100 % 256) + 0x1_0000 * (n / 0x1_0000 % 256) + 0x100_0000 * (n / 0x100_0000)
  {
    assert n / 0x100 / 256 == n / 0x1_0000;
    assert n / 0x1_0000 / 256 == n / 0x100_0000;
  }
}
