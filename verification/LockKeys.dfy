/** Advisory-lock keys: the first eight digest bytes of a job name, read as a signed 64-bit integer. */
module LockKeys {

  newtype Byte = n: int | 0 <= n < 256

  const TWO_TO_63: int := 0x8000_0000_0000_0000
  const TWO_TO_64: int := 0x1_0000_0000_0000_0000

  type Int64 = n: int | -TWO_TO_63 <= n < TWO_TO_63
  type Eight = b: seq<Byte> | |b| == 8 witness [0, 0, 0, 0, 0, 0, 0, 0]

  function Pow256(n: nat): (p: nat)
    ensures p > 0
  {
    if n == 0 then 1 else 256 * Pow256(n - 1)
  }

  /** Big-endian: the last byte is the least significant. */
  function ReadBigEndian(bytes: seq<Byte>): (value: nat)
    ensures value < Pow256(|bytes|)
  {
    if bytes == [] then 0
    else 256 * ReadBigEndian(bytes[..|bytes| - 1]) + bytes[|bytes| - 1] as int
  }

  function WriteBigEndian(value: nat, width: nat): (bytes: seq<Byte>)
    ensures |bytes| == width
  {
    if width == 0 then []
    else WriteBigEndian(value / 256, width - 1) + [(value % 256) as Byte]
  }

  lemma {:induction false} ReadAfterWrite(value: nat, width: nat)
    requires value < Pow256(width)
    ensures ReadBigEndian(WriteBigEndian(value, width)) == value
  {
    if width > 0 {
      ReadAfterWrite(value / 256, width - 1);
      var bytes := WriteBigEndian(value, width);
      assert bytes[..width - 1] == WriteBigEndian(value / 256, width - 1);
    }
  }

  lemma SplitOffLastByte(head: nat, last: nat)
    requires last < 256
    ensures (256 * head + last) / 256 == head && (256 * head + last) % 256 == last
  {
  }

  lemma {:induction false} WriteAfterRead(bytes: seq<Byte>)
    ensures WriteBigEndian(ReadBigEndian(bytes), |bytes|) == bytes
  {
    if bytes != [] {
      var init, last := bytes[..|bytes| - 1], bytes[|bytes| - 1];
      WriteAfterRead(init);
      SplitOffLastByte(ReadBigEndian(init), last as int);
      assert bytes == init + [last];
    }
  }

  lemma EightBytesAre64Bits()
    ensures Pow256(8) == TWO_TO_64
  {
    assert Pow256(4) == 0x1_0000_0000;
    assert Pow256(6) == 0x1_0000_0000_0000;
  }

  /** Two's complement reinterpretation of an unsigned 64-bit value. */
  function AsInt64(u: nat): Int64
    requires u < TWO_TO_64
  {
    if u < TWO_TO_63 then u else u - TWO_TO_64
  }

  function KeyOfBytes(bytes: Eight): Int64 {
    EightBytesAre64Bits();
    AsInt64(ReadBigEndian(bytes))
  }

  function BytesOfKey(key: Int64): Eight {
    WriteBigEndian(if key < 0 then key + TWO_TO_64 else key, 8)
  }

  /** Every eight-byte prefix is a distinct key and every bigint is the key of one prefix. */
  lemma KeyIsBijection(bytes: Eight, key: Int64)
    ensures BytesOfKey(KeyOfBytes(bytes)) == bytes
    ensures KeyOfBytes(BytesOfKey(key)) == key
  {
    EightBytesAre64Bits();
    WriteAfterRead(bytes);
    ReadAfterWrite(if key < 0 then key + TWO_TO_64 else key, 8);
  }

  /** The digest function is a parameter; what it computes is not modelled. */
  function LockKey(sha256: string -> seq<Byte>, name: string): Int64
    requires |sha256(name)| == 32
  {
    KeyOfBytes(sha256(name)[..8])
  }

  /** Two names contend for one lock exactly when their digests agree on the first eight bytes. */
  lemma SameLockIffSamePrefix(sha256: string -> seq<Byte>, a: string, b: string)
    requires |sha256(a)| == |sha256(b)| == 32
    ensures LockKey(sha256, a) == LockKey(sha256, b) <==> sha256(a)[..8] == sha256(b)[..8]
  {
    KeyIsBijection(sha256(a)[..8], 0);
    KeyIsBijection(sha256(b)[..8], 0);
  }
}
