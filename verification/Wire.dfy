/** Bytes and the big-endian integers of the Amazon Event Stream encoding. */
module Wire {
  type byte = b: int | 0 <= b < 256

  const TWO16: nat := 0x1_0000
  const TWO32: nat := 0x1_0000_0000

  /** `u16::from_be_bytes` on the first two bytes. */
  function ReadBE16(s: seq<byte>): (n: nat)
    requires |s| >= 2
    ensures n < TWO16
  {
    var high: int := s[0];
    high * 0x100 + s[1]
  }

  /** `u32::from_be_bytes` on the first four bytes. */
  function ReadBE32(s: seq<byte>): (n: nat)
    requires |s| >= 4
    ensures n < TWO32
  {
    ReadBE16(s) * TWO16 + ReadBE16(s[2..])
  }

  function WriteBE16(n: nat): (s: seq<byte>)
    requires n < TWO16
    ensures |s| == 2
  {
    [n / 0x100, n % 0x100]
  }

  function WriteBE32(n: nat): (s: seq<byte>)
    requires n < TWO32
    ensures |s| == 4
  {
    WriteBE16(n / TWO16) + WriteBE16(n % TWO16)
  }

  lemma ReadWriteBE16(n: nat, tail: seq<byte>)
    requires n < TWO16
    ensures ReadBE16(WriteBE16(n) + tail) == n
  {
  }

  lemma ReadWriteBE32(n: nat, tail: seq<byte>)
    requires n < TWO32
    ensures ReadBE32(WriteBE32(n) + tail) == n
  {
    var hi, lo := WriteBE16(n / TWO16), WriteBE16(n % TWO16);
    assert (WriteBE32(n) + tail)[2..] == lo + tail;
    assert WriteBE32(n) + tail == hi + (lo + tail);
    ReadWriteBE16(n / TWO16, lo + tail);
    ReadWriteBE16(n % TWO16, tail);
  }
}
