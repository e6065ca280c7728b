/** Bytes as they arrive from a pipe, and the 32-bit fields that dumpcap overlays on them.
    The host is taken to be little-endian; "byte-swapped" means the other order. */
module Bytes {

  type byte = b: int | 0 <= b < 256

  const TWO_TO_THE_32: nat := 0x1_0000_0000

  type uint32 = n: int | 0 <= n < TWO_TO_THE_32

  function LittleEndian(s: seq<byte>): nat {
    if s == [] then 0 else s[0] as int + 0x100 * LittleEndian(s[1..])
  }

  lemma FourBytes(s: seq<byte>)
    requires |s| == 4
    ensures LittleEndian(s)
         == s[0] as int + 0x100 * s[1] as int + 0x1_0000 * s[2] as int + 0x100_0000 * s[3] as int
  {
    assert LittleEndian(s[1..]) == s[1] as int + 0x100 * LittleEndian(s[1..][1..]);
    assert s[1..][1..] == s[2..];
    assert LittleEndian(s[2..]) == s[2] as int + 0x100 * LittleEndian(s[2..][1..]);
    assert s[2..][1..] == s[3..];
    assert LittleEndian(s[3..]) == s[3] as int + 0x100 * LittleEndian(s[3..][1..]);
  }

  /** The value of a native 32-bit field. */
  function U32(s: seq<byte>): (n: uint32)
    requires |s| == 4
  {
    FourBytes(s);
    LittleEndian(s)
  }

  function LittleEndianBytes(n: nat, k: nat): (s: seq<byte>)
    ensures |s| == k
  {
    if k == 0 then [] else [n % 0x100] + LittleEndianBytes(n / 0x100, k - 1)
  }

  /** The four bytes of a native 32-bit field. */
  function Bytes32(n: uint32): (s: seq<byte>)
    ensures |s| == 4
  {
    LittleEndianBytes(n, 4)
  }

  /** The four bytes of a field in the opposite order. */
  function Reversed4(s: seq<byte>): (r: seq<byte>)
    requires |s| == 4
    ensures |r| == 4
  {
    [s[3], s[2], s[1], s[0]]
  }

  /** GUINT32_SWAP_LE_BE */
  function Swap32(n: uint32): uint32 {
    U32(Reversed4(Bytes32(n)))
  }

  lemma FourBytesOf(n: uint32)
    ensures Bytes32(n) == [n % 0x100, n / 0x100 % 0x100, n / 0x1_0000 % 0x100, n / 0x100_0000]
  {
    var q := n / 0x100;
    assert n / 0x1_0000 == q / 0x100;
    assert n / 0x100_0000 == q / 0x100 / 0x100;
    assert LittleEndianBytes(n, 4) == [n % 0x100] + LittleEndianBytes(q, 3);
    assert LittleEndianBytes(q, 3) == [q % 0x100] + LittleEndianBytes(q / 0x100, 2);
    assert LittleEndianBytes(q / 0x100, 2) == [q / 0x100 % 0x100] + LittleEndianBytes(q / 0x100 / 0x100, 1);
  }

  lemma U32OfBytes32(n: uint32)
    ensures U32(Bytes32(n)) == n
  {
    FourBytesOf(n);
    FourBytes(Bytes32(n));
    var q := n / 0x100;
    assert n / 0x1_0000 == q / 0x100;
    assert n / 0x100_0000 == q / 0x100 / 0x100;
  }

  lemma LowByte(x: byte, r: nat)
    ensures (x as int + 0x100 * r) % 0x100 == x as int && (x as int + 0x100 * r) / 0x100 == r
  {
  }

  lemma {:induction false} BytesOfLittleEndian(s: seq<byte>)
    ensures LittleEndianBytes(LittleEndian(s), |s|) == s
  {
    if s == [] {
    } else {
      LowByte(s[0], LittleEndian(s[1..]));
      BytesOfLittleEndian(s[1..]);
      assert s == [s[0]] + s[1..];
    }
  }

  lemma Bytes32OfU32(s: seq<byte>)
    requires |s| == 4
    ensures Bytes32(U32(s)) == s
  {
    BytesOfLittleEndian(s);
  }

  /** Reading a field whose bytes are in the opposite order and swapping it gives the field. */
  lemma SwapUndoesReversal(s: seq<byte>)
    requires |s| == 4
    ensures Swap32(U32(Reversed4(s))) == U32(s)
  {
    Bytes32OfU32(Reversed4(s));
    assert Reversed4(Reversed4(s)) == s;
  }

  lemma Swap32Twice(n: uint32)
    ensures Swap32(Swap32(n)) == n
  {
    Bytes32OfU32(Reversed4(Bytes32(n)));
    assert Reversed4(Reversed4(Bytes32(n))) == Bytes32(n);
    U32OfBytes32(n);
  }
}
