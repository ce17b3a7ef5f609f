/**
 * Network-to-host byte order conversion (qtff_ntoh_16/24/32/64 and the
 * older qtff_ntohs/qtff_ntohl). Each converter receives the bytes in the
 * order fread stored them, so the host's own byte order plays no part:
 * the result is the bytes taken most significant first. The shifted
 * bytes occupy disjoint bit ranges, so the C `|` of the shifts equals
 * the sum written here.
 */
module ByteOrder {
  import opened QtffTypes

  function Pow256(k: nat): (p: nat)
    ensures p >= 1
  {
    if k == 0 then 1 else 256 * Pow256(k - 1)
  }

  /** The reference reading: a byte string as a number, most significant byte first. */
  function BigEndian(bs: seq<byte>): (n: nat)
    ensures n < Pow256(|bs|)
  {
    if bs == [] then 0
    else
      var high := BigEndian(bs[..|bs| - 1]);
      assert high * 256 + bs[|bs| - 1] < Pow256(|bs| - 1) * 256 by {
        assert high + 1 <= Pow256(|bs| - 1);
        assert (high + 1) * 256 <= Pow256(|bs| - 1) * 256;
      }
      high * 256 + bs[|bs| - 1]
  }

  /** The inverse of BigEndian: `n` written as `width` bytes, most significant first. */
  function ToBytes(n: nat, width: nat): (bs: seq<byte>)
    requires n < Pow256(width)
    ensures |bs| == width
  {
    if width == 0 then []
    else ToBytes(n / 256, width - 1) + [n % 256]
  }

  lemma {:induction false} BigEndianOfToBytes(n: nat, width: nat)
    requires n < Pow256(width)
    ensures BigEndian(ToBytes(n, width)) == n
  {
    if width > 0 {
      var bs := ToBytes(n, width);
      assert bs[..width - 1] == ToBytes(n / 256, width - 1);
      BigEndianOfToBytes(n / 256, width - 1);
    }
  }

  lemma {:induction false} ToBytesOfBigEndian(bs: seq<byte>)
    ensures ToBytes(BigEndian(bs), |bs|) == bs
  {
    if bs != [] {
      var k := |bs| - 1;
      ToBytesOfBigEndian(bs[..k]);
      assert BigEndian(bs) / 256 == BigEndian(bs[..k]);
      assert BigEndian(bs) % 256 == bs[k];
      assert bs == bs[..k] + [bs[k]];
    }
  }

  /** One step of BigEndian on a prefix of `bs`. */
  lemma BigEndianPrefix(bs: seq<byte>, k: nat)
    requires 0 < k <= |bs|
    ensures BigEndian(bs[..k]) == BigEndian(bs[..k - 1]) * 256 + bs[k - 1]
  {
    assert bs[..k][..k - 1] == bs[..k - 1];
  }

  /** BigEndian of the first k bytes, unrolled from the last byte down to the first. */
  lemma BigEndianUnrolled(bs: seq<byte>, k: nat)
    requires 1 <= k <= |bs|
    ensures k == 1 ==> BigEndian(bs[..k]) == bs[0]
    ensures k >= 2 ==> BigEndian(bs[..k]) == BigEndian(bs[..k - 1]) * 256 + bs[k - 1]
  {
    BigEndianPrefix(bs, k);
    if k == 1 {
      assert bs[..0] == [];
    }
  }

  /** Two byte strings of one width read as the same number only if they are equal. */
  lemma BigEndianInjective(a: seq<byte>, b: seq<byte>)
    requires |a| == |b| && BigEndian(a) == BigEndian(b)
    ensures a == b
  {
    ToBytesOfBigEndian(a);
    ToBytesOfBigEndian(b);
  }

  /** qtff_ntoh_16 / qtff_ntohs. */
  function Ntoh16(b: seq<byte>): (r: uint16)
    requires |b| == 2
    ensures r == BigEndian(b)
  {
    BigEndianUnrolled(b, 1);
    BigEndianUnrolled(b, 2);
    assert b[..2] == b;
    b[0] as int * 0x100 + b[1]
  }

  /**
   * qtff_ntoh_24 as written: byte 0 is taken twice and byte 2 never, so
   * the result is the big-endian reading of [b0, b0, b1].
   */
  function Ntoh24(b: seq<byte>): (r: uint32)
    requires |b| == 3
    ensures r == BigEndian([b[0], b[0], b[1]])
    ensures r < 0x100_0000
  {
    var w := [b[0], b[0], b[1]];
    BigEndianUnrolled(w, 1);
    BigEndianUnrolled(w, 2);
    BigEndianUnrolled(w, 3);
    assert w[..3] == w;
    b[0] as int * 0x1_0000 + b[0] as int * 0x100 + b[1]
  }

  /** The 24-bit conversion agrees with the big-endian reading only on inputs b0 = b1 = b2. */
  lemma Ntoh24Discrepancy(b: seq<byte>)
    requires |b| == 3
    ensures Ntoh24(b) == BigEndian(b) <==> b[0] == b[1] && b[1] == b[2]
  {
    if b[0] == b[1] && b[1] == b[2] {
      assert b == [b[0], b[0], b[1]];
    }
    if Ntoh24(b) == BigEndian(b) {
      BigEndianInjective([b[0], b[0], b[1]], b);
    }
  }

  /** qtff_ntoh_32 / qtff_ntohl. */
  function Ntoh32(b: seq<byte>): (r: uint32)
    requires |b| == 4
    ensures r == BigEndian(b)
  {
    BigEndianUnrolled(b, 1);
    BigEndianUnrolled(b, 2);
    BigEndianUnrolled(b, 3);
    BigEndianUnrolled(b, 4);
    assert b[..4] == b;
    b[0] as int * 0x100_0000 + b[1] as int * 0x1_0000 + b[2] as int * 0x100 + b[3]
  }

  /** qtff_ntoh_64: the two 32-bit halves, the first one high. */
  function Ntoh64(b: seq<byte>): (r: uint64)
    requires |b| == 8
    ensures r == BigEndian(b)
  {
    Ntoh64Halves(b);
    b[0] as int * 0x100_0000_0000_0000 + b[1] as int * 0x1_0000_0000_0000
    + b[2] as int * 0x100_0000_0000 + b[3] as int * 0x1_0000_0000
    + b[4] as int * 0x100_0000 + b[5] as int * 0x1_0000 + b[6] as int * 0x100 + b[7]
  }

  lemma Ntoh64Halves(b: seq<byte>)
    requires |b| == 8
    ensures BigEndian(b) == Ntoh32(b[..4]) * 0x1_0000_0000 + Ntoh32(b[4..])
    ensures BigEndian(b) == b[0] as int * 0x100_0000_0000_0000 + b[1] as int * 0x1_0000_0000_0000
      + b[2] as int * 0x100_0000_0000 + b[3] as int * 0x1_0000_0000
      + b[4] as int * 0x100_0000 + b[5] as int * 0x1_0000 + b[6] as int * 0x100 + b[7]
  {
    var hi: int := Ntoh32(b[..4]);
    assert BigEndian(b[..4]) == hi;
    BigEndianUnrolled(b, 5);
    BigEndianUnrolled(b, 6);
    BigEndianUnrolled(b, 7);
    BigEndianUnrolled(b, 8);
    assert b[..8] == b;
    assert BigEndian(b) == (((hi * 256 + b[4] as int) * 256 + b[5] as int) * 256 + b[6] as int) * 256 + b[7] as int;
  }

  /** Encoding a 32-bit value big-endian and converting it back yields the value. */
  lemma Ntoh32RoundTrip(x: uint32)
    ensures |ToBytes(x, 4)| == 4 && Ntoh32(ToBytes(x, 4)) == x
  {
    assert Pow256(4) == 0x1_0000_0000;
    BigEndianOfToBytes(x, 4);
  }
}
