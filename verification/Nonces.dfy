/**
 The packet counter and the AEAD nonce derived from it. Sequence number and
 timestamp are 16 and 32 bits wide and wrap, so the nonce repeats; the period is
 exactly 2^48 packets.
 */
module Nonces {
  import opened Arithmetic

  type byte = x: int | 0 <= x < 256

  const TWO16 := 0x1_0000
  const TWO32 := 0x1_0000_0000
  const TWO48 := 0x1_0000_0000_0000
  const TWO64 := 0x1_0000_0000_0000_0000

  /** The step of the RTP timestamp: 20 ms of audio at 48 kHz. */
  const TICKS := 960

  type u16 = x: int | 0 <= x < TWO16
  type u32 = x: int | 0 <= x < TWO32
  type u64 = x: int | 0 <= x < TWO64

  function SeqNum(initSeq: u16, c: u64): u16 {
    (initSeq + c % TWO16) % TWO16
  }

  function Timestamp(initTs: u32, c: u64): u32 {
    ((initTs + c % TWO32 * TICKS % TWO32) % TWO32 + c / TWO16 % TWO32) % TWO32
  }

  function BE16(x: u16): (b: seq<byte>)
    ensures |b| == 2
  {
    [x / 0x100, x % 0x100]
  }

  function BE32(x: u32): (b: seq<byte>)
    ensures |b| == 4
  {
    [x / 0x100_0000, x / TWO16 % 0x100, x / 0x100 % 0x100, x % 0x100]
  }

  function FromBE16(b: seq<byte>): u16
    requires |b| == 2
  {
    (b[0] as int) * 0x100 + (b[1] as int)
  }

  function FromBE32(b: seq<byte>): u32
    requires |b| == 4
  {
    (b[0] as int) * 0x100_0000 + (b[1] as int) * TWO16 + (b[2] as int) * 0x100 + (b[3] as int)
  }

  /** Reading back a number that was written big-endian. */
  lemma BigEndianRoundTrip(x: u16, y: u32)
    ensures FromBE16(BE16(x)) == x && FromBE32(BE32(y)) == y
  {
    ShortRoundTrip(x);
    LongRoundTrip(y);
  }

  lemma ShortRoundTrip(x: u16)
    ensures FromBE16(BE16(x)) == x
  {
    DivModEquation(x, 0x100);
  }

  /** Nested quotients are quotients. */
  lemma QuotientOfQuotient(y: nat, a: nat, b: nat)
    requires a > 0 && b > 0
    ensures a * b > 0 && y / (a * b) == y / a / b
  {
    ProductAtLeast(a, b);
    DivModEquation(y, a);
    DivModEquation(y / a, b);
    var q, r := y / a / b, y / a % b;
    assert y == (q * b + r) * a + y % a;
    assert (q * b + r) * a == q * (a * b) + r * a;
    ProductMonotone(r + 1, b, a);
    NextMultiple(r, a);
    DivModUnique(y, a * b, q, r * a + y % a);
  }

  lemma LongRoundTrip(y: u32)
    ensures FromBE32(BE32(y)) == y
  {
    QuotientOfQuotient(y, 0x100, 0x100);
    QuotientOfQuotient(y, 0x1_0000, 0x100);
    DivModEquation(y, 0x100);
    DivModEquation(y / 0x100, 0x100);
    DivModEquation(y / TWO16, 0x100);
  }

  /** [SSRC][sequence number][0][0][timestamp]. */
  function BuildNonce(ssrc: u32, seqNum: u16, ts: u32): (n: seq<byte>)
    ensures |n| == 12
  {
    BE32(ssrc) + BE16(seqNum) + [0, 0] + BE32(ts)
  }

  /** Twelve octets: the source, the sequence number, two of zeros and the timestamp, the high octets first. */
  lemma NonceLayout(ssrc: u32, seqNum: u16, ts: u32)
    ensures var n := BuildNonce(ssrc, seqNum, ts);
            && n[0] as int * 0x100_0000 + n[1] as int * 0x1_0000 + n[2] as int * 0x100 + n[3] as int == ssrc
            && n[4] as int * 0x100 + n[5] as int == seqNum && n[6] == 0 && n[7] == 0
            && n[8] as int * 0x100_0000 + n[9] as int * 0x1_0000 + n[10] as int * 0x100 + n[11] as int == ts
  {
    var n := BuildNonce(ssrc, seqNum, ts);
    BigEndianRoundTrip(seqNum, ssrc);
    BigEndianRoundTrip(seqNum, ts);
    assert n[..4] == BE32(ssrc) && n[4..6] == BE16(seqNum) && n[8..] == BE32(ts);
  }

  /** The nonce determines the header fields it was built from. */
  lemma NonceInjective(ssrc1: u32, seq1: u16, ts1: u32, ssrc2: u32, seq2: u16, ts2: u32)
    requires BuildNonce(ssrc1, seq1, ts1) == BuildNonce(ssrc2, seq2, ts2)
    ensures ssrc1 == ssrc2 && seq1 == seq2 && ts1 == ts2
  {
    var n1, n2 := BuildNonce(ssrc1, seq1, ts1), BuildNonce(ssrc2, seq2, ts2);
    assert n1[..4] == BE32(ssrc1) && n2[..4] == BE32(ssrc2);
    assert n1[4..6] == BE16(seq1) && n2[4..6] == BE16(seq2);
    assert n1[8..] == BE32(ts1) && n2[8..] == BE32(ts2);
    BigEndianRoundTrip(seq1, ssrc1);
    BigEndianRoundTrip(seq2, ssrc2);
    BigEndianRoundTrip(0, ts1);
    BigEndianRoundTrip(0, ts2);
  }

  /** The nonce of the packet that gets counter value c. */
  function PacketNonce(ssrc: u32, initSeq: u16, initTs: u32, c: u64): seq<byte> {
    BuildNonce(ssrc, SeqNum(initSeq, c), Timestamp(initTs, c))
  }

  // ---------------------------------------------------------------------
  // The period
  // ---------------------------------------------------------------------

  /** Same remainder is the same as the difference being a multiple. */
  lemma SameRemainder(a: int, b: int, m: int)
    requires m > 0
    ensures a % m == b % m <==> (b - a) % m == 0
  {
    DivModEquation(a, m);
    DivModEquation(b, m);
    if a % m == b % m {
      assert b - a == (b / m - a / m) * m + 0 by {
        assert (b / m - a / m) * m == b / m * m - a / m * m;
      }
      DivModUnique(b - a, m, b / m - a / m, 0);
    }
    if (b - a) % m == 0 {
      DivModEquation(b - a, m);
      assert b == a + (b - a) / m * m;
      ModMultiple(a, (b - a) / m, m);
    }
  }

  /** The timestamp is the counter times 960 plus its upper part, modulo 2^32. */
  lemma TimestampSum(initTs: u32, c: u64)
    ensures Timestamp(initTs, c) == (initTs + c * TICKS + c / TWO16) % TWO32
  {
    var x, y := c % TWO32 * TICKS, c / TWO16;
    DivModEquation(c, TWO32);
    ModMultiple(x, c / TWO32 * TICKS, TWO32);
    assert x + c / TWO32 * TICKS * TWO32 == c * TICKS;
    ModAdd(c * TICKS, initTs, TWO32);
    ModAdd(c * TICKS + initTs, y % TWO32, TWO32);
    ModAdd(y, c * TICKS + initTs, TWO32);
  }

  /** The sequence number starts where it is told to and goes up by one from packet to packet. */
  lemma SeqNumCountsUp(initSeq: u16, c: u64)
    ensures SeqNum(initSeq, 0) == initSeq
    ensures c + 1 < TWO64 ==> SeqNum(initSeq, c + 1) == (SeqNum(initSeq, c) + 1) % TWO16
  {}

  /**
   The timestamp starts where it is told to and goes up by 960 from packet to packet,
   and by one more whenever the sequence number has gone once round.
   */
  lemma TimestampTicks(initTs: u32, c: u64)
    ensures Timestamp(initTs, 0) == initTs
    ensures var carry := if (c + 1) % TWO16 == 0 then 1 else 0;
            c + 1 < TWO64 ==> Timestamp(initTs, c + 1) == (Timestamp(initTs, c) + 960 + carry) % TWO32
  {
    TimestampSum(initTs, 0);
    DivModUnique(initTs, TWO32, 0, initTs);
    if c + 1 < TWO64 {
      TimestampSum(initTs, c);
      TimestampSum(initTs, c + 1);
      DivModStep(c, TWO16);
      var carry := if (c + 1) % TWO16 == 0 then 1 else 0;
      ModAdd(initTs + c * TICKS + c / TWO16, 960 + carry, TWO32);
    }
  }

  lemma SeqNumsAgree(initSeq: u16, c1: u64, c2: u64)
    ensures SeqNum(initSeq, c1) == SeqNum(initSeq, c2) <==> (c2 - c1) % TWO16 == 0
  {}

  /** How far the timestamp moves over k times 2^16 packets: k * (1 + 15 * 2^22). */
  const STRIDE := 1 + 15 * 0x40_0000

  /** STRIDE is invertible modulo 2^32. */
  const STRIDE_INVERSE := 1 - 15 * 0x40_0000

  lemma StrideInverts(k: int)
    ensures (k * STRIDE) % TWO32 == 0 <==> k % TWO32 == 0
  {
    DivModEquation(k * STRIDE, TWO32);
    DivModEquation(k, TWO32);
    if (k * STRIDE) % TWO32 == 0 {
      var q := k * STRIDE / TWO32;
      assert k == (q * STRIDE_INVERSE + 225 * 0x1000 * k) * TWO32 + 0;
      DivModUnique(k, TWO32, q * STRIDE_INVERSE + 225 * 0x1000 * k, 0);
    } else if k % TWO32 == 0 {
      DivModUnique(k * STRIDE, TWO32, k / TWO32 * STRIDE, 0);
    }
  }

  /** Splitting a multiple of 2^16: it is a multiple of 2^48 exactly when its upper part is one of 2^32. */
  lemma UpperPart(k: int)
    ensures (k * TWO16) % TWO48 == 0 <==> k % TWO32 == 0
  {
    DivModEquation(k, TWO32);
    DivModUnique(k * TWO16, TWO48, k / TWO32, k % TWO32 * TWO16);
  }

  /** Packets whose sequence numbers agree have equal timestamps exactly every 2^48 packets. */
  lemma TimestampsAgree(initTs: u32, c1: u64, c2: u64)
    requires (c2 - c1) % TWO16 == 0
    ensures Timestamp(initTs, c1) == Timestamp(initTs, c2) <==> (c2 - c1) % TWO48 == 0
  {
    var k := (c2 - c1) / TWO16;
    DivModEquation(c2 - c1, TWO16);
    ModMultiple(c1, k, TWO16);
    var a, b := initTs + c1 * TICKS + c1 / TWO16, initTs + c2 * TICKS + c2 / TWO16;
    assert b - a == k * STRIDE;
    TimestampSum(initTs, c1);
    TimestampSum(initTs, c2);
    SameRemainder(a, b, TWO32);
    StrideInverts(k);
    UpperPart(k);
  }

  /** Two packets of one state get the same nonce exactly when their numbers differ by a multiple of 2^48. */
  lemma NoncePeriod(ssrc: u32, initSeq: u16, initTs: u32, c1: u64, c2: u64)
    ensures PacketNonce(ssrc, initSeq, initTs, c1) == PacketNonce(ssrc, initSeq, initTs, c2)
       <==> c1 % TWO48 == c2 % TWO48
  {
    SeqNumsAgree(initSeq, c1, c2);
    SameRemainder(c1, c2, TWO48);
    if PacketNonce(ssrc, initSeq, initTs, c1) == PacketNonce(ssrc, initSeq, initTs, c2) {
      NonceInjective(ssrc, SeqNum(initSeq, c1), Timestamp(initTs, c1),
                           ssrc, SeqNum(initSeq, c2), Timestamp(initTs, c2));
      TimestampsAgree(initTs, c1, c2);
    }
    if c1 % TWO48 == c2 % TWO48 {
      DivModEquation(c2 - c1, TWO48);
      DivModUnique(c2 - c1, TWO16, (c2 - c1) / TWO48 * TWO32, 0);
      TimestampsAgree(initTs, c1, c2);
    }
  }

  /** The n-th packet of a state, counting from 0, also when the 64-bit counter has wrapped. */
  function NthNonce(ssrc: u32, initSeq: u16, initTs: u32, n: nat): seq<byte> {
    PacketNonce(ssrc, initSeq, initTs, n % TWO64)
  }

  lemma NthNoncePeriod(ssrc: u32, initSeq: u16, initTs: u32, m: nat, n: nat)
    ensures NthNonce(ssrc, initSeq, initTs, m) == NthNonce(ssrc, initSeq, initTs, n) <==> m % TWO48 == n % TWO48
  {
    NoncePeriod(ssrc, initSeq, initTs, m % TWO64, n % TWO64);
    WrapKeepsResidue(m);
    WrapKeepsResidue(n);
  }

  /** The 64-bit wrap does not disturb the period: 2^48 divides 2^64. */
  lemma WrapKeepsResidue(n: nat)
    ensures n % TWO64 % TWO48 == n % TWO48
  {
    DivModEquation(n, TWO64);
    ModMultiple(n % TWO64, n / TWO64 * TWO16, TWO48);
  }

  /** The first 2^48 packets of a state have different nonces, and the next one repeats the first. */
  lemma FreshNonces(ssrc: u32, initSeq: u16, initTs: u32)
    ensures forall m: nat, n: nat :: m < n < TWO48 ==>
              NthNonce(ssrc, initSeq, initTs, m) != NthNonce(ssrc, initSeq, initTs, n)
    ensures NthNonce(ssrc, initSeq, initTs, TWO48) == NthNonce(ssrc, initSeq, initTs, 0)
  {
    forall m: nat, n: nat | m < n < TWO48
      ensures NthNonce(ssrc, initSeq, initTs, m) != NthNonce(ssrc, initSeq, initTs, n)
    {
      NthNoncePeriod(ssrc, initSeq, initTs, m, n);
      DivModUnique(m, TWO48, 0, m);
      DivModUnique(n, TWO48, 0, n);
    }
    NthNoncePeriod(ssrc, initSeq, initTs, TWO48, 0);
  }
}
