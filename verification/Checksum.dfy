/** computeChecksum of pkg/tcpstack: the Internet checksum, section 1 of RFC 1071. */
module Checksum {
  import opened Bytes
  import Slices

  const ONES := 0xFFFF

  /** The sum of the big-endian 16-bit words. */
  function WordSum(b: seq<byte>): nat
    requires |b| % 2 == 0
  {
    if b == [] then 0 else WordSum(b[..|b| - 2]) + Get16(b, |b| - 2)
  }

  /** End-around carry until the sum fits 16 bits. */
  function Fold(s: nat): nat {
    if s / TWO16 == 0 then s else Fold(s % TWO16 + s / TWO16)
  }

  lemma SameRemainder(t: nat, q: nat)
    ensures (t + ONES * q) % ONES == t % ONES
  {
  }

  /** The folded sum is the representative of the sum modulo 65535, and zero only for zero. */
  lemma {:induction false} FoldIsCongruent(s: nat)
    ensures Fold(s) < TWO16
    ensures Fold(s) % ONES == s % ONES
    ensures Fold(s) == 0 <==> s == 0
  {
    if s / TWO16 != 0 {
      var t := s % TWO16 + s / TWO16;
      assert s == t + ONES * (s / TWO16);
      SameRemainder(t, s / TWO16);
      FoldIsCongruent(t);
    }
  }

  /** copy(dst[at:at+4], ip) into zeroed bytes. */
  function FourBytes(ip: seq<byte>): seq<byte> {
    if |ip| >= 4 then ip[..4] else ip + seq(4 - |ip|, _ => 0)
  }

  function PseudoHeader(srcIP: seq<byte>, dstIP: seq<byte>, protocol: byte, len: nat): (h: seq<byte>)
    ensures |h| == 12
  {
    FourBytes(srcIP) + FourBytes(dstIP) + [0, protocol] + Put16(len % TWO16)
  }

  function Padded(packet: seq<byte>): (b: seq<byte>)
    ensures |b| % 2 == 0 && |packet| <= |b| <= |packet| + 1
  {
    if |packet| % 2 == 1 then packet + [0] else packet
  }

  /** What is summed: pseudo header, segment, and a zero byte if the length is odd. */
  function Covered(srcIP: seq<byte>, dstIP: seq<byte>, protocol: byte, packet: seq<byte>): (b: seq<byte>)
    ensures |b| % 2 == 0 && 12 + |packet| <= |b| <= 13 + |packet|
  {
    var padded := Padded(packet);
    assert |padded| == 2 * (|padded| / 2);
    PseudoHeader(srcIP, dstIP, protocol, |packet|) + padded
  }

  /** The sum as the uint32 of the source holds it. */
  function Sum(srcIP: seq<byte>, dstIP: seq<byte>, protocol: byte, packet: seq<byte>): uint32 {
    WordSum(Covered(srcIP, dstIP, protocol, packet)) % TWO32
  }

  function ChecksumOf(srcIP: seq<byte>, dstIP: seq<byte>, protocol: byte, packet: seq<byte>): uint16 {
    FoldIsCongruent(Sum(srcIP, dstIP, protocol, packet));
    ONES - Fold(Sum(srcIP, dstIP, protocol, packet))
  }

  lemma {:induction false} WordSumBound(b: seq<byte>)
    requires |b| % 2 == 0
    ensures WordSum(b) <= |b| / 2 * ONES
  {
    if b != [] {
      WordSumBound(b[..|b| - 2]);
    }
  }

  lemma {:induction false} WordSumAppend(a: seq<byte>, b: seq<byte>)
    requires |a| % 2 == 0 && |b| % 2 == 0
    ensures WordSum(a + b) == WordSum(a) + WordSum(b)
  {
    if b == [] {
      assert a + b == a;
    } else {
      assert (a + b)[..|a + b| - 2] == a + b[..|b| - 2];
      WordSumAppend(a, b[..|b| - 2]);
    }
  }

  lemma OneWord(a: byte, b: byte)
    ensures WordSum([a, b]) == a as int * 0x100 + b as int
  {
    assert [a, b][..0] == [];
  }

  lemma PseudoHeaderSum(srcIP: seq<byte>, dstIP: seq<byte>, protocol: byte, len: nat)
    requires |srcIP| == 4 && |dstIP| == 4
    ensures WordSum(PseudoHeader(srcIP, dstIP, protocol, len))
            == WordSum(srcIP) + WordSum(dstIP) + protocol as int + len % TWO16
  {
    var length := Put16(len % TWO16);
    OneWord(0, protocol);
    OneWord(length[0], length[1]);
    assert length == [length[0], length[1]];
    hide WordSum;
    WordSumAppend(srcIP, dstIP);
    WordSumAppend(srcIP + dstIP, [0, protocol]);
    WordSumAppend(srcIP + dstIP + [0, protocol], length);
    assert FourBytes(srcIP) == srcIP && FourBytes(dstIP) == dstIP;
  }

  /** The whole words of the segment. */
  function EvenPart(packet: seq<byte>): (e: seq<byte>)
    ensures |e| % 2 == 0
  {
    if |packet| % 2 == 0 then packet else packet[..|packet| - 1]
  }

  lemma PaddedSum(packet: seq<byte>)
    ensures WordSum(Padded(packet))
            == WordSum(EvenPart(packet)) + (if |packet| % 2 == 1 then packet[|packet| - 1] as int * 0x100 else 0)
  {
    hide WordSum;
    if |packet| % 2 == 1 {
      var last := packet[|packet| - 1];
      OneWord(last, 0);
      WordSumAppend(EvenPart(packet), [last, 0]);
      assert packet + [0] == EvenPart(packet) + [last, 0];
    }
  }

  /**
   What is summed, section 3.1 of RFC 9293: both addresses, the protocol number, the length of the
   segment, and the segment itself, the last byte of an odd one being the high byte of its word.
   */
  lemma SumIsOverPseudoHeader(srcIP: seq<byte>, dstIP: seq<byte>, protocol: byte, packet: seq<byte>)
    requires |srcIP| == 4 && |dstIP| == 4
    ensures WordSum(Covered(srcIP, dstIP, protocol, packet))
            == WordSum(srcIP) + WordSum(dstIP) + protocol as int + |packet| % TWO16 + WordSum(EvenPart(packet))
               + (if |packet| % 2 == 1 then packet[|packet| - 1] as int * 0x100 else 0)
  {
    hide WordSum, PseudoHeader, Padded;
    PseudoHeaderSum(srcIP, dstIP, protocol, |packet|);
    PaddedSum(packet);
    WordSumAppend(PseudoHeader(srcIP, dstIP, protocol, |packet|), Padded(packet));
  }

  /** A checksum of zero means that the sum is a multiple of 65535, but not zero. */
  lemma ZeroIffMultiple(srcIP: seq<byte>, dstIP: seq<byte>, protocol: byte, packet: seq<byte>)
    ensures ChecksumOf(srcIP, dstIP, protocol, packet) == 0
            <==> Sum(srcIP, dstIP, protocol, packet) % ONES == 0 && Sum(srcIP, dstIP, protocol, packet) > 0
  {
    FoldIsCongruent(Sum(srcIP, dstIP, protocol, packet));
  }

  /** For every segment that IP can carry, the sum does not wrap. */
  lemma SumFits(srcIP: seq<byte>, dstIP: seq<byte>, protocol: byte, packet: seq<byte>)
    requires |packet| < TWO16
    ensures Sum(srcIP, dstIP, protocol, packet) == WordSum(Covered(srcIP, dstIP, protocol, packet))
    ensures Sum(srcIP, dstIP, protocol, packet) + ONES < TWO32
  {
    WordSumBound(Covered(srcIP, dstIP, protocol, packet));
  }

  lemma {:induction false} ReplaceWord(b: seq<byte>, i: nat, v: uint16)
    requires |b| % 2 == 0 && i % 2 == 0 && i + 2 <= |b|
    ensures WordSum(b[i := v / TWO8][i + 1 := v % TWO8]) == WordSum(b) - Get16(b, i) + v
  {
    var c := b[i := v / TWO8][i + 1 := v % TWO8];
    if i == |b| - 2 {
      assert c[..|c| - 2] == b[..|b| - 2];
    } else {
      assert c[..|c| - 2] == b[..|b| - 2][i := v / TWO8][i + 1 := v % TWO8];
      ReplaceWord(b[..|b| - 2], i, v);
    }
  }

  /** Adding the complement of the folded sum makes a non-zero multiple of 65535. */
  lemma ComplementCompletes(sum: nat)
    ensures (sum + (ONES - Fold(sum))) % ONES == 0 && sum + (ONES - Fold(sum)) > 0
  {
    FoldIsCongruent(sum);
    var k := sum / ONES - Fold(sum) / ONES + 1;
    assert sum + (ONES - Fold(sum)) == ONES * k;
  }

  lemma StampedCovered(srcIP: seq<byte>, dstIP: seq<byte>, protocol: byte, packet: seq<byte>, hi: byte, lo: byte)
    requires 18 <= |packet|
    ensures var b := Covered(srcIP, dstIP, protocol, packet);
            && Covered(srcIP, dstIP, protocol, packet[16 := hi][17 := lo]) == b[28 := hi][29 := lo]
            && b[28] == packet[16] && b[29] == packet[17]
  {
  }

  lemma WrappedSum(a: nat, c: uint16)
    ensures (a + c) % TWO32 == (if a % TWO32 + c < TWO32 then a % TWO32 + c else a % TWO32 + c - TWO32)
  {
  }

  /** 2^32 is one more than a multiple of 65535. */
  lemma WrapIsNoMultiple(n: nat)
    ensures n % ONES == 0 && n >= TWO32 ==> (n - TWO32) % ONES != 0
  {
    if n % ONES == 0 && n >= TWO32 {
      assert n - TWO32 == ONES * (n / ONES - 65538) + (ONES - 1);
    }
  }

  /**
   Writing the checksum into zeroed bytes 16 and 17 of the segment makes a recomputation return 0,
   for every length, odd ones included, exactly if the sum with the checksum in it still fits 32 bits.
   */
  lemma ChecksumVerifiesIff(srcIP: seq<byte>, dstIP: seq<byte>, protocol: byte, packet: seq<byte>)
    requires 18 <= |packet| && packet[16] == 0 && packet[17] == 0
    ensures var c := ChecksumOf(srcIP, dstIP, protocol, packet);
            ChecksumOf(srcIP, dstIP, protocol, packet[16 := c / TWO8][17 := c % TWO8]) == 0
            <==> Sum(srcIP, dstIP, protocol, packet) + c < TWO32
  {
    hide Covered, Fold, WordSum;
    var c := ChecksumOf(srcIP, dstIP, protocol, packet);
    var b := Covered(srcIP, dstIP, protocol, packet);
    StampedCovered(srcIP, dstIP, protocol, packet, c / TWO8, c % TWO8);
    ReplaceWord(b, 28, c);
    var sum: nat := Sum(srcIP, dstIP, protocol, packet);
    ComplementCompletes(sum);
    WrappedSum(WordSum(b), c);
    WrapIsNoMultiple(sum + c);
    ZeroIffMultiple(srcIP, dstIP, protocol, packet[16 := c / TWO8][17 := c % TWO8]);
  }

  /** So it does for every segment of 18 to 65535 bytes. */
  lemma ChecksumVerifies(srcIP: seq<byte>, dstIP: seq<byte>, protocol: byte, packet: seq<byte>)
    requires 18 <= |packet| < TWO16 && packet[16] == 0 && packet[17] == 0
    ensures var c := ChecksumOf(srcIP, dstIP, protocol, packet);
            ChecksumOf(srcIP, dstIP, protocol, packet[16 := c / TWO8][17 := c % TWO8]) == 0
  {
    SumFits(srcIP, dstIP, protocol, packet);
    ChecksumVerifiesIff(srcIP, dstIP, protocol, packet);
  }

  /** The 12-byte buffer of the pseudo header. */
  method PseudoHeaderData(srcIP: seq<byte>, dstIP: seq<byte>, protocol: byte, len: nat) returns (pseudo: array<byte>)
    ensures fresh(pseudo) && pseudo[..] == PseudoHeader(srcIP, dstIP, protocol, len)
  {
    pseudo := new byte[12](_ => 0);
    forall k | 0 <= k < Min(4, |srcIP|) { pseudo[k] := srcIP[k]; }
    forall k | 0 <= k < Min(4, |dstIP|) { pseudo[4 + k] := dstIP[k]; }
    pseudo[8], pseudo[9] := 0, protocol;
    pseudo[10], pseudo[11] := Put16(len % TWO16)[0], Put16(len % TWO16)[1];
  }

  lemma PaddedWithZero(d: seq<byte>, n: nat)
    requires n <= |d| <= n + 1 && (n < |d| ==> d[n] == 0)
    ensures n % 2 == |d| - n ==> d == Padded(d[..n])
  {
  }

  /** Pseudo header and segment in one buffer of even length. */
  method ChecksumData(srcIP: seq<byte>, dstIP: seq<byte>, protocol: byte, packet: seq<byte>)
    returns (data: array<byte>)
    ensures fresh(data) && data[..] == Covered(srcIP, dstIP, protocol, packet)
  {
    var pseudo := PseudoHeaderData(srcIP, dstIP, protocol, |packet|);
    var header := pseudo[..];
    hide PseudoHeader;
    var total := 12 + |packet|;
    if total % 2 != 0 {
      total := total + 1;
    }
    data := new byte[total](_ => 0);
    Slices.Copy(data, 0, header);
    Slices.Copy(data, 12, packet);
    assert data[..12 + |packet|] == header + packet;
    PaddedWithZero(data[..], 12 + |packet|);
  }

  lemma WordSumTurn(b: seq<byte>, i: nat)
    requires i % 2 == 0 && i + 2 <= |b|
    ensures WordSum(b[..i + 2]) % TWO32 == (WordSum(b[..i]) % TWO32 + Get16(b, i)) % TWO32
  {
    assert b[..i + 2][..i] == b[..i];
  }

  /** The summing loop, in uint32. */
  method SumWords(data: array<byte>) returns (sum: uint32)
    requires data.Length % 2 == 0
    ensures sum == WordSum(data[..]) % TWO32
  {
    sum := 0;
    var i := 0;
    ghost var b := data[..];
    while i < data.Length - 1
      invariant 0 <= i <= data.Length && i % 2 == 0
      invariant sum == WordSum(b[..i]) % TWO32
    {
      WordSumTurn(b, i);
      sum := (sum + (data[i] * TWO8 + data[i + 1])) % TWO32;
      i := i + 2;
    }
    assert b[..i] == b;
  }

  /** computeChecksum, with its folding loop. */
  method ComputeChecksum(srcIP: seq<byte>, dstIP: seq<byte>, protocol: byte, packet: seq<byte>) returns (c: uint16)
    ensures c == ChecksumOf(srcIP, dstIP, protocol, packet)
  {
    var data := ChecksumData(srcIP, dstIP, protocol, packet);
    hide Covered;
    var sum: uint32 := SumWords(data);
    FoldIsCongruent(sum);
    while sum / TWO16 != 0
      invariant Fold(sum) == Fold(Sum(srcIP, dstIP, protocol, packet))
      decreases sum
    {
      sum := sum % TWO16 + sum / TWO16;
    }
    c := ONES - sum;
  }
}
