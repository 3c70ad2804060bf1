/** IPv4 addresses and prefixes as net/netip has them. */
module Addresses {
  import opened Bytes

  /** netip.Addr, whose zero value is no address at all. */
  datatype Addr = NoAddr | V4(ip: uint32)

  const ANY := V4(0)

  /** netip.Prefix: Bits() is -1 for one that is not valid. */
  type Bits = x: int | -1 <= x <= 32

  datatype Prefix = Prefix(addr: uint32, bits: Bits)

  /** netip.PrefixFrom on an IPv4 address. */
  function PrefixFrom(addr: uint32, bits: int): Prefix {
    Prefix(addr, if 0 <= bits <= 32 then bits else -1)
  }

  /** netip.Prefix.Contains: the leading bits agree. */
  predicate Contains(p: Prefix, dest: Addr) {
    dest.V4? && 0 <= p.bits && dest.ip / Pow2(32 - p.bits) == p.addr / Pow2(32 - p.bits)
  }

  lemma MulMonotone(a: int, b: int, w: nat)
    requires a <= b
    ensures a * w <= b * w
  {
    assert (b - a) * w >= 0;
  }

  lemma DivIs(x: int, w: int, q: int)
    requires w > 0
    ensures x / w == q <==> q * w <= x < q * w + w
  {
    var d := x / w;
    assert x == d * w + x % w && 0 <= x % w < w;
    if q < d {
      MulMonotone(q + 1, d, w);
      assert (q + 1) * w == q * w + w;
    } else if d < q {
      MulMonotone(d + 1, q, w);
      assert (d + 1) * w == d * w + w;
    }
  }

  /** A prefix contains the 2^(32 - bits) addresses of the block that its own address lies in. */
  lemma ContainsIff(p: Prefix, ip: uint32)
    requires p.bits >= 0
    ensures var size := Pow2(32 - p.bits);
            var first := p.addr - p.addr % size;
            Contains(p, V4(ip)) <==> first <= ip < first + size
  {
    var size := Pow2(32 - p.bits);
    DivIs(ip, size, p.addr / size);
    assert p.addr == p.addr / size * size + p.addr % size;
  }

  lemma {:induction false} Pow2Splits(i: nat, j: nat)
    ensures Pow2(i + j) == Pow2(i) * Pow2(j)
  {
    if i > 0 {
      Pow2Splits(i - 1, j);
    }
  }

  lemma Pow2Of32()
    ensures Pow2(32) == TWO32
  {
    assert Pow2(4) == 16;
    hide Pow2;
    Pow2Splits(4, 4);
    Pow2Splits(8, 8);
    Pow2Splits(16, 16);
  }

  lemma DivTwice(x: nat, a: nat, b: nat)
    requires a > 0 && b > 0
    ensures a * b > 0 && x / (a * b) == x / a / b
  {
    var q := x / a / b;
    DivIs(x / a, b, q);
    DivIs(x, a, x / a);
    assert q * b * a <= x / a * a;
    assert (x / a + 1) * a <= (q * b + b) * a;
    assert q * (a * b) == q * b * a && q * (a * b) + a * b == (q * b + b) * a;
    DivIs(x, a * b, q);
  }

  /** Length 0 contains every address and length 32 only its own; a longer prefix is part of a shorter one. */
  lemma LongerIsNarrower(addr: uint32, short: nat, long: nat, dest: Addr)
    requires short <= long <= 32
    ensures Contains(Prefix(addr, long), dest) ==> Contains(Prefix(addr, short), dest)
    ensures Contains(Prefix(addr, 0), dest) <==> dest.V4?
    ensures Contains(Prefix(addr, 32), dest) <==> dest == V4(addr)
  {
    Pow2Of32();
    assert Pow2(32 - 32) == 1;
    hide Pow2;
    var a, b := Pow2(32 - long), Pow2(long - short);
    Pow2Splits(32 - long, long - short);
    if dest.V4? {
      DivTwice(dest.ip, a, b);
      DivTwice(addr, a, b);
    }
  }
}
