/** Machine words of the Go source, as ranges of the integers, and big-endian byte strings. */
module Bytes {

  const TWO8 := 0x100
  const TWO16 := 0x1_0000
  const TWO32 := 0x1_0000_0000

  type byte = x: int | 0 <= x < 0x100
  type uint16 = x: int | 0 <= x < 0x1_0000
  type uint32 = x: int | 0 <= x < 0x1_0000_0000

  /** uint32 addition, which wraps around. */
  function Add32(a: uint32, n: nat): (r: uint32)
    ensures a + n < TWO32 ==> r == a + n
  {
    (a + n) % TWO32
  }

  /** uint32 subtraction, which wraps around. */
  function Sub32(a: uint32, b: uint32): (r: uint32)
    ensures b <= a ==> r == a - b
  {
    (a - b) % TWO32
  }

  function Min(a: int, b: int): int {
    if a < b then a else b
  }

  function Pow2(k: nat): (p: nat)
    ensures p > 0
  {
    if k == 0 then 1 else 2 * Pow2(k - 1)
  }

  /** binary.BigEndian.Uint16 at offset `at`. */
  function Get16(b: seq<byte>, at: nat): uint16
    requires at + 2 <= |b|
  {
    b[at] * TWO8 + b[at + 1]
  }

  /** The two bytes binary.BigEndian.PutUint16 writes. */
  function Put16(v: uint16): (b: seq<byte>)
    ensures |b| == 2 && Get16(b, 0) == v
  {
    [v / TWO8, v % TWO8]
  }

  /** binary.BigEndian.Uint32 at offset `at`. */
  function Get32(b: seq<byte>, at: nat): uint32
    requires at + 4 <= |b|
  {
    Get16(b, at) * TWO16 + Get16(b, at + 2)
  }

  /** The four bytes binary.BigEndian.PutUint32 writes. */
  function Put32(v: uint32): (b: seq<byte>)
    ensures |b| == 4 && Get32(b, 0) == v
  {
    Put16(v / TWO16) + Put16(v % TWO16)
  }

  /** A word read from a concatenation does not depend on what surrounds it. */
  lemma Get32Within(pre: seq<byte>, v: uint32, post: seq<byte>)
    ensures Get32(pre + Put32(v) + post, |pre|) == v
  {
    var all := pre + Put32(v) + post;
    assert all[|pre|..|pre| + 4] == Put32(v);
    assert forall i :: 0 <= i < 4 ==> all[|pre| + i] == Put32(v)[i];
  }

  /** The number that a string of bytes stands for, the highest byte first. */
  function BigEndian(b: seq<byte>): nat {
    if b == [] then 0 else BigEndian(b[..|b| - 1]) * 0x100 + b[|b| - 1] as int
  }

  lemma BigEndianOf16(b: seq<byte>, at: nat)
    requires at + 2 <= |b|
    ensures BigEndian(b[at..at + 2]) == Get16(b, at)
  {
    var c := b[at..at + 2];
    assert c[..1] == [b[at]] && c[..1][..0] == [];
    assert BigEndian(c[..1]) == b[at];
  }

  lemma BigEndianOf32(b: seq<byte>, at: nat)
    requires at + 4 <= |b|
    ensures BigEndian(b[at..at + 4]) == Get32(b, at)
  {
    var c := b[at..at + 4];
    assert c[..3][..2] == b[at..at + 2] && c[..3] == b[at..at + 3];
    BigEndianOf16(b, at);
    assert BigEndian(c[..3]) == Get16(b, at) * 0x100 + b[at + 2];
  }
}
