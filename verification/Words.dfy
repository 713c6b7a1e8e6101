/** Machine integers as bounded mathematical integers, with the casts the wire code uses. */
module Words {

  const TWO_31: int := 0x8000_0000
  const TWO_32: int := 0x1_0000_0000
  const TWO_63: int := 0x8000_0000_0000_0000
  const TWO_64: int := 0x1_0000_0000_0000_0000

  type byte = x: int | 0 <= x < 256
  type u32 = x: int | 0 <= x < TWO_32
  type u64 = x: int | 0 <= x < TWO_64
  type i32 = x: int | -TWO_31 <= x < TWO_31
  type i64 = x: int | -TWO_63 <= x < TWO_63

  /** `u64 as i64` */
  function U64AsI64(u: u64): i64 {
    if u < TWO_63 then u else u - TWO_64
  }

  /** `i64 as u64` */
  function I64AsU64(i: i64): u64 {
    if i >= 0 then i else i + TWO_64
  }

  /** `u64 as u32`: the low 32 bits. */
  function U64AsU32(u: u64): u32 {
    u % TWO_32
  }

  /** The low 32 bits of a 64-bit word, read as a signed number (`u64 as i32`). */
  function U64AsI32(u: u64): i32 {
    U32AsI32(u % TWO_32)
  }

  function U32AsI32(u: u32): i32 {
    if u < TWO_31 then u else u - TWO_32
  }

  function I32AsU32(i: i32): u32 {
    if i >= 0 then i else i + TWO_32
  }

  /** `i64 as i32` */
  function I64AsI32(i: i64): i32 {
    U64AsI32(I64AsU64(i))
  }

  lemma CastsRoundTrip(u: u64, i: i64)
    ensures I64AsU64(U64AsI64(u)) == u
    ensures U64AsI64(I64AsU64(i)) == i
  {
  }

  lemma NarrowRoundTrip(i: i64)
    requires -TWO_31 <= i < TWO_31
    ensures I64AsI32(i) == i
  {
    if i < 0 {
      assert i + TWO_64 == (i + TWO_32) + (TWO_32 - 1) * TWO_32;
      assert (i + TWO_64) % TWO_32 == i + TWO_32;
    }
  }

  /** Little-endian bytes of `n`, low byte first. */
  function LeBytes(n: nat, width: nat): (bs: seq<byte>)
    ensures |bs| == width
  {
    if width == 0 then [] else [n % 256] + LeBytes(n / 256, width - 1)
  }

  function LeValue(bs: seq<byte>): (n: nat)
  {
    if bs == [] then 0 else bs[0] + 256 * LeValue(bs[1..])
  }

  function Pow256(k: nat): nat {
    if k == 0 then 1 else 256 * Pow256(k - 1)
  }

  lemma {:induction false} LeRoundTrip(n: nat, width: nat)
    requires n < Pow256(width)
    ensures LeValue(LeBytes(n, width)) == n
  {
    if width > 0 {
      LeRoundTrip(n / 256, width - 1);
      assert LeBytes(n, width)[1..] == LeBytes(n / 256, width - 1);
    }
  }

  lemma {:induction false} LeValueBound(bs: seq<byte>)
    ensures LeValue(bs) < Pow256(|bs|)
  {
    if bs != [] {
      LeValueBound(bs[1..]);
    }
  }

  lemma LeWidths()
    ensures Pow256(4) == TWO_32 && Pow256(8) == TWO_64
  {
    assert Pow256(4) == 256 * (256 * (256 * (256 * Pow256(0))));
    assert Pow256(8) == 256 * (256 * (256 * (256 * Pow256(4))));
  }
}
