/** Fixed-width integers of the JVM, as Kotlin's `Int` and `Long` behave:
    two's-complement ranges, wrap-around on narrowing, and division that
    truncates toward zero. */
module KotlinInt {

  const TWO_32: int := 0x1_0000_0000

  /** Kotlin `Int`. */
  type Int32 = x: int | -0x8000_0000 <= x < 0x8000_0000

  /** Kotlin `Long`. */
  type Int64 = x: int | -0x8000_0000_0000_0000 <= x < 0x8000_0000_0000_0000

  const LONG_MAX: Int64 := 0x7fff_ffff_ffff_ffff

  /** Keeps the low 32 bits of `x` read as a signed value: `Long.toInt()`
      and the overflow of `Int` arithmetic. */
  function Wrap32(x: int): (r: Int32)
    ensures (x - r) % TWO_32 == 0
    ensures -0x8000_0000 <= x < 0x8000_0000 ==> r == x
  {
    (x + 0x8000_0000) % TWO_32 - 0x8000_0000
  }

  /** Two numbers that differ by a multiple of 2^32 wrap to the same `Int`. */
  lemma {:induction false} Wrap32Congruent(x: int, y: int, k: int)
    requires x == y + k * TWO_32
    ensures Wrap32(x) == Wrap32(y)
  {
    var a := x + 0x8000_0000;
    var b := y + 0x8000_0000;
    assert a == b + k * TWO_32;
    var qb := b / TWO_32;
    assert b == qb * TWO_32 + b % TWO_32;
    assert a == (qb + k) * TWO_32 + b % TWO_32;
    assert a % TWO_32 == b % TWO_32 by {
      DivModUnique(a, qb + k, b % TWO_32);
    }
  }

  /** Euclidean remainder is determined by any decomposition with a
      remainder in range. */
  lemma {:induction false} DivModUnique(a: int, q: int, r: int)
    requires 0 <= r < TWO_32
    requires a == q * TWO_32 + r
    ensures a % TWO_32 == r
  {
    var q' := a / TWO_32;
    var r' := a % TWO_32;
    assert (q - q') * TWO_32 == r' - r;
    assert -TWO_32 < (q - q') * TWO_32 < TWO_32;
  }

  /** Kotlin's `/` on `Int` and `Long` for a positive divisor: the quotient
      is rounded toward zero. */
  function TruncDiv(a: int, b: int): (q: int)
    requires b > 0
    ensures a >= 0 ==> q >= 0 && q * b <= a < q * b + b
    ensures a < 0 ==> q <= 0 && q * b >= a > q * b - b
  {
    if a >= 0 then
      QuotientBounds(a, b);
      a / b
    else
      QuotientBounds(-a, b);
      assert (-((-a) / b)) * b == -(((-a) / b) * b);
      -((-a) / b)
  }

  /** Euclidean division of a non-negative number brackets it. */
  lemma QuotientBounds(a: nat, b: int)
    requires b > 0
    ensures a / b >= 0 && (a / b) * b <= a < (a / b) * b + b
  {
    var q, r := a / b, a % b;
    assert a == q * b + r && 0 <= r < b;
  }

  /** The capacity handed to `LruCache`, in KiB: a Long heap size divided by
      1024, narrowed to `Int`, then divided by 8. */
  function CacheSizeKb(maxMemory: Int64): Int32
  {
    TruncDiv(Wrap32(TruncDiv(maxMemory, 1024)), 8)
  }

  /** Within the heap sizes whose KiB count fits an `Int`, the capacity is an
      eighth of the heap, rounded down to whole KiB. */
  lemma {:induction false} CacheSizeIsEighthOfHeap(maxMemory: Int64)
    requires 0 <= maxMemory < 0x200_0000_0000
    ensures CacheSizeKb(maxMemory) * 8 * 1024 <= maxMemory < (CacheSizeKb(maxMemory) + 1) * 8 * 1024
  {
    var kb := TruncDiv(maxMemory, 1024);
    assert kb * 1024 <= maxMemory < kb * 1024 + 1024;
    assert 0 <= kb < 0x8000_0000;
    assert Wrap32(kb) == kb;
    var c := TruncDiv(kb, 8);
    assert c * 8 <= kb < c * 8 + 8;
    assert c * 8 * 1024 <= kb * 1024;
    assert (kb + 1) * 1024 <= (c + 1) * 8 * 1024;
  }

  /** A heap reported as unlimited (`Long.MAX_VALUE`) narrows to -1 KiB and
      yields a capacity of 0. */
  lemma UnlimitedHeapGivesNoCapacity()
    ensures CacheSizeKb(LONG_MAX) == 0
  {
    assert TruncDiv(LONG_MAX, 1024) == 0x1f_ffff_ffff_ffff;
    assert Wrap32(0x1f_ffff_ffff_ffff) == -1;
  }

  /** The weight `sizeOf` gives a bitmap: its byte count in whole KiB. */
  function SizeOfKb(byteCount: Int32): (kb: Int32)
    requires byteCount >= 0
    ensures kb * 1024 <= byteCount < (kb + 1) * 1024
  {
    TruncDiv(byteCount, 1024)
  }
}
