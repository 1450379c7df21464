/** `String.hashCode()` on the JVM: a polynomial in 31 over the string's
    UTF-16 code units, computed with `Int` overflow. */
module JvmString {
  import opened KotlinInt

  /** The UTF-16 code units of one character: itself below U+10000,
      otherwise a high and a low surrogate. */
  function CharUnits(c: char): (us: seq<int>)
    ensures 1 <= |us| <= 2 && forall i :: 0 <= i < |us| ==> 0 <= us[i] < 0x10000
  {
    var v := c as int;
    if v < 0x10000 then [v]
    else [0xD800 + (v - 0x10000) / 0x400, 0xDC00 + (v - 0x10000) % 0x400]
  }

  function Utf16Units(s: string): (us: seq<int>)
    ensures |s| <= |us| <= 2 * |s|
  {
    if s == [] then [] else Utf16Units(s[..|s| - 1]) + CharUnits(s[|s| - 1])
  }

  /** The loop of `String.hashCode`: `h = 31 * h + unit` in `Int`
      arithmetic, left to right. */
  function HashOfUnits(us: seq<int>): Int32 {
    if us == [] then 0 else Wrap32(31 * HashOfUnits(us[..|us| - 1]) + us[|us| - 1])
  }

  function HashCode(s: string): Int32 {
    HashOfUnits(Utf16Units(s))
  }

  function Pow31(e: nat): nat {
    if e == 0 then 1 else 31 * Pow31(e - 1)
  }

  /** The documented closed form `s[0]*31^(n-1) + s[1]*31^(n-2) + ... + s[n-1]`,
      in unbounded integers. */
  function PowerSum(us: seq<int>): int {
    if us == [] then 0 else us[0] * Pow31(|us| - 1) + PowerSum(us[1..])
  }

  lemma {:induction false} PowerSumAppend(us: seq<int>, u: int)
    ensures PowerSum(us + [u]) == 31 * PowerSum(us) + u
  {
    if us != [] {
      var n := |us|;
      assert (us + [u])[1..] == us[1..] + [u];
      PowerSumAppend(us[1..], u);
      assert Pow31(n) == 31 * Pow31(n - 1);
      assert us[0] * Pow31(n) == 31 * (us[0] * Pow31(n - 1));
    }
  }

  /** The overflowing loop agrees with the closed form reduced to 32 bits. */
  lemma {:induction false} HashIsPowerSumMod32(us: seq<int>)
    ensures HashOfUnits(us) == Wrap32(PowerSum(us))
  {
    if us != [] {
      var front := us[..|us| - 1];
      var u := us[|us| - 1];
      assert us == front + [u];
      HashIsPowerSumMod32(front);
      var x := PowerSum(front);
      var w := Wrap32(x);
      var k := (x - w) / TWO_32;
      assert x - w == k * TWO_32;
      assert 31 * x + u == 31 * w + u + (31 * k) * TWO_32;
      Wrap32Congruent(31 * x + u, 31 * w + u, 31 * k);
      PowerSumAppend(front, u);
    }
  }

  /** Short ASCII strings hash without overflow: "a" to 97, "ab" to 3105. */
  lemma HashCodeExamples()
    ensures HashCode("") == 0
    ensures HashCode("a") == 97
    ensures HashCode("ab") == 3105
  {
    assert Utf16Units("a") == [97];
    assert "ab"[..1] == "a";
    assert Utf16Units("ab") == [97, 98];
    assert [97, 98][..1] == [97];
  }
}
