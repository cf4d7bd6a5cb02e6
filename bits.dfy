/**
 * Binary strings as C++ builds them with `std::bitset<32>(i).to_string()`
 * followed by `substr(32 - n, n)`, and the big-endian binary numeral they
 * amount to.
 */
module Bits {

  function Pow2(n: nat): (r: nat)
    ensures r >= 1
  {
    if n == 0 then 1 else 2 * Pow2(n - 1)
  }

  /** Bit `k` of `i`, numbering from the least significant bit 0. */
  predicate TestBit(i: nat, k: nat) {
    if k == 0 then i % 2 == 1 else TestBit(i / 2, k - 1)
  }

  function BitChar(b: bool): char {
    if b then '1' else '0'
  }

  predicate IsBitString(s: string) {
    forall k :: 0 <= k < |s| ==> s[k] == '0' || s[k] == '1'
  }

  /**
   * `std::bitset<32>(i).to_string()`: 32 characters, the character at position
   * `p` standing for bit `31 - p`, so the most significant bit comes first.
   * The bitset keeps only bits 0 to 31 of `i`, that is `i mod 2^32`.
   */
  function Bitset32ToString(i: nat): (s: string) {
    seq(32, p requires 0 <= p < 32 => BitChar(TestBit(i, 31 - p)))
  }

  /** `std::bitset<32>(i).to_string().substr(32 - n, n)`: the last `n` characters. */
  function LowBitString(i: nat, n: nat): string
    requires n <= 32
  {
    Bitset32ToString(i)[32 - n..]
  }

  /** The reference: the `n`-digit big-endian binary numeral of `i` (of `i mod 2^n`). */
  function BinaryBE(i: nat, n: nat): string {
    if n == 0 then [] else BinaryBE(i / 2, n - 1) + [BitChar(i % 2 == 1)]
  }

  /** The value of a big-endian binary string. */
  function BitsValue(s: string): nat {
    if s == [] then 0 else 2 * BitsValue(s[..|s| - 1]) + (if s[|s| - 1] == '1' then 1 else 0)
  }

  /** Character `q` of the `n`-digit numeral is bit `n - 1 - q`. */
  lemma {:induction false} BinaryBEAt(i: nat, n: nat, q: nat)
    requires q < n
    ensures |BinaryBE(i, n)| == n
    ensures BinaryBE(i, n)[q] == BitChar(TestBit(i, n - 1 - q))
  {
    BinaryBELength(i / 2, n - 1);
    if q < n - 1 {
      BinaryBEAt(i / 2, n - 1, q);
    }
  }

  lemma {:induction false} BinaryBELength(i: nat, n: nat)
    ensures |BinaryBE(i, n)| == n
    ensures IsBitString(BinaryBE(i, n))
  {
    if n > 0 {
      BinaryBELength(i / 2, n - 1);
    }
  }

  /** Character `q` of the bitset code's last `n` characters is bit `n - 1 - q`. */
  lemma LowBitStringAt(i: nat, n: nat, q: nat)
    requires q < n <= 32
    ensures |LowBitString(i, n)| == n
    ensures LowBitString(i, n)[q] == BitChar(TestBit(i, n - 1 - q))
  {
    var p := 32 - n + q;
    assert LowBitString(i, n)[q] == Bitset32ToString(i)[p];
  }

  /** What the bitset code produces is the `n`-digit big-endian numeral of `i`. */
  lemma LowBitStringIsBinary(i: nat, n: nat)
    requires n <= 32
    ensures LowBitString(i, n) == BinaryBE(i, n)
  {
    var low, ref := LowBitString(i, n), BinaryBE(i, n);
    BinaryBELength(i, n);
    assert |low| == n;
    forall q | 0 <= q < n
      ensures low[q] == ref[q]
    {
      LowBitStringAt(i, n, q);
      BinaryBEAt(i, n, q);
    }
  }

  /** Reading the numeral of `i < 2^n` back gives `i`. */
  lemma {:induction false} BinaryBERoundTrip(i: nat, n: nat)
    requires i < Pow2(n)
    ensures BitsValue(BinaryBE(i, n)) == i
  {
    if n > 0 {
      BinaryBERoundTrip(i / 2, n - 1);
      var s := BinaryBE(i, n);
      assert s[..|s| - 1] == BinaryBE(i / 2, n - 1);
    }
  }

  /** A bit string is the numeral of its own value, which is below `2^|s|`. */
  lemma {:induction false} BitsValueRoundTrip(s: string)
    requires IsBitString(s)
    ensures BitsValue(s) < Pow2(|s|)
    ensures BinaryBE(BitsValue(s), |s|) == s
  {
    if s != [] {
      var init := s[..|s| - 1];
      BitsValueRoundTrip(init);
      var v := BitsValue(s);
      assert v / 2 == BitsValue(init);
      assert s == init + [s[|s| - 1]];
    }
  }

  /** Distinct indices below `2^n` have distinct `n`-digit numerals. */
  lemma BinaryBEInjective(i: nat, k: nat, n: nat)
    requires i < Pow2(n) && k < Pow2(n) && i != k
    ensures BinaryBE(i, n) != BinaryBE(k, n)
  {
    BinaryBERoundTrip(i, n);
    BinaryBERoundTrip(k, n);
  }

  /** Every `n`-digit bit string is the numeral of some index below `2^n` (unique by `BinaryBEInjective`). */
  lemma BinaryBESurjective(s: string)
    requires IsBitString(s)
    ensures exists i :: 0 <= i < Pow2(|s|) && BinaryBE(i, |s|) == s
  {
    BitsValueRoundTrip(s);
  }

  lemma {:induction false} Pow2Monotone(a: nat, b: nat)
    requires a <= b
    ensures Pow2(a) <= Pow2(b)
    decreases b
  {
    if a < b {
      Pow2Monotone(a, b - 1);
    }
  }
}
