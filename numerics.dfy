/**
 * The C# integer behaviour the model needs written out: the 16-bit `char`,
 * truncation to `short`, division that truncates toward zero, and bit tests.
 */
module Numerics {

  /** A C# `char`: one UTF-16 code unit. */
  type WChar = c: int | 0 <= c < 0x1_0000

  const NUL: WChar := 0      // char.MinValue
  const LF: WChar := 10      // '\n'
  const CR: WChar := 13      // '\r'

  /** A C# `byte`. */
  type Byte = b: int | 0 <= b < 0x100

  /** A C# `uint`. */
  type UInt32 = x: int | 0 <= x < 0x1_0000_0000

  predicate IsInt16(x: int) { -0x8000 <= x < 0x8000 }

  /** A C# `short`. */
  type Int16 = x: int | -0x8000 <= x < 0x8000
  predicate IsInt32(x: int) { -0x8000_0000 <= x < 0x8000_0000 }

  /** An unchecked conversion to `short`: keeps the low 16 bits, sign-extended. */
  function ToInt16(x: int): (r: int)
    ensures IsInt16(r)
    ensures (r - x) % 0x1_0000 == 0
    ensures IsInt16(x) ==> r == x
  {
    (x + 0x8000) % 0x1_0000 - 0x8000
  }

  /** An unchecked conversion to `int`: keeps the low 32 bits, sign-extended. */
  function ToInt32(x: int): (r: int)
    ensures IsInt32(r)
    ensures (r - x) % 0x1_0000_0000 == 0
    ensures IsInt32(x) ==> r == x
  {
    (x + 0x8000_0000) % 0x1_0000_0000 - 0x8000_0000
  }

  /** C# integer division, which rounds toward zero (Dafny's `/` is Euclidean). */
  function TruncDiv(a: int, b: int): (q: int)
    requires b > 0
    ensures a >= 0 ==> q == a / b
    ensures a < 0 ==> q == -((-a) / b)
  {
    if a >= 0 then a / b else -((-a) / b)
  }

  function Pow2(k: nat): (p: nat)
    ensures p >= 1
  {
    if k == 0 then 1 else 2 * Pow2(k - 1)
  }

  /** Bit `k` of the non-negative number `x`. */
  predicate BitSet(x: nat, k: nat) {
    if k == 0 then x % 2 == 1 else BitSet(x / 2, k - 1)
  }

  function Min(a: int, b: int): (m: int)
    ensures m <= a && m <= b && (m == a || m == b)
  {
    if a < b then a else b
  }

  function Max(a: real, b: real): (m: real)
    ensures m >= a && m >= b && (m == a || m == b)
  {
    if a < b then b else a
  }

  /** MathHelper.Clamp: the upper bound is applied first, then the lower one. */
  function Clamp(x: int, lo: int, hi: int): (r: int)
    ensures r >= lo
    ensures lo <= hi ==> r <= hi
    ensures lo <= x <= hi ==> r == x
  {
    var v := if x > hi then hi else x;
    if v < lo then lo else v
  }

  /** Euclidean division is unique: `high * k + low` with `0 <= low < k` splits back into `high` and `low`. */
  lemma SplitAt(x: int, k: int, low: int, high: int)
    requires 0 < k && 0 <= low < k && x == high * k + low
    ensures x / k == high && x % k == low
  {
    var q := x / k;
    var r := x % k;
    assert (q - high) * k == low - r;
    if q > high {
      ProductAtLeast(q - high, k);
    } else if q < high {
      ProductAtLeast(high - q, k);
    }
  }

  lemma ProductAtLeast(m: int, k: int)
    requires 1 <= m && 0 < k
    ensures m * k >= k
  {
  }

  /** Multiplying by a non-negative factor keeps the order. */
  lemma {:induction false} MulMono(a: int, b: int, c: nat)
    requires a <= b
    ensures a * c <= b * c
    decreases b - a
  {
    if a < b {
      MulMono(a, b - 1, c);
      assert (b - 1) * c + c == b * c;
    }
  }
}
