/** Bytes and machine words shared by the rest of the model: a `size_t` or a
    pointer is a word of some number of bytes, holding a value below 256 to
    that power. */
module MachineWords {

  /** One C byte (`char`, `uint8_t`). */
  type Byte = b: int | 0 <= b < 256

  /** 256 to the n: one past the largest value an n-byte word holds. */
  function Pow256(n: nat): (r: nat)
    ensures r >= 1
  {
    if n == 0 then 1 else 256 * Pow256(n - 1)
  }

  /** A word is always wide enough to hold its own size in bytes. */
  lemma {:induction false} SizeFitsWord(n: nat)
    ensures n < Pow256(n)
  {
    if n > 0 {
      SizeFitsWord(n - 1);
    }
  }

  lemma MulMonotone(a: nat, b: int, c: int)
    requires b <= c
    ensures a * b <= a * c
  {
    assert a * c - a * b == a * (c - b);
  }

  /** Quotient and remainder are the only pair with a remainder in range. */
  lemma DivModUnique(x: int, a: int, q: int, r: int)
    requires a > 0 && 0 <= r < a && x == a * q + r
    ensures x / a == q && x % a == r
  {
    var q', r' := x / a, x % a;
    assert x == a * q' + r';
    assert a * (q - q') == r' - r by {
      assert a * q - a * q' == a * (q - q');
    }
    if q > q' {
      MulMonotone(a, 1, q - q');
    } else if q < q' {
      MulMonotone(a, 1, q' - q);
    }
  }

  /** The C conversion `(size_t)x` for a `size_t` of `wordBytes` bytes:
      reduction modulo 256 to that power. */
  function ToSizeT(x: int, wordBytes: nat): (r: nat)
    ensures r < Pow256(wordBytes)
    ensures 0 <= x < Pow256(wordBytes) ==> r == x
    ensures x < 0 && 0 <= x + Pow256(wordBytes) ==> r == x + Pow256(wordBytes)
  {
    ModCases(x, Pow256(wordBytes));
    x % Pow256(wordBytes)
  }

  /** The Euclidean remainder of an integer within one range of zero. */
  lemma ModCases(x: int, m: nat)
    requires m > 0
    ensures 0 <= x % m < m
    ensures 0 <= x < m ==> x % m == x
    ensures x < 0 && 0 <= x + m ==> x % m == x + m
  {
    if 0 <= x < m {
      DivModUnique(x, m, 0, x);
    } else if x < 0 && 0 <= x + m {
      DivModUnique(x, m, -1, x + m);
    }
  }

  /** The converted value differs from the original by a multiple of the
      word's range. */
  lemma ToSizeTResidue(x: int, wordBytes: nat) returns (q: int)
    ensures x == q * Pow256(wordBytes) + ToSizeT(x, wordBytes)
  {
    var m := Pow256(wordBytes);
    q := x / m;
    assert x == m * q + x % m;
  }

  /** ... and it is the only value in range that does: together with
      ToSizeTResidue this pins the conversion down for every integer. */
  lemma ToSizeTUnique(x: int, wordBytes: nat, q: int, r: int)
    requires 0 <= r < Pow256(wordBytes)
    requires x == q * Pow256(wordBytes) + r
    ensures ToSizeT(x, wordBytes) == r
  {
    DivModUnique(x, Pow256(wordBytes), q, r);
  }
}
