/** Human-readable sizes (internal/timeutil/format.go). */
module FormatSize {

  const UNIT := 1024
  const MAX_INT64 := 0x7fff_ffff_ffff_ffff

  newtype int64 = x: int | -0x8000_0000_0000_0000 <= x < 0x8000_0000_0000_0000

  const UNIT_LETTERS := "KMGTPE"

  function Pow1024(n: nat): nat {
    if n == 0 then 1 else UNIT * Pow1024(n - 1)
  }

  /** A size in bytes, or a number of units `1024^(exp+1)` with the letter of the unit. The quotient
      is left as the pair the source divides in floating point. */
  datatype Size = Plain(bytes: int64) | Scaled(bytes: int64, div: int64, letter: char)

  lemma {:induction false} Pow1024Monotonic(m: nat, n: nat)
    requires m <= n
    ensures Pow1024(m) <= Pow1024(n)
  {
    if m < n {
      Pow1024Monotonic(m, n - 1);
    }
  }

  /** `n` units of `div` are contained in `bytes`, and not one more. */
  predicate Contains(bytes: int, div: int, n: int) {
    n * div <= bytes < (n + 1) * div
  }

  lemma Regroup(q: int, div: int)
    ensures q * (div * UNIT) == (UNIT * q) * div
  {
  }

  lemma ScaleUp(m: int, n: int, div: int)
    requires m <= n && div >= 0
    ensures m * div <= n * div
  {
  }

  /** Dividing the count once more by 1024 counts units 1024 times as large. */
  lemma NextUnit(bytes: int, div: int, n: int)
    requires div > 0 && n >= UNIT && Contains(bytes, div, n)
    ensures Contains(bytes, div * UNIT, n / UNIT) && div * UNIT <= bytes
  {
    var q := n / UNIT;
    Regroup(q, div);
    Regroup(q + 1, div);
    ScaleUp(UNIT * q, n, div);
    ScaleUp(n + 1, UNIT * (q + 1), div);
    ScaleUp(1, q, div * UNIT);
  }

  lemma LastUnit(bytes: int, div: int, n: int)
    requires div > 0 && n < UNIT && Contains(bytes, div, n)
    ensures bytes < UNIT * div
  {
    ScaleUp(n + 1, UNIT, div);
  }

  lemma Powers()
    ensures Pow1024(1) == 1024 && Pow1024(2) == 1_048_576 && Pow1024(3) == 1_073_741_824
    ensures Pow1024(4) == 1_099_511_627_776 && Pow1024(5) == 1_125_899_906_842_624
    ensures Pow1024(6) == 1_152_921_504_606_846_976
  {
    assert Pow1024(3) == UNIT * UNIT * UNIT;
    assert Pow1024(6) == UNIT * UNIT * UNIT * Pow1024(3);
  }

  lemma SeventhUnit()
    ensures Pow1024(7) > MAX_INT64
  {
    assert Pow1024(4) == 0x100_0000_0000;
    assert Pow1024(7) == UNIT * UNIT * UNIT * Pow1024(4);
  }

  /** No 64-bit size needs a seventh unit. */
  lemma ExponentBound(bytes: int64, exp: nat)
    requires Pow1024(exp + 1) <= bytes as int
    ensures exp <= 5
  {
    if exp > 5 {
      Pow1024Monotonic(7, exp + 1);
      SeventhUnit();
      assert false;
    }
  }

  /** Picks the unit. `div` never overflows, the letter always exists, and the size lies between one
      and 1024 of the unit. */
  method FormatSize(bytes: int64) returns (s: Size, exp: nat)
    ensures bytes < 1024 <==> s.Plain?
    ensures s.bytes == bytes && (s.Plain? ==> exp == 0)
    ensures s.Scaled? ==>
              && exp <= 5 && s.letter == UNIT_LETTERS[exp]
              && s.div as int == Pow1024(exp + 1)
              && s.div as int <= bytes as int < 1024 * s.div as int
    // each letter with its unit
    ensures s.Scaled? ==>
              || (s.div == 1024 && s.letter == 'K')
              || (s.div == 1_048_576 && s.letter == 'M')
              || (s.div == 1_073_741_824 && s.letter == 'G')
              || (s.div == 1_099_511_627_776 && s.letter == 'T')
              || (s.div == 1_125_899_906_842_624 && s.letter == 'P')
              || (s.div == 1_152_921_504_606_846_976 && s.letter == 'E')
  {
    exp := 0;
    if bytes < 1024 {
      return Plain(bytes), 0;
    }
    var div: int64 := 1024;
    var n := bytes / 1024;
    assert Pow1024(1) == 1024;
    while n >= 1024
      invariant div as int == Pow1024(exp + 1) && div as int <= bytes as int
      invariant Contains(bytes as int, div as int, n as int)
    {
      NextUnit(bytes as int, div as int, n as int);
      div := div * 1024;
      n := n / 1024;
      exp := exp + 1;
    }
    LastUnit(bytes as int, div as int, n as int);
    ExponentBound(bytes, exp);
    Powers();
    s := Scaled(bytes, div, UNIT_LETTERS[exp]);
  }
}
