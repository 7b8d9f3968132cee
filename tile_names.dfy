/**
 * `format_digit` of src/main.rs: the zero-padded decimal numbers used to
 * build the tile texture names `isometric_tileset/tile_NNN.png`.
 */
module TileNames {

  /** The number of tiles the game loads. */
  const NbTileType: nat := 115

  predicate IsDigit(c: char) {
    '0' <= c <= '9'
  }

  predicate AllDigits(s: string) {
    forall i :: 0 <= i < |s| ==> IsDigit(s[i])
  }

  function DigitChar(d: nat): (c: char)
    requires d < 10
    ensures IsDigit(c) && c as int - '0' as int == d
  {
    ('0' as int + d) as char
  }

  function Pow10(k: nat): (p: nat)
    ensures p >= 1
  {
    if k == 0 then 1 else 10 * Pow10(k - 1)
  }

  /** How many times `n` can be divided by 10 before reaching 0: the count `format_digit`'s first loop computes. */
  function NumDigits(n: nat): nat {
    if n == 0 then 0 else 1 + NumDigits(n / 10)
  }

  /** The decimal form of `n`, as `format!("{}", n)` prints it. */
  function DecimalString(n: nat): (s: string)
    ensures 1 <= |s| && AllDigits(s)
  {
    if n < 10 then [DigitChar(n)] else DecimalString(n / 10) + [DigitChar(n % 10)]
  }

  function Zeros(k: nat): (s: string)
    ensures |s| == k && forall i :: 0 <= i < k ==> s[i] == '0'
  {
    seq(k, _ => '0')
  }

  /** The value of a string of decimal digits, most significant first. */
  function ParseDecimal(s: string): nat
    requires AllDigits(s)
  {
    if |s| == 0 then 0 else 10 * ParseDecimal(s[..|s| - 1]) + (s[|s| - 1] as int - '0' as int)
  }

  /** What `format_digit(digit, width)` returns. */
  function Formatted(digit: nat, width: nat): string
    requires digit == 0 || NumDigits(digit) <= width
  {
    if digit == 0 then "000" else Zeros(width - NumDigits(digit)) + DecimalString(digit)
  }

  /**
   * `format_digit`: `"000"` for 0; otherwise counts the digits of `digit`,
   * then writes `width - count` zeros before its decimal form. The count must
   * not exceed the width (the `usize` subtraction would underflow).
   */
  method FormatDigit(digit: nat, nbDisplayedDigit: nat) returns (s: string)
    requires digit == 0 || NumDigits(digit) <= nbDisplayedDigit
    ensures s == Formatted(digit, nbDisplayedDigit)
  {
    if digit == 0 {
      return "000";
    }
    var defaultDigit := digit;
    var rest := digit;
    var count := 0;
    while rest != 0
      invariant count + NumDigits(rest) == NumDigits(digit)
    {
      rest := rest / 10;
      count := count + 1;
    }
    var zeros := "";
    for i := 0 to nbDisplayedDigit - count
      invariant zeros == Zeros(i)
    {
      zeros := zeros + ['0'];
    }
    s := zeros + DecimalString(defaultDigit);
  }

  /** The digit count brackets the number: `10^(count-1) <= n < 10^count`. */
  lemma {:induction false} NumDigitsBounds(n: nat)
    requires n > 0
    ensures Pow10(NumDigits(n) - 1) <= n < Pow10(NumDigits(n))
  {
    if n >= 10 {
      NumDigitsBounds(n / 10);
    }
  }

  /** The decimal form of a positive number has exactly as many characters as it has digits. */
  lemma {:induction false} DecimalLength(n: nat)
    requires n > 0
    ensures |DecimalString(n)| == NumDigits(n)
  {
    if n >= 10 {
      DecimalLength(n / 10);
    }
  }

  /** Reading the decimal form gives the number back. */
  lemma {:induction false} ParseDecimalString(n: nat)
    ensures ParseDecimal(DecimalString(n)) == n
  {
    var s := DecimalString(n);
    if n >= 10 {
      ParseDecimalString(n / 10);
      assert s[..|s| - 1] == DecimalString(n / 10);
    } else {
      assert s[..0] == [];
    }
  }

  /** Leading zeros do not change the value read. */
  lemma {:induction false} ParseLeadingZeros(k: nat, t: string)
    requires AllDigits(t)
    ensures AllDigits(Zeros(k) + t)
    ensures ParseDecimal(Zeros(k) + t) == ParseDecimal(t)
  {
    var s := Zeros(k) + t;
    if |t| == 0 {
      assert s == Zeros(k);
      ParseZeros(k);
    } else {
      var t' := t[..|t| - 1];
      assert s[..|s| - 1] == Zeros(k) + t';
      ParseLeadingZeros(k, t');
    }
  }

  lemma {:induction false} ParseZeros(k: nat)
    ensures ParseDecimal(Zeros(k)) == 0
  {
    if k > 0 {
      assert Zeros(k)[..k - 1] == Zeros(k - 1);
      ParseZeros(k - 1);
    }
  }

  /**
   * For a positive number, the result is exactly `width` characters long and
   * reads back as the number; for 0 it is `"000"` whatever the width.
   */
  lemma FormattedIsPaddedNumber(digit: nat, width: nat)
    requires digit == 0 || NumDigits(digit) <= width
    ensures digit == 0 ==> Formatted(digit, width) == "000"
    ensures digit > 0 ==> |Formatted(digit, width)| == width
    ensures AllDigits(Formatted(digit, width)) && ParseDecimal(Formatted(digit, width)) == digit
  {
    if digit > 0 {
      DecimalLength(digit);
      ParseDecimalString(digit);
      ParseLeadingZeros(width - NumDigits(digit), DecimalString(digit));
    } else {
      ParseLeadingZeros(3, []);
      assert Zeros(3) + [] == "000";
    }
  }

  /** A number below `10^k` has at most `k` digits. */
  lemma {:induction false} BelowPowerHasFewDigits(n: nat, k: nat)
    requires n < Pow10(k)
    ensures NumDigits(n) <= k
  {
    if n > 0 {
      BelowPowerHasFewDigits(n / 10, k - 1);
    }
  }

  /** The loop of `main` asks for width 3 for every tile index: each name part is three digits reading back as the index. */
  lemma TileNamesAreThreeDigits(i: nat)
    requires i < NbTileType
    ensures NumDigits(i) <= 3
    ensures |Formatted(i, 3)| == 3 && ParseDecimal(Formatted(i, 3)) == i
  {
    assert Pow10(3) == 1000;
    BelowPowerHasFewDigits(i, 3);
    FormattedIsPaddedNumber(i, 3);
  }
}
