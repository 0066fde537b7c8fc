/** `format_file_size` (pdf3md/utils/file_utils.py): bytes below 1024 as an
    integer, then kilobytes below 1024 KB, then megabytes, with one decimal
    digit. The quotient `size / 1024` (or `/ 1048576`) is a power-of-two
    division, exact in binary floating point for sizes below 2^53, and the
    `.1f` format rounds that exact value to the nearest tenth, ties to even. */
module FileSize {
  import opened Text

  const KiB: nat := 1024
  const MiB: nat := 1024 * 1024

  /** `q * d` is a multiple of `d` nearest to `n`, and an even one when `n`
      lies halfway between two. */
  predicate Nearest(n: nat, d: nat, q: nat) {
    && 2 * (n - q * d) <= d && 2 * (q * d - n) <= d
    && (2 * (n - q * d) == d || 2 * (q * d - n) == d ==> q % 2 == 0)
  }

  /** `round(n / d)` with ties to the even neighbour. */
  function RoundHalfEven(n: nat, d: nat): nat
    requires d > 0
  {
    if 2 * (n % d) > d || (2 * (n % d) == d && (n / d) % 2 == 1) then n / d + 1 else n / d
  }

  /** The rounded quotient is the nearest one, ties to even. */
  lemma RoundHalfEvenNearest(n: nat, d: nat)
    requires d > 0
    ensures Nearest(n, d, RoundHalfEven(n, d))
  {
    if 2 * (n % d) > d || (2 * (n % d) == d && (n / d) % 2 == 1) {
      RoundUpNearest(n, d);
    } else {
      RoundDownNearest(n, d);
    }
  }

  /** Rounding up is nearest when the remainder is more than half the
      divisor, or exactly half of it with an odd quotient. */
  lemma RoundUpNearest(n: nat, d: nat)
    requires d > 0
    requires 2 * (n % d) > d || (2 * (n % d) == d && (n / d) % 2 == 1)
    ensures Nearest(n, d, n / d + 1)
  {
    QuotientParts(n, d);
  }

  /** Rounding down is nearest otherwise. */
  lemma RoundDownNearest(n: nat, d: nat)
    requires d > 0
    requires !(2 * (n % d) > d || (2 * (n % d) == d && (n / d) % 2 == 1))
    ensures Nearest(n, d, n / d)
  {
    QuotientParts(n, d);
  }

  /** The distances of `n` from the multiples of `d` on either side of it. */
  lemma QuotientParts(n: nat, d: nat)
    requires d > 0
    ensures n - (n / d) * d == n % d && (n / d) * d - n == -(n % d)
    ensures (n / d + 1) * d - n == d - n % d && n - (n / d + 1) * d == n % d - d
  {
    var q := n / d;
    assert n == q * d + n % d;
    assert (q + 1) * d == q * d + d;
  }

  /** `f"{x:.1f}"` for the exact quotient x = size / unit >= 0. */
  function OneDecimal(size: nat, unit: nat): (r: string)
    requires unit > 0
  {
    var tenths := RoundHalfEven(size * 10, unit);
    NatToString(tenths / 10) + "." + [DigitChar(tenths % 10)]
  }

  /** `format_file_size(size_bytes)`. */
  function FormatFileSize(size: int): (r: string)
    ensures size < 1024 ==> r == IntToString(size) + " B"
    ensures 1024 <= size < 1048576 ==> exists w, d :: r == w + "." + [d] + " KB" && |w| > 0 && AllDigits(w) && IsDigit(d)
    ensures size >= 1048576 ==> exists w, d :: r == w + "." + [d] + " MB" && |w| > 0 && AllDigits(w) && IsDigit(d)
  {
    if size < 1024 then IntToString(size) + " B"
    else if size < KiB * 1024 then
      var tenths := RoundHalfEven(size * 10, KiB);
      assert OneDecimal(size, KiB) + " KB" == NatToString(tenths / 10) + "." + [DigitChar(tenths % 10)] + " KB";
      OneDecimal(size, KiB) + " KB"
    else
      var tenths := RoundHalfEven(size * 10, MiB);
      assert OneDecimal(size, MiB) + " MB" == NatToString(tenths / 10) + "." + [DigitChar(tenths % 10)] + " MB";
      OneDecimal(size, MiB) + " MB"
  }

  /** Reading a rendering back: the whole part and the decimal digit. */
  function ReadTenths(w: string, d: char): nat
    requires AllDigits(w) && IsDigit(d)
  {
    DigitsValue(w) * 10 + DigitValue(d)
  }

  /** The one-decimal rendering reads back as the tenths nearest to the
      exact quotient: within half a tenth, ties resolved to an even digit. */
  lemma OneDecimalNearest(size: nat, unit: nat)
    requires unit > 0
    ensures var r := OneDecimal(size, unit);
      var t := RoundHalfEven(size * 10, unit);
      |r| >= 3 && r[|r| - 2] == '.'
      && ReadTenths(r[..|r| - 2], r[|r| - 1]) == t
      && 2 * (size * 10 - t * unit) <= unit && 2 * (t * unit - size * 10) <= unit
  {
    var t := RoundHalfEven(size * 10, unit);
    RoundHalfEvenNearest(size * 10, unit);
    var w := NatToString(t / 10);
    var r := OneDecimal(size, unit);
    assert r[..|r| - 2] == w;
    NatToStringRoundTrip(t / 10);
  }

  /** The kilobyte rendering of a size names the tenth of a kilobyte nearest
      to it. */
  lemma KilobytesNearest(size: int)
    requires 1024 <= size < 1048576
    ensures var r := FormatFileSize(size);
      var t := ReadTenths(r[..|r| - 5], r[|r| - 4]);
      2 * (size * 10 - t * 1024) <= 1024 && 2 * (t * 1024 - size * 10) <= 1024
  {
    OneDecimalNearest(size, KiB);
    var s := OneDecimal(size, KiB);
    var r := FormatFileSize(size);
    assert r == s + " KB";
    assert r[..|r| - 5] == s[..|s| - 2];
    assert r[|r| - 4] == s[|s| - 1];
  }

  /** The megabyte rendering of a size names the tenth of a megabyte nearest
      to it. */
  lemma MegabytesNearest(size: int)
    requires size >= 1048576
    ensures var r := FormatFileSize(size);
      var t := ReadTenths(r[..|r| - 5], r[|r| - 4]);
      2 * (size * 10 - t * 1048576) <= 1048576 && 2 * (t * 1048576 - size * 10) <= 1048576
  {
    OneDecimalNearest(size, MiB);
    var s := OneDecimal(size, MiB);
    var r := FormatFileSize(size);
    assert r == s + " MB";
    assert r[..|r| - 5] == s[..|s| - 2];
    assert r[|r| - 4] == s[|s| - 1];
  }

  /** A byte count reads back as itself. */
  lemma BytesExact(size: nat)
    requires size < 1024
    ensures var r := FormatFileSize(size);
      AllDigits(r[..|r| - 2]) && DigitsValue(r[..|r| - 2]) == size
  {
    var r := FormatFileSize(size);
    assert r[..|r| - 2] == NatToString(size);
    NatToStringRoundTrip(size);
  }

  /** 1536 bytes is 1.5 KB. */
  lemma ExampleKilobytes()
    ensures FormatFileSize(1536) == "1.5 KB"
  {
    assert 15360 / 1024 == 15 && 15360 % 1024 == 0;
    assert RoundHalfEven(15360, 1024) == 15;
    assert NatToString(1) == "1";
  }

  /** 1280 bytes, exactly 1.25 KB, rounds to the even digit. */
  lemma ExampleTie()
    ensures FormatFileSize(1280) == "1.2 KB"
  {
    assert 12800 / 1024 == 12 && 12800 % 1024 == 512;
    assert RoundHalfEven(12800, 1024) == 12;
    assert NatToString(1) == "1";
  }

  /** 512 bytes is rendered as an integer count of bytes. */
  lemma ExampleBytes()
    ensures FormatFileSize(512) == "512 B"
  {
    assert NatToString(512) == NatToString(51) + [DigitChar(2)];
    assert NatToString(51) == NatToString(5) + [DigitChar(1)];
  }
}
