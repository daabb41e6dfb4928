/**
 * convertBytes, identical in src/index.ts, utils.ts and src/utils.ts: a byte (or bit-rate) count
 * rendered with the largest unit of a power-of-1024 table that does not exceed it.
 *
 * The unit index `Math.floor(Math.log(bytes) / Math.log(1024))` is taken as the exact integer
 * floor of the base-1024 logarithm, and `(bytes / 1024 ** i).toFixed(2)` as the count of
 * hundredths nearest to `100 * bytes / 1024 ** i`, a tie going up (the quotient by a power of two
 * is exact, and `toFixed` picks the larger of two equally near candidates).
 */
module ByteFormat {
  import opened JsString

  /** The default unit table, `['Bytes', 'KB', 'MB', 'GB', 'TB']`. */
  const DefaultSizes: seq<string> := ["Bytes", "KB", "MB", "GB", "TB"]

  /** The unit table the media code passes for bit rates. */
  const BitRateSizes: seq<string> := ["bps", "kbps", "mbps"]

  function Pow1024(i: nat): (r: nat)
    ensures r >= 1
  {
    if i == 0 then 1 else 1024 * Pow1024(i - 1)
  }

  lemma {:induction false} Pow1024Monotone(i: nat, j: nat)
    requires i <= j
    ensures Pow1024(i) <= Pow1024(j)
    decreases j
  {
    if i < j {
      Pow1024Monotone(i, j - 1);
    }
  }

  /** The unit index of a positive count: the power of 1024 it lies between. */
  function UnitIndex(n: nat): (i: nat)
    requires n >= 1
    ensures Pow1024(i) <= n < Pow1024(i + 1)
  {
    if n < 1024 then 0
    else
      var j := UnitIndex(n / 1024);
      assert Pow1024(j + 1) == 1024 * Pow1024(j) <= 1024 * (n / 1024) <= n;
      assert n < 1024 * (n / 1024 + 1) <= 1024 * Pow1024(j + 1) == Pow1024(j + 2);
      1 + j
  }

  /** There is one such index only: the unit is the largest one not exceeding the count. */
  lemma UnitIndexUnique(n: nat, i: nat)
    requires Pow1024(i) <= n < Pow1024(i + 1)
    ensures i == UnitIndex(n)
  {
    var j := UnitIndex(n);
    if i < j {
      Pow1024Monotone(i + 1, j);
    } else if j < i {
      Pow1024Monotone(j + 1, i);
    }
  }

  /** `(n / 1024 ** i).toFixed(2)` as a count of hundredths: the integer nearest to
      `100 * n / 1024 ** i`, a tie going up. */
  function Hundredths(n: nat, i: nat): (h: nat)
    ensures Pow1024(i) * (2 * h - 1) <= 200 * n < Pow1024(i) * (2 * h + 1)
  {
    var d := Pow1024(i);
    var h := Quotient(200 * n + d, 2 * d);
    NearestBounds(d, h, n);
    h
  }

  function Quotient(a: nat, b: nat): (q: nat)
    requires b > 0
    ensures b * q <= a < b * q + b
  {
    a / b
  }

  lemma NearestBounds(d: nat, h: nat, n: nat)
    requires 2 * d * h <= 200 * n + d < 2 * d * h + 2 * d
    ensures d * (2 * h - 1) <= 200 * n < d * (2 * h + 1)
  {
  }

  /** With the unit chosen by `UnitIndex`, the value shown lies between 1.00 and 1024.00: a
      count just below the next power rounds up to "1024.00". */
  lemma HundredthsRange(n: nat, i: nat)
    requires Pow1024(i) <= n < Pow1024(i + 1)
    ensures 100 <= Hundredths(n, i) <= 102400
  {
    var d := Pow1024(i);
    var h := Hundredths(n, i);
    assert Pow1024(i + 1) == 1024 * d;
    AtLeastOne(d, h, n);
    AtMost1024(d, h, n);
  }

  lemma AtLeastOne(d: nat, h: nat, n: nat)
    requires d * (2 * h - 1) <= 200 * n < d * (2 * h + 1)
    requires d <= n
    ensures 100 <= h
  {
    MulCancel(d, 200, 2 * h + 1);
  }

  lemma MulCancel(d: nat, x: int, y: int)
    requires d * x < d * y
    ensures x < y
  {
    if x >= y {
      MulMono(d, y, x);
    }
  }

  lemma MulMono(d: nat, x: int, y: int)
    requires x <= y
    ensures d * x <= d * y
  {
  }

  lemma AtMost1024(d: nat, h: nat, n: nat)
    requires d * (2 * h - 1) <= 200 * n
    requires n < 1024 * d
    ensures h <= 102400
  {
    MulCancel(d, 2 * h - 1, 204800);
  }

  /** Two decimals of `h` hundredths, as `toFixed(2)` writes a value below 1e21. */
  function Fixed2(h: nat): (s: string)
    ensures |s| >= 4 && s[|s| - 3] == '.'
    ensures AllDigits(s[..|s| - 3]) && AllDigits(s[|s| - 2..])
    ensures s[0] == '0' ==> h < 100
  {
    var whole := Decimal(h / 100);
    var s := whole + "." + [DigitChar(h % 100 / 10), DigitChar(h % 10)];
    assert s[..|s| - 3] == whole && s[|s| - 2..] == [DigitChar(h % 100 / 10), DigitChar(h % 10)];
    s
  }

  /** Reading the digits of the rendering back, the decimal point dropped, gives the hundredths:
      `Fixed2` loses nothing. */
  lemma Fixed2Value(h: nat)
    ensures var s := Fixed2(h); DigitsValue(s[..|s| - 3] + s[|s| - 2..]) == h
  {
    var s := Fixed2(h);
    var whole := Decimal(h / 100);
    var c1, c2 := DigitChar(h % 100 / 10), DigitChar(h % 10);
    assert s == whole + "." + [c1, c2];
    assert s[..|s| - 3] + s[|s| - 2..] == (whole + [c1]) + [c2];
    DigitsValueSnoc(whole, c1);
    DigitsValueSnoc(whole + [c1], c2);
    DecimalValue(h / 100);
    assert DigitValue(c1) == h % 100 / 10 && DigitValue(c2) == h % 10;
    HundredsDigits(h);
  }

  lemma HundredsDigits(h: nat)
    ensures (h / 100 * 10 + h % 100 / 10) * 10 + h % 10 == h
  {
  }

  /** `sizes[i]` as a template string: "undefined" past the end of the table. */
  function Unit(sizes: seq<string>, i: nat): (r: string)
    ensures i < |sizes| ==> r == sizes[i]
    ensures r == "undefined" <==> i >= |sizes| || sizes[i] == "undefined"
  {
    if i < |sizes| then sizes[i] else "undefined"
  }

  /** `convertBytes(bytes, sizes, showBytes)`. The rendering starts with the digit 0 exactly for
      a zero count, whatever the unit table. */
  function ConvertBytes(bytes: nat, sizes: seq<string>, showBytes: bool): (r: string)
    ensures |r| >= 1 && (r[0] == '0' <==> bytes == 0)
  {
    if bytes == 0 then "0 bytes"
    else
      var i := UnitIndex(bytes);
      if i == 0 then Decimal(bytes) + " " + Unit(sizes, 0)
      else
        var h := Hundredths(bytes, i);
        HundredthsRange(bytes, i);
        Fixed2(h) + " " + Unit(sizes, i) + (if showBytes then " (" + Decimal(bytes) + " bytes)" else "")
  }

  /** Below 1024 the count is shown as it is: "0 bytes" for zero (the table is not consulted),
      otherwise the decimal count and the first unit of the table. */
  lemma ConvertBytesBelowKilo(n: nat, sizes: seq<string>, showBytes: bool)
    requires n < 1024
    ensures n == 0 ==> ConvertBytes(n, sizes, showBytes) == "0 bytes"
    ensures n >= 1 ==> ConvertBytes(n, sizes, showBytes) == Decimal(n) + " " + Unit(sizes, 0)
  {
    if n >= 1 {
      assert Pow1024(1) == 1024;
      UnitIndexUnique(n, 0);
    }
  }

  /** A count from 1024 up, lying between `1024 ** i` and `1024 ** (i + 1)`, is shown as its
      rounded two-decimal value in unit `sizes[i]`, followed by the exact count only when
      `showBytes`. */
  lemma ConvertBytesScaled(n: nat, i: nat, sizes: seq<string>, showBytes: bool)
    requires i >= 1 && Pow1024(i) <= n < Pow1024(i + 1)
    ensures ConvertBytes(n, sizes, showBytes)
         == Fixed2(Hundredths(n, i)) + " " + Unit(sizes, i)
            + (if showBytes then " (" + Decimal(n) + " bytes)" else "")
  {
    UnitIndexUnique(n, i);
  }

  /** `showBytes` only ever appends " (<n> bytes)", and only from 1024 up: below that, and for
      zero, both settings render the same. */
  lemma ConvertBytesShowBytes(n: nat, sizes: seq<string>)
    ensures ConvertBytes(n, sizes, true)
         == ConvertBytes(n, sizes, false) + (if n >= 1024 then " (" + Decimal(n) + " bytes)" else "")
  {
    if n >= 1024 {
      var i := UnitIndex(n);
      assert Pow1024(1) == 1024;
      assert i != 0;
      ConvertBytesScaled(n, i, sizes, true);
      ConvertBytesScaled(n, i, sizes, false);
      var shown := Fixed2(Hundredths(n, i)) + " " + Unit(sizes, i);
      assert shown + "" == shown;
    } else if n >= 1 {
      assert UnitIndex(n) == 0;
    }
  }
}
