/**
  * The byte-count formatter of the download progress line: the decimal
  * rendering of a size, then two regular-expression replacements that put a
  * `.` before the last three and the last six digits.
  */
module FileSize {

  predicate IsDigit(c: char) {
    '0' <= c <= '9'
  }

  predicate AllDigits(s: string) {
    forall i :: 0 <= i < |s| ==> IsDigit(s[i])
  }

  function DigitChar(d: nat): (c: char)
    requires d < 10
    ensures IsDigit(c)
  {
    ('0' as int + d) as char
  }

  function DigitValue(c: char): (d: nat)
    requires IsDigit(c)
    ensures d < 10
  {
    c as int - '0' as int
  }

  function Pow10(k: nat): (p: nat)
    ensures p >= 1
  {
    if k == 0 then 1 else 10 * Pow10(k - 1)
  }

  /** `sprintf("%d", n)` for a non-negative count: its digits, without leading zeros. */
  function Decimal(n: nat): (s: string)
    ensures 1 <= |s| && AllDigits(s)
    ensures s[0] == '0' ==> n == 0
    decreases n
  {
    if n < 10 then [DigitChar(n)] else Decimal(n / 10) + [DigitChar(n % 10)]
  }

  /** The value of a string of decimal digits. */
  function ParseDecimal(s: string): (n: nat)
    requires AllDigits(s)
    decreases |s|
  {
    if |s| == 0 then 0 else 10 * ParseDecimal(s[..|s| - 1]) + DigitValue(s[|s| - 1])
  }

  /** Reading the digits back gives the number. */
  lemma {:induction false} ParseDecimalOfDecimal(n: nat)
    ensures ParseDecimal(Decimal(n)) == n
    decreases n
  {
    if n >= 10 {
      ParseDecimalOfDecimal(n / 10);
      var s := Decimal(n);
      assert s[..|s| - 1] == Decimal(n / 10);
    }
  }

  /** A number has at most `k` digits exactly when it is below 10^k. */
  lemma {:induction false} DecimalLength(n: nat, k: nat)
    requires k >= 1
    ensures |Decimal(n)| <= k <==> n < Pow10(k)
    decreases n
  {
    if n >= 10 {
      if k == 1 {
        assert |Decimal(n)| == |Decimal(n / 10)| + 1;
      } else {
        DecimalLength(n / 10, k - 1);
      }
    }
  }

  /**
    * The position where the run of digits that ends `s` begins (`|s|` when the
    * last character is not a digit). A regular expression made only of `\d`
    * items and anchored with `$` can match only at a position from which every
    * character up to the end is a digit, and this is the leftmost such one.
    */
  function TrailingDigitsStart(s: string): (i: nat)
    ensures i <= |s| && AllDigits(s[i..])
    ensures i > 0 ==> !IsDigit(s[i - 1])
    decreases |s|
  {
    if |s| == 0 || !IsDigit(s[|s| - 1]) then |s|
    else
      var i := TrailingDigitsStart(s[..|s| - 1]);
      AllDigitsExtend(s, i);
      i
  }

  /** A digit run inside `s` minus its last character grows by a final digit. */
  lemma AllDigitsExtend(s: string, i: nat)
    requires 0 < |s| && i <= |s| - 1 && IsDigit(s[|s| - 1])
    requires AllDigits(s[..|s| - 1][i..])
    ensures AllDigits(s[i..])
  {
    forall k | 0 <= k < |s| - i
      ensures IsDigit(s[i..][k])
    {
      if k < |s| - 1 - i {
        assert s[i..][k] == s[..|s| - 1][i..][k];
      }
    }
  }

  /** No position left of the trailing digit run has only digits after it. */
  lemma TrailingDigitsStartLeftmost(s: string, j: nat)
    requires j < TrailingDigitsStart(s)
    ensures !AllDigits(s[j..])
  {
    var i := TrailingDigitsStart(s);
    assert s[j..][i - 1 - j] == s[i - 1];
  }

  /** The start of the trailing digit run is determined by its two defining facts. */
  lemma TrailingDigitsStartIs(s: string, i: nat)
    requires i <= |s| && AllDigits(s[i..])
    requires i > 0 ==> !IsDigit(s[i - 1])
    ensures TrailingDigitsStart(s) == i
  {
  }

  /**
    * `.replace(/(\d+)(\d{3})(\d{3})$/, "$1.$2.$3")`: the two fixed groups pin
    * the greedy first group, so a trailing run of at least seven digits gets a
    * `.` before its last six and its last three digits.
    */
  function GroupMillions(s: string): (r: string)
    ensures WithoutDots(r) == WithoutDots(s)
    ensures r == s <==> |s| - TrailingDigitsStart(s) < 7
  {
    var i := TrailingDigitsStart(s);
    if |s| - i >= 7 then
      var a, b, c := s[..|s| - 6], s[|s| - 6..|s| - 3], s[|s| - 3..];
      WithoutDotsInsertTwo(a, b, c);
      assert a + b + c == s;
      a + "." + b + "." + c
    else s
  }

  /** `.replace(/(\d+)(\d{3})$/, "$1.$2")`: a trailing run of at least four digits gets a `.` before its last three. */
  function GroupThousands(s: string): (r: string)
    ensures WithoutDots(r) == WithoutDots(s)
    ensures r == s <==> |s| - TrailingDigitsStart(s) < 4
  {
    var i := TrailingDigitsStart(s);
    if |s| - i >= 4 then
      var a, c := s[..|s| - 3], s[|s| - 3..];
      WithoutDotsInsert(a, c);
      assert a + c == s;
      a + "." + c
    else s
  }

  /** The `filesize` helper of the download display: the separators are only inserted, at most two of them. */
  function FileSize(size: nat): (r: string)
    ensures WithoutDots(r) == Decimal(size)
    ensures |r| <= |Decimal(size)| + 2
  {
    WithoutDotsGrouped(Decimal(size));
    GroupThousands(GroupMillions(Decimal(size)))
  }

  /** Every slice of a digit string is a digit string. */
  lemma AllDigitsSlice(s: string, i: nat, j: nat)
    requires AllDigits(s) && i <= j <= |s|
    ensures AllDigits(s[i..j])
  {
    assert forall k :: 0 <= k < j - i ==> s[i..j][k] == s[i + k];
  }

  /** Three digits or fewer are left alone by both replacements. */
  lemma GroupBothShort(d: string)
    requires AllDigits(d) && |d| <= 3
    ensures GroupThousands(GroupMillions(d)) == d
  {
    assert d[0..] == d;
    TrailingDigitsStartIs(d, 0);
  }

  /** Four to six digits get one separator, from the second replacement only. */
  lemma GroupBothOfThousands(d: string)
    requires AllDigits(d) && 4 <= |d| <= 6
    ensures GroupMillions(d) == d
    ensures GroupThousands(GroupMillions(d)) == d[..|d| - 3] + "." + d[|d| - 3..]
  {
    assert d[0..] == d;
    TrailingDigitsStartIs(d, 0);
  }

  /** Both replacements on a digit string of seven or more digits. */
  lemma GroupBothOfMillions(d: string)
    requires AllDigits(d) && |d| >= 7
    ensures GroupThousands(GroupMillions(d)) == d[..|d| - 6] + "." + d[|d| - 6..|d| - 3] + "." + d[|d| - 3..]
  {
    var g := d[..|d| - 6] + "." + d[|d| - 6..|d| - 3] + "." + d[|d| - 3..];
    assert GroupMillions(d) == g by {
      GroupMillionsOfDigits(d);
    }
    assert GroupThousands(g) == g by {
      AllDigitsSlice(d, |d| - 3, |d|);
      assert d[|d| - 3..|d|] == d[|d| - 3..];
      GroupThousandsAfterSeparator(d[..|d| - 6] + "." + d[|d| - 6..|d| - 3], d[|d| - 3..]);
    }
  }

  /** A digit string of seven or more digits gets the two separators of the first replacement. */
  lemma GroupMillionsOfDigits(d: string)
    requires AllDigits(d) && |d| >= 7
    ensures GroupMillions(d) == d[..|d| - 6] + "." + d[|d| - 6..|d| - 3] + "." + d[|d| - 3..]
  {
    assert d[0..] == d;
    TrailingDigitsStartIs(d, 0);
  }

  /** Three digits after a `.` are too few for the second replacement. */
  lemma GroupThousandsAfterSeparator(a: string, c: string)
    requires AllDigits(c) && |c| == 3
    ensures GroupThousands(a + "." + c) == a + "." + c
  {
    var g := a + "." + c;
    assert g[|g| - 3..] == c && g[|g| - 4] == '.';
    TrailingDigitsStartIs(g, |g| - 3);
  }

  /** Sizes below 1000 print as plain decimals. */
  lemma FileSizeBelowThousand(n: nat)
    requires n < 1000
    ensures FileSize(n) == Decimal(n)
  {
    var d := Decimal(n);
    assert |d| <= 3 by {
      DecimalLength(n, 3);
    }
    GroupBothShort(d);
  }

  /** Sizes from 1000 to 999999 get one `.` before the last three digits. */
  lemma FileSizeThousands(n: nat)
    requires 1000 <= n < 1000000
    ensures var d := Decimal(n); 4 <= |d| <= 6 && FileSize(n) == d[..|d| - 3] + "." + d[|d| - 3..]
  {
    var d := Decimal(n);
    assert 4 <= |d| <= 6 by {
      DecimalLength(n, 3);
      DecimalLength(n, 6);
    }
    assert FileSize(n) == d[..|d| - 3] + "." + d[|d| - 3..] by {
      GroupBothOfThousands(d);
    }
  }

  /**
    * Sizes of a million and more get exactly two separators, before the last
    * six and the last three digits; the leading group keeps every other digit,
    * however many there are.
    */
  lemma FileSizeMillions(n: nat)
    requires n >= 1000000
    ensures var d := Decimal(n);
      7 <= |d| && FileSize(n) == d[..|d| - 6] + "." + d[|d| - 6..|d| - 3] + "." + d[|d| - 3..]
  {
    var d := Decimal(n);
    assert |d| >= 7 by {
      DecimalLength(n, 6);
    }
    assert FileSize(n) == d[..|d| - 6] + "." + d[|d| - 6..|d| - 3] + "." + d[|d| - 3..] by {
      GroupBothOfMillions(d);
    }
  }

  /** The string with every `.` removed. */
  function WithoutDots(s: string): (r: string)
    decreases |s|
  {
    if |s| == 0 then "" else (if s[0] == '.' then "" else [s[0]]) + WithoutDots(s[1..])
  }

  lemma {:induction false} WithoutDotsAppend(a: string, b: string)
    ensures WithoutDots(a + b) == WithoutDots(a) + WithoutDots(b)
    decreases |a|
  {
    if |a| == 0 {
      assert a + b == b;
    } else {
      assert (a + b)[0] == a[0];
      assert (a + b)[1..] == a[1..] + b;
      WithoutDotsAppend(a[1..], b);
    }
  }

  lemma {:induction false} WithoutDotsOfDigits(s: string)
    requires AllDigits(s)
    ensures WithoutDots(s) == s
    decreases |s|
  {
    if |s| > 0 {
      WithoutDotsOfDigits(s[1..]);
    }
  }

  /** A `.` inserted anywhere is removed again. */
  lemma WithoutDotsInsert(a: string, c: string)
    ensures WithoutDots(a + "." + c) == WithoutDots(a + c)
  {
    assert a + "." + c == a + (['.'] + c);
    WithoutDotsAppend(a, ['.'] + c);
    WithoutDotsLeadingDot(c);
    WithoutDotsAppend(a, c);
  }

  /** Two inserted `.` are removed again. */
  lemma WithoutDotsInsertTwo(a: string, b: string, c: string)
    ensures WithoutDots(a + "." + b + "." + c) == WithoutDots(a + b + c)
  {
    WithoutDotsInsert(a + "." + b, c);
    assert a + "." + b + c == a + "." + (b + c);
    WithoutDotsInsert(a, b + c);
    assert a + (b + c) == a + b + c;
  }

  lemma WithoutDotsLeadingDot(c: string)
    ensures WithoutDots(['.'] + c) == WithoutDots(c)
  {
    var dc := ['.'] + c;
    assert dc[0] == '.' && dc[1..] == c;
  }

  /** Removing the separators from `a.c`, where `a` is all digits, keeps `a` and removes the `.`. */
  lemma WithoutDotsOneSeparator(a: string, c: string)
    requires AllDigits(a)
    ensures WithoutDots(a + "." + c) == a + WithoutDots(c)
  {
    var dc := ['.'] + c;
    assert a + "." + c == a + dc by {
      assert "." == ['.'];
    }
    assert WithoutDots(a + dc) == WithoutDots(a) + WithoutDots(dc) by {
      WithoutDotsAppend(a, dc);
    }
    assert WithoutDots(a) == a by {
      WithoutDotsOfDigits(a);
    }
    assert WithoutDots(dc) == WithoutDots(c) by {
      WithoutDotsLeadingDot(c);
    }
  }

  lemma WithoutDotsTwoSeparators(a: string, b: string, c: string)
    requires AllDigits(a) && AllDigits(b) && AllDigits(c)
    ensures WithoutDots(a + "." + b + "." + c) == a + b + c
  {
    var bc := b + "." + c;
    assert WithoutDots(bc) == b + c by {
      WithoutDotsOneSeparator(b, c);
      WithoutDotsOfDigits(c);
    }
    assert WithoutDots(a + "." + bc) == a + (b + c) by {
      WithoutDotsOneSeparator(a, bc);
    }
    assert a + "." + b + "." + c == a + "." + bc;
  }

  lemma WithoutDotsGroupedThousands(d: string)
    requires AllDigits(d) && 4 <= |d| <= 6
    ensures WithoutDots(d[..|d| - 3] + "." + d[|d| - 3..]) == d
  {
    var a, c := d[..|d| - 3], d[|d| - 3..];
    assert WithoutDots(a + "." + c) == a + c by {
      AllDigitsSlice(d, 0, |d| - 3);
      AllDigitsSlice(d, |d| - 3, |d|);
      assert d[|d| - 3..|d|] == c;
      WithoutDotsOneSeparator(a, c);
      WithoutDotsOfDigits(c);
    }
    assert a + c == d by {
      assert d == d[..|d| - 3] + d[|d| - 3..];
    }
  }

  lemma WithoutDotsGroupedMillions(d: string)
    requires AllDigits(d) && |d| >= 7
    ensures WithoutDots(d[..|d| - 6] + "." + d[|d| - 6..|d| - 3] + "." + d[|d| - 3..]) == d
  {
    var a, b, c := d[..|d| - 6], d[|d| - 6..|d| - 3], d[|d| - 3..];
    assert WithoutDots(a + "." + b + "." + c) == a + b + c by {
      AllDigitsSlice(d, 0, |d| - 6);
      AllDigitsSlice(d, |d| - 6, |d| - 3);
      AllDigitsSlice(d, |d| - 3, |d|);
      assert d[|d| - 3..|d|] == c;
      WithoutDotsTwoSeparators(a, b, c);
    }
    assert a + b + c == d by {
      assert d[..|d| - 3] == a + b;
      assert d == d[..|d| - 3] + c;
    }
  }

  /** On a digit string, the two replacements only insert separators, at most two of them. */
  lemma WithoutDotsGrouped(d: string)
    requires AllDigits(d)
    ensures WithoutDots(GroupThousands(GroupMillions(d))) == d
    ensures |GroupThousands(GroupMillions(d))| <= |d| + 2
  {
    if |d| <= 3 {
      GroupBothShort(d);
      WithoutDotsOfDigits(d);
    } else if |d| <= 6 {
      GroupBothOfThousands(d);
      WithoutDotsGroupedThousands(d);
    } else {
      GroupBothOfMillions(d);
      WithoutDotsGroupedMillions(d);
    }
  }

  /**
    * The separators are only inserted: removing them gives back the digits,
    * which read as the size, and at most two characters were added.
    */
  lemma FileSizeRoundTrip(n: nat)
    ensures WithoutDots(FileSize(n)) == Decimal(n)
    ensures ParseDecimal(WithoutDots(FileSize(n))) == n
    ensures |FileSize(n)| <= |Decimal(n)| + 2
  {
    WithoutDotsGrouped(Decimal(n));
    ParseDecimalOfDecimal(n);
  }

  lemma DecimalSteps()
    ensures Decimal(1234567) == "1234567" && Decimal(1234567890) == "1234567890"
  {
    assert Decimal(1) == "1";
    assert Decimal(12) == "12";
    assert Decimal(123) == "123";
    assert Decimal(1234) == "1234";
    assert Decimal(12345) == "12345";
    assert Decimal(123456) == "123456";
    assert Decimal(1234567) == "1234567";
    assert Decimal(12345678) == "12345678";
    assert Decimal(123456789) == "123456789";
  }

  /** The worked example of a million-sized count: 1234567 bytes. */
  lemma FileSizeSevenDigits()
    ensures FileSize(1234567) == "1.234.567"
  {
    var d := "1234567";
    var f := d[..1] + "." + d[1..4] + "." + d[4..];
    assert f == "1.234.567";
    assert FileSize(1234567) == f by {
      assert Decimal(1234567) == d by {
        DecimalSteps();
      }
      FileSizeMillions(1234567);
    }
  }

  /** The leading group keeps every digit left of the last six: 1234567890 bytes. */
  lemma FileSizeTenDigits(n: nat)
    requires n == 1234567890
    ensures FileSize(n) == "1234.567.890"
  {
    var d := "1234567890";
    var f := d[..4] + "." + d[4..7] + "." + d[7..];
    assert f == "1234.567.890";
    assert FileSize(n) == f by {
      assert Decimal(n) == d by {
        DecimalSteps();
      }
      FileSizeMillions(n);
    }
  }
}
