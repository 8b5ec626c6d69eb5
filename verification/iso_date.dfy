/**
 * The `YYYY-MM-DD` date strings of the ledger (ISO 8601 calendar dates,
 * extended format, section 4.1.2.2 of ISO 8601:2004) and the `YYYY-MM` month
 * keys of the trend charts. The application renders them with `toYMD`, parses
 * them with `new Date(...)` and sorts by comparing the strings; the lemmas here
 * show that string order is date order for four-digit years.
 */
module IsoDate {
  import opened Calendar
  import opened SeqUtil

  predicate IsDigit(c: char) {
    '0' <= c <= '9'
  }

  function DigitChar(n: int): (c: char)
    requires 0 <= n <= 9
    ensures IsDigit(c)
  {
    ('0' as int + n) as char
  }

  function DigitValue(c: char): (n: int)
    requires IsDigit(c)
    ensures 0 <= n <= 9
  {
    c as int - '0' as int
  }

  function Pow10(w: nat): (p: nat)
    ensures p >= 1
  {
    if w == 0 then 1 else 10 * Pow10(w - 1)
  }

  /** The last `w` decimal digits of `n`, most significant first, padded with zeros. */
  function Digits(n: nat, w: nat): (s: string)
    ensures |s| == w
    ensures forall i :: 0 <= i < w ==> IsDigit(s[i])
  {
    if w == 0 then [] else Digits(n / 10, w - 1) + [DigitChar(n % 10)]
  }

  /** `String(n)` for a non-negative integer. */
  function Decimal(n: nat): string {
    if n < 10 then [DigitChar(n)] else Decimal(n / 10) + [DigitChar(n % 10)]
  }

  /** `${d.getFullYear()}`: the year is not padded. */
  function YearString(y: int): string {
    if y >= 0 then Decimal(y) else "-" + Decimal(-y)
  }

  /** `String(n).padStart(2, "0")`. */
  function Pad2(n: nat): string {
    var s := Decimal(n);
    if |s| < 2 then "0" + s else s
  }

  /** `toYMD`: the local calendar date as `YYYY-MM-DD`; for a four-digit year, four digits, a dash, two digits, a dash and two digits. */
  function ToYMD(d: Date): (r: string)
    requires d.month >= 1 && d.day >= 1
    ensures ValidDate(d) && 1000 <= d.year <= 9999 ==>
              r == Digits(d.year, 4) + "-" + Digits(d.month, 2) + "-" + Digits(d.day, 2)
  {
    if ValidDate(d) && 1000 <= d.year <= 9999 then
      YearDigits(d.year);
      Pad2Digits(d.month);
      Pad2Digits(d.day);
      YearString(d.year) + "-" + Pad2(d.month) + "-" + Pad2(d.day)
    else
      YearString(d.year) + "-" + Pad2(d.month) + "-" + Pad2(d.day)
  }

  /** The trend grouping key `mk`: `YYYY-MM`. */
  function MonthKey(d: Date): (r: string)
    requires d.month >= 1
    ensures d.day >= 1 ==> |r| <= |ToYMD(d)| && ToYMD(d)[..|r|] == r
  {
    var r := YearString(d.year) + "-" + Pad2(d.month);
    assert d.day >= 1 ==> ToYMD(d) == r + ("-" + Pad2(d.day));
    r
  }

  /** The value of a string of decimal digits. */
  function Value(s: string): nat
    requires forall i :: 0 <= i < |s| ==> IsDigit(s[i])
  {
    if s == [] then 0 else Value(s[..|s| - 1]) * 10 + DigitValue(s[|s| - 1])
  }

  /**
   * Reading a `YYYY-MM-DD` string as the date input delivers it; anything
   * else, including a day the month does not have, gives no date.
   */
  function ParseYMD(s: string): (r: Option<Date>)
    ensures r.Some? ==> ValidDate(r.value) && 0 <= r.value.year <= 9999
  {
    if |s| == 10 && s[4] == '-' && s[7] == '-'
       && (forall i :: 0 <= i < 10 && i != 4 && i != 7 ==> IsDigit(s[i]))
    then
      var d := Date(Value(s[..4]), Value(s[5..7]), Value(s[8..]));
      ValueBound(s[..4]);
      if ValidDate(d) then Some(d) else None
    else None
  }

  lemma {:induction false} ValueBound(s: string)
    requires forall i :: 0 <= i < |s| ==> IsDigit(s[i])
    ensures Value(s) < Pow10(|s|)
  {
    if s != [] {
      ValueBound(s[..|s| - 1]);
    }
  }

  // ---------------------------------------------------------------- fixed-width forms

  lemma Pad2Digits(n: nat)
    requires n < 100
    ensures Pad2(n) == Digits(n, 2)
  {
    if n >= 10 {
      assert Decimal(n / 10) == [DigitChar(n / 10)];
    }
  }

  lemma YearDigits(y: int)
    requires 1000 <= y <= 9999
    ensures YearString(y) == Digits(y, 4)
  {
    var a := y / 10;
    var b := a / 10;
    var c := b / 10;
    assert 1 <= c <= 9;
    assert Decimal(c) == [DigitChar(c)] == Digits(c, 1);
    assert Decimal(b) == Decimal(c) + [DigitChar(b % 10)];
    assert Digits(b, 2) == Digits(c, 1) + [DigitChar(b % 10)];
    assert Decimal(a) == Decimal(b) + [DigitChar(a % 10)];
    assert Digits(a, 3) == Digits(b, 2) + [DigitChar(a % 10)];
  }

  // ---------------------------------------------------------------- round trip

  lemma {:induction false} ValueDigits(n: nat, w: nat)
    requires n < Pow10(w)
    ensures Value(Digits(n, w)) == n
  {
    if w > 0 {
      ValueDigits(n / 10, w - 1);
      var s := Digits(n, w);
      assert s[..|s| - 1] == Digits(n / 10, w - 1);
    }
  }

  lemma {:induction false} DigitsValue(s: string)
    requires forall i :: 0 <= i < |s| ==> IsDigit(s[i])
    ensures Digits(Value(s), |s|) == s
  {
    if s != [] {
      var init := s[..|s| - 1];
      DigitsValue(init);
      var v := Value(s);
      assert v / 10 == Value(init);
      assert v % 10 == DigitValue(s[|s| - 1]);
      assert s == init + [s[|s| - 1]];
    }
  }

  /** Rendering a date of a four-digit year and reading it back gives the date. */
  lemma ToYMDRoundTrip(d: Date)
    requires ValidDate(d) && 1000 <= d.year <= 9999
    ensures ParseYMD(ToYMD(d)) == Some(d)
  {
    var s := ToYMD(d);
    assert s[..4] == Digits(d.year, 4);
    assert s[5..7] == Digits(d.month, 2);
    assert s[8..] == Digits(d.day, 2);
    ValueDigits(d.year, 4);
    ValueDigits(d.month, 2);
    ValueDigits(d.day, 2);
  }

  /**
   * A string that reads as a date of a four-digit year is exactly what
   * `toYMD` renders for that date; a year written with a leading zero is not.
   */
  lemma ParseYMDCanonical(s: string)
    requires ParseYMD(s).Some? && ParseYMD(s).value.year >= 1000
    ensures ToYMD(ParseYMD(s).value) == s
  {
    var d := ParseYMD(s).value;
    DigitsValue(s[..4]);
    DigitsValue(s[5..7]);
    DigitsValue(s[8..]);
    assert s == s[..4] + "-" + s[5..7] + "-" + s[8..];
  }

  // ---------------------------------------------------------------- string order

  function Sign(x: int): int {
    if x < 0 then -1 else if x > 0 then 1 else 0
  }

  /** Three-way lexicographic comparison by character code, as `a < b` on strings. */
  function LexCmp(a: string, b: string): int {
    if a == [] && b == [] then 0
    else if a == [] then -1
    else if b == [] then 1
    else if a[0] < b[0] then -1
    else if a[0] > b[0] then 1
    else LexCmp(a[1..], b[1..])
  }

  lemma {:induction false} LexCmpConcat(a1: string, a2: string, b1: string, b2: string)
    requires |a1| == |b1|
    ensures LexCmp(a1 + a2, b1 + b2) == if LexCmp(a1, b1) != 0 then LexCmp(a1, b1) else LexCmp(a2, b2)
  {
    if a1 != [] {
      assert (a1 + a2)[1..] == a1[1..] + a2;
      assert (b1 + b2)[1..] == b1[1..] + b2;
      LexCmpConcat(a1[1..], a2, b1[1..], b2);
    } else {
      assert a1 + a2 == a2 && b1 + b2 == b2;
    }
  }

  lemma {:induction false} DigitsOrder(x: nat, y: nat, w: nat)
    requires x < Pow10(w) && y < Pow10(w)
    ensures LexCmp(Digits(x, w), Digits(y, w)) == Sign(x - y)
  {
    if w > 0 {
      DigitsOrder(x / 10, y / 10, w - 1);
      LexCmpConcat(Digits(x / 10, w - 1), [DigitChar(x % 10)], Digits(y / 10, w - 1), [DigitChar(y % 10)]);
    }
  }

  /**
   * Comparing `YYYY-MM-DD` strings by character code orders dates of
   * four-digit years exactly as DateKey does. The sort's `localeCompare` is
   * taken to order such same-width digit strings the same way.
   */
  lemma ToYMDOrder(a: Date, b: Date)
    requires ValidDate(a) && 1000 <= a.year <= 9999
    requires ValidDate(b) && 1000 <= b.year <= 9999
    ensures LexCmp(ToYMD(a), ToYMD(b)) == Sign(DateKey(a) - DateKey(b))
  {
    DigitsOrder(a.year, b.year, 4);
    DigitsOrder(a.month, b.month, 2);
    DigitsOrder(a.day, b.day, 2);
    var ya, ma, da := Digits(a.year, 4), Digits(a.month, 2), Digits(a.day, 2);
    var yb, mb, db := Digits(b.year, 4), Digits(b.month, 2), Digits(b.day, 2);
    LexCmpConcat(ya + "-" + ma + "-", da, yb + "-" + mb + "-", db);
    LexCmpConcat(ya + "-" + ma, "-", yb + "-" + mb, "-");
    LexCmpConcat(ya + "-", ma, yb + "-", mb);
    LexCmpConcat(ya, "-", yb, "-");
    assert LexCmp("-", "-") == 0;
    DateKeyLexicographic(a, b);
    DateKeyLexicographic(b, a);
  }

  /** Sorting trend rows by `mk` orders months of four-digit years by MonthIndex. */
  lemma MonthKeyOrder(a: Date, b: Date)
    requires 1 <= a.month <= 12 && 1000 <= a.year <= 9999
    requires 1 <= b.month <= 12 && 1000 <= b.year <= 9999
    ensures LexCmp(MonthKey(a), MonthKey(b)) == Sign(MonthIndex(a) - MonthIndex(b))
  {
    YearDigits(a.year);
    YearDigits(b.year);
    Pad2Digits(a.month);
    Pad2Digits(b.month);
    DigitsOrder(a.year, b.year, 4);
    DigitsOrder(a.month, b.month, 2);
    var ya, ma := Digits(a.year, 4), Digits(a.month, 2);
    var yb, mb := Digits(b.year, 4), Digits(b.month, 2);
    LexCmpConcat(ya + "-", ma, yb + "-", mb);
    LexCmpConcat(ya, "-", yb, "-");
    assert LexCmp("-", "-") == 0;
  }
}
