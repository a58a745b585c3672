/** The megabyte display of a stored byte count, and its round trip through the parser. */
module Megabytes {
  import opened Decimals
  import opened ByteQuantities

  const PLACES: nat := 20

  /** The last k decimal digits of n, zero padded. */
  function Padded(n: nat, k: nat): (s: string)
    ensures |s| == k && AllDigits(s)
  {
    if k == 0 then "" else Padded(n / 10, k - 1) + [CharOf(n % 10)]
  }

  /** big.Rat.FloatString: rounded to `places` digits, halves away from zero. */
  function Rounded(num: nat, den: nat, places: nat): nat
    requires den > 0
  {
    var scaled := num * Pow10(places);
    Quot(scaled, den) + if 2 * Rem(scaled, den) >= den then 1 else 0
  }

  function FloatString(num: nat, den: nat, places: nat): string
    requires den > 0
  {
    var n := Rounded(num, den, places);
    Decimal(Quot(n, Pow10(places))) + "." + Padded(Rem(n, Pow10(places)), places)
  }

  function TrimRight(s: string, c: char): string {
    if s != "" && s[|s| - 1] == c then TrimRight(s[..|s| - 1], c) else s
  }

  function FormatMegabytes(v: nat): string {
    TrimRight(TrimRight(FloatString(v, MEGABYTE, PLACES), '0'), '.')
  }

  // ---- digits denote what they print ----

  lemma {:induction false} NumberPadded(n: nat, k: nat)
    requires n < Pow10(k)
    ensures Number(Padded(n, k)) == n
  {
    if k > 0 {
      NumberPadded(n / 10, k - 1);
      NumberSnoc(Padded(n / 10, k - 1), CharOf(n % 10));
    }
  }

  lemma ConcatStep(a: string, b: string, c: char, p: nat)
    requires AllDigits(a) && AllDigits(b) && IsDigit(c)
    requires AllDigits(a + b) && Number(a + b) == Number(a) * p + Number(b)
    ensures AllDigits(a + b + [c]) && AllDigits(b + [c])
    ensures Number(a + b + [c]) == Number(a) * (10 * p) + Number(b + [c])
  {
    NumberSnoc(a + b, c);
    NumberSnoc(b, c);
    ShiftOnce(Number(a), p, Number(b), DigitOf(c));
  }

  lemma ShiftOnce(a: nat, p: nat, b: nat, d: nat)
    ensures (a * p + b) * 10 + d == a * (10 * p) + (b * 10 + d)
  {
  }

  lemma {:induction false} NumberConcat(a: string, b: string)
    requires AllDigits(a) && AllDigits(b)
    ensures AllDigits(a + b) && Number(a + b) == Number(a) * Pow10(|b|) + Number(b)
  {
    if b == "" {
      assert a + b == a;
    } else {
      var front, last := b[..|b| - 1], b[|b| - 1];
      assert b == front + [last];
      assert a + b == a + front + [last];
      NumberConcat(a, front);
      ConcatStep(a, front, last, Pow10(|front|));
    }
  }

  lemma {:induction false} DecimalShort(n: nat, k: nat)
    requires k >= 1 && n < Pow10(k)
    ensures |Decimal(n)| <= k
  {
    if n >= 10 {
      DecimalShort(n / 10, k - 1);
    }
  }

  // ---- twenty places are exact for a power-of-two denominator ----

  lemma PowTwenty()
    ensures Pow10(5) == 100_000 && Pow10(10) == 10_000_000_000 && Pow10(PLACES) == 100_000_000_000_000_000_000
  {
  }

  const FIVES: nat := 95_367_431_640_625   // 5^20

  lemma RoundedExact(v: nat)
    ensures Rounded(v, MEGABYTE, PLACES) == v * FIVES
    ensures v * FIVES * MEGABYTE == v * Pow10(PLACES)
  {
    PowTwenty();
    assert FIVES * MEGABYTE == Pow10(PLACES);
    assert v * Pow10(PLACES) == (v * FIVES) * MEGABYTE + 0;
    DivisionUnique(v * FIVES, MEGABYTE, 0);
  }

  // ---- decimals that denote v megabytes ----

  ghost predicate Denotes(whole: string, fraction: string, v: nat) {
    && AllDigits(whole) && AllDigits(fraction) && whole != ""
    && Number(whole + fraction) * MEGABYTE == v * Pow10(|fraction|)
  }

  lemma PrintedDenotes(v: nat)
    ensures var n := Rounded(v, MEGABYTE, PLACES);
            Denotes(Decimal(Quot(n, Pow10(PLACES))), Padded(Rem(n, Pow10(PLACES)), PLACES), v)
  {
    var n := Rounded(v, MEGABYTE, PLACES);
    var w, f := Quot(n, Pow10(PLACES)), Rem(n, Pow10(PLACES));
    Division(n, Pow10(PLACES));
    NumberDecimal(w);
    NumberPadded(f, PLACES);
    NumberConcat(Decimal(w), Padded(f, PLACES));
    RoundedExact(v);
  }

  /** Dropping a trailing zero of the fraction does not change the number. */
  lemma DropZero(whole: string, fraction: string, v: nat)
    requires Denotes(whole, fraction, v) && fraction != "" && fraction[|fraction| - 1] == '0'
    ensures Denotes(whole, fraction[..|fraction| - 1], v)
  {
    var n := |fraction| - 1;
    assert whole + fraction == whole + fraction[..n] + ['0'];
    BothDigits(whole, fraction[..n]);
    NumberSnoc(whole + fraction[..n], '0');
    CancelTen(Number(whole + fraction[..n]), v, Pow10(n));
  }

  lemma CancelTen(k: nat, v: nat, p: nat)
    requires k * 10 * MEGABYTE == v * (10 * p)
    ensures k * MEGABYTE == v * p
  {
    assert v * (10 * p) == 10 * (v * p);
  }

  /** The last non-zero place of a fraction, and what TrimRight leaves of the text. */
  lemma {:induction false} TrimZeros(whole: string, fraction: string, v: nat) returns (kept: string)
    requires Denotes(whole, fraction, v)
    ensures TrimRight(whole + "." + fraction, '0') == whole + "." + kept
    ensures Denotes(whole, kept, v) && |kept| <= |fraction|
    ensures kept != "" ==> kept[|kept| - 1] != '0'
    decreases |fraction|
  {
    var text := whole + "." + fraction;
    if fraction != "" && fraction[|fraction| - 1] == '0' {
      DropZero(whole, fraction, v);
      kept := TrimZeros(whole, fraction[..|fraction| - 1], v);
      assert text[..|text| - 1] == whole + "." + fraction[..|fraction| - 1];
    } else {
      kept := fraction;
      assert text[|text| - 1] == if fraction == "" then '.' else fraction[|fraction| - 1];
    }
  }

  lemma TrimDot(whole: string, kept: string)
    requires AllDigits(whole) && AllDigits(kept) && whole != ""
    ensures TrimRight(whole + "." + kept, '.') == Printed(whole, kept)
  {
  }

  // ---- reading the printed text back ----

  function Printed(whole: string, kept: string): string {
    if kept == "" then whole else whole + "." + kept
  }

  lemma PrintedEnds(whole: string, kept: string)
    requires AllDigits(whole) && AllDigits(kept) && whole != ""
    ensures var text := Printed(whole, kept);
            && text != "" && IsDigit(text[0]) && IsDigit(text[|text| - 1]) && |text| <= |whole| + 1 + |kept|
  {
  }

  /** The text of a decimal splits back into its two halves. */
  lemma SplitPrinted(whole: string, kept: string)
    requires AllDigits(whole) && AllDigits(kept) && whole != ""
    ensures Whole(Printed(whole, kept)) == whole && Fraction(Printed(whole, kept)) == kept
    ensures TrimSpace(Printed(whole, kept)) == Printed(whole, kept)
  {
  }

  lemma CeilingOfMultiple(v: nat, d: nat)
    requires d > 0
    ensures Ceiling(v * d, d) == v
  {
    DivisionUnique(v, d, 0);
  }

  /** The whole part of any storable count has at most thirteen digits. */
  lemma WholeShort(v: nat)
    requires v <= MAX_BYTES
    ensures |Decimal(Quot(Rounded(v, MEGABYTE, PLACES), Pow10(PLACES)))| <= 13
  {
    var n, d := Rounded(v, MEGABYTE, PLACES), Pow10(PLACES);
    RoundedExact(v);
    PowTwenty();
    Division(n, d);
    var q := Quot(n, d);
    assert q * 100_000_000_000_000_000_000 <= v * FIVES;
    assert q < 10_000_000_000_000;
    PowThirteen();
    DecimalShort(q, 13);
  }

  lemma PowThirteen()
    ensures Pow10(13) == 10_000_000_000_000
  {
  }

  /** A decimal that denotes v megabytes parses as v bytes. */
  lemma PrintedParses(whole: string, kept: string, v: nat)
    requires Denotes(whole, kept, v) && v <= MAX_BYTES && |whole| <= 13 && |kept| <= PLACES
    ensures ParseByteQuantity(Printed(whole, kept), "MB") == Bytes(v)
  {
    var text := Printed(whole, kept);
    SplitPrinted(whole, kept);
    PrintedEnds(whole, kept);
    BothDigits(whole, kept);
    assert Numerator(text) == Number(whole + kept);
    CeilingOfMultiple(v, Pow10(|kept|));
  }

  /** Saving a displayed limit unchanged keeps every byte of it. */
  lemma RoundTrip(v: nat)
    requires v <= MAX_BYTES
    ensures ParseByteQuantity(FormatMegabytes(v), "MB") == Bytes(v)
  {
    var n := Rounded(v, MEGABYTE, PLACES);
    var whole, fraction := Decimal(Quot(n, Pow10(PLACES))), Padded(Rem(n, Pow10(PLACES)), PLACES);
    PrintedDenotes(v);
    var kept := TrimZeros(whole, fraction, v);
    TrimDot(whole, kept);
    WholeShort(v);
    PrintedParses(whole, kept, v);
  }

  /** The display is exact and as short as it can be: digits, and when the count is not a
      whole number of megabytes a point and digits of which the last is not zero. */
  lemma DisplayShort(v: nat) returns (whole: string, kept: string)
    ensures FormatMegabytes(v) == (if kept == "" then whole else whole + "." + kept)
    ensures Denotes(whole, kept, v) && (kept != "" ==> kept[|kept| - 1] != '0')
  {
    var n := Rounded(v, MEGABYTE, PLACES);
    whole := Decimal(Quot(n, Pow10(PLACES)));
    PrintedDenotes(v);
    kept := TrimZeros(whole, Padded(Rem(n, Pow10(PLACES)), PLACES), v);
    TrimDot(whole, kept);
  }
}
