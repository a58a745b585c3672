/** Byte quantities as typed into the management forms, and their megabyte
    display. Rationals are exact pairs of integers. */
module ByteQuantities {
  import opened Basics
  import opened Identity
  import opened Decimals

  datatype Parse = Bytes(value: nat) | BadUnit | BadNumber | TooLarge

  const MAX_BYTES: nat := 0x7FFF_FFFF_FFFF_FFFF
  const MEGABYTE: nat := 0x10_0000

  function Pow10(k: nat): (p: nat)
    ensures p > 0
  {
    if k == 0 then 1 else 10 * Pow10(k - 1)
  }

  // ---- parsing ----

  predicate IsSpace(c: char) {
    var u := c as int;
    || 9 <= u <= 13 || u == 32 || u == 0x85 || u == 0xA0 || u == 0x1680 || 0x2000 <= u <= 0x200A
    || u == 0x2028 || u == 0x2029 || u == 0x202F || u == 0x205F || u == 0x3000
  }

  function TrimSpace(s: string): string
    decreases |s|
  {
    if s != "" && IsSpace(s[0]) then TrimSpace(s[1..])
    else if s != "" && IsSpace(s[|s| - 1]) then TrimSpace(s[..|s| - 1])
    else s
  }

  /** The two halves around the decimal point. */
  function Whole(s: string): string {
    var i := IndexByte(s, '.');
    if i < 0 then s else s[..i]
  }

  function Fraction(s: string): string {
    var i := IndexByte(s, '.');
    if i < 0 then "" else s[i + 1..]
  }

  /** ^([0-9]+(\.[0-9]*)?|\.[0-9]+)$ */
  predicate IsDecimal(s: string) {
    AllDigits(Whole(s)) && AllDigits(Fraction(s)) && (Whole(s) != "" || Fraction(s) != "")
  }

  /** A decimal denotes Numerator / 10^|Fraction|. */
  function Numerator(s: string): nat
    requires IsDecimal(s)
  {
    BothDigits(Whole(s), Fraction(s));
    Number(Whole(s) + Fraction(s))
  }

  function Multiplier(unit: string): Option<nat> {
    if unit == "" || unit == "B" then Some(1)
    else if unit == "KB" then Some(0x400)
    else if unit == "MB" then Some(MEGABYTE)
    else if unit == "GB" then Some(0x4000_0000)
    else None
  }

  /** big.Int.QuoRem on naturals, by repeated subtraction. */
  function Quot(a: nat, b: nat): nat
    requires b > 0
  {
    if a < b then 0 else 1 + Quot(a - b, b)
  }

  function Rem(a: nat, b: nat): nat
    requires b > 0
  {
    if a < b then a else Rem(a - b, b)
  }

  lemma {:induction false} Division(a: nat, b: nat)
    requires b > 0
    ensures a == Quot(a, b) * b + Rem(a, b) && Rem(a, b) < b
  {
    if a >= b {
      Division(a - b, b);
      assert (1 + Quot(a - b, b)) * b == b + Quot(a - b, b) * b;
    }
  }

  /** Quotient and remainder are determined by their defining equation. */
  lemma {:induction false} DivisionUnique(q: nat, b: nat, r: nat)
    requires r < b
    ensures Quot(q * b + r, b) == q && Rem(q * b + r, b) == r
  {
    if q > 0 {
      DivisionUnique(q - 1, b, r);
      assert q * b == b + (q - 1) * b;
    }
  }

  /** The quotient, with a nonzero remainder rounded up. */
  function Ceiling(a: nat, b: nat): nat
    requires b > 0
  {
    Quot(a, b) + if Rem(a, b) != 0 then 1 else 0
  }

  function ParseByteQuantity(value: string, unit: string): Parse {
    if Multiplier(unit).None? then BadUnit
    else
      var text := TrimSpace(value);
      if text == "" then Bytes(0)
      else if |text| > 64 || !IsDecimal(text) then BadNumber
      else
        var w := Ceiling(Numerator(text) * Multiplier(unit).value, Pow10(|Fraction(text)|));
        if w > MAX_BYTES then TooLarge else Bytes(w)
  }

  /** w is the least whole number with n <= w * d, and zero only for zero. */
  predicate LeastCover(w: nat, n: nat, d: nat) {
    n <= w * d && (w > 0 ==> (w - 1) * d < n) && (n > 0 <==> w > 0)
  }

  predicate AboveMax(n: nat, d: nat) { n > MAX_BYTES * d }

  lemma CeilingExact(a: nat, b: nat)
    requires b > 0
    ensures LeastCover(Ceiling(a, b), a, b)
  {
    Division(a, b);
    var q := Quot(a, b);
    assert (q + 1) * b == q * b + b;
    assert q > 0 ==> (q - 1) * b == q * b - b;
  }

  lemma CeilingAboveMax(a: nat, b: nat)
    requires b > 0
    ensures Ceiling(a, b) > MAX_BYTES <==> AboveMax(a, b)
  {
    CeilingOrder(a, b, MAX_BYTES);
  }

  /** Every answer: an unknown unit and a malformed or overlong number are refused as
      such, blank text is zero, and any other number is the least whole number of bytes
      that covers it, so a positive limit never becomes zero; it is too large exactly
      when it exceeds a signed 64-bit integer. */
  lemma ParseExact(value: string, unit: string)
    ensures var text := TrimSpace(value);
            var r := ParseByteQuantity(value, unit);
            && (r == BadUnit <==> Multiplier(unit).None?)
            && (r != BadUnit && text == "" ==> r == Bytes(0))
            && (r != BadUnit && text != "" ==>
                  && (r == BadNumber <==> |text| > 64 || !IsDecimal(text))
                  && (r != BadNumber ==>
                        var n, d := Numerator(text) * Multiplier(unit).value, Pow10(|Fraction(text)|);
                        (r.Bytes? ==> LeastCover(r.value, n, d)) && (r.TooLarge? <==> AboveMax(n, d))))
  {
    var text := TrimSpace(value);
    if Multiplier(unit).Some? && text != "" && |text| <= 64 && IsDecimal(text) {
      var n, d := Numerator(text) * Multiplier(unit).value, Pow10(|Fraction(text)|);
      CeilingExact(n, d);
      CeilingAboveMax(n, d);
    }
  }

  lemma CeilingOrder(a: nat, b: nat, m: nat)
    requires b > 0
    ensures Ceiling(a, b) <= m <==> a <= m * b
  {
    CeilingExact(a, b);
    var c := Ceiling(a, b);
    if c <= m {
      TimesMonotone(c, m, b);
    } else {
      TimesMonotone(m, c - 1, b);
    }
  }

  lemma TimesMonotone(a: nat, b: nat, m: nat)
    requires a <= b
    ensures a * m <= b * m
  {
  }

  /** The units of the forms. */
  lemma Units()
    ensures Multiplier("") == Multiplier("B") == Some(1)
    ensures Multiplier("KB") == Some(1024) && Multiplier("MB") == Some(1024 * 1024)
    ensures Multiplier("GB") == Some(1024 * 1024 * 1024)
    ensures forall unit :: unit !in {"", "B", "KB", "MB", "GB"} ==> Multiplier(unit).None?
    ensures MAX_BYTES == 9_223_372_036_854_775_807
  {
  }

  /** The accepted numbers: digits with at most one point, and at least one digit. */
  lemma DecimalForms(w: string, f: string)
    requires AllDigits(w) && AllDigits(f)
    ensures IsDecimal(w) <==> w != ""
    ensures IsDecimal(w + "." + f) <==> w != "" || f != ""
    ensures w != "" ==> Numerator(w) == Number(w) && Fraction(w) == ""
    ensures Whole(w + "." + f) == w && Fraction(w + "." + f) == f
  {
    var text := w + "." + f;
    assert text[|w|] == '.' && forall i :: 0 <= i < |w| ==> text[i] == w[i];
    assert text[..|w|] == w && text[|w| + 1..] == f;
    assert w + "" == w;
  }

  /** Nothing else is accepted. */
  lemma OnlyDecimalForms(text: string)
    requires IsDecimal(text)
    ensures || (text != "" && AllDigits(text))
            || (AllDigits(Whole(text)) && AllDigits(Fraction(text)) && text == Whole(text) + "." + Fraction(text))
  {
  }

  predicate AllSpace(s: string) { forall i :: 0 <= i < |s| ==> IsSpace(s[i]) }

  lemma MoreSpace(c: char, s: string)
    requires IsSpace(c) && AllSpace(s)
    ensures AllSpace([c] + s) && AllSpace(s + [c])
  {
  }

  /** Trimming takes white space from both ends and nothing else. */
  lemma {:induction false} TrimLaw(s: string) returns (before: string, after: string)
    ensures s == before + TrimSpace(s) + after && AllSpace(before) && AllSpace(after)
    decreases |s|
  {
    before, after := "", "";
    if s != "" && IsSpace(s[0]) {
      var front, back := TrimLaw(s[1..]);
      MoreSpace(s[0], front);
      assert s == [s[0]] + s[1..];
      before, after := [s[0]] + front, back;
    } else if s != "" && IsSpace(s[|s| - 1]) {
      var front, back := TrimLaw(s[..|s| - 1]);
      MoreSpace(s[|s| - 1], back);
      assert s == s[..|s| - 1] + [s[|s| - 1]];
      before, after := front, back + [s[|s| - 1]];
    }
  }

  lemma {:induction false} TrimmedEnds(s: string)
    ensures TrimSpace(s) != "" ==> !IsSpace(TrimSpace(s)[0]) && !IsSpace(TrimSpace(s)[|TrimSpace(s)| - 1])
    decreases |s|
  {
    if s != "" && IsSpace(s[0]) {
      TrimmedEnds(s[1..]);
    } else if s != "" && IsSpace(s[|s| - 1]) {
      TrimmedEnds(s[..|s| - 1]);
    }
  }

  /** The ASCII white space. */
  lemma SpaceLaw(c: char)
    requires c < 128 as char
    ensures IsSpace(c) <==> c in " \t\n\r" || c as int == 11 || c as int == 12
  {
  }
}
