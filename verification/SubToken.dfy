/** Legacy subscription tokens: sixteen base-62 digits obtained by in-place long
    division of a big-endian byte string. */
module SubTokens {
  import opened Basics

  const LENGTH: nat := 16
  const BASE: nat := 62

  /** The token alphabet: 0-9, then A-Z, then a-z. */
  function Char(d: nat): char
    requires d < BASE
  {
    if d < 10 then '0' + d as char
    else if d < 36 then 'A' + (d - 10) as char
    else 'a' + (d - 36) as char
  }

  /** The number a byte string denotes, most significant byte first. */
  function Value(s: seq<Byte>): nat {
    if s == [] then 0 else Value(s[..|s| - 1]) * 256 + s[|s| - 1] as nat
  }

  /** The number a digit string denotes in base 62, most significant digit first. */
  function Digits(d: seq<nat>): nat {
    if d == [] then 0 else Digits(d[..|d| - 1]) * BASE + d[|d| - 1]
  }

  predicate AreDigits(d: seq<nat>) {
    forall i :: 0 <= i < |d| ==> d[i] < BASE
  }

  function Power(k: nat): (p: nat)
    ensures p > 0
  {
    if k == 0 then 1 else BASE * Power(k - 1)
  }

  function Text(d: seq<nat>): (t: string)
    requires AreDigits(d)
    ensures |t| == |d| && forall i :: 0 <= i < |d| ==> t[i] == Char(d[i])
  {
    seq(|d|, i requires 0 <= i < |d| => Char(d[i]))
  }

  lemma {:induction false} PrependDigit(r: nat, d: seq<nat>)
    ensures Digits([r] + d) == r * Power(|d|) + Digits(d)
  {
    if d == [] {
      assert [r] + d == [r];
      assert Digits([r]) == Digits([r][..0]) * BASE + r;
    } else {
      var n := |d| - 1;
      PrependDigit(r, d[..n]);
      assert ([r] + d)[..|d|] == [r] + d[..n];
      assert Digits([r] + d) == (r * Power(n) + Digits(d[..n])) * BASE + d[n];
      assert r * Power(n) * BASE == r * (BASE * Power(n));
    }
  }

  lemma {:induction false} DigitsBelow(d: seq<nat>)
    requires AreDigits(d)
    ensures Digits(d) < Power(|d|)
  {
    if d != [] {
      DigitsBelow(d[..|d| - 1]);
    }
  }

  /** Digit strings of equal length are equal when their values are. */
  lemma {:induction false} DigitsUnique(d: seq<nat>, e: seq<nat>)
    requires AreDigits(d) && AreDigits(e) && |d| == |e| && Digits(d) == Digits(e)
    ensures d == e
  {
    if d != [] {
      var n := |d| - 1;
      assert Digits(d[..n]) * BASE + d[n] == Digits(e[..n]) * BASE + e[n];
      assert d[n] == e[n] && Digits(d[..n]) == Digits(e[..n]);
      DigitsUnique(d[..n], e[..n]);
      assert d == d[..n] + [d[n]] && e == e[..n] + [e[n]];
    }
  }

  /** One pass of the inner loop: divides the number in the array by 62 in place. */
  method DivideInPlace(num: array<Byte>) returns (remainder: nat)
    modifies num
    ensures remainder < BASE
    ensures Value(old(num[..])) == Value(num[..]) * BASE + remainder
  {
    remainder := 0;
    ghost var was := num[..];
    for j := 0 to num.Length
      invariant remainder < BASE
      invariant forall k :: j <= k < num.Length ==> num[k] == was[k]
      invariant Value(was[..j]) == Value(num[..j]) * BASE + remainder
    {
      var value := remainder * 256 + num[j] as nat;
      assert value < BASE * 256;
      ghost var before := num[..j];
      num[j] := (value / BASE) as Byte;
      remainder := value % BASE;
      assert num[..j + 1][..j] == before && was[..j + 1][..j] == was[..j];
    }
    assert num[..num.Length] == num[..] && was[..num.Length] == was;
  }

  lemma Unwind(q: nat, p: nat, r: nat, q': nat, low: nat)
    requires q == q' * BASE + r
    ensures q * p + low == q' * (BASE * p) + (r * p + low)
  {
  }

  /** The digits produced so far and the quotient that is left make up v. */
  ghost predicate Partial(v: nat, q: nat, digits: seq<nat>) {
    AreDigits(digits) && v == q * Power(|digits|) + Digits(digits)
  }

  lemma EncodeStep(v: nat, q: nat, r: nat, q': nat, digits: seq<nat>)
    requires Partial(v, q, digits) && q == q' * BASE + r && r < BASE
    ensures Partial(v, q', [r] + digits)
  {
    PrependDigit(r, digits);
    Unwind(q, Power(|digits|), r, q', Digits(digits));
  }

  lemma EncodeEnd(v: nat, q: nat, digits: seq<nat>)
    requires Partial(v, q, digits)
    ensures Digits(digits) == v % Power(|digits|)
  {
    DigitsBelow(digits);
    ModUnique(v, q, Power(|digits|), Digits(digits));
  }

  lemma TextStep(r: nat, digits: seq<nat>)
    requires r < BASE && AreDigits(digits)
    ensures AreDigits([r] + digits) && Text([r] + digits) == [Char(r)] + Text(digits)
  {
  }

  /** The text is the sixteen base-62 digits of v, most significant first. */
  ghost predicate Shows(text: string, v: nat) {
    exists d: seq<nat> :: |d| == LENGTH && AreDigits(d) && Digits(d) == v && text == Text(d)
  }

  /** encodeBase62: the digits of the value modulo 62^16. */
  method EncodeBase62(input: seq<Byte>) returns (text: string)
    ensures Shows(text, Value(input) % Power(LENGTH))
  {
    var num := new Byte[|input|](i requires 0 <= i < |input| => input[i]);
    assert num[..] == input;
    var result := new char[LENGTH];
    ghost var digits: seq<nat> := [];
    var i := LENGTH;
    while i > 0
      invariant 0 <= i <= LENGTH && |digits| == LENGTH - i && Partial(Value(input), Value(num[..]), digits)
      invariant result[i..] == Text(digits)
      decreases i
    {
      i := i - 1;
      ghost var q := Value(num[..]);
      var remainder := DivideInPlace(num);
      EncodeStep(Value(input), q, remainder, Value(num[..]), digits);
      TextStep(remainder, digits);
      result[i] := Char(remainder);
      assert result[i..] == [Char(remainder)] + result[i + 1..];
      digits := [remainder] + digits;
    }
    text := result[..];
    EncodeEnd(Value(input), Value(num[..]), digits);
  }

  lemma TimesAtLeast(k: nat, m: nat)
    requires k >= 1
    ensures k * m >= m
  {
  }

  lemma TimesSplit(a: nat, b: nat, m: nat)
    requires b <= a
    ensures a * m == b * m + (a - b) * m
  {
  }

  lemma QuotientOrder(a: nat, b: nat, m: nat, r: nat, t: nat)
    requires a * m + r == b * m + t && t < m
    ensures a <= b
  {
    if b < a {
      TimesSplit(a, b, m);
      TimesAtLeast(a - b, m);
    }
  }

  lemma ModUnique(v: nat, q: nat, m: nat, r: nat)
    requires v == q * m + r && r < m
    ensures v % m == r
  {
    var q', r' := v / m, v % m;
    assert v == q' * m + r';
    QuotientOrder(q, q', m, r, r');
    QuotientOrder(q', q, m, r', r);
  }

  lemma TextUnique(d: seq<nat>, e: seq<nat>)
    requires AreDigits(d) && AreDigits(e) && Text(d) == Text(e)
    ensures d == e
  {
    forall i | 0 <= i < |d| ensures d[i] == e[i] {
      assert Text(d)[i] == Text(e)[i];
      CharsDistinct(d[i], e[i]);
    }
  }

  /** Tokens are equal exactly when the numbers they show are: two inputs share a
      token if and only if their values agree modulo 62^16. */
  lemma TokensCollide(s: string, v: nat, t: string, w: nat)
    requires Shows(s, v) && Shows(t, w)
    ensures s == t <==> v == w
  {
    var d: seq<nat> :| |d| == LENGTH && AreDigits(d) && Digits(d) == v && s == Text(d);
    var e: seq<nat> :| |e| == LENGTH && AreDigits(e) && Digits(e) == w && t == Text(e);
    if s == t {
      TextUnique(d, e);
    } else if v == w {
      DigitsUnique(d, e);
    }
  }

  lemma CharsDistinct(i: nat, j: nat)
    requires i < BASE && j < BASE && Char(i) == Char(j)
    ensures i == j
  {
  }

  lemma ValueSnoc(s: seq<Byte>, b: Byte)
    ensures Value(s + [b]) == Value(s) * 256 + b as nat
  {
  }

  lemma {:induction false} PowerAdds(a: nat, b: nat)
    ensures Power(a + b) == Power(a) * Power(b)
  {
    if a > 0 {
      PowerAdds(a - 1, b);
      assert Power(a) * Power(b) == BASE * (Power(a - 1) * Power(b));
    }
  }

  lemma PowerSixteen()
    ensures Power(LENGTH) == 47_672_401_706_823_533_450_263_330_816
  {
    assert Power(2) == 3844 by { assert Power(1) == 62; }
    PowerAdds(2, 2);
    PowerAdds(4, 4);
    PowerAdds(8, 8);
  }

  const OVERFLOWING: seq<Byte> := [154, 9, 175, 186, 232, 48, 80, 169, 222, 1, 0, 0]

  const ZEROS: seq<Byte> := [0, 0, 0, 0, 0, 0, 0, 0, 0, 0, 0, 0]

  lemma FirstFour()
    ensures Value(OVERFLOWING[..4]) == 2_584_326_074
  {
    ValueFour(OVERFLOWING, 0);
    assert OVERFLOWING[..0] == [];
  }

  lemma FirstEight()
    ensures Value(OVERFLOWING[..8]) == 11_099_595_973_925_556_393
  {
    FirstFour();
    ValueFour(OVERFLOWING, 4);
  }

  lemma ValueOverflowing()
    ensures Value(OVERFLOWING) == Power(LENGTH)
  {
    FirstEight();
    ValueFour(OVERFLOWING, 8);
    assert OVERFLOWING[..12] == OVERFLOWING;
    PowerSixteen();
  }

  lemma ValueFour(s: seq<Byte>, i: nat)
    requires i + 4 <= |s|
    ensures Value(s[..i + 4])
         == Value(s[..i]) * 0x1_0000_0000 + s[i] as nat * 0x100_0000
            + s[i + 1] as nat * 0x1_0000 + s[i + 2] as nat * 256 + s[i + 3] as nat
  {
    ValuePrefix(s, i);
    ValuePrefix(s, i + 1);
    ValuePrefix(s, i + 2);
    ValuePrefix(s, i + 3);
  }

  lemma ValuePrefix(s: seq<Byte>, i: nat)
    requires i < |s|
    ensures Value(s[..i + 1]) == Value(s[..i]) * 256 + s[i] as nat
  {
    assert s[..i + 1] == s[..i] + [s[i]];
    ValueSnoc(s[..i], s[i]);
  }

  lemma ValueZeros()
    ensures Value(ZEROS) == 0
  {
    ValueFour(ZEROS, 0);
    ValueFour(ZEROS, 4);
    ValueFour(ZEROS, 8);
    assert ZEROS[..0] == [] && ZEROS[..12] == ZEROS;
  }

  lemma SameResidue()
    ensures Value(OVERFLOWING) % Power(LENGTH) == 0 == Value(ZEROS) % Power(LENGTH)
  {
    ValueOverflowing();
    ValueZeros();
    ModUnique(Value(OVERFLOWING), 1, Power(LENGTH), 0);
    ModUnique(Value(ZEROS), 0, Power(LENGTH), 0);
  }

  /** Twelve bytes hold more values than sixteen digits: two different digests whose
      tokens are the same text. */
  lemma TwelveBytesCollide()
    ensures |OVERFLOWING| == |ZEROS| == 12 && OVERFLOWING != ZEROS
    ensures forall s, t ::
              Shows(s, Value(OVERFLOWING) % Power(LENGTH)) && Shows(t, Value(ZEROS) % Power(LENGTH)) ==> s == t
  {
    SameResidue();
    forall s, t | Shows(s, 0) && Shows(t, 0) ensures s == t {
      TokensCollide(s, 0, t, 0);
    }
    assert OVERFLOWING[0] != ZEROS[0];
  }

  const DIGITS: string := "0123456789"
  const UPPER: string := "ABCDEFGHIJKLMNOPQRSTUVWXYZ"
  const LOWER: string := "abcdefghijklmnopqrstuvwxyz"

  const ALPHABET: string := DIGITS + UPPER + LOWER

  predicate Letters(text: string, from: nat)
    requires from + |text| <= BASE
  {
    forall i :: 0 <= i < |text| ==> text[i] == Char(from + i)
  }

  lemma ThreeRuns()
    ensures |DIGITS| == 10 && |UPPER| == 26 && |LOWER| == 26
    ensures Letters(DIGITS, 0) && Letters(UPPER, 10) && Letters(LOWER, 36)
  {
  }

  /** Digit d is written as letter d of the alphabet. */
  lemma AlphabetLaw(d: nat)
    requires d < BASE
    ensures |ALPHABET| == 62 && Char(d) == ALPHABET[d]
  {
    ThreeRuns();
    if d < 10 {
      assert DIGITS[d] == Char(0 + d);
    } else if d < 36 {
      assert UPPER[d - 10] == Char(10 + (d - 10));
    } else {
      assert LOWER[d - 36] == Char(36 + (d - 36));
    }
  }

  /** The text of a token, letter by letter. */
  lemma TokenLetters(text: string, v: nat, i: nat)
    requires Shows(text, v) && i < LENGTH
    ensures |text| == 16 && text[i] in ALPHABET
  {
    var d: seq<nat> :| |d| == LENGTH && AreDigits(d) && Digits(d) == v && text == Text(d);
    AlphabetLaw(d[i]);
  }
}
