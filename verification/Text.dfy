/** Text found at a place in a longer text, and decimal numerals. */
module Text {

  /** `text` stands in `content` at offset `o`. */
  predicate At(content: string, o: nat, text: string): (at: bool)
    ensures at ==> o + |text| <= |content|
  {
    o + |text| <= |content| && content[o..o + |text|] == text
  }

  lemma AtAppend(content: string, o: nat, a: string, b: string)
    ensures At(content, o, a + b) <==> At(content, o, a) && At(content, o + |a|, b)
  {
    if At(content, o, a + b) {
      assert content[o..o + |a| + |b|][..|a|] == content[o..o + |a|];
      assert content[o..o + |a| + |b|][|a|..] == content[o + |a|..o + |a| + |b|];
    }
  }

  lemma AtIndex(content: string, o: nat, text: string, i: nat)
    requires At(content, o, text) && i < |text|
    ensures content[o + i] == text[i]
  {
    assert content[o..o + |text|][i] == content[o + i];
  }

  // ---------- Decimal numerals ----------

  function Digit(d: nat): char
    requires d < 10
  {
    "0123456789"[d]
  }

  predicate IsDigit(c: char) {
    '0' <= c <= '9'
  }

  function Value(c: char): nat
    requires IsDigit(c)
  {
    c as int - '0' as int
  }

  /** Decimal digits without leading zeros. */
  function Digits(n: nat): (s: string)
    ensures s != [] && forall i :: 0 <= i < |s| ==> IsDigit(s[i])
  {
    if n < 10 then [Digit(n)] else Digits(n / 10) + [Digit(n % 10)]
  }

  predicate AllDigits(s: string) {
    forall i :: 0 <= i < |s| ==> IsDigit(s[i])
  }

  /** Reading digits on from a value. */
  function ReadDigits(s: string, from: nat): nat
    requires AllDigits(s)
    decreases |s|
  {
    if s == [] then from else ReadDigits(s[1..], 10 * from + Value(s[0]))
  }

  lemma {:induction false} ReadAppend(s: string, c: char, from: nat)
    requires AllDigits(s) && IsDigit(c)
    ensures ReadDigits(s + [c], from) == 10 * ReadDigits(s, from) + Value(c)
    decreases |s|
  {
    if s == [] {
      assert s + [c] == [c];
    } else {
      assert (s + [c])[1..] == s[1..] + [c];
      ReadAppend(s[1..], c, 10 * from + Value(s[0]));
    }
  }

  lemma {:induction false} ReadOfDigits(n: nat)
    ensures ReadDigits(Digits(n), 0) == n
  {
    if n >= 10 {
      ReadOfDigits(n / 10);
      ReadAppend(Digits(n / 10), Digit(n % 10), 0);
    }
  }

  // ---------- What digits are worth ----------

  /** The value of a digit, by its place in the row of digits. */
  predicate IsDecimal(c: char, d: nat)
    requires d < 10
  {
    c == "0123456789"[d]
  }

  function DigitValue(c: char): (d: nat)
    requires IsDigit(c)
    ensures d < 10 && IsDecimal(c, d)
  {
    if c == '0' then 0 else if c == '1' then 1 else if c == '2' then 2 else if c == '3' then 3 else if c == '4' then 4
    else if c == '5' then 5 else if c == '6' then 6 else if c == '7' then 7 else if c == '8' then 8 else 9
  }

  /** Digits before the point: each is worth ten times the next. */
  function WholeValue(s: string): nat
    requires AllDigits(s)
  {
    if s == "" then 0 else 10 * WholeValue(s[..|s| - 1]) + DigitValue(s[|s| - 1])
  }

  lemma DigitIs(c: char)
    requires IsDigit(c)
    ensures Value(c) == DigitValue(c)
  {
  }

  lemma {:induction false} WholeIs(s: string)
    requires AllDigits(s)
    ensures ReadDigits(s, 0) == WholeValue(s)
    decreases |s|
  {
    if s != [] {
      var rest, c := s[..|s| - 1], s[|s| - 1];
      assert s == rest + [c];
      WholeIs(rest);
      ReadAppend(rest, c, 0);
      DigitIs(c);
    }
  }

  /** A numeral is worth the number it is made for, and starts with zero only for zero. */
  lemma {:induction false} DigitsAreDecimal(n: nat)
    ensures WholeValue(Digits(n)) == n && (n != 0 ==> Digits(n)[0] != '0') && (n == 0 ==> Digits(n) == "0")
  {
    ReadOfDigits(n);
    WholeIs(Digits(n));
    if n >= 10 {
      DigitsAreDecimal(n / 10);
    }
  }

  // ---------- How long numerals are ----------

  function Pow10(k: nat): (power: nat)
    ensures power > 0
  {
    if k == 0 then 1 else 10 * Pow10(k - 1)
  }

  /** A numeral has at most `k` digits exactly when the number is below 10^k. */
  lemma {:induction false} DigitsLength(n: nat, k: nat)
    requires k > 0
    ensures |Digits(n)| <= k <==> n < Pow10(k)
    decreases k
  {
    if k == 1 {
      assert Pow10(1) == 10;
    } else if n >= 10 {
      DigitsLength(n / 10, k - 1);
    } else {
      assert Pow10(k) == 10 * Pow10(k - 1);
    }
  }
}
