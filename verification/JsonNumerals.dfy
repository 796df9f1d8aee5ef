/** `parse_number` against the grammar: numerals are read in full and as the numbers they are. */
module JsonNumerals {
  import opened JsonGrammar
  import opened JsonParse
  import opened JsonTree
  import opened Text
  import opened Wrappers

  // ---------- Values ----------

  lemma {:induction false} ReadInTurn(a: string, b: string, from: nat)
    requires AllDigits(a) && AllDigits(b)
    ensures ReadDigits(a + b, from) == ReadDigits(b, ReadDigits(a, from))
    decreases |a|
  {
    if a == [] {
      assert a + b == b;
    } else {
      assert (a + b)[1..] == a[1..] + b;
      ReadInTurn(a[1..], b, 10 * from + Value(a[0]));
    }
  }

  /** A product, which proofs may take as it stands. */
  function Mul(x: real, y: real): real {
    x * y
  }

  /** Reading on over the fraction multiplies by ten for each digit. */
  lemma {:induction false} FractionIs(f: string, from: nat)
    requires AllDigits(f)
    ensures ReadDigits(f, from) as real == Mul(from as real + FractionValue(f), Pow10(|f|) as real)
    decreases |f|
  {
    if f != [] {
      hide Mul;
      var next := 10 * from + Value(f[0]);
      DigitIs(f[0]);
      FractionIs(f[1..], next);
      hide ReadDigits, FractionValue, Pow10;
      FractionStep(f, from);
      Tenfold(ReadDigits(f, from) as real, next as real, from as real, DigitValue(f[0]) as real, FractionValue(f[1..]),
              Pow10(|f| - 1) as real, FractionValue(f), Pow10(|f|) as real);
    } else {
      assert Pow10(0) as real == 1.0;
    }
  }

  lemma FractionStep(f: string, from: nat)
    requires AllDigits(f) && f != []
    ensures ReadDigits(f, from) == ReadDigits(f[1..], 10 * from + Value(f[0]))
    ensures FractionValue(f) == (DigitValue(f[0]) as real + FractionValue(f[1..])) / 10.0
    ensures Pow10(|f|) as real == 10.0 * Pow10(|f| - 1) as real
  {
  }

  lemma Tenfold(r: real, a: real, x: real, d: real, y: real, p: real, fraction: real, q: real)
    requires r == Mul(a + y, p) && a == 10.0 * x + d && fraction == (d + y) / 10.0 && q == 10.0 * p
    ensures r == Mul(x + fraction, q)
  {
    assert 10.0 * (x + fraction) == a + y;
    Regroup(x + fraction, p);
  }

  lemma Regroup(x: real, p: real)
    ensures (10.0 * x) * p == x * (10.0 * p)
  {
  }

  lemma PowStep(k: int)
    ensures PowReal(k + 1) == 10.0 * PowReal(k)
  {
    if k < 0 {
      var p, q := Pow10(-k) as real, Pow10(-k - 1) as real;
      assert p == 10.0 * q;
      assert 1.0 / q == 10.0 * (1.0 / p);
    }
  }

  lemma {:induction false} PowSum(k: int, m: nat)
    ensures Mul(Pow10(m) as real, PowReal(k)) == PowReal(k + m)
  {
    if m > 0 {
      hide Mul;
      PowSum(k, m - 1);
      PowStep(k + m - 1);
      assert Pow10(m) as real == 10.0 * Pow10(m - 1) as real;
      hide Pow10, PowReal;
      Tens(Pow10(m) as real, Pow10(m - 1) as real, PowReal(k), PowReal(k + m - 1), PowReal(k + m));
    } else {
      assert Pow10(0) as real == 1.0;
    }
  }

  lemma Tens(q: real, p: real, x: real, y: real, z: real)
    requires q == 10.0 * p && Mul(p, x) == y && z == 10.0 * y
    ensures Mul(q, x) == z
  {
    assert (10.0 * p) * x == 10.0 * (p * x);
  }

  lemma {:induction false} MovedIs(x: real, k: int)
    ensures MovedPoint(x, k) == Mul(x, PowReal(k))
    decreases if k < 0 then -k else k
  {
    if k > 0 {
      MovedIs(10.0 * x, k - 1);
      PowStep(k - 1);
      Regroup(x, PowReal(k - 1));
    } else if k < 0 {
      MovedIs(x / 10.0, k + 1);
      PowStep(k);
      Regroup(x / 10.0, PowReal(k));
    }
  }

  /** The digits read as one integer and scaled are the number with its point moved. */
  lemma MagnitudeIs(whole: string, fraction: string, k: int)
    requires AllDigits(whole) && AllDigits(fraction)
    ensures Mul(ReadDigits(whole + fraction, 0) as real, PowReal(k - |fraction|))
         == MovedPoint(WholeValue(whole) as real + FractionValue(fraction), k)
  {
    hide Mul;
    var x := WholeValue(whole) as real + FractionValue(fraction);
    ReadInTurn(whole, fraction, 0);
    WholeIs(whole);
    FractionIs(fraction, WholeValue(whole));
    PowSum(k - |fraction|, |fraction|);
    MovedIs(x, k);
    hide ReadDigits, WholeValue, FractionValue, Pow10, PowReal, MovedPoint;
    Scaled(ReadDigits(whole + fraction, 0) as real, x, Pow10(|fraction|) as real, PowReal(k - |fraction|), PowReal(k),
           MovedPoint(x, k));
  }

  lemma Scaled(r: real, x: real, p: real, y: real, z: real, m: real)
    requires r == Mul(x, p) && Mul(p, y) == z && m == Mul(x, z)
    ensures Mul(r, y) == m
  {
    assert (x * p) * y == x * (p * y);
  }

  // ---------- Runs of digits ----------

  lemma {:induction false} DigitRunIs(s: string, i: nat, n: nat)
    requires i <= n <= |s| && (forall k :: i <= k < n ==> IsDigit(s[k])) && (n < |s| ==> !IsDigit(s[n]))
    ensures DigitRun(s, i) == n
    decreases n - i
  {
    if i < n {
      DigitRunIs(s, i + 1, n);
    }
  }

  // ---------- strtod ----------

  /** The numeral `strtod` finds at the front of a text. */
  function Found(s: string): Numeral {
    Numeral(s[..SignEnd(s)], s[SignEnd(s)..WholeEnd(s)],
            if FractionEnd(s) > WholeEnd(s) then Some(s[WholeEnd(s) + 1..FractionEnd(s)]) else None,
            ExponentFound(s, FractionEnd(s)))
  }

  function ExponentFound(s: string, i: nat): Option<JsonGrammar.Exponent>
    requires i <= |s|
  {
    if i < |s| && (s[i] == 'e' || s[i] == 'E') then
      var j := if i + 1 < |s| && (s[i + 1] == '+' || s[i + 1] == '-') then i + 2 else i + 1;
      var k := DigitRun(s, j);
      if k == j then None else Some(JsonGrammar.Exponent(s[i], s[i + 1..j], s[j..k]))
    else None
  }

  /** What `strtod` reads is that numeral. */
  lemma FoundText(s: string)
    requires Strtod(s).Some?
    ensures IsNumeral(Found(s)) && NumeralText(Found(s)) == s[..Strtod(s).value.0]
  {
    hide ReadDigits, PowReal, DigitRun, WholeEnd, FractionEnd, JsonParse.Exponent, ExponentFound, ExponentText;
    var n := Found(s);
    var start, point, end := SignEnd(s), WholeEnd(s), FractionEnd(s);
    ExponentIs(s, end);
    var k := JsonParse.Exponent(s, end).0;
    assert s[..k] == s[..start] + s[start..point] + s[point..end] + s[end..k];
    assert n.fraction.Some? ==> s[point..end] == "." + n.fraction.value;
    assert IsSign(n.sign);
  }

  /** The number read, in terms of the numeral. */
  lemma StrtodIs(s: string)
    requires Strtod(s).Some?
    ensures var n := Found(s); var fraction := if n.fraction.None? then "" else n.fraction.value;
            && AllDigits(n.whole) && AllDigits(fraction)
            && var x := Mul(ReadDigits(n.whole + fraction, 0) as real,
                            PowReal(JsonParse.Exponent(s, FractionEnd(s)).1 - |fraction|));
               Strtod(s).value.1 == if s[0] == '-' then -x else x
  {
    hide ReadDigits, PowReal, DigitRun, WholeEnd, FractionEnd, JsonParse.Exponent, ExponentFound;
  }

  /** The value of a numeral, with nothing for what is missing. */
  lemma ValueIs(n: Numeral, fraction: string, e: int)
    requires IsNumeral(n) && fraction == if n.fraction.None? then "" else n.fraction.value
    requires if n.exponent.None? then e == 0
             else if n.exponent.value.sign == "-" then e == 0 - WholeValue(n.exponent.value.digits)
             else e == WholeValue(n.exponent.value.digits)
    ensures var y := MovedPoint(WholeValue(n.whole) as real + FractionValue(fraction), e);
            NumeralValue(n) == if n.sign == "-" then -y else y
  {
    NoFraction();
    hide WholeValue, FractionValue, MovedPoint;
  }

  /** Its value is the number read. */
  lemma StrtodFinds(s: string)
    requires Strtod(s).Some?
    ensures IsNumeral(Found(s)) && NumeralText(Found(s)) == s[..Strtod(s).value.0]
    ensures Strtod(s).value.1 == NumeralValue(Found(s))
  {
    hide *;
    FoundText(s);
    var n := Found(s);
    var fraction := if n.fraction.None? then "" else n.fraction.value;
    var e := JsonParse.Exponent(s, FractionEnd(s)).1;
    StrtodIs(s);
    ExponentIs(s, FractionEnd(s));
    FoundParts(s);
    ValueIs(n, fraction, e);
    MagnitudeIs(n.whole, fraction, e);
    SignFound(s);
  }

  lemma FoundParts(s: string)
    ensures Found(s).exponent == ExponentFound(s, FractionEnd(s))
  {
  }

  lemma SignFound(s: string)
    requires s != []
    ensures Found(s).sign == "-" <==> s[0] == '-'
  {
    hide ReadDigits, DigitRun, WholeEnd, FractionEnd, ExponentFound;
  }

  lemma NoFraction()
    ensures FractionValue("") == 0.0
  {
  }

  /** The exponent part likewise. */
  lemma ExponentIs(s: string, i: nat)
    requires i <= |s|
    ensures var (k, e) := JsonParse.Exponent(s, i); var x := ExponentFound(s, i);
            && s[i..k] == ExponentText(x)
            && (x.Some? ==> && (x.value.mark == 'e' || x.value.mark == 'E') && IsSign(x.value.sign)
                            && AllDigits(x.value.digits) && x.value.digits != ""
                            && (if x.value.sign == "-" then e == 0 - WholeValue(x.value.digits)
                                else e == WholeValue(x.value.digits)))
            && (x.None? ==> e == 0)
  {
    hide ReadDigits, WholeValue;
    var x := ExponentFound(s, i);
    if x.Some? {
      var j := i + 1 + |x.value.sign|;
      var k := DigitRun(s, j);
      WholeIs(s[j..k]);
      assert s[i..k] == [s[i]] + s[i + 1..j] + s[j..k];
      assert s[i + 1] == '-' <==> x.value.sign == "-";
    }
  }

  // ---------- Numerals in full ----------

  /** A numeral is found in its own text. */
  lemma TextFinds(n: Numeral)
    requires IsNumeral(n)
    ensures var s := NumeralText(n); Found(s) == n && Strtod(s).Some? && Strtod(s).value.0 == |s|
  {
    hide ReadDigits, PowReal, JsonParse.Exponent, ExponentFound, ExponentText, NumeralText;
    hide WholeEnd, FractionEnd, SignEnd;
    PlacesIn(n);
    var s := NumeralText(n);
    ExponentFinds(s, FractionEnd(s), n.exponent);
  }

  lemma WholeEndIs(s: string, point: nat)
    requires SignEnd(s) <= point <= |s| && (forall k :: SignEnd(s) <= k < point ==> IsDigit(s[k]))
    requires point < |s| ==> !IsDigit(s[point])
    ensures WholeEnd(s) == point
  {
    DigitRunIs(s, SignEnd(s), point);
  }

  lemma FractionEndIs(s: string, end: nat)
    requires WholeEnd(s) <= end <= |s|
    requires if end == WholeEnd(s) then end < |s| ==> s[end] != '.'
             else && s[WholeEnd(s)] == '.' && (forall k :: WholeEnd(s) < k < end ==> IsDigit(s[k]))
                  && (end < |s| ==> !IsDigit(s[end]))
    ensures FractionEnd(s) == end
  {
    if end > WholeEnd(s) {
      DigitRunIs(s, WholeEnd(s) + 1, end);
    }
  }

  /** Where its parts end. */
  lemma PlacesIn(n: Numeral)
    requires IsNumeral(n)
    ensures var s := NumeralText(n); var fraction := if n.fraction.None? then "" else "." + n.fraction.value;
            && SignEnd(s) == |n.sign| && WholeEnd(s) == |n.sign| + |n.whole|
            && FractionEnd(s) == WholeEnd(s) + |fraction|
            && s[..SignEnd(s)] == n.sign && s[SignEnd(s)..WholeEnd(s)] == n.whole
            && (n.fraction.Some? ==> s[WholeEnd(s) + 1..FractionEnd(s)] == n.fraction.value)
            && s[FractionEnd(s)..] == ExponentText(n.exponent)
  {
    hide DigitRun, ExponentText, WholeEnd, FractionEnd, SignEnd;
    var s := NumeralText(n);
    var fraction := if n.fraction.None? then "" else "." + n.fraction.value;
    var tail := ExponentText(n.exponent);
    var point := |n.sign| + |n.whole|;
    var end := point + |fraction|;
    Slices(n.sign, n.whole, fraction, tail);
    TailStarts(n);
    SignIs(n.sign, n.whole + (fraction + tail));
    WholeEndIs(s, point);
    if n.fraction.Some? {
      BehindPoint(s, point, end, n.fraction.value);
    }
    FractionEndIs(s, end);
  }

  lemma BehindPoint(s: string, point: nat, end: nat, digits: string)
    requires point <= end <= |s| && s[point..end] == "." + digits && AllDigits(digits)
    ensures s[point] == '.' && s[point + 1..end] == digits && forall k :: point < k < end ==> IsDigit(s[k])
  {
    assert s[point + 1..end] == s[point..end][1..];
    assert forall k :: point < k < end ==> s[k] == digits[k - point - 1];
  }

  lemma Slices(a: string, b: string, c: string, d: string)
    ensures var s := a + b + c + d;
            && s == a + (b + (c + d)) && s[..|a|] == a && s[|a|..|a| + |b|] == b
            && s[|a| + |b|..|a| + |b| + |c|] == c && s[|a| + |b| + |c|..] == d
            && (forall k :: |a| <= k < |a| + |b| ==> s[k] == b[k - |a|])
            && (c != "" ==> s[|a| + |b|] == c[0]) && (c == "" && d != "" ==> s[|a| + |b|] == d[0])
            && (d != "" ==> s[|a| + |b| + |c|] == d[0])
  {
  }

  /** An exponent starts with its letter, so that no run of digits goes on into it. */
  lemma TailStarts(n: Numeral)
    requires IsNumeral(n)
    ensures var tail := ExponentText(n.exponent); tail != "" ==> !IsDigit(tail[0]) && tail[0] !in ".+-"
  {
  }

  /** What follows the sign starts with a digit or a point. */
  lemma SignIs(sign: string, rest: string)
    requires IsSign(sign) && rest != [] && rest[0] != '+' && rest[0] != '-'
    ensures SignEnd(sign + rest) == |sign|
  {
  }

  lemma ExponentFinds(s: string, i: nat, x: Option<JsonGrammar.Exponent>)
    requires i <= |s| && s[i..] == ExponentText(x)
    requires x.Some? ==> && (x.value.mark == 'e' || x.value.mark == 'E') && IsSign(x.value.sign)
                         && AllDigits(x.value.digits) && x.value.digits != ""
    ensures ExponentFound(s, i) == x && JsonParse.Exponent(s, i).0 == |s|
  {
    hide ReadDigits, DigitRun;
    if x.Some? {
      var mark, sign, digits := x.value.mark, x.value.sign, x.value.digits;
      assert s[i..] == [mark] + sign + digits;
      var j := i + 1 + |sign|;
      assert s[i] == mark && s[i + 1..j] == sign && s[j..] == digits && s[j..|s|] == digits;
      assert forall k :: j <= k < |s| ==> s[k] == digits[k - j];
      assert if sign == "" then s[i + 1] == digits[0] else s[i + 1] == sign[0];
      DigitRunIs(s, j, |s|);
    }
  }

  // ---------- parse_number ----------

  lemma {:induction false} RunIs(content: string, o: nat, i: nat, n: nat)
    requires i <= n <= 63 && o + n < |content| && !IsNumberChar(content[o + n])
    requires forall k :: o <= k < o + n ==> IsNumberChar(content[k])
    ensures NumberRun(content, o, i) == n
    decreases n - i
  {
    if i < n {
      RunIs(content, o, i + 1, n);
    }
  }

  lemma NumberChars(c: char)
    ensures IsNumberChar(c) <==> c in "0123456789+-eE."
  {
    var row := "0123456789+-eE.";
    assert row[0] == '0' && row[1] == '1' && row[2] == '2' && row[3] == '3' && row[4] == '4' && row[5] == '5';
    assert row[6] == '6' && row[7] == '7' && row[8] == '8' && row[9] == '9' && row[10] == '+';
    assert row[11] == '-' && row[12] == 'e' && row[13] == 'E' && row[14] == '.';
  }

  lemma TextChars(n: Numeral)
    requires IsNumeral(n)
    ensures forall k :: 0 <= k < |NumeralText(n)| ==> IsNumberChar(NumeralText(n)[k])
  {
    assert forall k :: 0 <= k < |n.sign| ==> IsNumberChar(n.sign[k]);
    assert forall k :: 0 <= k < |n.whole| ==> IsNumberChar(n.whole[k]);
    var e := ExponentText(n.exponent);
    assert forall k :: 0 <= k < |e| ==> IsNumberChar(e[k]);
  }

  /** A number that no further character of numbers follows is accepted exactly if it is a numeral of at most 63
      characters that starts with a minus sign or a digit, and is read as its value. */
  lemma NumberRead(content: string, o: nat, end: nat, d: real)
    requires o < end < |content| && (content[o] == '-' || IsDigit(content[o])) && !IsNumberChar(content[end])
    ensures NumberAt(content, o, end, d) <==> ParseNumber(content, o) == Ok(Number(d), end)
  {
    hide IsNumeral, NumeralText, NumeralValue, Strtod, Found, NumberRun, IsNumberChar;
    NumberChars(content[end]);
    if NumberAt(content, o, end, d) {
      var n :| IsNumeral(n) && content[o..end] == NumeralText(n) && d == NumeralValue(n);
      TextFinds(n);
      TextChars(n);
      StrtodFinds(NumeralText(n));
      assert forall k :: o <= k < end ==> content[k] == NumeralText(n)[k - o];
      RunIs(content, o, 0, end - o);
    }
    if ParseNumber(content, o) == Ok(Number(d), end) {
      var text := content[o..o + NumberRun(content, o, 0)];
      StrtodFinds(text);
      assert text[..end - o] == content[o..end];
    }
  }
}
