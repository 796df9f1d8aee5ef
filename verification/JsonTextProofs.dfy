/** Strings printed and read back, and the encodings the parser produces against their standards. */
module JsonTextProofs {
  import opened JsonTree
  import opened JsonRender
  import opened JsonText
  import opened Text
  import opened Wrappers

  lemma HexOfDigit(d: nat)
    requires d < 16
    ensures IsHex(HexDigit(d)) && HexValue(HexDigit(d)) == d
  {
  }

  /** Both loops pass over one escaped character as a unit. */
  lemma OverOneCharacter(content: string, i: nat, c: char, end: nat, output: string)
    requires At(content, i, Escape(c)) && i + |Escape(c)| <= end < |content|
    ensures ScanEnd(content, i) == ScanEnd(content, i + |Escape(c)|)
    ensures Unescape(content, i, end, output) == Unescape(content, i + |Escape(c)|, end, output + [c])
  {
    var e := Escape(c);
    AtIndex(content, i, e, 0);
    if |e| == 2 {
      AtIndex(content, i, e, 1);
    } else if |e| == 6 {
      OverUnicode(content, i, c, end, output);
    }
  }

  lemma OverUnicode(content: string, i: nat, c: char, end: nat, output: string)
    requires |Escape(c)| == 6 && At(content, i, Escape(c)) && i + 6 <= end < |content|
    ensures ScanEnd(content, i) == ScanEnd(content, i + 6)
    ensures Unescape(content, i, end, output) == Unescape(content, i + 6, end, output + [c])
  {
    var e := Escape(c);
    AtIndex(content, i, e, 0);
    AtIndex(content, i, e, 1);
    AtIndex(content, i, e, 2);
    AtIndex(content, i, e, 3);
    AtIndex(content, i, e, 4);
    AtIndex(content, i, e, 5);
    HexOfDigit(c as int / 16);
    HexOfDigit(c as int % 16);
    assert Hex4(content, i + 2) == c as int;
    assert Utf16Literal(content, i, end) == Some((6, [c]));
    assert ScanEnd(content, i) == ScanEnd(content, i + 2);
    assert ScanEnd(content, i + 3) == ScanEnd(content, i + 4);
    assert ScanEnd(content, i + 4) == ScanEnd(content, i + 5);
  }

  lemma {:induction false} OverEscaped(content: string, i: nat, s: string, end: nat, output: string)
    requires At(content, i, EscapeAll(s)) && end == i + |EscapeAll(s)| < |content| && content[end] == '"'
    ensures ScanEnd(content, i) == Some(end)
    ensures Unescape(content, i, end, output) == Literal(output + s)
    decreases |s|
  {
    hide Escape, At;
    if s == [] {
      assert output + s == output;
    } else {
      AtAppend(content, i, Escape(s[0]), EscapeAll(s[1..]));
      OverOneCharacter(content, i, s[0], end, output);
      OverEscaped(content, i + |Escape(s[0])|, s[1..], end, output + [s[0]]);
      assert output + [s[0]] + s[1..] == output + s;
    }
  }

  /** `parse_string` undoes `print_string_ptr`. */
  lemma QuoteRead(content: string, o: nat, s: string)
    requires At(content, o, Quote(s))
    ensures |Quote(s)| == |EscapeAll(s)| + 2 && content[o] == '"'
    ensures var end := o + 1 + |EscapeAll(s)|;
            ScanEnd(content, o + 1) == Some(end) && Unescape(content, o + 1, end, "") == Literal(s)
  {
    hide EscapeAll, At, Unescape, ScanEnd;
    var e := EscapeAll(s);
    AtAppend(content, o, "\"" + e, "\"");
    AtAppend(content, o, "\"", e);
    AtIndex(content, o, "\"", 0);
    AtIndex(content, o + 1 + |e|, "\"", 0);
    OverEscaped(content, o + 1, s, o + 1 + |e|, "");
    assert "" + s == s;
  }

  // ---------- Against the standards ----------

  /** The code point of a UTF-8 sequence (the table of RFC 3629, section 3, read backwards). */
  function CodePoint(s: string): int
    requires 1 <= |s| <= 4
  {
    var first := s[0] as int;
    if |s| == 1 then first
    else if |s| == 2 then first % 32 * 64 + s[1] as int % 64
    else if |s| == 3 then (first % 16 * 64 + s[1] as int % 64) * 64 + s[2] as int % 64
    else ((first % 8 * 64 + s[1] as int % 64) * 64 + s[2] as int % 64) * 64 + s[3] as int % 64
  }

  lemma BaseDigits(n: nat)
    requires n <= 0x10ffff
    ensures n == n / 64 * 64 + n % 64
    ensures n / 64 == n / 4096 * 64 + n / 64 % 64
    ensures n / 4096 == n / 262144 * 64 + n / 4096 % 64
    ensures n < 0x800 ==> n / 64 < 32
    ensures n < 0x1_0000 ==> n / 4096 < 16
    ensures n / 262144 < 8
  {
    assert n / 64 / 64 == n / 4096;
    assert n / 4096 / 64 == n / 262144;
  }

  lemma ContinuationValue(bits: nat)
    ensures Continuation(bits) as int % 64 == bits % 64
  {
  }

  /** A byte between two bounds. */
  predicate In(c: char, low: nat, high: nat) {
    low <= c as nat <= high
  }

  /** The byte sequences of RFC 3629, section 4. */
  predicate IsUtf8(s: string) {
    match |s|
    case 1 => In(s[0], 0x00, 0x7f)
    case 2 => In(s[0], 0xc2, 0xdf) && In(s[1], 0x80, 0xbf)
    case 3 =>
      && (|| (In(s[0], 0xe0, 0xe0) && In(s[1], 0xa0, 0xbf)) || (In(s[0], 0xe1, 0xec) && In(s[1], 0x80, 0xbf))
          || (In(s[0], 0xed, 0xed) && In(s[1], 0x80, 0x9f)) || (In(s[0], 0xee, 0xef) && In(s[1], 0x80, 0xbf)))
      && In(s[2], 0x80, 0xbf)
    case 4 =>
      && (|| (In(s[0], 0xf0, 0xf0) && In(s[1], 0x90, 0xbf)) || (In(s[0], 0xf1, 0xf3) && In(s[1], 0x80, 0xbf))
          || (In(s[0], 0xf4, 0xf4) && In(s[1], 0x80, 0x8f)))
      && In(s[2], 0x80, 0xbf) && In(s[3], 0x80, 0xbf)
    case _ => false
  }

  lemma ContinuationRange(bits: nat)
    ensures In(Continuation(bits), 0x80, 0xbf)
  {
  }

  /** Code points other than surrogates are encoded in the sequences of the standard. */
  lemma Utf8IsStandard(codepoint: nat)
    requires codepoint <= 0x10ffff && !(0xd800 <= codepoint <= 0xdfff)
    ensures IsUtf8(Utf8(codepoint))
  {
    ContinuationRange(codepoint);
    ContinuationRange(codepoint / 64);
    ContinuationRange(codepoint / 4096);
    BaseDigits(codepoint);
  }

  lemma Utf8IsDecodable(codepoint: nat)
    requires codepoint <= 0x10ffff
    ensures CodePoint(Utf8(codepoint)) == codepoint
    ensures |Utf8(codepoint)| == if codepoint <= 0x7f then 1 else if codepoint <= 0x7ff then 2
                                 else if codepoint <= 0xffff then 3 else 4
  {
    hide Continuation;
    BaseDigits(codepoint);
    ContinuationValue(codepoint);
    ContinuationValue(codepoint / 64);
    ContinuationValue(codepoint / 4096);
    var s, first := Utf8(codepoint), Utf8(codepoint)[0] as int;
    if codepoint < 0x80 {
    } else if codepoint < 0x800 {
      assert first % 32 == codepoint / 64;
    } else if codepoint < 0x1_0000 {
      assert first % 16 == codepoint / 4096;
    } else {
      assert first % 8 == codepoint / 262144;
    }
  }
}
