/** The two loops of `parse_string` against the grammar: a literal is accepted exactly if it consists of pieces up to
    its closing quote, and is read as what they mean. */
module JsonLiterals {
  import opened JsonGrammar
  import opened JsonParse
  import opened JsonText
  import opened JsonTree
  import opened Text
  import opened Wrappers

  // ---------- Hexadecimal digits ----------

  lemma LowerIs(d: nat)
    requires d < 16
    ensures LowerDigit(d) as nat == if d < 10 then 0x30 + d else 0x61 + (d - 10)
  {
  }

  lemma UpperIs(d: nat)
    requires d < 16
    ensures UpperDigit(d) as nat == if d < 10 then 0x30 + d else 0x41 + (d - 10)
  {
  }

  /** Digits are read in both cases. */
  lemma HexDigitRead(c: char, d: nat)
    requires d < 16
    ensures IsHexDigit(c, d) <==> IsHex(c) && HexValue(c) == d
    ensures IsHex(LowerDigit(d)) && HexValue(LowerDigit(d)) == d && IsHex(UpperDigit(d)) && HexValue(UpperDigit(d)) == d
  {
    hide LowerDigit, UpperDigit;
    LowerIs(d);
    UpperIs(d);
  }

  /** Nothing else is. */
  lemma HexDigitsAre(c: char)
    ensures IsHex(c) <==> c in "0123456789abcdefABCDEF"
  {
    var row := "0123456789abcdefABCDEF";
    assert row[0] == '0' && row[1] == '1' && row[2] == '2' && row[3] == '3' && row[4] == '4' && row[5] == '5';
    assert row[6] == '6' && row[7] == '7' && row[8] == '8' && row[9] == '9' && row[10] == 'a' && row[11] == 'b';
    assert row[12] == 'c' && row[13] == 'd' && row[14] == 'e' && row[15] == 'f' && row[16] == 'A' && row[17] == 'B';
    assert row[18] == 'C' && row[19] == 'D' && row[20] == 'E' && row[21] == 'F';
  }

  /** Four digits make up exactly the number they are the digits of. */
  lemma DigitsOf(a: nat, b: nat, c: nat, d: nat, h: nat)
    requires a < 16 && b < 16 && c < 16 && d < 16
    ensures h == ((a * 16 + b) * 16 + c) * 16 + d
       <==> a == h / 4096 && b == h / 256 % 16 && c == h / 16 % 16 && d == h % 16
  {
    assert h / 16 / 16 == h / 256 && h / 256 / 16 == h / 4096;
  }

  lemma AllHexIs(content: string, i: nat)
    requires i + 4 <= |content|
    ensures AllHex(content, i) <==> HexDigitsAt(content, i)
  {
    HexDigitsAre(content[i]);
    HexDigitsAre(content[i + 1]);
    HexDigitsAre(content[i + 2]);
    HexDigitsAre(content[i + 3]);
    hide IsHexDigit, HexValue, IsHex;
    if AllHex(content, i) {
      forall k | i <= k < i + 4
        ensures content[k] in "0123456789abcdefABCDEF"
      {
        assert k == i || k == i + 1 || k == i + 2 || k == i + 3;
      }
    }
  }

  /** Four characters are read as the number they spell, and as zero if one of them is no digit. */
  lemma Hex4Read(content: string, i: nat, h: nat)
    requires i + 4 <= |content| && h < 0x1_0000
    ensures Spells(content[i..i + 4], h) <==> AllHex(content, i) && Hex4(content, i) == h
    ensures AllHex(content, i) <==> HexDigitsAt(content, i)
    ensures !AllHex(content, i) ==> Hex4(content, i) == 0
  {
    AllHexIs(content, i);
    var s := content[i..i + 4];
    assert s[0] == content[i] && s[1] == content[i + 1] && s[2] == content[i + 2] && s[3] == content[i + 3];
    assert h / 4096 < 16;
    HexDigitRead(s[0], h / 4096);
    HexDigitRead(s[1], h / 256 % 16);
    HexDigitRead(s[2], h / 16 % 16);
    HexDigitRead(s[3], h % 16);
    if AllHex(content, i) {
      DigitsOf(HexValue(s[0]), HexValue(s[1]), HexValue(s[2]), HexValue(s[3]), h);
    }
    hide IsHexDigit, HexValue, IsHex;
  }

  // ---------- Pieces ----------

  /** The second loop reads a piece as what it means. */
  lemma PieceRead(content: string, i: nat, end: nat, p: Piece, output: string)
    requires end < |content| && PieceAt(content, i, end, p)
    ensures Unescape(content, i, end, output) == Unescape(content, i + Width(p), end, output + Meaning(p))
  {
    hide Spells, HexDigitsAt, Hex4, AllHex, Utf8;
    match p
    case Plain(c) =>
    case Short(k) => LetterRead(k);
    case Unicode(u) => Hex4Read(content, i + 2, u);
    case Pair(u) => PairRead(content, i, end, u);
    case Unread =>
      Hex4Read(content, i + 2, 0);
      NulIsUtf8();
  }

  lemma LetterRead(k: Letter)
    ensures SimpleEscape(LETTERS[k]) == Some(CODES[k] as char) && LETTERS[k] != 'u'
  {
  }

  lemma NulIsUtf8()
    ensures Utf8(0) == [NUL]
  {
  }

  lemma PairRead(content: string, i: nat, end: nat, u: Scalar)
    requires end < |content| && PieceAt(content, i, end, Pair(u))
    ensures Utf16Literal(content, i, end) == Some((12, Utf8(u)))
  {
    hide Spells, HexDigitsAt, Hex4, AllHex, Utf8;
    var high, low := 0xd800 + (u - 0x1_0000) / 0x400, 0xdc00 + (u - 0x1_0000) % 0x400;
    Hex4Read(content, i + 2, high);
    Hex4Read(content, i + 8, low);
    assert FromSurrogates(high, low) == u;
  }

  /** Where the second loop goes on, a piece stands. */
  lemma PieceFound(content: string, i: nat, end: nat, output: string) returns (p: Option<Piece>)
    requires i < end < |content|
    ensures p.Some? ==> PieceAt(content, i, end, p.value)
    ensures p.None? ==> Unescape(content, i, end, output) == BadEscape(i)
  {
    hide Spells, HexDigitsAt, Hex4, AllHex, Utf8;
    if content[i] != '\\' {
      p := Some(Plain(content[i]));
    } else if content[i + 1] == 'u' {
      p := UnicodeFound(content, i, end);
    } else {
      p := LetterFound(content, i, end);
    }
  }

  lemma LetterFound(content: string, i: nat, end: nat) returns (p: Option<Piece>)
    requires i < end < |content| && content[i] == '\\'
    ensures p.Some? ==> PieceAt(content, i, end, p.value)
    ensures p.None? ==> SimpleEscape(content[i + 1]).None?
  {
    var c := content[i + 1];
    assert LETTERS[0] == '"' && LETTERS[1] == '\\' && LETTERS[2] == '/' && LETTERS[3] == 'b' && LETTERS[4] == 'f'
           && LETTERS[5] == 'n' && LETTERS[6] == 'r' && LETTERS[7] == 't';
    p := if c == '"' then Some(Short(0)) else if c == '\\' then Some(Short(1)) else if c == '/' then Some(Short(2))
         else if c == 'b' then Some(Short(3)) else if c == 'f' then Some(Short(4)) else if c == 'n' then Some(Short(5))
         else if c == 'r' then Some(Short(6)) else if c == 't' then Some(Short(7)) else None;
  }

  lemma UnicodeFound(content: string, i: nat, end: nat) returns (p: Option<Piece>)
    requires i < end < |content| && content[i] == '\\' && content[i + 1] == 'u'
    ensures p.Some? ==> PieceAt(content, i, end, p.value)
    ensures p.None? ==> Utf16Literal(content, i, end).None?
  {
    hide Spells, HexDigitsAt, Hex4, AllHex, Utf8;
    p := None;
    if i + 6 <= end {
      var first := Hex4(content, i + 2);
      Hex4Read(content, i + 2, first);
      if !AllHex(content, i + 2) {
        p := Some(Unread);
      } else if first < 0xd800 || first > 0xdfff {
        p := Some(Unicode(first));
      } else if first <= 0xdbff && i + 12 <= end && content[i + 6] == '\\' && content[i + 7] == 'u' {
        var second := Hex4(content, i + 8);
        Hex4Read(content, i + 8, second);
        if 0xdc00 <= second <= 0xdfff {
          var u := FromSurrogates(first, second);
          assert first == 0xd800 + (u - 0x1_0000) / 0x400 && second == 0xdc00 + (u - 0x1_0000) % 0x400;
          p := Some(Pair(u));
        }
      }
    }
  }

  lemma {:induction false} PiecesRead(content: string, i: nat, end: nat, ps: seq<Piece>, output: string)
    requires end < |content| && PiecesAt(content, i, end, ps)
    ensures Unescape(content, i, end, output) == Literal(output + MeaningAll(ps))
    decreases |ps|
  {
    hide PieceAt, Meaning;
    if ps == [] {
      assert output + MeaningAll(ps) == output;
    } else {
      PieceRead(content, i, end, ps[0], output);
      PiecesRead(content, i + Width(ps[0]), end, ps[1..], output + Meaning(ps[0]));
      assert output + Meaning(ps[0]) + MeaningAll(ps[1..]) == output + (Meaning(ps[0]) + MeaningAll(ps[1..]));
    }
  }

  /** What is read consists of pieces; where the loop gives up, none stands. */
  lemma {:induction false} PiecesFound(content: string, i: nat, end: nat, output: string) returns (ps: seq<Piece>)
    requires i <= end + 1 && end < |content|
    ensures Unescape(content, i, end, output).Literal? ==> PiecesAt(content, i, end, ps)
    decreases end + 1 - i
  {
    hide PieceAt, Meaning, Unescape;
    ps := [];
    if i < end {
      var p := PieceFound(content, i, end, output);
      if p.Some? {
        PieceRead(content, i, end, p.value, output);
        PieceEnds(content, i, end, p.value);
        var rest := PiecesFound(content, i + Width(p.value), end, output + Meaning(p.value));
        ps := [p.value] + rest;
      }
    }
  }

  lemma PieceEnds(content: string, i: nat, end: nat, p: Piece)
    requires end < |content| && PieceAt(content, i, end, p)
    ensures i < i + Width(p) <= end + 1
  {
  }

  // ---------- The closing quote ----------

  /** The first loop finds the first quote that is not escaped, and fails exactly if there is none. */
  lemma {:induction false} ScanFinds(content: string, start: nat, i: nat)
    requires start <= i <= |content| && !IsEscaped(content, start, i)
    requires forall k :: start <= k < i && content[k] == '"' ==> IsEscaped(content, start, k)
    ensures match ScanEnd(content, i)
            case Some(end) => ClosesAt(content, start, end)
            case None => forall end :: !ClosesAt(content, start, end)
    decreases |content| - i
  {
    if i < |content| && content[i] != '"' {
      if content[i] != '\\' {
        ScanFinds(content, start, i + 1);
      } else if i + 1 < |content| {
        assert Backslashes(content, start, i + 1) == 1 + Backslashes(content, start, i);
        ScanFinds(content, start, i + 2);
      }
    }
  }

  lemma OneClosing(content: string, start: nat, a: nat, b: nat)
    requires ClosesAt(content, start, a) && ClosesAt(content, start, b)
    ensures a == b
  {
  }

  lemma ClosingIs(content: string, start: nat, end: nat)
    requires start <= |content|
    ensures ClosesAt(content, start, end) <==> ScanEnd(content, start) == Some(end)
  {
    ScanFinds(content, start, start);
    if ClosesAt(content, start, end) {
      OneClosing(content, start, end, ScanEnd(content, start).value);
    }
  }

  // ---------- Strings ----------

  lemma {:induction false} CStringIs(s: string, text: string)
    ensures IsCString(text, s) <==> text == CString(s)
    decreases |s|
  {
    if s != [] && s[0] != NUL {
      CStringIs(s[1..], if text == [] then [] else text[1..]);
      if text != [] {
        assert text == [text[0]] + text[1..] && s == [s[0]] + s[1..];
        assert NulFree(text) <==> text[0] != NUL && NulFree(text[1..]) by {
          assert forall k :: 1 <= k < |text| ==> text[k] == text[1..][k - 1];
        }
      }
    }
  }

  /** `parse_string` accepts exactly the literals of the grammar, and reads them as what they mean. */
  lemma StringRead(content: string, o: nat, end: nat, text: string)
    requires o < |content|
    ensures StringAt(content, o, end, text) <==> ParseString(content, o) == Ok(String(text), end)
  {
    hide ClosesAt, PiecesAt, MeaningAll, IsCString, CString, Unescape, ScanEnd;
    if StringAt(content, o, end, text) {
      var ps :| PiecesAt(content, o + 1, end - 1, ps) && IsCString(text, MeaningAll(ps));
      ClosingIs(content, o + 1, end - 1);
      PiecesRead(content, o + 1, end - 1, ps, "");
      assert "" + MeaningAll(ps) == MeaningAll(ps);
      CStringIs(MeaningAll(ps), text);
    }
    if ParseString(content, o) == Ok(String(text), end) {
      ClosingIs(content, o + 1, end - 1);
      var ps := PiecesFound(content, o + 1, end - 1, "");
      PiecesRead(content, o + 1, end - 1, ps, "");
      assert "" + MeaningAll(ps) == MeaningAll(ps);
      CStringIs(MeaningAll(ps), text);
    }
  }

  // ---------- Where strings are refused ----------

  /** Pieces fill the places from `i` to `at`. */
  predicate PiecesUpTo(content: string, i: nat, at: nat, end: nat, ps: seq<Piece>)
    requires end < |content|
    decreases |ps|
  {
    if ps == [] then i == at
    else PieceAt(content, i, end, ps[0]) && PiecesUpTo(content, i + Width(ps[0]), at, end, ps[1..])
  }

  lemma {:induction false} RefusedBehind(content: string, i: nat, end: nat, output: string)
    requires end < |content| && Unescape(content, i, end, output).BadEscape?
    ensures i <= Unescape(content, i, end, output).at < end
    decreases end - i
  {
    hide Unescape;
    if i < end {
      var p := PieceFound(content, i, end, output);
      if p.Some? {
        PieceRead(content, i, end, p.value, output);
        PieceEnds(content, i, end, p.value);
        RefusedBehind(content, i + Width(p.value), end, output + Meaning(p.value));
      }
    } else {
      NothingUnescaped(content, i, end, output);
    }
  }

  lemma NothingUnescaped(content: string, i: nat, end: nat, output: string)
    requires end <= i && end < |content|
    ensures Unescape(content, i, end, output) == Literal(output)
  {
  }

  lemma NoPiece(content: string, i: nat, end: nat, output: string)
    requires i < end < |content| && Unescape(content, i, end, output) == BadEscape(i)
    ensures forall p :: !PieceAt(content, i, end, p)
  {
    hide PieceAt, Unescape;
    forall p | PieceAt(content, i, end, p)
      ensures false
    {
      PieceRead(content, i, end, p, output);
      PieceEnds(content, i, end, p);
      RefusedBehind(content, i + Width(p), end, output + Meaning(p));
    }
  }

  /** The second loop gives up at the first place where no piece stands. */
  lemma {:induction false} RefusedAt(content: string, i: nat, end: nat, output: string) returns (ps: seq<Piece>)
    requires end < |content| && Unescape(content, i, end, output).BadEscape?
    ensures var at := Unescape(content, i, end, output).at;
            at < end && PiecesUpTo(content, i, at, end, ps) && forall p :: !PieceAt(content, at, end, p)
    decreases end - i
  {
    hide PieceAt, Unescape, Meaning;
    RefusedBehind(content, i, end, output);
    var p := PieceFound(content, i, end, output);
    if p.Some? {
      PieceRead(content, i, end, p.value, output);
      PieceEnds(content, i, end, p.value);
      var rest := RefusedAt(content, i + Width(p.value), end, output + Meaning(p.value));
      ps := [p.value] + rest;
    } else {
      NoPiece(content, i, end, output);
      ps := [];
    }
  }

  /** No quote from `start` on closes a literal. */
  ghost predicate Unclosed(content: string, start: nat) {
    forall e :: !ClosesAt(content, start, e)
  }

  /** A string is refused at its second character if it does not begin with a quote or no quote closes it, and otherwise
      where the pieces end. */
  lemma StringRefused(content: string, o: nat) returns (end: nat, ps: seq<Piece>)
    requires o < |content| && ParseString(content, o).Fail?
    ensures var at := ParseString(content, o).at;
            if content[o] != '"' || Unclosed(content, o + 1) then at == o + 1
            else && ClosesAt(content, o + 1, end) && at < end && PiecesUpTo(content, o + 1, at, end, ps)
                 && forall p :: !PieceAt(content, at, end, p)
  {
    hide ClosesAt, PiecesAt, Unescape, ScanEnd, PieceAt, PiecesUpTo;
    end, ps := 0, [];
    if content[o] == '"' && ScanEnd(content, o + 1).Some? {
      end := ScanEnd(content, o + 1).value;
      ClosingIs(content, o + 1, end);
      ps := RefusedAt(content, o + 1, end, "");
    } else if content[o] == '"' {
      ScanFinds(content, o + 1, o + 1);
    }
  }

  // ---------- Standard literals ----------

  /** Pieces as RFC 8259, section 7, has them: no quote, and digits behind every "\u". */
  predicate StandardAt(content: string, i: nat, end: nat, ps: seq<Piece>)
    requires end < |content|
    decreases |ps|
  {
    if ps == [] then i == end
    else
      && PieceAt(content, i, end, ps[0]) && ps[0] != Plain('"') && !ps[0].Unread?
      && StandardAt(content, i + Width(ps[0]), end, ps[1..])
  }

  /** The first loop passes over a standard piece as a unit. */
  lemma PiecePassed(content: string, i: nat, end: nat, p: Piece)
    requires end < |content| && PieceAt(content, i, end, p) && p != Plain('"') && !p.Unread? && i + Width(p) <= end
    ensures ScanEnd(content, i) == ScanEnd(content, i + Width(p))
  {
    hide Spells;
    match p
    case Plain(c) =>
    case Short(k) =>
    case Unicode(u) => EscapePassed(content, i, u);
    case Pair(u) =>
      EscapePassed(content, i, 0xd800 + (u - 0x1_0000) / 0x400);
      EscapePassed(content, i + 6, 0xdc00 + (u - 0x1_0000) % 0x400);
  }

  lemma EscapePassed(content: string, i: nat, h: nat)
    requires EscapeAt(content, i, h) && i + 6 < |content|
    ensures ScanEnd(content, i) == ScanEnd(content, i + 6)
  {
    hide ScanEnd, IsHexDigit;
    var s := content[i + 2..i + 6];
    PlainDigit(s[0], h / 4096);
    PlainDigit(s[1], h / 256 % 16);
    PlainDigit(s[2], h / 16 % 16);
    PlainDigit(s[3], h % 16);
    BackslashPassed(content, i);
    PlainPassed(content, i + 2);
    PlainPassed(content, i + 3);
    PlainPassed(content, i + 4);
    PlainPassed(content, i + 5);
  }

  lemma PlainDigit(c: char, d: nat)
    requires d < 16 && IsHexDigit(c, d)
    ensures c != '"' && c != '\\'
  {
    HexDigitRead(c, d);
    hide IsHexDigit;
  }

  lemma BackslashPassed(content: string, i: nat)
    requires i + 1 < |content| && content[i] == '\\'
    ensures ScanEnd(content, i) == ScanEnd(content, i + 2)
  {
  }

  lemma PlainPassed(content: string, i: nat)
    requires i < |content| && content[i] != '"' && content[i] != '\\'
    ensures ScanEnd(content, i) == ScanEnd(content, i + 1)
  {
  }

  lemma {:induction false} StandardPassed(content: string, i: nat, end: nat, ps: seq<Piece>)
    requires end < |content| && content[end] == '"' && StandardAt(content, i, end, ps)
    ensures ScanEnd(content, i) == Some(end) && PiecesAt(content, i, end, ps)
    decreases |ps|
  {
    hide PieceAt;
    if ps != [] {
      StandardEnds(content, i + Width(ps[0]), end, ps[1..]);
      PiecePassed(content, i, end, ps[0]);
      StandardPassed(content, i + Width(ps[0]), end, ps[1..]);
    }
  }

  lemma {:induction false} StandardEnds(content: string, i: nat, end: nat, ps: seq<Piece>)
    requires end < |content| && StandardAt(content, i, end, ps)
    ensures i <= end
    decreases |ps|
  {
  }

  /** Every literal of the standard is accepted: characters as they are, the eight short escapes, and code points
      escaped with digits in either case, one above 0xffff by its surrogate pair; these are read as UTF-8. */
  lemma LiteralRead(content: string, o: nat, end: nat, ps: seq<Piece>)
    requires o < end < |content| && content[o] == '"' && content[end] == '"' && StandardAt(content, o + 1, end, ps)
    ensures exists text :: IsCString(text, MeaningAll(ps)) && ParseString(content, o) == Ok(String(text), end + 1)
    ensures NulFree(MeaningAll(ps)) ==> ParseString(content, o) == Ok(String(MeaningAll(ps)), end + 1)
  {
    hide StandardAt, PiecesAt, ClosesAt, MeaningAll, Unescape, ScanEnd, NulFree, IsCString, CString;
    StandardPassed(content, o + 1, end, ps);
    PiecesRead(content, o + 1, end, ps, "");
    assert "" + MeaningAll(ps) == MeaningAll(ps);
    CStringIs(MeaningAll(ps), CString(MeaningAll(ps)));
  }
}
