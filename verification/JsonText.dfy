/** The parser of cJSON.c as functions on the NUL-terminated input: strings.

    `Unescape` runs over the characters between the quotes the way the second loop of `parse_string` does, and `ScanEnd`
    the way the first one does.  The two disagree about where escapes begin when "\u" is followed by characters that
    are not hexadecimal digits, because `parse_hex4` then reads zero and six characters are consumed all the same. */
module JsonText {
  import opened JsonTree
  import opened Wrappers

  /** The input as the parser sees it: its last character is NUL. */
  predicate Terminated(content: string) {
    |content| > 0 && content[|content| - 1] == NUL
  }

  // ---------- Hexadecimal and UTF-8 ----------

  predicate IsHex(c: char) {
    '0' <= c <= '9' || 'A' <= c <= 'F' || 'a' <= c <= 'f'
  }

  function HexValue(c: char): (h: nat)
    requires IsHex(c)
    ensures h < 16
  {
    if '0' <= c <= '9' then c as int - '0' as int
    else if 'A' <= c <= 'F' then 10 + (c as int - 'A' as int)
    else 10 + (c as int - 'a' as int)
  }

  predicate AllHex(content: string, i: nat)
    requires i + 4 <= |content|
  {
    IsHex(content[i]) && IsHex(content[i + 1]) && IsHex(content[i + 2]) && IsHex(content[i + 3])
  }

  /** `parse_hex4`: zero when any of the four characters is no digit. */
  function Hex4(content: string, i: nat): (h: nat)
    requires i + 4 <= |content|
    ensures h < 0x1_0000
  {
    if AllHex(content, i)
    then ((HexValue(content[i]) * 16 + HexValue(content[i + 1])) * 16 + HexValue(content[i + 2])) * 16
         + HexValue(content[i + 3])
    else 0
  }

  /** The UTF-8 encoding of a code point (RFC 3629, section 3). */
  function Utf8(codepoint: nat): (s: string)
    requires codepoint <= 0x10ffff
    ensures 1 <= |s| <= 4
  {
    if codepoint < 0x80 then [codepoint as char]
    else if codepoint < 0x800 then [(0xc0 + codepoint / 64) as char, Continuation(codepoint)]
    else if codepoint < 0x1_0000 then
      [(0xe0 + codepoint / 4096) as char, Continuation(codepoint / 64), Continuation(codepoint)]
    else
      [(0xf0 + codepoint / 262144) as char, Continuation(codepoint / 4096), Continuation(codepoint / 64),
       Continuation(codepoint)]
  }

  function Continuation(bits: nat): char {
    (0x80 + bits % 64) as char
  }

  /** The code point a surrogate pair stands for (RFC 2781, section 2.2). */
  function FromSurrogates(high: nat, low: nat): (codepoint: nat)
    requires 0xd800 <= high <= 0xdbff && 0xdc00 <= low <= 0xdfff
    ensures 0x1_0000 <= codepoint <= 0x10ffff
  {
    0x1_0000 + (high % 0x400) * 0x400 + low % 0x400
  }

  /** `utf16_literal_to_utf8` at the backslash of a "\u": the characters consumed and the bytes they stand for. */
  function Utf16Literal(content: string, i: nat, end: nat): (r: Option<(nat, string)>)
    requires end <= |content|
    ensures r.Some? ==> (r.value.0 == 6 || r.value.0 == 12) && i + r.value.0 <= end
  {
    if i + 6 > end then None
    else
      var first := Hex4(content, i + 2);
      if 0xdc00 <= first <= 0xdfff then None
      else if 0xd800 <= first <= 0xdbff then
        if i + 12 > end || content[i + 6] != '\\' || content[i + 7] != 'u' then None
        else
          var second := Hex4(content, i + 8);
          if second < 0xdc00 || second > 0xdfff then None
          else Some((12, Utf8(FromSurrogates(first, second))))
      else Some((6, Utf8(first)))
  }

  // ---------- The two loops of parse_string ----------

  /** The first loop: the index of the closing quote. */
  function ScanEnd(content: string, i: nat): (end: Option<nat>)
    requires i <= |content|
    ensures end.Some? ==> i <= end.value < |content| && content[end.value] == '"'
    decreases |content| - i
  {
    if i == |content| then None
    else if content[i] == '"' then Some(i)
    else if content[i] != '\\' then ScanEnd(content, i + 1)
    else if i + 1 >= |content| then None
    else ScanEnd(content, i + 2)
  }

  /** The backslashes the first loop counts as skipped. */
  function Skipped(content: string, i: nat, end: nat): nat
    requires i <= |content| && ScanEnd(content, i) == Some(end)
    decreases |content| - i
  {
    if content[i] == '"' then 0
    else if content[i] != '\\' then Skipped(content, i + 1, end)
    else 1 + Skipped(content, i + 2, end)
  }

  /** What a two-character escape stands for. */
  function SimpleEscape(c: char): Option<char> {
    match c
    case 'b' => Some(BACKSPACE)
    case 'f' => Some(FORM_FEED)
    case 'n' => Some('\n')
    case 'r' => Some('\r')
    case 't' => Some('\t')
    case '"' => Some('"')
    case '\\' => Some('\\')
    case '/' => Some('/')
    case _ => None
  }

  datatype Unescaped = Literal(output: string) | BadEscape(at: nat)

  /** The second loop, `output` being what it has written so far.  Its last escape may run one character past `end`. */
  function Unescape(content: string, i: nat, end: nat, output: string): Unescaped
    requires end < |content|
    decreases end - i
  {
    if i >= end then Literal(output)
    else if content[i] != '\\' then Unescape(content, i + 1, end, output + [content[i]])
    else if content[i + 1] == 'u' then
      var literal := Utf16Literal(content, i, end);
      if literal.None? then BadEscape(i) else Unescape(content, i + literal.value.0, end, output + literal.value.1)
    else
      var c := SimpleEscape(content[i + 1]);
      if c.None? then BadEscape(i) else Unescape(content, i + 2, end, output + [c.value])
  }

  // ---------- No overrun ----------

  /** At a place in the literal the second loop is either in step with the first, or on a character the first loop has
      passed as the second half of an escape. */
  datatype Pace = InStep | OnEscaped

  /** The first loop, resumed where the pace says, reaches the same end. */
  predicate Paced(content: string, i: nat, end: nat, pace: Pace) {
    && end < |content|
    && (i <= end ==> if pace.InStep? then ScanEnd(content, i) == Some(end)
                     else i < end && ScanEnd(content, i + 1) == Some(end))
  }

  /** The characters from `i` on that the first loop does not skip: the room its estimate leaves for them. */
  function Room(content: string, i: nat, end: nat, pace: Pace): int
    requires Paced(content, i, end, pace)
  {
    if i > end then 0
    else if pace.InStep? then end - i - Skipped(content, i, end)
    else end - i - Skipped(content, i + 1, end)
  }

  function NextPace(content: string, i: nat, pace: Pace): Pace
    requires i < |content|
  {
    if pace.InStep? && content[i] == '\\' then OnEscaped else InStep
  }

  /** One character on, the room shrinks by one unless the character is a backslash the first loop counted. */
  lemma OneCharacter(content: string, i: nat, end: nat, pace: Pace)
    requires i < end && Paced(content, i, end, pace)
    ensures Paced(content, i + 1, end, NextPace(content, i, pace))
    ensures Room(content, i, end, pace) == Room(content, i + 1, end, NextPace(content, i, pace))
                                           + (if NextPace(content, i, pace).OnEscaped? then 0 else 1)
  {
  }

  /** `k` characters on: at most every second one is a counted backslash. */
  lemma {:induction false} Characters(content: string, i: nat, k: nat, end: nat, pace: Pace) returns (after: Pace)
    requires i + k <= end && Paced(content, i, end, pace)
    ensures Paced(content, i + k, end, after)
    ensures 2 * (Room(content, i, end, pace) - Room(content, i + k, end, after))
         >= k - (if after.OnEscaped? then 1 else 0) + (if pace.OnEscaped? then 1 else 0)
    decreases k
  {
    if k == 0 {
      after := pace;
    } else {
      OneCharacter(content, i, end, pace);
      after := Characters(content, i + 1, k - 1, end, NextPace(content, i, pace));
    }
  }

  lemma {:induction false} RoomIsNatural(content: string, i: nat, end: nat, pace: Pace)
    requires Paced(content, i, end, pace)
    ensures Room(content, i, end, pace) >= 0
    decreases end - i
  {
    if i < end {
      OneCharacter(content, i, end, pace);
      RoomIsNatural(content, i + 1, end, NextPace(content, i, pace));
    }
  }

  /** One turn of the second loop writes no more than the room shrinks by. */
  lemma OneTurn(content: string, i: nat, end: nat, pace: Pace, consumed: nat, written: nat) returns (after: Pace)
    requires i < end && Paced(content, i, end, pace)
    requires content[i] != '\\' ==> consumed == 1 && written == 1
    requires content[i] == '\\' ==> (consumed == 2 && written == 1)
                                     || (consumed == 6 && written <= 3 && i + 6 <= end)
                                     || (consumed == 12 && written <= 4 && i + 12 <= end)
    ensures Paced(content, i + consumed, end, after)
    ensures written <= Room(content, i, end, pace) - Room(content, i + consumed, end, after)
  {
    if consumed == 1 {
      OneCharacter(content, i, end, pace);
      after := NextPace(content, i, pace);
    } else if i + consumed <= end {
      after := Characters(content, i, consumed, end, pace);
    } else {
      // The escape begins on the last character, which the first loop has passed already.
      OneCharacter(content, i, end, pace);
      after := InStep;
    }
  }

  lemma Utf8OfLiteral(content: string, i: nat, end: nat)
    requires end <= |content| && Utf16Literal(content, i, end).Some?
    ensures var r := Utf16Literal(content, i, end).value;
            1 <= |r.1| <= if r.0 == 6 then 3 else 4
  {
  }

  /** The second loop never writes more than the first one's estimate provides for, whatever the input. */
  lemma {:induction false} NoOverrun(content: string, i: nat, end: nat, output: string, pace: Pace)
    requires Paced(content, i, end, pace)
    ensures match Unescape(content, i, end, output)
            case Literal(result) => |result| <= |output| + Room(content, i, end, pace)
            case BadEscape(at) => i <= at < end
    decreases end - i
  {
    RoomIsNatural(content, i, end, pace);
    if i < end {
      if content[i] != '\\' {
        var after := OneTurn(content, i, end, pace, 1, 1);
        NoOverrun(content, i + 1, end, output + [content[i]], after);
      } else if content[i + 1] == 'u' {
        var literal := Utf16Literal(content, i, end);
        if literal.Some? {
          Utf8OfLiteral(content, i, end);
          var after := OneTurn(content, i, end, pace, literal.value.0, |literal.value.1|);
          NoOverrun(content, i + literal.value.0, end, output + literal.value.1, after);
        }
      } else if SimpleEscape(content[i + 1]).Some? {
        var after := OneTurn(content, i, end, pace, 2, 1);
        NoOverrun(content, i + 2, end, output + [SimpleEscape(content[i + 1]).value], after);
      }
    }
  }

  /** `allocation_length` of the source plus one, for a literal whose first character is at `start`. */
  function Allocation(content: string, start: nat, end: nat): int
    requires 0 < start <= |content| && ScanEnd(content, start) == Some(end)
  {
    end - (start - 1) - Skipped(content, start, end) + 1
  }

  /** The bytes written, the closing NUL included, leave at least one allocated byte unused. */
  lemma AllocationSuffices(content: string, start: nat, end: nat)
    requires 0 < start <= |content| && ScanEnd(content, start) == Some(end)
    ensures match Unescape(content, start, end, "")
            case Literal(output) => |output| + 1 <= Allocation(content, start, end) - 1
            case BadEscape(at) => start <= at < end
  {
    NoOverrun(content, start, end, "", InStep);
  }
}
