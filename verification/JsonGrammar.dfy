/** The texts cJSON.c accepts and what they mean, as a grammar on places in the input: RFC 8259, sections 2 to 7, and
    what the parser takes beyond it.

    Beyond the standard are: every character up to the space as white space, control characters in strings, "\u" with
    characters that are no hexadecimal digits, and numbers as `strtod` reads them.  Numbers have at most 63
    characters. */
module JsonGrammar {
  import opened JsonText
  import opened JsonTree
  import opened Text
  import opened Wrappers

  predicate Blank(content: string, a: nat, b: nat) {
    a <= b <= |content| && forall k :: a <= k < b ==> content[k] <= ' '
  }

  // ---------- Strings ----------

  function LowerDigit(d: nat): char
    requires d < 16
  {
    "0123456789abcdef"[d]
  }

  function UpperDigit(d: nat): char
    requires d < 16
  {
    "0123456789ABCDEF"[d]
  }

  /** A hexadecimal digit in either case. */
  predicate IsHexDigit(c: char, d: nat)
    requires d < 16
  {
    c == LowerDigit(d) || c == UpperDigit(d)
  }

  predicate HexDigitsAt(content: string, i: nat) {
    i + 4 <= |content| && forall k :: i <= k < i + 4 ==> content[k] in "0123456789abcdefABCDEF"
  }

  /** Four digits spell a number. */
  predicate Spells(s: string, h: nat) {
    && |s| == 4 && h < 0x1_0000
    && IsHexDigit(s[0], h / 4096) && IsHexDigit(s[1], h / 256 % 16)
    && IsHexDigit(s[2], h / 16 % 16) && IsHexDigit(s[3], h % 16)
  }

  /** A code point other than a surrogate. */
  type Scalar = u: nat | u <= 0x10ffff && !(0xd800 <= u <= 0xdfff)

  type Letter = k: nat | k < 8

  /** The letters of two-character escapes, and the codes they stand for. */
  const LETTERS := "\"\\/bfnrt"
  const CODES: seq<nat> := [0x22, 0x5c, 0x2f, 0x08, 0x0c, 0x0a, 0x0d, 0x09]

  /** What a string is made of; `Unread` is a "\u" whose four characters are not all digits. */
  datatype Piece = Plain(c: char) | Short(k: Letter) | Unicode(u: Scalar) | Pair(u: Scalar) | Unread

  function Width(p: Piece): nat {
    match p
    case Plain(_) => 1
    case Short(_) => 2
    case Unicode(_) => 6
    case Pair(_) => 12
    case Unread => 6
  }

  function Meaning(p: Piece): string {
    match p
    case Plain(c) => [c]
    case Short(k) => [CODES[k] as char]
    case Unicode(u) => Utf8(u)
    case Pair(u) => Utf8(u)
    case Unread => [NUL]
  }

  function MeaningAll(ps: seq<Piece>): string {
    if ps == [] then [] else Meaning(ps[0]) + MeaningAll(ps[1..])
  }

  predicate EscapeAt(content: string, i: nat, h: nat) {
    i + 6 <= |content| && content[i] == '\\' && content[i + 1] == 'u' && Spells(content[i + 2..i + 6], h)
  }

  /** A piece stands at `i` of a literal whose closing quote is at `end`.  A code point above 0xffff is escaped by the
      surrogate pair that RFC 2781, section 2.1, assigns to it. */
  predicate PieceAt(content: string, i: nat, end: nat, p: Piece)
    requires end < |content|
  {
    && i < end
    && match p
       case Plain(c) => content[i] == c && c != '\\'
       case Short(k) => content[i] == '\\' && content[i + 1] == LETTERS[k]
       case Unicode(u) => i + 6 <= end && u < 0x1_0000 && EscapeAt(content, i, u)
       case Pair(u) =>
         && i + 12 <= end && u >= 0x1_0000 && EscapeAt(content, i, 0xd800 + (u - 0x1_0000) / 0x400)
         && EscapeAt(content, i + 6, 0xdc00 + (u - 0x1_0000) % 0x400)
       case Unread =>
         i + 6 <= end && content[i] == '\\' && content[i + 1] == 'u' && !HexDigitsAt(content, i + 2)
  }

  /** Pieces up to the closing quote; the last may be an escape that has the quote as its letter. */
  predicate PiecesAt(content: string, i: nat, end: nat, ps: seq<Piece>)
    requires end < |content|
    decreases |ps|
  {
    if ps == [] then end <= i <= end + 1
    else PieceAt(content, i, end, ps[0]) && PiecesAt(content, i + Width(ps[0]), end, ps[1..])
  }

  /** How many backslashes stand right in front of `k`. */
  function Backslashes(content: string, start: nat, k: nat): nat
    requires start <= k <= |content|
    decreases k
  {
    if k == start || content[k - 1] != '\\' then 0 else 1 + Backslashes(content, start, k - 1)
  }

  predicate IsEscaped(content: string, start: nat, k: nat)
    requires start <= k <= |content|
  {
    Backslashes(content, start, k) % 2 == 1
  }

  /** The first quote from `start` on that is not escaped. */
  predicate ClosesAt(content: string, start: nat, end: nat) {
    && start <= end < |content| && content[end] == '"' && !IsEscaped(content, start, end)
    && forall k :: start <= k < end && content[k] == '"' ==> IsEscaped(content, start, k)
  }

  /** A C string ends at its first NUL. */
  predicate IsCString(text: string, s: string) {
    text <= s && NulFree(text) && (text == s || s[|text|] == NUL)
  }

  ghost predicate StringAt(content: string, o: nat, end: nat, text: string) {
    && o + 1 < end <= |content| && content[o] == '"' && ClosesAt(content, o + 1, end - 1)
    && exists ps :: PiecesAt(content, o + 1, end - 1, ps) && IsCString(text, MeaningAll(ps))
  }

  // ---------- Numbers ----------

  datatype Exponent = Exponent(mark: char, sign: string, digits: string)

  datatype Numeral = Numeral(sign: string, whole: string, fraction: Option<string>, exponent: Option<Exponent>)

  predicate IsSign(s: string) {
    s == "" || s == "+" || s == "-"
  }

  predicate IsNumeral(n: Numeral) {
    && IsSign(n.sign) && AllDigits(n.whole) && (n.fraction.Some? ==> AllDigits(n.fraction.value))
    && (n.whole != "" || (n.fraction.Some? && n.fraction.value != ""))
    && (n.exponent.Some? ==> && (n.exponent.value.mark == 'e' || n.exponent.value.mark == 'E')
                             && IsSign(n.exponent.value.sign)
                             && AllDigits(n.exponent.value.digits) && n.exponent.value.digits != "")
  }

  function ExponentText(e: Option<Exponent>): string {
    if e.None? then "" else [e.value.mark] + e.value.sign + e.value.digits
  }

  function NumeralText(n: Numeral): string {
    n.sign + n.whole + (if n.fraction.None? then "" else "." + n.fraction.value) + ExponentText(n.exponent)
  }

  /** Digits behind the point: each is worth a tenth of the one before. */
  function FractionValue(s: string): real
    requires AllDigits(s)
  {
    if s == "" then 0.0 else (DigitValue(s[0]) as real + FractionValue(s[1..])) / 10.0
  }

  /** `x` with the point moved `k` places to the right. */
  function MovedPoint(x: real, k: int): real
    decreases if k < 0 then -k else k
  {
    if k == 0 then x else if k > 0 then MovedPoint(10.0 * x, k - 1) else MovedPoint(x / 10.0, k + 1)
  }

  function NumeralValue(n: Numeral): real
    requires IsNumeral(n)
  {
    var x := WholeValue(n.whole) as real + (if n.fraction.None? then 0.0 else FractionValue(n.fraction.value));
    var k: int := if n.exponent.None? then 0 else WholeValue(n.exponent.value.digits);
    var y := MovedPoint(x, if n.exponent.Some? && n.exponent.value.sign == "-" then -k else k);
    if n.sign == "-" then -y else y
  }

  /** The numeral goes as far as there are characters of numbers, and starts with a minus sign or a digit. */
  ghost predicate NumberAt(content: string, o: nat, end: nat, d: real) {
    && o < end < |content| && end - o <= 63 && content[end] !in "0123456789+-eE."
    && (content[o] == '-' || IsDigit(content[o]))
    && exists n :: IsNumeral(n) && content[o..end] == NumeralText(n) && d == NumeralValue(n)
  }

  // ---------- Values ----------

  ghost predicate ValueAt(content: string, o: nat, end: nat, v: JSON)
    decreases v, 2
  {
    && o < end <= |content|
    && match v
       case Null => content[o..end] == "null"
       case False => content[o..end] == "false"
       case True => content[o..end] == "true"
       case Number(d) => NumberAt(content, o, end, d)
       case String(s) => StringAt(content, o, end, s)
       case Array(items) =>
         o + 1 < end && content[o] == '[' && content[end - 1] == ']' && ItemsAt(content, o + 1, end - 1, items)
       case Object(members) =>
         o + 1 < end && content[o] == '{' && content[end - 1] == '}' && MembersAt(content, o + 1, end - 1, members)
  }

  /** A value with white space around it fills the places from `a` to `b`. */
  ghost predicate PaddedAt(content: string, a: nat, b: nat, v: JSON)
    decreases v, 3
  {
    exists o: nat, end: nat :: Blank(content, a, o) && ValueAt(content, o, end, v) && Blank(content, end, b)
  }

  ghost predicate ItemsAt(content: string, a: nat, b: nat, items: seq<JSON>)
    decreases items, 0
  {
    if items == [] then Blank(content, a, b)
    else if |items| == 1 then PaddedAt(content, a, b, items[0])
    else exists c: nat :: c < b <= |content| && content[c] == ',' && PaddedAt(content, a, c, items[0])
                     && ItemsAt(content, c + 1, b, items[1..])
  }

  /** A name, a colon and a value fill the places from `a` to `b`. */
  ghost predicate MemberAt(content: string, a: nat, b: nat, m: Member)
    decreases m, 4
  {
    exists o: nat, end: nat, colon: nat ::
      && Blank(content, a, o) && StringAt(content, o, end, m.key) && Blank(content, end, colon)
      && colon < |content| && content[colon] == ':' && PaddedAt(content, colon + 1, b, m.value)
  }

  ghost predicate MembersAt(content: string, a: nat, b: nat, members: seq<Member>)
    decreases members, 0
  {
    if members == [] then Blank(content, a, b)
    else if |members| == 1 then MemberAt(content, a, b, members[0])
    else exists c: nat :: c < b <= |content| && content[c] == ',' && MemberAt(content, a, c, members[0])
                     && MembersAt(content, c + 1, b, members[1..])
  }

  /** Where the text begins: behind a byte order mark, if there is one. */
  function Beginning(content: string): nat {
    if |content| > 4 && content[..3] == ['\U{EF}', '\U{BB}', '\U{BF}'] then 3 else 0
  }

  /** The whole input, up to its final NUL, is one value nested no deeper than the limit. */
  ghost predicate DocumentOf(content: string, v: JSON) {
    |content| > 0 && Height(v) <= 1000 && PaddedAt(content, Beginning(content), |content| - 1, v)
  }
}
