/** The recursive-descent parser of cJSON.c as functions of the input and an offset.

    `Terminated` input ends with NUL, which counts as white space for `buffer_skip_whitespace`; the skip steps back
    onto it, so that an offset handed on is always a readable one. */
module JsonParse {
  import opened JsonTree
  import opened JsonText
  import opened Text
  import opened Wrappers

  /** The value read and the offset after it, or where parsing gave up. */
  datatype Parsed = Ok(value: JSON, offset: nat) | Fail(at: nat)

  // ---------- Numbers ----------

  predicate IsNumberChar(c: char) {
    IsDigit(c) || c == '+' || c == '-' || c == 'e' || c == 'E' || c == '.'
  }

  /** How many characters go into the 64-byte buffer handed to `strtod`. */
  function NumberRun(content: string, o: nat, i: nat): (n: nat)
    requires o + i <= |content| && i <= 63
    ensures i <= n <= 63 && o + n <= |content|
    ensures forall k :: o + i <= k < o + n ==> IsNumberChar(content[k])
    decreases 63 - i
  {
    if i < 63 && o + i < |content| && IsNumberChar(content[o + i]) then NumberRun(content, o, i + 1) else i
  }

  function DigitRun(s: string, i: nat): (n: nat)
    requires i <= |s|
    ensures i <= n <= |s| && forall k :: i <= k < n ==> IsDigit(s[k])
    decreases |s| - i
  {
    if i < |s| && IsDigit(s[i]) then DigitRun(s, i + 1) else i
  }

  function PowReal(e: int): real {
    if e >= 0 then Pow10(e) as real else 1.0 / Pow10(-e) as real
  }

  /** The exponent part at `i`: where it ends and its value; absent when no digit follows. */
  function Exponent(s: string, i: nat): (r: (nat, int))
    requires i <= |s|
    ensures i <= r.0 <= |s|
  {
    if i < |s| && (s[i] == 'e' || s[i] == 'E') then
      var j := if i + 1 < |s| && (s[i + 1] == '+' || s[i + 1] == '-') then i + 2 else i + 1;
      var k := DigitRun(s, j);
      if k == j then (i, 0)
      else
        var e: int := ReadDigits(s[j..k], 0);
        (k, if s[i + 1] == '-' then -e else e)
    else (i, 0)
  }

  /** Where the digits behind the sign end. */
  function WholeEnd(s: string): (n: nat)
    ensures SignEnd(s) <= n <= |s| && AllDigits(s[SignEnd(s)..n])
  {
    DigitRun(s, SignEnd(s))
  }

  function SignEnd(s: string): (n: nat)
    ensures n <= |s|
  {
    if s != [] && (s[0] == '+' || s[0] == '-') then 1 else 0
  }

  /** Where the digits behind the point end, if there is one. */
  function FractionEnd(s: string): (n: nat)
    ensures WholeEnd(s) <= n <= |s| && (n > WholeEnd(s) ==> s[WholeEnd(s)] == '.' && AllDigits(s[WholeEnd(s) + 1..n]))
  {
    if WholeEnd(s) < |s| && s[WholeEnd(s)] == '.' then DigitRun(s, WholeEnd(s) + 1) else WholeEnd(s)
  }

  /** `strtod` on a text of such characters: the longest prefix that is a decimal number, and its exact value. */
  function Strtod(s: string): (r: Option<(nat, real)>)
    ensures r.Some? ==> 0 < r.value.0 <= |s|
  {
    var whole := s[SignEnd(s)..WholeEnd(s)];
    var fraction := if FractionEnd(s) > WholeEnd(s) then s[WholeEnd(s) + 1..FractionEnd(s)] else [];
    if whole + fraction == [] then None
    else
      var exponent := Exponent(s, FractionEnd(s));
      assert AllDigits(whole) && AllDigits(fraction);
      var magnitude := ReadDigits(whole + fraction, 0) as real * PowReal(exponent.1 - |fraction|);
      Some((exponent.0, if s[0] == '-' then -magnitude else magnitude))
  }

  function ParseNumber(content: string, o: nat): (r: Parsed)
    requires o <= |content|
    ensures r.Ok? ==> o < r.offset <= |content| && IsNumberChar(content[r.offset - 1])
  {
    var text := content[o..o + NumberRun(content, o, 0)];
    var number := Strtod(text);
    if number.None? then Fail(o) else Ok(Number(number.value.1), o + number.value.0)
  }

  // ---------- White space and strings ----------

  function SkipTo(content: string, o: nat): (r: nat)
    requires o <= |content|
    ensures o <= r <= |content|
    ensures r < |content| ==> content[r] > ' '
    decreases |content| - o
  {
    if o < |content| && content[o] <= ' ' then SkipTo(content, o + 1) else o
  }

  /** `buffer_skip_whitespace`. */
  function Skip(content: string, o: nat): (r: nat)
    requires Terminated(content) && o <= |content|
    ensures r < |content| && (o < |content| ==> o <= r)
    ensures content[r] > ' ' || r == |content| - 1
  {
    var r := SkipTo(content, o);
    if r == |content| then r - 1 else r
  }

  /** The characters up to the first NUL: what a C string holds. */
  function CString(s: string): (r: string)
    ensures NulFree(r) && (NulFree(s) ==> r == s)
  {
    if s == [] || s[0] == NUL then []
    else
      var r := [s[0]] + CString(s[1..]);
      assert NulFree(s) ==> NulFree(s[1..]) && s == [s[0]] + s[1..];
      r
  }

  function ParseString(content: string, o: nat): (r: Parsed)
    requires o < |content|
    ensures r.Ok? ==> r.value.String? && o + 1 < r.offset <= |content| && content[r.offset - 1] == '"'
    ensures r.Ok? ==> NulFree(r.value.text)
  {
    if content[o] != '"' then Fail(o + 1)
    else
      var end := ScanEnd(content, o + 1);
      if end.None? then Fail(o + 1)
      else
        match Unescape(content, o + 1, end.value, "")
        case BadEscape(at) => Fail(at)
        case Literal(output) => Ok(String(CString(output)), end.value + 1)
  }

  // ---------- Values ----------

  /** `parse_value`. */
  function ParseValue(content: string, o: nat, depth: nat): (r: Parsed)
    requires Terminated(content) && o < |content|
    ensures r.Ok? ==> o < r.offset < |content|
    decreases |content| - o, 3
  {
    if At(content, o, "null") then AfterLiteral(content, o, "null"); Ok(Null, o + 4)
    else if At(content, o, "false") then AfterLiteral(content, o, "false"); Ok(False, o + 5)
    else if At(content, o, "true") then AfterLiteral(content, o, "true"); Ok(True, o + 4)
    else if content[o] == '"' then ParseString(content, o)
    else if content[o] == '-' || IsDigit(content[o]) then ParseNumber(content, o)
    else if content[o] == '[' then ParseArray(content, o, depth)
    else if content[o] == '{' then ParseObject(content, o, depth)
    else Fail(o)
  }

  lemma AfterLiteral(content: string, o: nat, text: string)
    requires Terminated(content) && At(content, o, text) && text != [] && text[|text| - 1] != NUL
    ensures o + |text| < |content|
  {
    AtIndex(content, o, text, |text| - 1);
  }

  /** `parse_array`. */
  function ParseArray(content: string, o: nat, depth: nat): (r: Parsed)
    requires Terminated(content) && o < |content| && content[o] == '['
    ensures r.Ok? ==> o < r.offset < |content|
    decreases |content| - o, 2
  {
    if depth >= NESTING_LIMIT then Fail(o)
    else
      var first := Skip(content, o + 1);
      if content[first] == ']' then Ok(Array([]), first + 1)
      else ParseItems(content, first - 1, depth + 1, [])
  }

  /** The loop of `parse_array`, entered one character before the next element. */
  function ParseItems(content: string, q: nat, depth: nat, items: seq<JSON>): (r: Parsed)
    requires Terminated(content) && q + 1 < |content|
    ensures r.Ok? ==> q < r.offset < |content|
    decreases |content| - q, 1
  {
    var item := ParseValue(content, Skip(content, q + 1), depth);
    if item.Fail? then item
    else
      var next := Skip(content, item.offset);
      if content[next] == ',' then ParseItems(content, next, depth, items + [item.value])
      else if content[next] == ']' then Ok(Array(items + [item.value]), next + 1)
      else Fail(next)
  }

  /** `parse_object`. */
  function ParseObject(content: string, o: nat, depth: nat): (r: Parsed)
    requires Terminated(content) && o < |content| && content[o] == '{'
    ensures r.Ok? ==> o < r.offset < |content|
    decreases |content| - o, 2
  {
    if depth >= NESTING_LIMIT then Fail(o)
    else
      var first := Skip(content, o + 1);
      if content[first] == '}' then Ok(Object([]), first + 1)
      else ParseMembers(content, first - 1, depth + 1, [])
  }

  /** The loop of `parse_object`, entered one character before the next name. */
  function ParseMembers(content: string, q: nat, depth: nat, members: seq<Member>): (r: Parsed)
    requires Terminated(content) && q + 1 < |content|
    ensures r.Ok? ==> q < r.offset < |content|
    decreases |content| - q, 1
  {
    var name := ParseString(content, Skip(content, q + 1));
    if name.Fail? then name
    else
      var colon := Skip(content, name.offset);
      if content[colon] != ':' then Fail(colon)
      else
        var value := ParseValue(content, Skip(content, colon + 1), depth);
        if value.Fail? then value
        else
          var member := Member(name.value.text, value.value);
          var next := Skip(content, value.offset);
          if content[next] == ',' then ParseMembers(content, next, depth, members + [member])
          else if content[next] == '}' then Ok(Object(members + [member]), next + 1)
          else Fail(next)
  }

  // ---------- The entry point ----------

  /** Offset 3 after a byte order mark. */
  function SkipBom(content: string): (o: nat)
    ensures o == 0 || (o == 3 && |content| > 4)
  {
    if |content| > 4 && content[0] == '\U{EF}' && content[1] == '\U{BB}' && content[2] == '\U{BF}' then 3 else 0
  }

  /** `cJSON_ParseWithOpts`: the tree and the end of the parse, or the error position. */
  function ParseWithOpts(content: string, requireNullTerminated: bool): (r: Parsed)
    requires Terminated(content)
  {
    var r := ParseValue(content, Skip(content, SkipBom(content)), 0);
    if r.Fail? then Fail(if r.at < |content| then r.at else |content| - 1)
    else if requireNullTerminated then
      var end := Skip(content, r.offset);
      if content[end] != NUL then Fail(end) else Ok(r.value, end)
    else r
  }
}
