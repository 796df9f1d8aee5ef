/** The parser of cJSON.c as it runs: a buffer whose offset and depth the parsing methods move.

    Every method is proved against the function of the same name in `JsonParse`; every access is inside the input, and
    every write of `parse_string` inside what it allocated. */
module JsonParseBuffer {
  import G = JsonGrammar
  import L = JsonLiterals
  import P = JsonParse
  import opened JsonTree
  import opened JsonText
  import opened Text
  import opened Wrappers

  // ---------- Hexadecimal and UTF-8 ----------

  /** The number the first `n` hexadecimal digits spell. */
  function HexPrefix(content: string, at: nat, n: nat): nat
    requires at + n <= |content| && forall k :: at <= k < at + n ==> IsHex(content[k])
  {
    if n == 0 then 0 else HexPrefix(content, at, n - 1) * 16 + HexValue(content[at + n - 1])
  }

  lemma FourDigits(content: string, at: nat)
    requires at + 4 <= |content| && forall k :: at <= k < at + 4 ==> IsHex(content[k])
    ensures Hex4(content, at) == HexPrefix(content, at, 4)
  {
    assert HexPrefix(content, at, 1) == HexPrefix(content, at, 0) * 16 + HexValue(content[at]);
    assert HexPrefix(content, at, 2) == HexValue(content[at]) * 16 + HexValue(content[at + 1]);
    assert HexPrefix(content, at, 3) == HexPrefix(content, at, 2) * 16 + HexValue(content[at + 2]);
  }

  /** `parse_hex4`. */
  method ParseHex4(content: string, at: nat) returns (h: nat)
    requires at + 4 <= |content|
    ensures h == Hex4(content, at)
    ensures if G.HexDigitsAt(content, at) then G.Spells(content[at..at + 4], h) else h == 0
  {
    hide G.HexDigitsAt;
    L.Hex4Read(content, at, Hex4(content, at));
    h := 0;
    for i := 0 to 4
      invariant forall k :: at <= k < at + i ==> IsHex(content[k])
      invariant h == HexPrefix(content, at, i) * (if i < 4 then 16 else 1)
    {
      var c := content[at + i];
      if '0' <= c <= '9' {
        h := h + (c as int - '0' as int);
      } else if 'A' <= c <= 'F' {
        h := h + 10 + (c as int - 'A' as int);
      } else if 'a' <= c <= 'f' {
        h := h + 10 + (c as int - 'a' as int);
      } else {
        return 0;
      }
      if i < 3 {
        h := h * 16;
      }
    }
    FourDigits(content, at);
  }

  /** The last part of `utf16_literal_to_utf8`: the bytes of a code point, from the last one backwards. */
  method EncodeUtf8(codepoint: nat, output: array<char>, out: nat) returns (length: nat)
    requires codepoint <= 0x10ffff && out + |Utf8(codepoint)| <= output.Length
    modifies output
    ensures length == |Utf8(codepoint)|
    ensures output[..out] == old(output[..out]) && output[out..out + length] == Utf8(codepoint)
  {
    var mark: nat := 0;
    if codepoint < 0x80 {
      length := 1;
    } else if codepoint < 0x800 {
      length, mark := 2, 0xc0;
    } else if codepoint < 0x1_0000 {
      length, mark := 3, 0xe0;
    } else {
      length, mark := 4, 0xf0;
    }
    var position, bits := length - 1, codepoint;
    while position > 0
      invariant position < length && output[..out] == old(output[..out])
      invariant forall k :: position < k < length ==> output[out + k] == Utf8(codepoint)[k]
      invariant bits == BitsAbove(codepoint, length - 1 - position)
    {
      output[out + position] := Continuation(bits);
      bits := bits / 64;
      position := position - 1;
    }
    output[out] := (bits + mark) as char;
  }

  /** What is left of a code point after some continuation bytes. */
  function BitsAbove(codepoint: nat, bytes: nat): nat {
    if bytes == 0 then codepoint
    else if bytes == 1 then codepoint / 64
    else if bytes == 2 then codepoint / 4096
    else codepoint / 262144
  }

  /** `utf16_literal_to_utf8`: zero when the literal is malformed. */
  method Utf16LiteralToUtf8(content: string, i: nat, end: nat, output: array<char>, out: nat)
    returns (consumed: nat, written: nat)
    requires i <= end <= |content|
    requires Utf16Literal(content, i, end).Some? ==>
               out + |Utf16Literal(content, i, end).value.1| <= output.Length
    modifies output
    ensures consumed == 0 <==> Utf16Literal(content, i, end).None?
    ensures consumed != 0 ==> consumed == Utf16Literal(content, i, end).value.0
    ensures consumed != 0 ==> written == |Utf16Literal(content, i, end).value.1|
    ensures consumed != 0 ==> output[..out] == old(output[..out])
    ensures consumed != 0 ==> output[out..out + written] == Utf16Literal(content, i, end).value.1
  {
    hide Hex4, Utf8, G.Spells, G.HexDigitsAt;
    if end - i < 6 {
      return 0, 0;
    }
    var first := ParseHex4(content, i + 2);
    if 0xdc00 <= first <= 0xdfff {
      return 0, 0;
    }
    var codepoint := first;
    if 0xd800 <= first <= 0xdbff {
      if end - (i + 6) < 6 {
        return 0, 0;
      }
      if content[i + 6] != '\\' || content[i + 7] != 'u' {
        return 0, 0;
      }
      var second := ParseHex4(content, i + 8);
      if second < 0xdc00 || second > 0xdfff {
        return 0, 0;
      }
      codepoint := FromSurrogates(first, second);
      consumed := 12;
    } else {
      consumed := 6;
    }
    written := EncodeUtf8(codepoint, output, out);
  }

  // ---------- The buffer ----------

  /** `parse_buffer`. */
  class ParseBuffer {
    const content: string
    var offset: nat
    var depth: nat

    constructor (content: string)
      ensures this.content == content && offset == 0 && depth == 0
    {
      this.content := content;
      offset, depth := 0, 0;
    }

    ghost predicate Readable()
      reads `offset
    {
      Terminated(content) && offset < |content|
    }

    /** `buffer_skip_whitespace`. */
    method SkipWhitespace()
      requires Terminated(content) && offset <= |content|
      modifies `offset
      ensures offset == P.Skip(content, old(offset)) < |content|
    {
      while offset < |content| && content[offset] <= ' '
        invariant offset <= |content| && P.SkipTo(content, old(offset)) == P.SkipTo(content, offset)
      {
        offset := offset + 1;
      }
      if offset == |content| {
        offset := offset - 1;
      }
    }

    /** `skip_utf8_bom` at the start of the input. */
    method SkipUtf8Bom()
      requires Terminated(content) && offset == 0
      modifies `offset
      ensures offset == P.SkipBom(content)
    {
      if offset + 4 < |content| && content[0] == '\U{EF}' && content[1] == '\U{BB}' && content[2] == '\U{BF}' {
        offset := offset + 3;
      }
    }

    /** The loop of `parse_number`: the characters of a number, as far as the 64 bytes reach. */
    method CopyNumber() returns (text: string)
      requires offset <= |content|
      ensures text == content[offset..offset + P.NumberRun(content, offset, 0)]
    {
      hide P.NumberRun, P.IsNumberChar;
      var buffer := new char[64];
      var i: nat := 0;
      while i < 63 && offset + i < |content| && P.IsNumberChar(content[offset + i])
        invariant i <= 63 && offset + i <= |content|
        invariant buffer[..i] == content[offset..offset + i]
        invariant P.NumberRun(content, offset, 0) == P.NumberRun(content, offset, i)
      {
        RunTurn(content, offset, i);
        buffer[i] := content[offset + i];
        i := i + 1;
      }
      RunTurn(content, offset, i);
      text := buffer[..i];
      buffer[i] := NUL;
    }

    /** `parse_number`, with `strtod` taken as given. */
    method ParseNumber() returns (item: Option<JSON>)
      requires offset <= |content|
      modifies `offset
      ensures match P.ParseNumber(content, old(offset))
              case Ok(v, end) => item == Some(v) && offset == end
              case Fail(at) => item == None && offset == at
    {
      hide P.Strtod, P.NumberRun;
      var text := CopyNumber();
      var number := P.Strtod(text);
      if number.None? {
        return None;
      }
      offset := offset + number.value.0;
      item := Some(Number(number.value.1));
    }

    // ---------- Strings ----------

    /** The first loop of `parse_string`, from the character after the opening quote. */
    method ScanString(start: nat) returns (end: Option<nat>, skipped: nat)
      requires start <= |content|
      ensures end == ScanEnd(content, start)
      ensures end.Some? ==> skipped == Skipped(content, start, end.value)
    {
      var i: nat := start;
      skipped := 0;
      while i < |content| && content[i] != '"'
        invariant start <= i <= |content| && ScanEnd(content, start) == ScanEnd(content, i)
        invariant ScanEnd(content, i).Some? ==>
                    Skipped(content, start, ScanEnd(content, i).value)
                    == skipped + Skipped(content, i, ScanEnd(content, i).value)
      {
        if content[i] == '\\' {
          if i + 1 >= |content| {
            return None, skipped;
          }
          skipped := skipped + 1;
          i := i + 1;
        }
        i := i + 1;
      }
      end := if i >= |content| || content[i] != '"' then None else Some(i);
    }

    /** The second loop.  `output` is as long as the first loop's estimate; nothing is written outside it. */
    method UnescapeString(start: nat, end: nat, output: array<char>) returns (ok: bool, at: nat)
      requires 0 < start <= end < |content| && ScanEnd(content, start) == Some(end)
      requires output.Length == Allocation(content, start, end)
      modifies output
      ensures match Unescape(content, start, end, "")
              case Literal(text) => ok && at < output.Length && output[..at] == text
              case BadEscape(bad) => !ok && at == bad
    {
      hide Unescape, ScanEnd, Skipped, Allocation, Utf16Literal;
      var i: nat, out: nat := start, 0;
      ghost var pace := InStep;
      AllocationSuffices(content, start, end);
      RoomAtStart(content, start, end);
      while i < end
        invariant start <= i && out <= output.Length && Paced(content, i, end, pace)
        invariant out + Room(content, i, end, pace) + 2 <= output.Length
        invariant Unescape(content, start, end, "") == Unescape(content, i, end, output[..out])
      {
        RoomIsNatural(content, i, end, pace);
        UnescapeTurn(content, i, end, output[..out]);
        var consumed, written;
        if content[i] != '\\' {
          output[out] := content[i];
          consumed, written := 1, 1;
        } else if content[i + 1] == 'u' {
          LiteralFits(content, i, end, pace);
          consumed, written := Utf16LiteralToUtf8(content, i, end, output, out);
          if consumed == 0 {
            return false, i;
          }
        } else {
          var c := SimpleEscape(content[i + 1]);
          if c.None? {
            return false, i;
          }
          output[out] := c.value;
          consumed, written := 2, 1;
        }
        pace := OneTurn(content, i, end, pace, consumed, written);
        assert output[..out + written] == output[..out] + output[out..out + written];
        i, out := i + consumed, out + written;
      }
      RoomIsNatural(content, i, end, pace);
      UnescapeDone(content, i, end, output[..out]);
      ok, at := true, out;
    }

    /** `parse_string`. */
    method ParseString() returns (item: Option<string>)
      requires Readable()
      modifies `offset
      ensures match P.ParseString(content, old(offset))
              case Ok(v, end) => item == Some(v.text) && offset == end
              case Fail(at) => item == None && offset == at
    {
      hide Unescape, ScanEnd, Skipped, Allocation, P.CString;
      var start := offset + 1;
      if content[offset] != '"' {
        offset := start;
        return None;
      }
      var end, skipped := ScanString(start);
      if end.None? {
        offset := start;
        return None;
      }
      AllocationIs(content, start, end.value, skipped);
      var allocation := end.value - offset - skipped;
      var output := new char[allocation + 1];
      var ok, at := UnescapeString(start, end.value, output);
      if !ok {
        offset := at;
        return None;
      }
      output[at] := NUL;
      item := Some(P.CString(output[..at]));
      offset := end.value + 1;
    }

    // ---------- Values ----------

    /** What the parsing methods do with the item, the offset and the depth: an accepted value restores the depth. */
    twostate predicate Follows(r: P.Parsed, new item: Option<JSON>)
      reads this
    {
      match r
      case Ok(v, end) => item == Some(v) && offset == end < |content| && depth == old(depth)
      case Fail(at) => item == None && offset == at
    }

    /** `parse_value`. */
    method ParseValue() returns (item: Option<JSON>)
      requires Readable()
      modifies this
      ensures Follows(P.ParseValue(content, old(offset), old(depth)), item)
      decreases |content| - offset, 3
    {
      hide P.ParseString, P.ParseNumber, P.ParseArray, P.ParseObject, At;
      if At(content, offset, "null") {
        P.AfterLiteral(content, offset, "null");
        offset := offset + 4;
        return Some(Null);
      }
      if At(content, offset, "false") {
        P.AfterLiteral(content, offset, "false");
        offset := offset + 5;
        return Some(False);
      }
      if At(content, offset, "true") {
        P.AfterLiteral(content, offset, "true");
        offset := offset + 4;
        return Some(True);
      }
      if content[offset] == '"' {
        StringEndsInside(content, offset);
        var text := ParseString();
        item := if text.None? then None else Some(String(text.value));
      } else if content[offset] == '-' || IsDigit(content[offset]) {
        NumberEndsInside(content, offset);
        item := ParseNumber();
      } else if content[offset] == '[' {
        item := ParseArray();
      } else if content[offset] == '{' {
        item := ParseObject();
      } else {
        item := None;
      }
    }

    /** `parse_array`. */
    method ParseArray() returns (item: Option<JSON>)
      requires Readable() && content[offset] == '['
      modifies this
      ensures Follows(P.ParseArray(content, old(offset), old(depth)), item)
      decreases |content| - offset, 2
    {
      hide P.ParseItems, P.Skip, P.ParseValue;
      if depth >= NESTING_LIMIT {
        return None;
      }
      depth := depth + 1;
      offset := offset + 1;
      SkipWhitespace();
      var items := [];
      if content[offset] != ']' {
        offset := offset - 1;
        var parsed := ParseItems();
        if parsed.None? {
          return None;
        }
        items := parsed.value;
      }
      depth := depth - 1;
      offset := offset + 1;
      item := Some(Array(items));
    }

    /** The loop of `parse_array`; it leaves the offset on the closing bracket. */
    method ParseItems() returns (parsed: Option<seq<JSON>>)
      requires Terminated(content) && offset + 1 < |content|
      modifies this
      ensures match P.ParseItems(content, old(offset), old(depth), [])
              case Ok(v, end) => parsed.Some? && v == Array(parsed.value) && offset + 1 == end && depth == old(depth)
              case Fail(at) => parsed == None && offset == at
      decreases |content| - offset, 1
    {
      hide P.ParseItems, P.ParseValue, P.Skip;
      var items: seq<JSON> := [];
      var more := true;
      while more
        invariant Terminated(content) && depth == old(depth) && offset < |content| && old(offset) <= offset
        invariant more ==> offset + 1 < |content|
        invariant more ==> P.ParseItems(content, old(offset), depth, []) == P.ParseItems(content, offset, depth, items)
        invariant !more ==>
                    P.ParseItems(content, old(offset), depth, [])
                    == if content[offset] == ']' then P.Ok(Array(items), offset + 1) else P.Fail(offset)
        decreases |content| - offset, more
      {
        ItemsTurn(content, offset, depth, items);
        offset := offset + 1;
        SkipWhitespace();
        var item := ParseValue();
        if item.None? {
          return None;
        }
        items := items + [item.value];
        SkipWhitespace();
        more := content[offset] == ',';
      }
      parsed := if content[offset] == ']' then Some(items) else None;
    }

    /** `parse_object`. */
    method ParseObject() returns (item: Option<JSON>)
      requires Readable() && content[offset] == '{'
      modifies this
      ensures Follows(P.ParseObject(content, old(offset), old(depth)), item)
      decreases |content| - offset, 2
    {
      hide P.ParseMembers, P.Skip, P.ParseValue;
      if depth >= NESTING_LIMIT {
        return None;
      }
      depth := depth + 1;
      offset := offset + 1;
      SkipWhitespace();
      var members := [];
      if content[offset] != '}' {
        offset := offset - 1;
        var parsed := ParseMembers();
        if parsed.None? {
          return None;
        }
        members := parsed.value;
      }
      depth := depth - 1;
      offset := offset + 1;
      item := Some(Object(members));
    }

    /** One turn of the loop of `parse_object`, white space behind the value included. */
    method ParseMember() returns (member: Option<Member>)
      requires Terminated(content) && offset + 1 < |content|
      modifies this
      ensures match OneMember(content, old(offset), old(depth))
              case Read(m, next) => member == Some(m) && offset == next && depth == old(depth)
              case Stuck(at) => member == None && offset == at
      decreases |content| - offset, 0
    {
      hide P.ParseString, P.ParseValue, P.Skip;
      offset := offset + 1;
      SkipWhitespace();
      StringEndsInside(content, offset);
      var name := ParseString();
      if name.None? {
        return None;
      }
      SkipWhitespace();
      if content[offset] != ':' {
        return None;
      }
      offset := offset + 1;
      SkipWhitespace();
      var value := ParseValue();
      if value.None? {
        return None;
      }
      SkipWhitespace();
      member := Some(Member(name.value, value.value));
    }

    /** The loop of `parse_object`; it leaves the offset on the closing brace. */
    method ParseMembers() returns (parsed: Option<seq<Member>>)
      requires Terminated(content) && offset + 1 < |content|
      modifies this
      ensures match P.ParseMembers(content, old(offset), old(depth), [])
              case Ok(v, end) => parsed.Some? && v == Object(parsed.value) && offset + 1 == end && depth == old(depth)
              case Fail(at) => parsed == None && offset == at
      decreases |content| - offset, 1
    {
      hide P.ParseMembers, OneMember;
      var members: seq<Member> := [];
      var more := true;
      while more
        invariant Terminated(content) && depth == old(depth) && offset < |content| && old(offset) <= offset
        invariant more ==> offset + 1 < |content|
        invariant more ==>
                    P.ParseMembers(content, old(offset), depth, []) == P.ParseMembers(content, offset, depth, members)
        invariant !more ==>
                    P.ParseMembers(content, old(offset), depth, [])
                    == if content[offset] == '}' then P.Ok(Object(members), offset + 1) else P.Fail(offset)
        decreases |content| - offset, more
      {
        MembersTurn(content, offset, depth, members);
        var member := ParseMember();
        if member.None? {
          return None;
        }
        members := members + [member.value];
        more := content[offset] == ',';
      }
      parsed := if content[offset] == '}' then Some(members) else None;
    }
  }

  // ---------- Facts for the loops ----------

  lemma RunTurn(content: string, o: nat, i: nat)
    requires o + i <= |content| && i <= 63
    ensures P.NumberRun(content, o, i)
         == if i < 63 && o + i < |content| && P.IsNumberChar(content[o + i]) then P.NumberRun(content, o, i + 1) else i
  {
  }

  lemma AllocationIs(content: string, start: nat, end: nat, skipped: nat)
    requires 0 < start <= end < |content| && ScanEnd(content, start) == Some(end)
    requires skipped == Skipped(content, start, end)
    ensures Allocation(content, start, end) == end - (start - 1) - skipped + 1 >= 2
  {
    RoomIsNatural(content, start, end, InStep);
  }

  lemma RoomAtStart(content: string, start: nat, end: nat)
    requires 0 < start <= end < |content| && ScanEnd(content, start) == Some(end)
    ensures Paced(content, start, end, InStep)
    ensures Room(content, start, end, InStep) + 2 == Allocation(content, start, end)
  {
  }

  /** What `Unescape` does with the character at `i`. */
  lemma UnescapeTurn(content: string, i: nat, end: nat, output: string)
    requires i < end < |content|
    ensures content[i] != '\\' ==>
              Unescape(content, i, end, output) == Unescape(content, i + 1, end, output + [content[i]])
    ensures content[i] == '\\' && content[i + 1] == 'u' ==>
              var r := Utf16Literal(content, i, end);
              Unescape(content, i, end, output)
              == if r.None? then BadEscape(i) else Unescape(content, i + r.value.0, end, output + r.value.1)
    ensures content[i] == '\\' && content[i + 1] != 'u' ==>
              var c := SimpleEscape(content[i + 1]);
              Unescape(content, i, end, output)
              == if c.None? then BadEscape(i) else Unescape(content, i + 2, end, output + [c.value])
  {
    hide Utf16Literal, SimpleEscape;
  }

  lemma UnescapeDone(content: string, i: nat, end: nat, output: string)
    requires end <= i && end < |content|
    ensures Unescape(content, i, end, output) == Literal(output)
  {
  }

  /** A well-formed UTF-16 literal has the room its bytes need. */
  lemma LiteralFits(content: string, i: nat, end: nat, pace: Pace)
    requires i < end && Paced(content, i, end, pace) && content[i] == '\\'
    requires end < |content|
    ensures Utf16Literal(content, i, end).Some? ==>
              var r := Utf16Literal(content, i, end).value;
              |r.1| <= Room(content, i, end, pace) && (if r.0 == 6 then |r.1| <= 3 else r.0 == 12 && |r.1| <= 4)
  {
    hide Utf16Literal;
    var literal := Utf16Literal(content, i, end);
    if literal.Some? {
      Utf8OfLiteral(content, i, end);
      var after := OneTurn(content, i, end, pace, literal.value.0, |literal.value.1|);
      RoomIsNatural(content, i + literal.value.0, end, after);
    }
  }

  // ---------- Facts for the values ----------

  lemma StringEndsInside(content: string, o: nat)
    requires Terminated(content) && o < |content|
    ensures P.ParseString(content, o).Ok? ==> o + 1 < P.ParseString(content, o).offset < |content|
  {
  }

  lemma NumberEndsInside(content: string, o: nat)
    requires Terminated(content) && o < |content|
    ensures P.ParseNumber(content, o).Ok? ==>
              P.ParseNumber(content, o).value.Number? && P.ParseNumber(content, o).offset < |content|
  {
  }

  /** What `P.ParseItems` does with its next element. */
  lemma ItemsTurn(content: string, q: nat, depth: nat, items: seq<JSON>)
    requires Terminated(content) && q + 1 < |content|
    ensures var item := P.ParseValue(content, P.Skip(content, q + 1), depth);
            P.ParseItems(content, q, depth, items)
            == if item.Fail? then item
               else
                 var next := P.Skip(content, item.offset);
                 if content[next] == ',' && next + 1 < |content|
                 then P.ParseItems(content, next, depth, items + [item.value])
                 else if content[next] == ']' then P.Ok(Array(items + [item.value]), next + 1)
                 else P.Fail(next)
  {
    hide P.ParseValue, P.Skip;
  }

  datatype MemberParsed = Read(member: Member, next: nat) | Stuck(at: nat)

  /** One name, colon and value with the white space around them. */
  function OneMember(content: string, q: nat, depth: nat): (r: MemberParsed)
    requires Terminated(content) && q + 1 < |content|
    ensures r.Read? ==> q + 1 < r.next < |content|
  {
    var name := P.ParseString(content, P.Skip(content, q + 1));
    if name.Fail? then Stuck(name.at)
    else
      var colon := P.Skip(content, name.offset);
      if content[colon] != ':' then Stuck(colon)
      else
        var value := P.ParseValue(content, P.Skip(content, colon + 1), depth);
        if value.Fail? then Stuck(value.at)
        else Read(Member(name.value.text, value.value), P.Skip(content, value.offset))
  }

  lemma MembersTurn(content: string, q: nat, depth: nat, members: seq<Member>)
    requires Terminated(content) && q + 1 < |content|
    ensures var one := OneMember(content, q, depth);
            P.ParseMembers(content, q, depth, members)
            == if one.Stuck? then P.Fail(one.at)
               else if content[one.next] == ',' && one.next + 1 < |content| then
                 P.ParseMembers(content, one.next, depth, members + [one.member])
               else if content[one.next] == '}' then P.Ok(Object(members + [one.member]), one.next + 1)
               else P.Fail(one.next)
  {
    hide P.ParseValue, P.ParseString, P.Skip;
  }

  // ---------- The entry point ----------

  /** `cJSON_ParseWithOpts` on a string that is not null: the tree, if any, and `*return_parse_end`. */
  method ParseWithOpts(value: string, requireNullTerminated: bool) returns (item: Option<JSON>, end: nat)
    requires NulFree(value)
    ensures match P.ParseWithOpts(value + [NUL], requireNullTerminated)
            case Ok(v, offset) => item == Some(v) && end == offset
            case Fail(at) => item == None && end == at
    ensures end <= |value|
  {
    hide P.ParseValue, P.Skip, P.SkipBom;
    var buffer := new ParseBuffer(value + [NUL]);
    buffer.SkipUtf8Bom();
    buffer.SkipWhitespace();
    item := buffer.ParseValue();
    if item.Some? && requireNullTerminated {
      buffer.SkipWhitespace();
      if buffer.offset >= |buffer.content| || buffer.content[buffer.offset] != NUL {
        item := None;
      }
    }
    if item.Some? {
      end := buffer.offset;
    } else if buffer.offset < |buffer.content| {
      end := buffer.offset;
    } else {
      end := |buffer.content| - 1;
    }
  }
}
