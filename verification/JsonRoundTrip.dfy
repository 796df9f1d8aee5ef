/** Printing and parsing undo each other. */
module JsonRoundTrip {
  import opened JsonTree
  import opened JsonRender
  import opened JsonRenderFacts
  import opened JsonText
  import opened JsonTextProofs
  import opened JsonParse
  import opened Text
  import opened Wrappers

  // ---------- Numbers ----------

  lemma {:induction false} RunOfText(content: string, o: nat, text: string, i: nat)
    requires At(content, o, text) && i <= |text| <= 63
    requires forall k :: 0 <= k < |text| ==> IsNumberChar(text[k])
    requires o + |text| < |content| && !IsNumberChar(content[o + |text|])
    ensures NumberRun(content, o, i) == |text|
    decreases |text| - i
  {
    if i < |text| {
      AtIndex(content, o, text, i);
      RunOfText(content, o, text, i + 1);
    }
  }

  lemma {:induction false} RunOfDigits(s: string, i: nat)
    requires i <= |s| && forall k :: i <= k < |s| ==> IsDigit(s[k])
    ensures DigitRun(s, i) == |s|
    decreases |s| - i
  {
    if i < |s| {
      RunOfDigits(s, i + 1);
    }
  }

  /** `strtod` on an optional sign and digits: no point and no exponent follow. */
  lemma StrtodOfDigits(s: string, start: nat)
    requires start == (if s != [] && (s[0] == '+' || s[0] == '-') then 1 else 0)
    requires start < |s| && forall k :: start <= k < |s| ==> IsDigit(s[k])
    ensures var magnitude := ReadDigits(s[start..], 0) as real;
            Strtod(s) == Some((|s|, if s[0] == '-' then -magnitude else magnitude))
  {
    RunOfDigits(s, start);
    hide ReadDigits, DigitRun;
    assert s[start..|s|] + [] == s[start..];
    NoExponent(s);
    TimesOne(ReadDigits(s[start..], 0) as real);
    hide PowReal, Exponent;
  }

  lemma NoExponent(s: string)
    ensures Exponent(s, |s|) == (|s|, 0)
  {
  }

  lemma TimesOne(x: real)
    ensures x * PowReal(0) == x
  {
  }

  lemma StrtodOfInteger(n: int)
    ensures Strtod(IntegerText(n)) == Some((|IntegerText(n)|, n as real))
  {
    hide Strtod, ReadDigits, Digits;
    var s := IntegerText(n);
    var start := if n < 0 then 1 else 0;
    var digits := Digits(if n < 0 then -n else n);
    assert s[start..] == digits;
    assert forall k :: start <= k < |s| ==> s[k] == digits[k - start];
    ReadOfDigits(if n < 0 then -n else n);
    StrtodOfDigits(s, start);
  }

  lemma IntegerTextChars(n: int)
    requires -PLAIN_LIMIT < n < PLAIN_LIMIT
    ensures |IntegerText(n)| <= 16
    ensures forall k :: 0 <= k < |IntegerText(n)| ==> IsNumberChar(IntegerText(n)[k])
    ensures IntegerText(n)[0] == '-' || IsDigit(IntegerText(n)[0])
  {
    assert Pow10(5) == 100000;
    assert Pow10(10) == 100000 * Pow10(5) by { assert Pow10(8) == 1000 * Pow10(5); }
    assert Pow10(15) == 100000 * Pow10(10) by { assert Pow10(13) == 1000 * Pow10(10); }
    DigitsLength(if n < 0 then -n else n, 15);
  }

  lemma NumberRead(content: string, o: nat, n: int)
    requires -PLAIN_LIMIT < n < PLAIN_LIMIT && At(content, o, IntegerText(n))
    requires o + |IntegerText(n)| < |content| && !IsNumberChar(content[o + |IntegerText(n)|])
    ensures ParseNumber(content, o) == Ok(Number(n as real), o + |IntegerText(n)|)
    ensures content[o] == '-' || IsDigit(content[o])
  {
    hide Strtod, NumberRun;
    var text := IntegerText(n);
    IntegerTextChars(n);
    RunOfText(content, o, text, 0);
    StrtodOfInteger(n);
    AtIndex(content, o, text, 0);
  }

  // ---------- White space ----------

  predicate Blank(s: string) {
    forall i :: 0 <= i < |s| ==> s[i] <= ' '
  }

  lemma {:induction false} SkipBlank(content: string, o: nat, blank: string)
    requires Terminated(content) && At(content, o, blank) && Blank(blank)
    requires o + |blank| < |content| && content[o + |blank|] > ' '
    ensures Skip(content, o) == o + |blank|
    decreases |blank|
  {
    if blank != [] {
      AtIndex(content, o, blank, 0);
      assert blank == [blank[0]] + blank[1..];
      AtAppend(content, o, [blank[0]], blank[1..]);
      SkipBlank(content, o + 1, blank[1..]);
    }
  }

  lemma SkipNothing(content: string, o: nat)
    requires Terminated(content) && o < |content| && content[o] > ' '
    ensures Skip(content, o) == o
  {
  }

  // ---------- What starts a value ----------

  predicate StartsValue(c: char) {
    c in "nft\"[{-" || IsDigit(c)
  }

  lemma RenderStart(v: JSON, format: bool, depth: nat)
    requires Printable(v)
    ensures Render(v, format, depth) != [] && StartsValue(Render(v, format, depth)[0])
  {
    match v
    case Number(d) => IntegerTextChars(d.Floor);
    case String(s) => assert Quote(s)[0] == '"';
    case Array(items) => assert Render(v, format, depth)[0] == '[';
    case Object(members) => assert Render(v, format, depth)[0] == '{';
    case _ =>
  }

  lemma NoLiteral(content: string, o: nat)
    requires o < |content| && content[o] !in "nft"
    ensures !At(content, o, "null") && !At(content, o, "false") && !At(content, o, "true")
  {
    if At(content, o, "null") { AtIndex(content, o, "null", 0); }
    if At(content, o, "false") { AtIndex(content, o, "false", 0); }
    if At(content, o, "true") { AtIndex(content, o, "true", 0); }
  }

  // ---------- Values ----------

  /** The branch `ParseValue` takes on a character that starts no literal. */
  lemma Dispatch(content: string, o: nat, depth: nat)
    requires Terminated(content) && o < |content| && content[o] !in "nft"
    ensures content[o] == '"' ==> ParseValue(content, o, depth) == ParseString(content, o)
    ensures content[o] == '-' || IsDigit(content[o]) ==> ParseValue(content, o, depth) == ParseNumber(content, o)
    ensures content[o] == '[' ==> ParseValue(content, o, depth) == ParseArray(content, o, depth)
    ensures content[o] == '{' ==> ParseValue(content, o, depth) == ParseObject(content, o, depth)
  {
    hide At, ParseArray, ParseObject, ParseString, ParseNumber;
    NoLiteral(content, o);
  }

  lemma LiteralRead(content: string, o: nat, depth: nat)
    requires Terminated(content)
    ensures At(content, o, "null") ==> o < |content| && ParseValue(content, o, depth) == Ok(Null, o + 4)
    ensures At(content, o, "false") ==> o < |content| && ParseValue(content, o, depth) == Ok(False, o + 5)
    ensures At(content, o, "true") ==> o < |content| && ParseValue(content, o, depth) == Ok(True, o + 4)
  {
    hide At, ParseArray, ParseObject, ParseString, ParseNumber;
    if At(content, o, "false") {
      AtIndex(content, o, "false", 0);
      NotNull(content, o);
    }
    if At(content, o, "true") {
      AtIndex(content, o, "true", 0);
      NotNull(content, o);
    }
  }

  /** A rendering standing in the input, followed by something that cannot continue a number, is read back. */
  lemma {:induction false} ValueRead(content: string, o: nat, v: JSON, format: bool, indent: nat, depth: nat)
    requires Terminated(content) && Printable(v) && depth + Height(v) <= NESTING_LIMIT
    requires At(content, o, Render(v, format, indent))
    requires o + |Render(v, format, indent)| < |content|
    requires !IsNumberChar(content[o + |Render(v, format, indent)|])
    ensures o < |content| && ParseValue(content, o, depth) == Ok(v, o + |Render(v, format, indent)|)
    decreases v, 2
  {
    hide At, Render, ParseValue, Quote, IntegerText, PlainInteger;
    ScalarText(v, format, indent);
    LiteralRead(content, o, depth);
    match v
    case Number(d) =>
      NumberIsPlain(d);
      NumberRead(content, o, d.Floor);
      Dispatch(content, o, depth);
    case String(s) =>
      StringRead(content, o, s);
      Dispatch(content, o, depth);
    case Array(items) =>
      ArrayRead(content, o, items, format, indent, depth);
      Dispatch(content, o, depth);
    case Object(members) =>
      ObjectRead(content, o, members, format, indent, depth);
      Dispatch(content, o, depth);
    case _ =>
  }

  lemma NumberIsPlain(d: real)
    requires PlainInteger(d)
    ensures -PLAIN_LIMIT < d.Floor < PLAIN_LIMIT && d.Floor as real == d
  {
  }

  lemma NotNull(content: string, o: nat)
    requires o < |content| && content[o] != 'n'
    ensures !At(content, o, "null")
    ensures content[o] != 'f' ==> !At(content, o, "false")
  {
    if At(content, o, "null") { AtIndex(content, o, "null", 0); }
    if At(content, o, "false") { AtIndex(content, o, "false", 0); }
  }

  lemma ScalarText(v: JSON, format: bool, indent: nat)
    ensures v.Null? ==> Render(v, format, indent) == "null"
    ensures v.False? ==> Render(v, format, indent) == "false"
    ensures v.True? ==> Render(v, format, indent) == "true"
    ensures v.Number? ==> Render(v, format, indent) == IntegerText(v.value.Floor)
    ensures v.String? ==> Render(v, format, indent) == Quote(v.text)
  {
  }

  lemma StringRead(content: string, o: nat, s: string)
    requires At(content, o, Quote(s)) && NulFree(s)
    ensures o < |content| && content[o] == '"'
    ensures ParseString(content, o) == Ok(String(s), o + |Quote(s)|)
  {
    hide At, Quote, Unescape, ScanEnd;
    QuoteRead(content, o, s);
  }

  // ---------- Arrays ----------

  lemma {:induction false} ArrayRead(content: string, o: nat, items: seq<JSON>, format: bool, indent: nat, depth: nat)
    requires Terminated(content) && PrintableItems(items) && depth + 1 + ItemsHeight(items) <= NESTING_LIMIT
    requires At(content, o, Render(Array(items), format, indent))
    ensures o < |content| && content[o] == '['
    ensures ParseArray(content, o, depth) == Ok(Array(items), o + |Render(Array(items), format, indent)|)
    decreases items, 1
  {
    hide At, Render, RenderItems, ParseArray, ParseItems, Skip, PrintableItems, ItemsHeight;
    var inner := RenderItems(items, format, indent + 1);
    ArrayText(items, format, indent);
    ThreeAt(content, o, "[", inner, "]");
    AtIndex(content, o, "[", 0);
    if items == [] {
      EmptyArrayRead(content, o, format, indent, depth);
    } else {
      ItemsStart(items, format, indent + 1);
      AtIndex(content, o + 1, inner, 0);
      SkipNothing(content, o + 1);
      ArrayTurn(content, o, depth);
      ItemsRead(content, o, o + 1, items, format, indent + 1, depth + 1, []);
      assert [] + items == items;
    }
  }

  lemma EmptyArrayRead(content: string, o: nat, format: bool, indent: nat, depth: nat)
    requires Terminated(content) && depth < NESTING_LIMIT
    requires At(content, o, "[" + (RenderItems([], format, indent + 1) + "]"))
    ensures ParseArray(content, o, depth) == Ok(Array([]), o + 2)
    ensures |"[" + (RenderItems([], format, indent + 1) + "]")| == 2
  {
    hide Skip;
    AtIndex(content, o, "[]", 0);
    AtIndex(content, o, "[]", 1);
    SkipNothing(content, o + 1);
  }

  lemma ArrayTurn(content: string, o: nat, depth: nat)
    requires Terminated(content) && o + 1 < |content| && content[o] == '[' && depth < NESTING_LIMIT
    requires Skip(content, o + 1) == o + 1 && content[o + 1] != ']'
    ensures ParseArray(content, o, depth) == ParseItems(content, o, depth + 1, [])
  {
    hide ParseItems, Skip;
  }

  lemma ItemsStart(items: seq<JSON>, format: bool, indent: nat)
    requires items != [] && PrintableItems(items)
    ensures RenderItems(items, format, indent) != [] && StartsValue(RenderItems(items, format, indent)[0])
  {
    RenderStart(items[0], format, indent);
  }

  /** One turn of the loop. */
  lemma ItemsTurn(content: string, q: nat, s: nat, depth: nat, before: seq<JSON>, v: JSON, e: nat, next: nat)
    requires Terminated(content) && q + 1 < |content| && Skip(content, q + 1) == s
    requires ParseValue(content, s, depth) == Ok(v, e)
    requires e < |content| && Skip(content, e) == next
    ensures next + 1 < |content| && content[next] == ',' ==>
              ParseItems(content, q, depth, before) == ParseItems(content, next, depth, before + [v])
    ensures content[next] == ']' ==> ParseItems(content, q, depth, before) == Ok(Array(before + [v]), next + 1)
  {
    hide ParseValue, Skip;
  }

  /** The loop over the elements, entered one character before white space that ends at `s`. */
  lemma {:induction false} ItemsRead(content: string, q: nat, s: nat, items: seq<JSON>, format: bool, indent: nat,
                                     depth: nat, before: seq<JSON>)
    requires Terminated(content) && items != [] && PrintableItems(items)
    requires depth + ItemsHeight(items) <= NESTING_LIMIT
    requires q + 1 < |content| && Skip(content, q + 1) == s
    requires At(content, s, RenderItems(items, format, indent))
    requires At(content, s + |RenderItems(items, format, indent)|, "]")
    ensures ParseItems(content, q, depth, before)
         == Ok(Array(before + items), s + |RenderItems(items, format, indent)| + 1)
    decreases items, 0, 1
  {
    hide At, Render, RenderItems, Separator, ParseValue, ParseItems, Skip, Height;
    if |items| == 1 {
      LastItemRead(content, q, s, items, format, indent, depth, before);
    } else {
      var e := s + |Render(items[0], format, indent)|;
      var t := e + |Separator(format)|;
      FirstOfItems(content, s, items, format, indent);
      FirstItemRead(content, q, s, items, format, indent, depth, before);
      assert PrintableItems(items[1..]) && depth + ItemsHeight(items[1..]) <= NESTING_LIMIT;
      ItemsRead(content, e, t, items[1..], format, indent, depth, before + [items[0]]);
      assert before + [items[0]] + items[1..] == before + items;
    }
  }

  lemma LastItemRead(content: string, q: nat, s: nat, items: seq<JSON>, format: bool, indent: nat, depth: nat,
                     before: seq<JSON>)
    requires Terminated(content) && |items| == 1 && PrintableItems(items)
    requires depth + ItemsHeight(items) <= NESTING_LIMIT
    requires q + 1 < |content| && Skip(content, q + 1) == s
    requires At(content, s, RenderItems(items, format, indent))
    requires At(content, s + |RenderItems(items, format, indent)|, "]")
    ensures ParseItems(content, q, depth, before)
         == Ok(Array(before + items), s + |RenderItems(items, format, indent)| + 1)
    decreases items, 0, 0
  {
    hide At, Render, RenderItems, Separator, ParseValue, ParseItems, Skip, Height;
    var v := items[0];
    ItemsText(items, format, indent);
    var e := s + |Render(v, format, indent)|;
    AtIndex(content, e, "]", 0);
    ValueRead(content, s, v, format, indent, depth);
    SkipNothing(content, e);
    ItemsTurn(content, q, s, depth, before, v, e, e);
    assert before + items == before + [v];
  }

  /** The first of several elements: what is left is the loop over the others. */
  lemma FirstItemRead(content: string, q: nat, s: nat, items: seq<JSON>, format: bool, indent: nat, depth: nat,
                      before: seq<JSON>)
    requires Terminated(content) && |items| > 1 && PrintableItems(items)
    requires depth + ItemsHeight(items) <= NESTING_LIMIT
    requires q + 1 < |content| && Skip(content, q + 1) == s
    requires At(content, s, RenderItems(items, format, indent))
    ensures var e := s + |Render(items[0], format, indent)|;
            && e + 1 < |content| && Skip(content, e + 1) == e + |Separator(format)|
            && ParseItems(content, q, depth, before) == ParseItems(content, e, depth, before + [items[0]])
    decreases items, 0, 0
  {
    hide At, Render, RenderItems, Separator, ParseValue, ParseItems, Skip, Height;
    var v := items[0];
    var e := s + |Render(v, format, indent)|;
    FirstOfItems(content, s, items, format, indent);
    SeparatorRead(content, e, format);
    ValueRead(content, s, v, format, indent, depth);
    ItemsTurn(content, q, s, depth, before, v, e, e);
  }

  /** Where the first element, the separator and the other elements stand. */
  lemma FirstOfItems(content: string, s: nat, items: seq<JSON>, format: bool, indent: nat)
    requires |items| > 1 && PrintableItems(items[1..]) && At(content, s, RenderItems(items, format, indent))
    ensures var text, sep := Render(items[0], format, indent), Separator(format);
            var more := RenderItems(items[1..], format, indent); var e := s + |text|;
            && At(content, s, text) && At(content, e, sep) && At(content, e + |sep|, more)
            && |RenderItems(items, format, indent)| == |text| + |sep| + |more|
            && e + |sep| < |content| && content[e + |sep|] > ' '
  {
    hide At, Render, RenderItems, Separator, Printable, PrintableItems;
    var text, sep := Render(items[0], format, indent), Separator(format);
    var more := RenderItems(items[1..], format, indent);
    ItemsText(items, format, indent);
    ItemsStart(items[1..], format, indent);
    ThreeAt(content, s, text, sep, more);
  }

  lemma ThreeAt(content: string, s: nat, a: string, b: string, c: string)
    requires At(content, s, a + (b + c)) && c != []
    ensures At(content, s, a) && At(content, s + |a|, b) && At(content, s + |a| + |b|, c)
    ensures s + |a| + |b| < |content| && content[s + |a| + |b|] == c[0]
  {
    hide At;
    AtAppend(content, s, a, b + c);
    AtAppend(content, s + |a|, b, c);
    AtIndex(content, s + |a| + |b|, c, 0);
  }

  lemma ItemsText(items: seq<JSON>, format: bool, indent: nat)
    requires items != []
    ensures RenderItems(items, format, indent)
         == if |items| == 1 then Render(items[0], format, indent)
            else Render(items[0], format, indent) + (Separator(format) + RenderItems(items[1..], format, indent))
  {
    hide Render;
    if |items| > 1 {
      var a, b, c := Render(items[0], format, indent), Separator(format), RenderItems(items[1..], format, indent);
      assert a + b + c == a + (b + c);
    }
  }

  lemma SeparatorRead(content: string, e: nat, format: bool)
    requires Terminated(content) && At(content, e, Separator(format))
    requires e + |Separator(format)| < |content| && content[e + |Separator(format)|] > ' '
    ensures content[e] == ',' && Skip(content, e) == e && Skip(content, e + 1) == e + |Separator(format)|
  {
    hide At, Skip;
    var sep := Separator(format);
    AtIndex(content, e, sep, 0);
    SkipNothing(content, e);
    assert sep == "," + sep[1..];
    AtAppend(content, e, ",", sep[1..]);
    SkipBlank(content, e + 1, sep[1..]);
  }

  // ---------- Objects ----------

  lemma MembersText(members: seq<Member>, format: bool, indent: nat)
    requires members != []
    ensures RenderMembers(members, format, indent)
         == Lead(format, indent) + (Quote(members[0].key) + (Colon(format) + (Render(members[0].value, format, indent)
            + (MemberTail(|members| > 1, format) + RenderMembers(members[1..], format, indent)))))
  {
    hide At, Quote, Render;
    var l, k, c := Lead(format, indent), Quote(members[0].key), Colon(format);
    var v, t, r := Render(members[0].value, format, indent), MemberTail(|members| > 1, format),
                   RenderMembers(members[1..], format, indent);
    assert RenderMembers(members, format, indent) == l + k + c + v + t + r;
    Reassociate(l, k, c, v, t, r);
  }

  lemma Reassociate(l: string, k: string, c: string, v: string, t: string, r: string)
    ensures l + k + c + v + t + r == l + (k + (c + (v + (t + r))))
  {
  }

  lemma ObjectAt(content: string, o: nat, members: seq<Member>, format: bool, indent: nat)
    requires At(content, o, Render(Object(members), format, indent))
    ensures var inner := o + |Opening(format)|; var close := inner + |RenderMembers(members, format, indent + 1)|;
            && At(content, o, Opening(format)) && At(content, inner, RenderMembers(members, format, indent + 1))
            && At(content, close, Closing(format, indent))
            && o + |Render(Object(members), format, indent)| == close + |Closing(format, indent)|
  {
    hide At, Render, RenderMembers, Opening, Closing;
    var open, inner, close := Opening(format), RenderMembers(members, format, indent + 1), Closing(format, indent);
    ObjectText(members, format, indent);
    AtAppend(content, o, open, inner + close);
    AtAppend(content, o + |open|, inner, close);
  }

  lemma EmptyObjectRead(content: string, o: nat, format: bool, indent: nat, depth: nat)
    requires Terminated(content) && depth < NESTING_LIMIT
    requires At(content, o, Render(Object([]), format, indent))
    ensures o < |content| && content[o] == '{'
    ensures ParseObject(content, o, depth) == Ok(Object([]), o + |Render(Object([]), format, indent)|)
  {
    hide At, Render, RenderMembers, ParseObject, Skip, Opening, Closing;
    ObjectAt(content, o, [], format, indent);
    EmptyInner(format, indent + 1);
    OpeningBeforeClosing(content, o, format, indent);
    ObjectTurn(content, o, depth, o + |Opening(format)| + |Closing(format, indent)| - 1);
  }

  lemma {:induction false} ObjectRead(content: string, o: nat, members: seq<Member>, format: bool, indent: nat,
                                      depth: nat)
    requires Terminated(content) && PrintableMembers(members) && depth + 1 + MembersHeight(members) <= NESTING_LIMIT
    requires At(content, o, Render(Object(members), format, indent))
    ensures o < |content| && content[o] == '{'
    ensures ParseObject(content, o, depth) == Ok(Object(members), o + |Render(Object(members), format, indent)|)
    decreases members, 1
  {
    hide At, Render, RenderMembers, ParseMembers, ParseObject, Skip, Quote, Opening, Closing, Lead, Colon, MemberTail,
         PrintableMembers, MembersHeight;
    ObjectAt(content, o, members, format, indent);
    var open := Opening(format);
    if members == [] {
      EmptyObjectRead(content, o, format, indent, depth);
    } else {
      MembersAt(content, o + |open|, members, format, indent + 1);
      OpeningBeforeMember(content, o, format, indent + 1);
      var first := o + |open| + |Lead(format, indent + 1)|;
      ObjectTurn(content, o, depth, first);
      MembersRead(content, first - 1, o + |open|, members, format, indent + 1, depth + 1, []);
      assert [] + members == members;
    }
  }

  lemma OpeningBeforeClosing(content: string, o: nat, format: bool, indent: nat)
    requires Terminated(content) && At(content, o, Opening(format))
    requires At(content, o + |Opening(format)|, Closing(format, indent))
    ensures o + 1 < |content| && content[o] == '{'
    ensures Skip(content, o + 1) == o + |Opening(format)| + |Closing(format, indent)| - 1
    ensures content[Skip(content, o + 1)] == '}'
  {
    hide At, Skip;
    var open, close := Opening(format), Closing(format, indent);
    var n := |close| - 1;
    AtIndex(content, o, open, 0);
    assert open == "{" + open[1..] && close == close[..n] + "}";
    AtAppend(content, o, "{", open[1..]);
    AtAppend(content, o + |open|, close[..n], "}");
    AtIndex(content, o + |open| + n, "}", 0);
    AtAppend(content, o + 1, open[1..], close[..n]);
    SkipBlank(content, o + 1, open[1..] + close[..n]);
  }

  lemma OpeningBeforeMember(content: string, o: nat, format: bool, indent: nat)
    requires Terminated(content) && At(content, o, Opening(format))
    requires At(content, o + |Opening(format)|, Lead(format, indent))
    requires var first := o + |Opening(format)| + |Lead(format, indent)|; first < |content| && content[first] == '"'
    ensures content[o] == '{'
    ensures var first := o + |Opening(format)| + |Lead(format, indent)|;
            Skip(content, o + 1) == first && Skip(content, first) == first && o + 1 <= first
  {
    hide At, Skip;
    var open, lead := Opening(format), Lead(format, indent);
    AtIndex(content, o, open, 0);
    assert open == "{" + open[1..];
    AtAppend(content, o, "{", open[1..]);
    AtAppend(content, o + 1, open[1..], lead);
    SkipBlank(content, o + 1, open[1..] + lead);
    SkipNothing(content, o + |open| + |lead|);
  }

  lemma ObjectTurn(content: string, o: nat, depth: nat, first: nat)
    requires Terminated(content) && o + 1 < |content| && content[o] == '{' && depth < NESTING_LIMIT
    requires Skip(content, o + 1) == first
    ensures content[first] == '}' ==> ParseObject(content, o, depth) == Ok(Object([]), first + 1)
    ensures content[first] != '}' ==>
              first > 0 && ParseObject(content, o, depth) == ParseMembers(content, first - 1, depth + 1, [])
  {
    hide ParseMembers, Skip;
  }

  lemma EmptyInner(format: bool, indent: nat)
    ensures RenderMembers([], format, indent) == []
  {
  }

  /** The pieces of the first member in place. */
  lemma MembersAt(content: string, o: nat, members: seq<Member>, format: bool, indent: nat)
    requires members != [] && At(content, o, RenderMembers(members, format, indent))
    ensures At(content, o, Lead(format, indent))
    ensures var k := o + |Lead(format, indent)|; var key := Quote(members[0].key);
            var c := k + |key|; var v := c + |Colon(format)|; var value := Render(members[0].value, format, indent);
            var t := v + |value|; var tail := MemberTail(|members| > 1, format);
            && At(content, k, key) && At(content, c, Colon(format)) && At(content, v, value) && At(content, t, tail)
            && At(content, t + |tail|, RenderMembers(members[1..], format, indent))
            && o + |RenderMembers(members, format, indent)| == t + |tail| + |RenderMembers(members[1..], format, indent)|
            && key != [] && content[k] == '"'
  {
    hide At, RenderMembers, Render, Quote, MemberTail;
    MembersText(members, format, indent);
    var l, key, c := Lead(format, indent), Quote(members[0].key), Colon(format);
    var v, t, r := Render(members[0].value, format, indent), MemberTail(|members| > 1, format),
                   RenderMembers(members[1..], format, indent);
    AtAppend(content, o, l, key + (c + (v + (t + r))));
    AtAppend(content, o + |l|, key, c + (v + (t + r)));
    AtAppend(content, o + |l| + |key|, c, v + (t + r));
    AtAppend(content, o + |l| + |key| + |c|, v, t + r);
    AtAppend(content, o + |l| + |key| + |c| + |v|, t, r);
    QuoteStart(members[0].key);
    AtIndex(content, o + |l|, key, 0);
  }

  lemma QuoteStart(s: string)
    ensures Quote(s) != [] && Quote(s)[0] == '"'
  {
  }

  /** One turn of the loop. */
  lemma MembersTurn(content: string, q: nat, k: nat, depth: nat, before: seq<Member>, m: Member, c: nat, v: nat,
                    t: nat, next: nat)
    requires Terminated(content) && q + 1 < |content| && Skip(content, q + 1) == k
    requires ParseString(content, k) == Ok(String(m.key), c)
    requires c < |content| && Skip(content, c) == c && content[c] == ':' && c + 1 < |content| && Skip(content, c + 1) == v
    requires ParseValue(content, v, depth) == Ok(m.value, t)
    requires t < |content| && Skip(content, t) == next
    ensures next + 1 < |content| && content[next] == ',' ==>
              ParseMembers(content, q, depth, before) == ParseMembers(content, next, depth, before + [m])
    ensures content[next] == '}' ==> ParseMembers(content, q, depth, before) == Ok(Object(before + [m]), next + 1)
  {
    hide ParseValue, ParseString, Skip;
  }

  /** The loop over the members, entered one character before white space that ends at the first name. */
  lemma {:induction false} MembersRead(content: string, q: nat, o: nat, members: seq<Member>, format: bool,
                                       indent: nat, depth: nat, before: seq<Member>)
    requires Terminated(content) && members != [] && PrintableMembers(members) && indent > 0
    requires depth + MembersHeight(members) <= NESTING_LIMIT
    requires At(content, o, RenderMembers(members, format, indent))
    requires At(content, o + |RenderMembers(members, format, indent)|, Closing(format, indent - 1))
    requires q + 1 < |content| && Skip(content, q + 1) == o + |Lead(format, indent)|
    ensures ParseMembers(content, q, depth, before)
         == Ok(Object(before + members),
               o + |RenderMembers(members, format, indent)| + |Closing(format, indent - 1)|)
    decreases members, 0, 1
  {
    hide At, Render, RenderMembers, Quote, ParseValue, ParseString, ParseMembers, Skip, Height, Lead, Closing, Colon,
         MemberTail;
    var m, rest := members[0], members[1..];
    var t := AfterValue(o, members, format, indent);
    MembersAt(content, o, members, format, indent);
    OneMemberRead(content, q, o, members, format, indent, depth, before);
    if |members| == 1 {
      EmptyInner(format, indent);
      TailBeforeClosing(content, t, format, indent);
      assert before + members == before + [m];
    } else {
      var tail := MemberTail(true, format);
      MembersAt(content, t + |tail|, rest, format, indent);
      TailBeforeMember(content, t, format, indent);
      MembersRead(content, t, t + |tail|, rest, format, indent, depth, before + [m]);
      assert before + [m] + rest == before + members;
    }
  }

  /** Where the value of the first member ends. */
  function AfterValue(o: nat, members: seq<Member>, format: bool, indent: nat): nat
    requires members != []
  {
    o + |Lead(format, indent)| + |Quote(members[0].key)| + |Colon(format)| + |Render(members[0].value, format, indent)|
  }

  /** The first member is read, and what comes behind it decides. */
  lemma OneMemberRead(content: string, q: nat, o: nat, members: seq<Member>, format: bool, indent: nat, depth: nat,
                      before: seq<Member>)
    requires Terminated(content) && members != [] && PrintableMembers(members) && indent > 0
    requires depth + MembersHeight(members) <= NESTING_LIMIT
    requires At(content, o, RenderMembers(members, format, indent))
    requires At(content, o + |RenderMembers(members, format, indent)|, Closing(format, indent - 1))
    requires q + 1 < |content| && Skip(content, q + 1) == o + |Lead(format, indent)|
    ensures var t := AfterValue(o, members, format, indent); t < |content|
    ensures var t := AfterValue(o, members, format, indent); var next := Skip(content, t);
            && (next + 1 < |content| && content[next] == ',' ==>
                  ParseMembers(content, q, depth, before) == ParseMembers(content, next, depth, before + [members[0]]))
            && (content[next] == '}' ==>
                  ParseMembers(content, q, depth, before) == Ok(Object(before + [members[0]]), next + 1))
    decreases members, 0, 0
  {
    hide At, Render, RenderMembers, Quote, ParseValue, ParseString, ParseMembers, Skip, Height, Lead, Closing, Colon,
         MemberTail;
    MembersAt(content, o, members, format, indent);
    var m := members[0];
    var k := o + |Lead(format, indent)|;
    var c := k + |Quote(m.key)|;
    var v := c + |Colon(format)|;
    var t := v + |Render(m.value, format, indent)|;
    StringRead(content, k, m.key);
    ColonRead(content, c, m.value, format, indent);
    TailAt(content, t, members, format, indent);
    ValueRead(content, v, m.value, format, indent, depth);
    MembersTurn(content, q, k, depth, before, m, c, v, t, Skip(content, t));
  }

  lemma ColonRead(content: string, c: nat, v: JSON, format: bool, indent: nat)
    requires Terminated(content) && Printable(v) && At(content, c, Colon(format))
    requires At(content, c + |Colon(format)|, Render(v, format, indent))
    ensures c < |content| && content[c] == ':' && Skip(content, c) == c
    ensures c + 1 < |content| && Skip(content, c + 1) == c + |Colon(format)|
  {
    hide At, Render;
    var colon := Colon(format);
    RenderStart(v, format, indent);
    AtIndex(content, c, colon, 0);
    AtIndex(content, c + |colon|, Render(v, format, indent), 0);
    assert colon == ":" + colon[1..];
    AtAppend(content, c, ":", colon[1..]);
    SkipBlank(content, c + 1, colon[1..]);
  }

  /** The character after a member's value ends a number. */
  lemma TailAt(content: string, t: nat, members: seq<Member>, format: bool, indent: nat)
    requires members != [] && indent > 0
    requires var tail := MemberTail(|members| > 1, format);
             At(content, t, tail)
             && At(content, t + |tail|, RenderMembers(members[1..], format, indent))
             && At(content, t + |tail| + |RenderMembers(members[1..], format, indent)|, Closing(format, indent - 1))
    ensures t < |content| && !IsNumberChar(content[t])
  {
    hide At, Quote, Render;
    var tail, close := MemberTail(|members| > 1, format), Closing(format, indent - 1);
    if tail != [] {
      AtIndex(content, t, tail, 0);
    } else {
      AtIndex(content, t, close, 0);
    }
  }

  lemma ClosingIs(format: bool, depth: nat)
    ensures var close := Closing(format, depth); close != [] && close == close[..|close| - 1] + "}"
    ensures Blank(Closing(format, depth)[..|Closing(format, depth)| - 1])
    ensures Blank(MemberTail(false, format))
  {
  }

  lemma BlankConcat(a: string, b: string)
    requires Blank(a) && Blank(b)
    ensures Blank(a + b)
  {
  }

  lemma TailBeforeClosing(content: string, t: nat, format: bool, indent: nat)
    requires Terminated(content) && indent > 0
    requires At(content, t, MemberTail(false, format))
    requires At(content, t + |MemberTail(false, format)|, Closing(format, indent - 1))
    ensures t < |content|
    ensures Skip(content, t) == t + |MemberTail(false, format)| + |Closing(format, indent - 1)| - 1
    ensures content[Skip(content, t)] == '}'
  {
    hide At, Skip, MemberTail, Closing, Blank;
    var tail, close := MemberTail(false, format), Closing(format, indent - 1);
    var n := |close| - 1;
    ClosingIs(format, indent - 1);
    AtAppend(content, t + |tail|, close[..n], "}");
    AtIndex(content, t + |tail| + n, "}", 0);
    AtAppend(content, t, tail, close[..n]);
    BlankConcat(tail, close[..n]);
    SkipBlank(content, t, tail + close[..n]);
  }

  lemma TailBeforeMember(content: string, t: nat, format: bool, indent: nat)
    requires Terminated(content)
    requires var tail := MemberTail(true, format); var lead := Lead(format, indent);
             && At(content, t, tail) && At(content, t + |tail|, lead)
             && t + |tail| + |lead| < |content| && content[t + |tail| + |lead|] == '"'
    ensures t + 1 < |content| && content[t] == ',' && Skip(content, t) == t
    ensures Skip(content, t + 1) == t + |MemberTail(true, format)| + |Lead(format, indent)|
  {
    var tail, lead := MemberTail(true, format), Lead(format, indent);
    AtIndex(content, t, tail, 0);
    SkipNothing(content, t);
    assert tail == "," + tail[1..];
    AtAppend(content, t, ",", tail[1..]);
    AtAppend(content, t + 1, tail[1..], lead);
    SkipBlank(content, t + 1, tail[1..] + lead);
  }

  // ---------- Main results ----------

  /** Parsing the printed text of a printable tree gives back the tree and stops at the end of the text, whether the
      text is formatted or not and whether trailing characters are refused or not. */
  lemma ParseUndoesPrint(v: JSON, format: bool, requireNullTerminated: bool)
    requires Printable(v) && Height(v) <= NESTING_LIMIT
    ensures ParseWithOpts(Render(v, format, 0) + [NUL], requireNullTerminated) == Ok(v, |Render(v, format, 0)|)
  {
    hide Render, ParseValue;
    var text := Render(v, format, 0);
    var content := text + [NUL];
    RenderStart(v, format, 0);
    assert At(content, 0, text) by { assert content[0..0 + |text|] == text; }
    SkipNothing(content, 0);
    ValueRead(content, 0, v, format, 0, 0);
  }

  /** A byte order mark in front changes nothing but the offsets. */
  lemma ByteOrderMarkIsSkipped(v: JSON, format: bool, requireNullTerminated: bool)
    requires Printable(v) && Height(v) <= NESTING_LIMIT
    ensures var content := ['\U{EF}', '\U{BB}', '\U{BF}'] + Render(v, format, 0) + [NUL];
            ParseWithOpts(content, requireNullTerminated) == Ok(v, 3 + |Render(v, format, 0)|)
  {
    hide Render, ParseValue;
    var text := Render(v, format, 0);
    var content := ['\U{EF}', '\U{BB}', '\U{BF}'] + text + [NUL];
    RenderStart(v, format, 0);
    assert At(content, 3, text) by { assert content[3..3 + |text|] == text; }
    assert SkipBom(content) == 3;
    SkipNothing(content, 3);
    ValueRead(content, 3, v, format, 0, 0);
  }

  /** Text behind a value is where the parse ends, or an error at that place if nothing may follow. */
  lemma TrailingText(v: JSON, format: bool, rest: string)
    requires Printable(v) && Height(v) <= NESTING_LIMIT
    requires rest != [] && rest[0] > ' ' && !IsNumberChar(rest[0])
    ensures var content := Render(v, format, 0) + rest + [NUL]; var end := |Render(v, format, 0)|;
            && ParseWithOpts(content, false) == Ok(v, end)
            && ParseWithOpts(content, true) == Fail(end)
  {
    hide Render, ParseValue;
    var text := Render(v, format, 0);
    var content := text + rest + [NUL];
    RenderStart(v, format, 0);
    assert At(content, 0, text) by { assert content[0..0 + |text|] == text; }
    SkipNothing(content, 0);
    ValueRead(content, 0, v, format, 0, 0);
    assert content[|text|] == rest[0];
    SkipNothing(content, |text|);
  }

  // ---------- What the parser accepts ----------

  /** Whatever is accepted is nested no deeper than the limit, counted from the depth the parser started at, and holds
      no NUL in a string. */
  lemma {:induction false} ValueAccepted(content: string, o: nat, depth: nat)
    requires Terminated(content) && o < |content| && depth <= NESTING_LIMIT
    requires ParseValue(content, o, depth).Ok?
    ensures var v := ParseValue(content, o, depth).value; depth + Height(v) <= NESTING_LIMIT && Printable(v, false)
    decreases |content| - o, 2
  {
    hide At, Skip, ParseString, ParseNumber, ParseItems, ParseMembers;
    if content[o] == '[' && ParseValue(content, o, depth) == ParseArray(content, o, depth) {
      if content[Skip(content, o + 1)] != ']' {
        ItemsAccepted(content, Skip(content, o + 1) - 1, depth + 1, []);
      }
    } else if content[o] == '{' && ParseValue(content, o, depth) == ParseObject(content, o, depth) {
      if content[Skip(content, o + 1)] != '}' {
        MembersAccepted(content, Skip(content, o + 1) - 1, depth + 1, []);
      }
    } else if ParseValue(content, o, depth) == ParseNumber(content, o) {
      NumberIsNumber(content, o);
    }
  }

  lemma NumberIsNumber(content: string, o: nat)
    requires o <= |content| && ParseNumber(content, o).Ok?
    ensures ParseNumber(content, o).value.Number?
  {
  }

  lemma {:induction false} ItemsAccepted(content: string, q: nat, depth: nat, items: seq<JSON>)
    requires Terminated(content) && q + 1 < |content| && depth <= NESTING_LIMIT
    requires depth + ItemsHeight(items) <= NESTING_LIMIT && PrintableItems(items, false)
    requires ParseItems(content, q, depth, items).Ok?
    ensures var v := ParseItems(content, q, depth, items).value; depth - 1 + Height(v) <= NESTING_LIMIT && Printable(v, false)
    decreases |content| - q, 1
  {
    hide Skip, ParseValue;
    var s := Skip(content, q + 1);
    var item := ParseValue(content, s, depth);
    ValueAccepted(content, s, depth);
    ItemsSnoc(items, item.value, false);
    if content[Skip(content, item.offset)] == ',' {
      ItemsAccepted(content, Skip(content, item.offset), depth, items + [item.value]);
    }
  }

  lemma {:induction false} MembersAccepted(content: string, q: nat, depth: nat, members: seq<Member>)
    requires Terminated(content) && q + 1 < |content| && depth <= NESTING_LIMIT
    requires depth + MembersHeight(members) <= NESTING_LIMIT && PrintableMembers(members, false)
    requires ParseMembers(content, q, depth, members).Ok?
    ensures var v := ParseMembers(content, q, depth, members).value;
            depth - 1 + Height(v) <= NESTING_LIMIT && Printable(v, false)
    decreases |content| - q, 1
  {
    hide Skip, ParseValue, ParseString;
    var name := ParseString(content, Skip(content, q + 1));
    var colon := Skip(content, name.offset);
    var value := ParseValue(content, Skip(content, colon + 1), depth);
    var member := Member(name.value.text, value.value);
    ValueAccepted(content, Skip(content, colon + 1), depth);
    MembersSnoc(members, member, false);
    if content[Skip(content, value.offset)] == ',' {
      MembersAccepted(content, Skip(content, value.offset), depth, members + [member]);
    }
  }

  /** A printable tree survives the way through text exactly when its nesting is within the limit. */
  lemma RoundTripExactly(v: JSON, format: bool, requireNullTerminated: bool)
    requires Printable(v)
    ensures var r := ParseWithOpts(Render(v, format, 0) + [NUL], requireNullTerminated);
            && (r == Ok(v, |Render(v, format, 0)|) <==> Height(v) <= NESTING_LIMIT)
            && (r.Ok? && r.value == v <==> Height(v) <= NESTING_LIMIT)
  {
    hide Render, ParseValue;
    var content := Render(v, format, 0) + [NUL];
    if Height(v) <= NESTING_LIMIT {
      ParseUndoesPrint(v, format, requireNullTerminated);
    } else if ParseWithOpts(content, requireNullTerminated).Ok? {
      ValueAccepted(content, Skip(content, SkipBom(content)), 0);
    }
  }

  /** Printing an accepted input whose numbers are plain integers, and parsing again, changes nothing. */
  lemma ReprintIsStable(content: string, requireNullTerminated: bool, format: bool, again: bool)
    requires Terminated(content)
    requires var r := ParseWithOpts(content, requireNullTerminated); r.Ok? && Printable(r.value)
    ensures var v := ParseWithOpts(content, requireNullTerminated).value;
            ParseWithOpts(Render(v, format, 0) + [NUL], again) == Ok(v, |Render(v, format, 0)|)
  {
    hide Render, ParseValue;
    ValueAccepted(content, Skip(content, SkipBom(content)), 0);
    ParseUndoesPrint(ParseWithOpts(content, requireNullTerminated).value, format, again);
  }
}
