/** What is printed for a tree, written down as text: without layout what RFC 8259 asks for and nothing more, with
    layout the members of objects on lines of their own and indented by tabs. */
module JsonLayout {
  import opened JsonGrammar
  import opened JsonRender
  import opened JsonTree
  import opened Text

  /** Texts one after the other with a separator in between. */
  function Joined(texts: seq<string>, separator: string): string {
    if texts == [] then "" else if |texts| == 1 then texts[0] else texts[0] + separator + Joined(texts[1..], separator)
  }

  function Scalar(v: JSON): string {
    match v
    case Null => "null"
    case False => "false"
    case True => "true"
    case Number(d) => IntegerText(d.Floor)
    case String(s) => Quote(s)
    case _ => ""
  }

  // ---------- Without layout ----------

  function Compact(v: JSON): string
    decreases v, 1
  {
    match v
    case Array(items) => "[" + Joined(CompactItems(items), ",") + "]"
    case Object(members) => "{" + Joined(CompactMembers(members), ",") + "}"
    case _ => Scalar(v)
  }

  function CompactItems(items: seq<JSON>): (r: seq<string>)
    ensures |r| == |items|
    decreases items, 0
  {
    if items == [] then [] else [Compact(items[0])] + CompactItems(items[1..])
  }

  function CompactMembers(members: seq<Member>): (r: seq<string>)
    ensures |r| == |members|
    decreases members, 0
  {
    if members == [] then []
    else [Quote(members[0].key) + ":" + Compact(members[0].value)] + CompactMembers(members[1..])
  }

  // ---------- With layout ----------

  /** `depth` counts the containers around the value. */
  function Pretty(v: JSON, depth: nat): string
    decreases v, 1
  {
    match v
    case Array(items) => "[" + Joined(PrettyItems(items, depth + 1), ", ") + "]"
    case Object(members) =>
      if members == [] then "{\n" + Tabs(depth) + "}"
      else "{\n" + Joined(PrettyMembers(members, depth + 1), ",\n") + "\n" + Tabs(depth) + "}"
    case _ => Scalar(v)
  }

  function PrettyItems(items: seq<JSON>, depth: nat): (r: seq<string>)
    ensures |r| == |items|
    decreases items, 0
  {
    if items == [] then [] else [Pretty(items[0], depth)] + PrettyItems(items[1..], depth)
  }

  /** A member's line starts with as many tabs as there are containers around it. */
  function PrettyMembers(members: seq<Member>, depth: nat): (r: seq<string>)
    ensures |r| == |members|
    decreases members, 0
  {
    if members == [] then []
    else
      [Tabs(depth) + Quote(members[0].key) + ":\t" + Pretty(members[0].value, depth)] + PrettyMembers(members[1..], depth)
  }

  // ---------- What is printed ----------

  lemma JoinedHead(text: string, texts: seq<string>, separator: string)
    ensures Joined([text] + texts, separator)
         == if texts == [] then text else text + separator + Joined(texts, separator)
  {
    assert ([text] + texts)[1..] == texts;
  }

  /** Without layout that text is printed, at whatever depth. */
  lemma {:induction false} PrintsCompact(v: JSON, depth: nat)
    ensures Render(v, false, depth) == Compact(v)
    decreases v, 1
  {
    hide Joined, Quote, IntegerText;
    match v
    case Array(items) => CompactArray(items, depth + 1);
    case Object(members) => CompactObject(members, depth + 1);
    case _ =>
  }

  lemma {:induction false} CompactArray(items: seq<JSON>, depth: nat)
    ensures RenderItems(items, false, depth) == Joined(CompactItems(items), ",")
    decreases items, 0
  {
    hide Render, Compact;
    if items != [] {
      PrintsCompact(items[0], depth);
      CompactArray(items[1..], depth);
      JoinedHead(Compact(items[0]), CompactItems(items[1..]), ",");
    }
  }

  lemma {:induction false} CompactObject(members: seq<Member>, depth: nat)
    ensures RenderMembers(members, false, depth) == Joined(CompactMembers(members), ",")
    decreases members, 0
  {
    hide Render, Compact, Quote;
    if members != [] {
      var m, rest := members[0], members[1..];
      PrintsCompact(m.value, depth);
      CompactObject(rest, depth);
      var text := Quote(m.key) + ":" + Compact(m.value);
      JoinedHead(text, CompactMembers(rest), ",");
      assert MemberHead(m.key, false, depth) + Compact(m.value) == text;
    }
  }

  /** With layout the other one. */
  lemma {:induction false} PrintsPretty(v: JSON, depth: nat)
    ensures Render(v, true, depth) == Pretty(v, depth)
    decreases v, 1
  {
    hide Joined, Quote, IntegerText, Tabs;
    match v
    case Array(items) => PrettyArray(items, depth + 1);
    case Object(members) =>
      PrettyObject(members, depth + 1);
      var lines := Joined(PrettyMembers(members, depth + 1), ",\n");
      assert "{\n" + (lines + "\n") + (Tabs(depth) + "}") == "{\n" + lines + "\n" + Tabs(depth) + "}";
      assert members == [] ==> "{\n" + "" + (Tabs(depth) + "}") == "{\n" + Tabs(depth) + "}";
    case _ =>
  }

  lemma {:induction false} PrettyArray(items: seq<JSON>, depth: nat)
    ensures RenderItems(items, true, depth) == Joined(PrettyItems(items, depth), ", ")
    decreases items, 0
  {
    hide Render, Pretty;
    if items != [] {
      PrintsPretty(items[0], depth);
      PrettyArray(items[1..], depth);
      JoinedHead(Pretty(items[0], depth), PrettyItems(items[1..], depth), ", ");
    }
  }

  lemma {:induction false} PrettyObject(members: seq<Member>, depth: nat)
    ensures RenderMembers(members, true, depth)
         == if members == [] then "" else Joined(PrettyMembers(members, depth), ",\n") + "\n"
    decreases members, 0
  {
    hide Render, Pretty, Quote, Tabs;
    if members != [] {
      var m, rest := members[0], members[1..];
      PrintsPretty(m.value, depth);
      PrettyObject(rest, depth);
      var text := Tabs(depth) + Quote(m.key) + ":\t" + Pretty(m.value, depth);
      JoinedHead(text, PrettyMembers(rest, depth), ",\n");
      assert MemberHead(m.key, true, depth) + Pretty(m.value, depth) == text;
      assert rest != [] ==> |rest| > 0;
    }
  }

  // ---------- Characters and integers ----------

  /** Seven characters are escaped by a letter, the other control characters by four lower-case digits, and all others
      stand for themselves. */
  lemma EscapesAs(c: char)
    ensures c as nat == 0x22 ==> Escape(c) == "\\\""
    ensures c as nat == 0x5c ==> Escape(c) == "\\\\"
    ensures c as nat == 0x08 ==> Escape(c) == "\\b"
    ensures c as nat == 0x0c ==> Escape(c) == "\\f"
    ensures c as nat == 0x0a ==> Escape(c) == "\\n"
    ensures c as nat == 0x0d ==> Escape(c) == "\\r"
    ensures c as nat == 0x09 ==> Escape(c) == "\\t"
    ensures c as nat < 0x20 && c as nat !in {0x08, 0x09, 0x0a, 0x0c, 0x0d} ==>
              && |Escape(c)| == 6 && Escape(c)[..2] == "\\u" && Spells(Escape(c)[2..], c as nat)
              && forall k :: 2 <= k < 6 ==> Escape(c)[k] in "0123456789abcdef"
    ensures c as nat >= 0x20 && c as nat !in {0x22, 0x5c} ==> Escape(c) == [c]
  {
    var row := "0123456789abcdef";
    assert row[0] == '0';
    if c as nat < 0x20 && ShortEscape(c).None? {
      var e := Escape(c);
      assert e[2] == row[0] && e[3] == row[0] && e[4] == row[c as nat / 16] && e[5] == row[c as nat % 16];
      assert e[2..][0] == e[2] && e[2..][1] == e[3] && e[2..][2] == e[4] && e[2..][3] == e[5];
    }
  }

  /** An integer is printed in decimal, without leading zeros and with a minus sign if it is negative. */
  lemma IntegerIsDecimal(n: int)
    ensures var s := IntegerText(n); var digits := if n < 0 then s[1..] else s;
            && (n < 0 ==> s[0] == '-')
            && AllDigits(digits) && WholeValue(digits) == (if n < 0 then -n else n)
            && (n != 0 ==> digits[0] != '0') && (n == 0 ==> digits == "0")
  {
    DigitsAreDecimal(if n < 0 then -n else n);
  }
}
