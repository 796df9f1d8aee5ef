/** When minifying the formatted text of a tree gives its unformatted text.

    It does exactly when no string or name ends in a backslash, save a string that ends the text: its closing quote is
    escaped in the eyes of `minify_string`, and the layout up to the next quote is kept as if it were inside. */
module JsonMinifyTree {
  import opened JsonTree
  import opened JsonRender
  import opened JsonMinify
  import opened JsonRoundTrip
  import opened Text

  predicate EndsInBackslash(s: string) {
    s != [] && s[|s| - 1] == '\\'
  }

  /** No string and no name ends in a backslash. */
  predicate Plain(v: JSON)
    decreases v, 1
  {
    match v
    case String(s) => !EndsInBackslash(s)
    case Array(items) => PlainItems(items)
    case Object(members) => PlainMembers(members)
    case _ => true
  }

  predicate PlainItems(items: seq<JSON>)
    decreases items, 0
  {
    items == [] || (Plain(items[0]) && PlainItems(items[1..]))
  }

  predicate PlainMembers(members: seq<Member>)
    decreases members, 0
  {
    members == [] || (!EndsInBackslash(members[0].key) && Plain(members[0].value) && PlainMembers(members[1..]))
  }

  /** The same, but for a string that only closing brackets of arrays follow. */
  predicate PlainButLast(v: JSON)
    decreases v, 1
  {
    match v
    case String(s) => true
    case Array(items) => ItemsPlainButLast(items)
    case _ => Plain(v)
  }

  predicate ItemsPlainButLast(items: seq<JSON>)
    decreases items, 0
  {
    if items == [] then true
    else if |items| == 1 then PlainButLast(items[0])
    else Plain(items[0]) && ItemsPlainButLast(items[1..])
  }

  lemma {:induction false} PlainIsPlainButLast(v: JSON)
    requires Plain(v)
    ensures PlainButLast(v)
    decreases v, 1
  {
    if v.Array? {
      ItemsPlainAreButLast(v.items);
    }
  }

  lemma {:induction false} ItemsPlainAreButLast(items: seq<JSON>)
    requires PlainItems(items)
    ensures ItemsPlainButLast(items)
    decreases items, 0
  {
    if items != [] {
      PlainIsPlainButLast(items[0]);
      ItemsPlainAreButLast(items[1..]);
    }
  }

  // ---------- Strings ----------

  predicate Quoteless(p: string) {
    forall i :: 0 <= i < |p| ==> p[i] != '"'
  }

  /** Text without quotes is passed, provided a last backslash does not meet a quote. */
  lemma {:induction false} OverInside(p: string, rest: string)
    requires Quoteless(p) && (EndsInBackslash(p) && rest != [] ==> rest[0] != '"')
    ensures InString(p + rest) == p + InString(rest)
    decreases |p|
  {
    hide InString;
    if p == [] {
      assert p + rest == rest;
    } else {
      var tail := p[1..] + rest;
      assert p + rest == [p[0]] + tail;
      OverOne(p[0], tail);
      OverInside(p[1..], rest);
      assert p + InString(rest) == [p[0]] + (p[1..] + InString(rest));
    }
  }

  lemma OverOne(c: char, s: string)
    requires c != '"' && !(c == '\\' && s != [] && s[0] == '"')
    ensures InString([c] + s) == [c] + InString(s)
  {
    assert ([c] + s)[1..] == s;
  }

  lemma EscapeStart(c: char)
    ensures Escape(c)[0] != '"'
    ensures c == '"' ==> Escape(c) == "\\\""
    ensures c != '"' ==> Quoteless(Escape(c)) && (EndsInBackslash(Escape(c)) ==> c == '\\')
  {
  }

  lemma OverEscapedQuote(rest: string)
    ensures InString("\\\"" + rest) == "\\\"" + InString(rest)
  {
    assert ("\\\"" + rest)[2..] == rest;
  }

  /** An escaped character is passed as a unit, unless it is a backslash and a quote follows. */
  lemma OverEscape(c: char, rest: string)
    requires c == '\\' && rest != [] ==> rest[0] != '"'
    ensures InString(Escape(c) + rest) == Escape(c) + InString(rest)
  {
    hide Escape, InString, Quoteless, EndsInBackslash;
    EscapeStart(c);
    if c == '"' {
      OverEscapedQuote(rest);
    } else {
      OverInside(Escape(c), rest);
    }
  }

  /** Past the closing quote the text is outside again, or still inside after a backslash. */
  function Onward(inside: bool, rest: string): string {
    if inside then InString(rest) else Minified(rest)
  }

  lemma OneBackslash()
    ensures EscapeAll(['\\']) == "\\\\"
  {
    assert ['\\'][1..] == [];
    assert EscapeAll(['\\']) == Escape('\\') + [];
  }

  lemma OverClosing(rest: string)
    ensures InString("\"" + rest) == "\"" + Minified(rest)
  {
    assert ("\"" + rest)[1..] == rest;
  }

  lemma OverLastBackslash(rest: string)
    ensures InString("\\\\" + ("\"" + rest)) == "\\\\" + ("\"" + InString(rest))
  {
    hide InString;
    assert "\\\\" + ("\"" + rest) == "\\" + ("\\\"" + rest);
    OverInside("\\", "\\\"" + rest);
    OverEscapedQuote(rest);
    assert "\\" + ("\\\"" + InString(rest)) == "\\\\" + ("\"" + InString(rest));
  }

  lemma {:induction false} OverEscapes(s: string, rest: string)
    ensures InString(EscapeAll(s) + ("\"" + rest)) == EscapeAll(s) + ("\"" + Onward(EndsInBackslash(s), rest))
    decreases |s|
  {
    hide Escape, InString, Minified;
    var after := "\"" + rest;
    if s == [] {
      assert EscapeAll(s) + after == after;
      OverClosing(rest);
    } else if s == ['\\'] {
      OneBackslash();
      OverLastBackslash(rest);
    } else {
      var tail := EscapeAll(s[1..]) + after;
      assert EscapeAll(s) + after == Escape(s[0]) + tail;
      if |s| > 1 {
        EscapeStart(s[1]);
      }
      OverEscape(s[0], tail);
      OverEscapes(s[1..], rest);
    }
  }

  lemma OverQuote(s: string, rest: string)
    ensures Minified(Quote(s) + rest) == Quote(s) + Onward(EndsInBackslash(s), rest)
  {
    hide EscapeAll, InString;
    OverEscapes(s, rest);
    assert Quote(s) + rest == "\"" + (EscapeAll(s) + ("\"" + rest));
    assert ("\"" + (EscapeAll(s) + ("\"" + rest)))[1..] == EscapeAll(s) + ("\"" + rest);
  }

  // ---------- Text outside strings ----------

  predicate OutsideOnly(p: string) {
    forall i :: 0 <= i < |p| ==> p[i] != '"' && p[i] != '/' && !IsSpace(p[i])
  }

  lemma {:induction false} OverOutside(p: string, rest: string)
    requires OutsideOnly(p)
    ensures Minified(p + rest) == p + Minified(rest)
    decreases |p|
  {
    if p == [] {
      assert p + rest == rest;
    } else {
      assert (p + rest)[1..] == p[1..] + rest;
      OverOutside(p[1..], rest);
    }
  }

  lemma {:induction false} OverSpace(p: string, rest: string)
    requires forall i :: 0 <= i < |p| ==> IsSpace(p[i])
    ensures Minified(p + rest) == Minified(rest)
    decreases |p|
  {
    if p == [] {
      assert p + rest == rest;
    } else {
      assert (p + rest)[1..] == p[1..] + rest;
      OverSpace(p[1..], rest);
    }
  }

  // ---------- Trees whose layout goes ----------

  lemma ScalarOutside(v: JSON)
    requires v.Null? || v.False? || v.True? || v.Number?
    ensures forall d, e :: Render(v, true, d) == Render(v, false, e)
    ensures OutsideOnly(Render(v, true, 0))
  {
  }

  lemma {:induction false} LayoutGoes(v: JSON, d: nat, e: nat, rest: string)
    requires PlainButLast(v)
    ensures Minified(Render(v, true, d) + rest) == Render(v, false, e) + Onward(!Plain(v), rest)
    decreases v, 2
  {
    hide InString, Minified, RenderItems, RenderMembers, EscapeAll;
    match v
    case String(s) => OverQuote(s, rest);
    case Array(items) => ArrayLayoutGoes(items, d, e, rest);
    case Object(members) =>
      ObjectLayoutGoes(members, d, e, rest);
    case _ =>
      ScalarOutside(v);
      OverOutside(Render(v, true, 0), rest);
  }

  lemma {:induction false} ArrayLayoutGoes(items: seq<JSON>, d: nat, e: nat, rest: string)
    requires ItemsPlainButLast(items)
    ensures Minified(Render(Array(items), true, d) + rest)
         == Render(Array(items), false, e) + Onward(!PlainItems(items), rest)
    decreases items, 2
  {
    hide InString, Minified, RenderItems, PlainItems, ItemsPlainButLast;
    var inner, after := RenderItems(items, true, d + 1), "]" + rest;
    assert Render(Array(items), true, d) + rest == "[" + (inner + after);
    OverOutside("[", inner + after);
    ItemsLayoutGoes(items, d + 1, e + 1, after);
    OverOutside("]", rest);
    OverInside("]", rest);
    assert Render(Array(items), false, e) == "[" + RenderItems(items, false, e + 1) + "]";
  }

  lemma {:induction false} ItemsLayoutGoes(items: seq<JSON>, d: nat, e: nat, rest: string)
    requires ItemsPlainButLast(items)
    ensures Minified(RenderItems(items, true, d) + rest)
         == RenderItems(items, false, e) + Onward(!PlainItems(items), rest)
    decreases items, 1
  {
    hide InString, Minified, Render;
    if items == [] {
      assert RenderItems(items, true, d) + rest == rest;
    } else if |items| == 1 {
      LayoutGoes(items[0], d, e, rest);
    } else {
      var tail := RenderItems(items[1..], true, d) + rest;
      PlainIsPlainButLast(items[0]);
      LayoutGoes(items[0], d, e, ", " + tail);
      assert RenderItems(items, true, d) + rest == Render(items[0], true, d) + (", " + tail);
      assert ", " + tail == "," + (" " + tail);
      OverOutside(",", " " + tail);
      OverSpace(" ", tail);
      ItemsLayoutGoes(items[1..], d, e, rest);
    }
  }

  lemma {:induction false} ObjectLayoutGoes(members: seq<Member>, d: nat, e: nat, rest: string)
    requires PlainMembers(members)
    ensures Minified(Render(Object(members), true, d) + rest) == Render(Object(members), false, e) + Minified(rest)
    decreases members, 2
  {
    hide InString, Minified, RenderMembers;
    var inner, after := RenderMembers(members, true, d + 1), Tabs(d) + ("}" + rest);
    assert Render(Object(members), true, d) + rest == "{" + ("\n" + (inner + after));
    OverOutside("{", "\n" + (inner + after));
    OverSpace("\n", inner + after);
    MembersLayoutGoes(members, d + 1, e + 1, after);
    OverSpace(Tabs(d), "}" + rest);
    OverOutside("}", rest);
    assert Render(Object(members), false, e) == "{" + RenderMembers(members, false, e + 1) + "}";
  }

  /** A name and the colon after it. */
  lemma NameLayoutGoes(key: string, d: nat, e: nat, rest: string)
    requires !EndsInBackslash(key)
    ensures Minified(MemberHead(key, true, d) + rest) == MemberHead(key, false, e) + Minified(rest)
  {
    hide InString, Minified, EscapeAll, Quote;
    assert MemberHead(key, true, d) + rest == Tabs(d) + (Quote(key) + (":" + ("\t" + rest)));
    OverSpace(Tabs(d), Quote(key) + (":" + ("\t" + rest)));
    OverQuote(key, ":" + ("\t" + rest));
    OverOutside(":", "\t" + rest);
    OverSpace("\t", rest);
    assert MemberHead(key, false, e) == Quote(key) + ":";
  }

  lemma TailLayoutGoes(more: bool, rest: string)
    ensures Minified(MemberTail(more, true) + rest) == MemberTail(more, false) + Minified(rest)
  {
    hide InString, Minified;
    if more {
      assert MemberTail(more, true) + rest == "," + ("\n" + rest);
      OverOutside(",", "\n" + rest);
    } else {
      assert MemberTail(more, true) == "\n" && [] + Minified(rest) == Minified(rest);
    }
    OverSpace("\n", rest);
  }

  lemma {:induction false} MembersLayoutGoes(members: seq<Member>, d: nat, e: nat, rest: string)
    requires PlainMembers(members)
    ensures Minified(RenderMembers(members, true, d) + rest) == RenderMembers(members, false, e) + Minified(rest)
    decreases members, 1
  {
    hide InString, Minified, Render, MemberHead, MemberTail;
    if members == [] {
      assert RenderMembers(members, true, d) + rest == rest;
    } else {
      var m, more, tail := members[0], |members| > 1, RenderMembers(members[1..], true, d) + rest;
      assert RenderMembers(members, true, d) + rest
          == MemberHead(m.key, true, d) + (Render(m.value, true, d) + (MemberTail(more, true) + tail));
      NameLayoutGoes(m.key, d, e, Render(m.value, true, d) + (MemberTail(more, true) + tail));
      PlainIsPlainButLast(m.value);
      LayoutGoes(m.value, d, e, MemberTail(more, true) + tail);
      TailLayoutGoes(more, tail);
      MembersLayoutGoes(members[1..], d, e, rest);
    }
  }

  // ---------- Trees whose layout stays ----------

  lemma NoPrefix(p: string, u: string, m: string)
    requires !(u <= m)
    ensures !(p + u <= p + m)
  {
    if |u| <= |m| {
      var k :| 0 <= k < |u| && u[k] != m[k];
      assert (p + u)[|p| + k] == u[k] && (p + m)[|p| + k] == m[k];
    }
  }

  lemma NoLongerPrefix(u: string, w: string, m: string)
    requires !(u <= m)
    ensures !(u + w <= m)
  {
  }

  /** The first two characters decide. */
  lemma SecondDiffers(u: string, m: string)
    requires |u| >= 2 && |m| >= 2 && u[1] != m[1]
    ensures !(u <= m)
  {
  }

  lemma {:induction false} LayoutStays(v: JSON, d: nat, e: nat, rest: string)
    requires Printable(v) && !PlainButLast(v)
    ensures !(Render(v, false, e) <= Minified(Render(v, true, d) + rest))
    decreases v, 2
  {
    hide InString, Minified, RenderItems, RenderMembers, EscapeAll, ItemsPlainButLast, PlainMembers;
    if v.Array? {
      var after := "]" + rest;
      assert Render(v, true, d) + rest == "[" + (RenderItems(v.items, true, d + 1) + after);
      OverOutside("[", RenderItems(v.items, true, d + 1) + after);
      ItemsLayoutStays(v.items, d + 1, e + 1, after);
      NoLongerPrefix(RenderItems(v.items, false, e + 1), "]", Minified(RenderItems(v.items, true, d + 1) + after));
      NoPrefix("[", RenderItems(v.items, false, e + 1) + "]", Minified(RenderItems(v.items, true, d + 1) + after));
      assert Render(v, false, e) == "[" + (RenderItems(v.items, false, e + 1) + "]");
    } else {
      var inner, after := RenderMembers(v.members, true, d + 1), Tabs(d) + ("}" + rest);
      assert Render(v, true, d) + rest == "{" + ("\n" + (inner + after));
      OverOutside("{", "\n" + (inner + after));
      OverSpace("\n", inner + after);
      MembersLayoutStays(v.members, d + 1, e + 1, after);
      NoPrefix("{", RenderMembers(v.members, false, e + 1) + "}", Minified(inner + after));
      assert Render(v, false, e) == "{" + (RenderMembers(v.members, false, e + 1) + "}");
    }
  }

  lemma {:induction false} ItemsLayoutStays(items: seq<JSON>, d: nat, e: nat, rest: string)
    requires PrintableItems(items) && !ItemsPlainButLast(items)
    ensures !(RenderItems(items, false, e) <= Minified(RenderItems(items, true, d) + rest))
    decreases items, 1
  {
    hide InString, Minified, Render, Plain, PlainButLast;
    if |items| == 1 {
      LayoutStays(items[0], d, e, rest);
    } else {
      var first, tail, others := Render(items[0], false, e), RenderItems(items[1..], true, d) + rest,
                                 RenderItems(items[1..], false, e);
      assert RenderItems(items, true, d) + rest == Render(items[0], true, d) + (", " + tail);
      assert RenderItems(items, false, e) == first + ("," + others);
      if !PlainButLast(items[0]) {
        LayoutStays(items[0], d, e, ", " + tail);
        NoLongerPrefix(first, "," + others, Minified(Render(items[0], true, d) + (", " + tail)));
      } else {
        LayoutGoes(items[0], d, e, ", " + tail);
        if Plain(items[0]) {
          assert ", " + tail == "," + (" " + tail);
          OverOutside(",", " " + tail);
          OverSpace(" ", tail);
          ItemsLayoutStays(items[1..], d, e, rest);
          NoPrefix(",", others, Minified(tail));
          NoPrefix(first, "," + others, "," + Minified(tail));
        } else {
          OverInside(", ", tail);
          ItemsStart(items[1..], false, e);
          SecondDiffers("," + others, ", " + InString(tail));
          NoPrefix(first, "," + others, ", " + InString(tail));
        }
      }
    }
  }

  lemma MembersStart(members: seq<Member>, e: nat)
    ensures members != [] ==> RenderMembers(members, false, e) != [] && RenderMembers(members, false, e)[0] == '"'
    ensures members == [] ==> RenderMembers(members, false, e) == []
  {
    hide EscapeAll, Render;
  }

  /** A name that ends in a backslash keeps the tab after the colon. */
  lemma NameLayoutStays(key: string, value: string, d: nat, e: nat, rest: string)
    requires EndsInBackslash(key) && value != [] && value[0] != '\t'
    ensures !(MemberHead(key, false, e) + value <= Minified(MemberHead(key, true, d) + rest))
  {
    hide InString, Minified, EscapeAll, Quote;
    assert MemberHead(key, true, d) + rest == Tabs(d) + (Quote(key) + (":\t" + rest));
    OverSpace(Tabs(d), Quote(key) + (":\t" + rest));
    OverQuote(key, ":\t" + rest);
    OverInside(":\t", rest);
    SecondDiffers(":" + value, ":\t" + InString(rest));
    NoPrefix(Quote(key), ":" + value, ":\t" + InString(rest));
    assert MemberHead(key, false, e) + value == Quote(key) + (":" + value);
  }

  /** A value that ends in a backslash keeps the line break after it. */
  lemma TailLayoutStays(members: seq<Member>, e: nat, rest: string)
    requires members != []
    ensures !(MemberTail(|members| > 1, false) + (RenderMembers(members[1..], false, e) + "}")
              <= InString(MemberTail(|members| > 1, true) + rest))
  {
    hide InString, Minified, RenderMembers;
    var others := RenderMembers(members[1..], false, e) + "}";
    MembersStart(members[1..], e);
    if |members| > 1 {
      assert MemberTail(true, true) == ",\n";
      OverInside(",\n", rest);
      SecondDiffers("," + others, ",\n" + InString(rest));
    } else {
      OverInside("\n", rest);
    }
  }

  /** The first member and the others, before something else. */
  lemma FirstMember(members: seq<Member>, format: bool, d: nat, rest: string)
    requires members != []
    ensures RenderMembers(members, format, d) + rest
         == MemberHead(members[0].key, format, d)
            + (Render(members[0].value, format, d)
               + (MemberTail(|members| > 1, format) + (RenderMembers(members[1..], format, d) + rest)))
  {
    hide MemberHead, MemberTail, Render;
    FourAndMore(MemberHead(members[0].key, format, d), Render(members[0].value, format, d),
                MemberTail(|members| > 1, format), RenderMembers(members[1..], format, d), rest);
  }

  lemma FourAndMore(a: string, b: string, c: string, d: string, rest: string)
    ensures a + b + c + d + rest == a + (b + (c + (d + rest)))
  {
  }

  lemma {:induction false} MembersLayoutStays(members: seq<Member>, d: nat, e: nat, rest: string)
    requires PrintableMembers(members) && !PlainMembers(members)
    ensures !(RenderMembers(members, false, e) + "}" <= Minified(RenderMembers(members, true, d) + rest))
    decreases members, 1
  {
    hide InString, Minified, Render, RenderMembers, MemberHead, MemberTail, Plain, PlainButLast;
    var m, more, tail := members[0], |members| > 1, RenderMembers(members[1..], true, d) + rest;
    var others := RenderMembers(members[1..], false, e) + "}";
    var head, value, end := MemberHead(m.key, false, e), Render(m.value, false, e), MemberTail(more, false) + others;
    var after := MemberTail(more, true) + tail;
    FirstMember(members, true, d, rest);
    FirstMember(members, false, e, "}");
    if EndsInBackslash(m.key) {
      RenderStart(m.value, false, e);
      NameLayoutStays(m.key, value, d, e, Render(m.value, true, d) + after);
      NoLongerPrefix(head + value, end, Minified(MemberHead(m.key, true, d) + (Render(m.value, true, d) + after)));
      assert head + value + end == head + (value + end);
    } else {
      NameLayoutGoes(m.key, d, e, Render(m.value, true, d) + after);
      ValueLayoutStays(members, d, e, rest);
      NoPrefix(head, value + end, Minified(Render(m.value, true, d) + after));
    }
  }

  /** The first member from its value on. */
  lemma {:induction false} ValueLayoutStays(members: seq<Member>, d: nat, e: nat, rest: string)
    requires PrintableMembers(members) && !PlainMembers(members) && !EndsInBackslash(members[0].key)
    ensures var tail := MemberTail(|members| > 1, true) + (RenderMembers(members[1..], true, d) + rest);
            var end := MemberTail(|members| > 1, false) + (RenderMembers(members[1..], false, e) + "}");
            !(Render(members[0].value, false, e) + end <= Minified(Render(members[0].value, true, d) + tail))
    decreases members, 0
  {
    hide InString, Minified, Render, RenderMembers, MemberHead, MemberTail, Plain, PlainButLast;
    var m, more, tail := members[0], |members| > 1, RenderMembers(members[1..], true, d) + rest;
    var others := RenderMembers(members[1..], false, e) + "}";
    var value, end, after := Render(m.value, false, e), MemberTail(more, false) + others, MemberTail(more, true) + tail;
    if !PlainButLast(m.value) {
      LayoutStays(m.value, d, e, after);
      NoLongerPrefix(value, end, Minified(Render(m.value, true, d) + after));
    } else {
      LayoutGoes(m.value, d, e, after);
      if Plain(m.value) {
        TailLayoutGoes(more, tail);
        MembersLayoutStays(members[1..], d, e, rest);
        NoPrefix(MemberTail(more, false), others, Minified(tail));
        NoPrefix(value, end, MemberTail(more, false) + Minified(tail));
      } else {
        TailLayoutStays(members, e, tail);
        NoPrefix(value, end, InString(after));
      }
    }
  }

  // ---------- Main results ----------

  /** Minifying the formatted text gives the unformatted text exactly for the trees that are plain but for their end. */
  lemma MinifyUndoesFormat(v: JSON)
    requires Printable(v)
    ensures Minified(Render(v, true, 0)) == Render(v, false, 0) <==> PlainButLast(v)
  {
    hide InString, Minified, Render, Plain, PlainButLast;
    assert Render(v, true, 0) + [] == Render(v, true, 0);
    if PlainButLast(v) {
      LayoutGoes(v, 0, 0, []);
      NothingLeft();
      assert Render(v, false, 0) + [] == Render(v, false, 0);
    } else {
      LayoutStays(v, 0, 0, []);
    }
  }

  /** The text of a string followed by another item shows the failure, whatever the string before the backslash is. */
  lemma TrailingBackslashFails(s: string)
    requires NulFree(s) && EndsInBackslash(s)
    ensures var v := Array([String(s), Null]);
            Printable(v) && Minified(Render(v, true, 0)) != Render(v, false, 0)
  {
    hide InString, Minified, Render;
    var v := Array([String(s), Null]);
    assert v.items[1..] == [Null] && [Null][1..] == [];
    assert PrintableItems([Null]) && PrintableItems(v.items);
    MinifyUndoesFormat(v);
  }
}
