/** Facts about the printed text that the printer relies on. */
module JsonRenderFacts {
  import opened JsonTree
  import opened JsonRender
  import opened Text

  lemma EscapeNulFree(c: char)
    requires c != NUL
    ensures NulFree(Escape(c))
  {
  }

  lemma {:induction false} EscapeAllNulFree(s: string)
    requires NulFree(s)
    ensures NulFree(EscapeAll(s))
    decreases |s|
  {
    hide Escape;
    if s != [] {
      EscapeNulFree(s[0]);
      assert NulFree(s[1..]);
      EscapeAllNulFree(s[1..]);
    }
  }

  lemma NulFreeAppend(a: string, b: string)
    requires NulFree(a) && NulFree(b)
    ensures NulFree(a + b)
  {
  }

  lemma QuoteNulFree(s: string)
    requires NulFree(s)
    ensures NulFree(Quote(s))
  {
    hide EscapeAll;
    EscapeAllNulFree(s);
    NulFreeAppend("\"", EscapeAll(s));
  }

  /** What stands around elements and members holds no NUL. */
  lemma LayoutNulFree(format: bool, depth: nat, more: bool)
    ensures NulFree(Opening(format)) && NulFree(Closing(format, depth)) && NulFree(Lead(format, depth))
    ensures NulFree(Colon(format)) && NulFree(MemberTail(more, format)) && NulFree(Separator(format))
  {
  }

  lemma LeafNulFree(v: JSON, format: bool, depth: nat)
    requires Printable(v) && !v.String? && !v.Array? && !v.Object?
    ensures NulFree(Render(v, format, depth))
  {
  }

  lemma RenderOf(v: JSON, format: bool, depth: nat)
    ensures v.String? ==> Render(v, format, depth) == Quote(v.text)
    ensures v.Array? ==> Render(v, format, depth) == "[" + RenderItems(v.items, format, depth + 1) + "]"
    ensures v.Object? ==> Render(v, format, depth) == Opening(format) + RenderMembers(v.members, format, depth + 1)
                                                      + Closing(format, depth)
    ensures Printable(v) ==>
              match v
              case String(s) => NulFree(s)
              case Array(items) => PrintableItems(items)
              case Object(members) => PrintableMembers(members)
              case _ => true
  {
    hide Quote, RenderItems, RenderMembers;
  }

  /** `update_offset` finds the end of a rendering: there is no NUL in it. */
  lemma {:induction false} RenderNulFree(v: JSON, format: bool, depth: nat)
    requires Printable(v)
    ensures NulFree(Render(v, format, depth))
    decreases v, 1
  {
    hide NulFree, Printable, Render, RenderItems, RenderMembers, Quote, Opening, Closing;
    RenderOf(v, format, depth);
    match v
    case String(s) => QuoteNulFree(s);
    case Array(items) =>
      ItemsNulFree(items, format, depth + 1);
      InBrackets(RenderItems(items, format, depth + 1));
    case Object(members) =>
      MembersNulFree(members, format, depth + 1);
      LayoutNulFree(format, depth, false);
      NulFreeAppend(Opening(format), RenderMembers(members, format, depth + 1));
      NulFreeAppend(Opening(format) + RenderMembers(members, format, depth + 1), Closing(format, depth));
    case _ => LeafNulFree(v, format, depth);
  }

  lemma InBrackets(s: string)
    requires NulFree(s)
    ensures NulFree("[" + s + "]")
  {
  }

  lemma {:induction false} ItemsNulFree(items: seq<JSON>, format: bool, depth: nat)
    requires PrintableItems(items)
    ensures NulFree(RenderItems(items, format, depth))
    decreases items, 0
  {
    hide NulFree, Printable, Render, Separator;
    if items == [] {
      NothingNulFree();
    } else {
      RenderNulFree(items[0], format, depth);
      ItemsNulFree(items[1..], format, depth);
      LayoutNulFree(format, depth, false);
      NulFreeAppend(Render(items[0], format, depth), Separator(format));
      NulFreeAppend(Render(items[0], format, depth) + Separator(format), RenderItems(items[1..], format, depth));
    }
  }

  lemma NothingNulFree()
    ensures NulFree([])
  {
  }

  lemma {:induction false} MembersNulFree(members: seq<Member>, format: bool, depth: nat)
    requires PrintableMembers(members)
    ensures NulFree(RenderMembers(members, format, depth))
    decreases members, 0
  {
    hide NulFree, Printable, Render, MemberTail, MemberHead;
    if members == [] {
      NothingNulFree();
    } else {
      var head, text := MemberHead(members[0].key, format, depth), Render(members[0].value, format, depth);
      var tail, rest := MemberTail(|members| > 1, format), RenderMembers(members[1..], format, depth);
      HeadNulFree(members[0].key, format, depth);
      RenderNulFree(members[0].value, format, depth);
      LayoutNulFree(format, depth, |members| > 1);
      MembersNulFree(members[1..], format, depth);
      NulFreeAppend(head, text);
      NulFreeAppend(head + text, tail);
      NulFreeAppend(head + text + tail, rest);
    }
  }

  lemma HeadNulFree(key: string, format: bool, depth: nat)
    requires NulFree(key)
    ensures NulFree(MemberHead(key, format, depth))
  {
    hide NulFree, Quote, Lead, Colon;
    QuoteNulFree(key);
    LayoutNulFree(format, depth, false);
    NulFreeAppend(Lead(format, depth), Quote(key));
    NulFreeAppend(Lead(format, depth) + Quote(key), Colon(format));
  }

  /** A string needs no escaping exactly when escaping does not lengthen it. */
  lemma {:induction false} NothingEscaped(s: string)
    ensures |EscapeAll(s)| >= |s|
    ensures |EscapeAll(s)| == |s| ==> EscapeAll(s) == s
    decreases |s|
  {
    if s != [] {
      NothingEscaped(s[1..]);
    }
  }

  lemma EmptyQuote()
    ensures Quote([]) == "\"\""
  {
  }

  /** The next character of a string that is being escaped. */
  lemma EscapeStep(s: string, i: nat, done: string)
    requires i < |s|
    ensures done + EscapeAll(s[i..]) == done + Escape(s[i]) + EscapeAll(s[i + 1..])
    ensures |EscapeAll(s[i..])| == |Escape(s[i])| + |EscapeAll(s[i + 1..])|
  {
    hide Escape;
    assert s[i..][1..] == s[i + 1..];
  }

  // ---------- Renderings piece by piece ----------

  lemma Associate(s: string, a: string, b: string, c: string)
    ensures s + a + b + c == s + (a + (b + c))
  {
  }

  /** An element and the separator after it. */
  function ItemText(v: JSON, more: bool, format: bool, depth: nat): string {
    Render(v, format, depth) + (if more then Separator(format) else [])
  }

  /** A member with what stands around it. */
  function MemberText(m: Member, more: bool, format: bool, depth: nat): string {
    MemberHead(m.key, format, depth) + Render(m.value, format, depth) + MemberTail(more, format)
  }

  lemma MemberParts(before: string, m: Member, more: bool, format: bool, depth: nat)
    ensures var head, text, tail := MemberHead(m.key, format, depth), Render(m.value, format, depth),
                                    MemberTail(more, format);
            && before + MemberText(m, more, format, depth) == before + head + text + tail
            && |MemberText(m, more, format, depth)| == |head| + |text| + |tail|
  {
    hide MemberHead, Render, MemberTail;
    var head, text, tail := MemberHead(m.key, format, depth), Render(m.value, format, depth), MemberTail(more, format);
    assert before + (head + text + tail) == before + head + text + tail;
  }

  lemma ArrayText(items: seq<JSON>, format: bool, depth: nat)
    ensures Render(Array(items), format, depth) == "[" + (RenderItems(items, format, depth + 1) + "]")
  {
  }

  lemma ObjectText(members: seq<Member>, format: bool, depth: nat)
    ensures Render(Object(members), format, depth)
         == Opening(format) + (RenderMembers(members, format, depth + 1) + Closing(format, depth))
  {
    var open, inner, close := Opening(format), RenderMembers(members, format, depth + 1), Closing(format, depth);
    assert Render(Object(members), format, depth) == open + inner + close;
  }

  lemma ClosingLength(format: bool, depth: nat)
    ensures |Closing(format, depth)| == if format then depth + 1 else 1
  {
  }

  lemma ItemsStep(items: seq<JSON>, i: nat, format: bool, depth: nat)
    requires i < |items|
    ensures RenderItems(items[i..], format, depth)
         == ItemText(items[i], i + 1 < |items|, format, depth) + RenderItems(items[i + 1..], format, depth)
  {
    hide Render;
    assert items[i..][1..] == items[i + 1..];
  }

  lemma NoItems(items: seq<JSON>, format: bool, depth: nat)
    requires items == []
    ensures RenderItems(items, format, depth) == []
  {
  }

  lemma MembersStep(members: seq<Member>, i: nat, format: bool, depth: nat)
    requires i < |members|
    ensures RenderMembers(members[i..], format, depth)
         == MemberText(members[i], i + 1 < |members|, format, depth) + RenderMembers(members[i + 1..], format, depth)
  {
    hide Render, MemberHead, MemberTail;
    assert members[i..][1..] == members[i + 1..];
  }

  lemma NoMembers(members: seq<Member>, format: bool, depth: nat)
    requires members == []
    ensures RenderMembers(members, format, depth) == []
  {
  }

  lemma {:induction false} PrintableSuffix(items: seq<JSON>, i: nat)
    requires Printable(Array(items)) && i < |items|
    ensures Printable(items[i])
    decreases i
  {
    hide NulFree, PlainInteger;
    if i > 0 {
      PrintableSuffix(items[1..], i - 1);
    }
  }

  lemma {:induction false} PrintableMembersSuffix(members: seq<Member>, i: nat)
    requires Printable(Object(members)) && i < |members|
    ensures NulFree(members[i].key) && Printable(members[i].value)
    decreases i
  {
    hide NulFree, PlainInteger;
    if i > 0 {
      PrintableMembersSuffix(members[1..], i - 1);
    }
  }
}
