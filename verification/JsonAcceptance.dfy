/** The parser accepts exactly the texts of the grammar, and reads each as what it means. */
module JsonAcceptance {
  import opened JsonGrammar
  import opened JsonLiterals
  import opened JsonNumerals
  import opened JsonParse
  import opened JsonRender
  import opened JsonText
  import opened JsonTree
  import opened Text
  import R = JsonRoundTrip

  // ---------- White space ----------

  lemma {:induction false} SkipToIs(content: string, a: nat, o: nat)
    requires Blank(content, a, o) && (o < |content| ==> content[o] > ' ')
    ensures SkipTo(content, a) == o
    decreases o - a
  {
    if a < o {
      SkipToIs(content, a + 1, o);
    }
  }

  /** White space is skipped up to what follows it. */
  lemma SkipIs(content: string, a: nat, o: nat)
    requires Terminated(content) && Blank(content, a, o) && o < |content| && content[o] > ' '
    ensures Skip(content, a) == o
  {
    SkipToIs(content, a, o);
  }

  lemma {:induction false} SkippedToIsBlank(content: string, a: nat)
    requires a <= |content|
    ensures Blank(content, a, SkipTo(content, a))
    decreases |content| - a
  {
    if a < |content| && content[a] <= ' ' {
      SkippedToIsBlank(content, a + 1);
    }
  }

  /** What is skipped is white space, and so is the rest if nothing else is found. */
  lemma SkippedIsBlank(content: string, a: nat)
    requires Terminated(content) && a < |content|
    ensures a <= Skip(content, a) && Blank(content, a, Skip(content, a))
    ensures content[Skip(content, a)] <= ' ' ==> Blank(content, a, |content|)
  {
    SkippedToIsBlank(content, a);
  }

  lemma BlankInTurn(content: string, a: nat, b: nat, c: nat)
    requires Blank(content, a, b) && Blank(content, b, c)
    ensures Blank(content, a, c)
  {
  }

  // ---------- Words and first characters ----------

  lemma WordAt(content: string, o: nat, end: nat, word: string)
    requires o < end <= |content|
    ensures content[o..end] == word <==> At(content, o, word) && end == o + |word|
  {
  }

  /** No value begins with white space, and none ends with the final NUL. */
  lemma ValueBegins(content: string, o: nat, end: nat, v: JSON)
    requires Terminated(content) && ValueAt(content, o, end, v)
    ensures o < end < |content| && R.StartsValue(content[o])
  {
    hide ItemsAt, MembersAt, PiecesAt, IsEscaped, IsNumeral, NumeralText, NumeralValue;
    assert content[o..end][0] == content[o] && content[o..end][end - o - 1] == content[end - 1];
  }

  lemma PaddedBegins(content: string, a: nat, b: nat, v: JSON)
    requires Terminated(content) && PaddedAt(content, a, b, v)
    ensures a < b <= |content| && Skip(content, a) < b && R.StartsValue(content[Skip(content, a)])
  {
    hide ValueAt;
    var o: nat, end: nat :| Blank(content, a, o) && ValueAt(content, o, end, v) && Blank(content, end, b);
    ValueBegins(content, o, end, v);
    StartIsVisible(content[o]);
    SkipIs(content, a, o);
  }

  lemma StartIsVisible(c: char)
    requires R.StartsValue(c)
    ensures c > ' ' && c != ']' && c != '}' && c != ','
  {
  }

  // ---------- Texts of the grammar are accepted ----------

  /** A value of the grammar is read as what it means, within the nesting limit. */
  lemma {:induction false} ValueIsRead(content: string, o: nat, end: nat, v: JSON, depth: nat)
    requires Terminated(content) && ValueAt(content, o, end, v) && depth + Height(v) <= NESTING_LIMIT
    ensures o < end < |content| && ParseValue(content, o, depth) == Ok(v, end)
    decreases v, 2
  {
    hide At, ItemsAt, MembersAt, ParseValue, StringAt, NumberAt, PiecesAt, ClosesAt;
    ValueBegins(content, o, end, v);
    R.LiteralRead(content, o, depth);
    match v
    case Null => WordAt(content, o, end, "null");
    case False => WordAt(content, o, end, "false");
    case True => WordAt(content, o, end, "true");
    case Number(d) => NumberIsRead(content, o, end, d, depth);
    case String(s) => StringIsRead(content, o, end, s, depth);
    case Array(items) => ArrayIsRead(content, o, end, items, depth);
    case Object(members) => ObjectIsRead(content, o, end, members, depth);
  }

  lemma NumberIsRead(content: string, o: nat, end: nat, d: real, depth: nat)
    requires Terminated(content) && NumberAt(content, o, end, d)
    ensures ParseValue(content, o, depth) == Ok(Number(d), end)
  {
    hide ParseValue, ParseNumber, IsNumeral, NumeralText, NumeralValue;
    NumberChars(content[end]);
    NumberRead(content, o, end, d);
    R.Dispatch(content, o, depth);
  }

  lemma StringIsRead(content: string, o: nat, end: nat, s: string, depth: nat)
    requires Terminated(content) && o < |content| && StringAt(content, o, end, s)
    ensures ParseValue(content, o, depth) == Ok(String(s), end)
  {
    hide ParseValue, ParseString, PiecesAt, ClosesAt;
    StringRead(content, o, end, s);
    R.Dispatch(content, o, depth);
  }

  lemma {:induction false} ArrayIsRead(content: string, o: nat, end: nat, items: seq<JSON>, depth: nat)
    requires Terminated(content) && ValueAt(content, o, end, Array(items))
    requires depth + 1 + ItemsHeight(items) <= NESTING_LIMIT
    ensures o < end < |content| && ParseValue(content, o, depth) == Ok(Array(items), end)
    decreases items, 1
  {
    hide ItemsAt, ParseValue, ParseItems, Skip;
    ValueBegins(content, o, end, Array(items));
    R.Dispatch(content, o, depth);
    if items == [] {
      assert Blank(content, o + 1, end - 1) by { NoItems(content, o + 1, end - 1); }
      SkipIs(content, o + 1, end - 1);
    } else {
      ItemsBegin(content, o + 1, end - 1, items);
      var first := Skip(content, o + 1);
      StartIsVisible(content[first]);
      assert Skip(content, first) == first by { SkipIs(content, first, first); }
      ItemsAreRead(content, first - 1, o + 1, end - 1, items, depth + 1, []);
      assert [] + items == items;
    }
  }

  lemma NoItems(content: string, a: nat, b: nat)
    ensures ItemsAt(content, a, b, []) <==> Blank(content, a, b)
  {
  }

  lemma ItemsBegin(content: string, a: nat, b: nat, items: seq<JSON>)
    requires Terminated(content) && ItemsAt(content, a, b, items) && items != []
    ensures a < b <= |content| && Skip(content, a) < b && R.StartsValue(content[Skip(content, a)])
  {
    hide PaddedAt, Skip;
    if |items| == 1 {
      PaddedBegins(content, a, b, items[0]);
    } else {
      var c: nat :| c < b <= |content| && content[c] == ',' && PaddedAt(content, a, c, items[0])
                    && ItemsAt(content, c + 1, b, items[1..]);
      PaddedBegins(content, a, c, items[0]);
    }
  }

  /** A padded value is read, and what stands behind it comes next. */
  lemma {:induction false} PaddedIsRead(content: string, a: nat, b: nat, v: JSON, depth: nat)
    requires Terminated(content) && PaddedAt(content, a, b, v) && b < |content| && content[b] > ' '
    requires depth + Height(v) <= NESTING_LIMIT
    ensures Skip(content, a) < |content|
    ensures var r := ParseValue(content, Skip(content, a), depth); r.Ok? && r.value == v && Skip(content, r.offset) == b
    decreases v, 3
  {
    hide ValueAt, ParseValue, Skip;
    var o: nat, end: nat :| Blank(content, a, o) && ValueAt(content, o, end, v) && Blank(content, end, b);
    ValueIsRead(content, o, end, v, depth);
    ValueBegins(content, o, end, v);
    StartIsVisible(content[o]);
    SkipIs(content, a, o);
    SkipIs(content, end, b);
  }

  lemma {:induction false} ItemsAreRead(content: string, q: nat, a: nat, b: nat, items: seq<JSON>, depth: nat,
                                        before: seq<JSON>)
    requires Terminated(content) && ItemsAt(content, a, b, items) && items != [] && b < |content| && content[b] == ']'
    requires q + 1 < |content| && a <= |content| && Skip(content, q + 1) == Skip(content, a)
    requires depth + ItemsHeight(items) <= NESTING_LIMIT
    ensures ParseItems(content, q, depth, before) == Ok(Array(before + items), b + 1)
    decreases items, 0
  {
    hide PaddedAt, ParseValue, Skip, Height;
    if |items| == 1 {
      PaddedIsRead(content, a, b, items[0], depth);
      assert before + items == before + [items[0]];
    } else {
      var c: nat :| c < b <= |content| && content[c] == ',' && PaddedAt(content, a, c, items[0])
                    && ItemsAt(content, c + 1, b, items[1..]);
      PaddedIsRead(content, a, c, items[0], depth);
      ItemsAreRead(content, c, c + 1, b, items[1..], depth, before + [items[0]]);
      assert before + [items[0]] + items[1..] == before + items;
    }
  }

  lemma {:induction false} ObjectIsRead(content: string, o: nat, end: nat, members: seq<Member>, depth: nat)
    requires Terminated(content) && ValueAt(content, o, end, Object(members))
    requires depth + 1 + MembersHeight(members) <= NESTING_LIMIT
    ensures o < end < |content| && ParseValue(content, o, depth) == Ok(Object(members), end)
    decreases members, 1
  {
    hide MembersAt, ParseValue, ParseMembers, Skip;
    ValueBegins(content, o, end, Object(members));
    R.Dispatch(content, o, depth);
    if members == [] {
      assert Blank(content, o + 1, end - 1) by { NoMembers(content, o + 1, end - 1); }
      SkipIs(content, o + 1, end - 1);
    } else {
      MembersBegin(content, o + 1, end - 1, members);
      var first := Skip(content, o + 1);
      assert Skip(content, first) == first by { SkipIs(content, first, first); }
      MembersAreRead(content, first - 1, o + 1, end - 1, members, depth + 1, []);
      assert [] + members == members;
    }
  }

  lemma NoMembers(content: string, a: nat, b: nat)
    ensures MembersAt(content, a, b, []) <==> Blank(content, a, b)
  {
  }

  lemma MembersBegin(content: string, a: nat, b: nat, members: seq<Member>)
    requires Terminated(content) && MembersAt(content, a, b, members) && members != []
    ensures a < b <= |content| && a <= Skip(content, a) && content[Skip(content, a)] == '"'
  {
    hide MemberAt, Skip;
    if |members| == 1 {
      MemberBegins(content, a, b, members[0]);
    } else {
      var c: nat :| c < b <= |content| && content[c] == ',' && MemberAt(content, a, c, members[0])
                    && MembersAt(content, c + 1, b, members[1..]);
      MemberBegins(content, a, c, members[0]);
    }
  }

  lemma MemberBegins(content: string, a: nat, b: nat, m: Member)
    requires Terminated(content) && MemberAt(content, a, b, m)
    ensures a < b <= |content| && a <= Skip(content, a) && content[Skip(content, a)] == '"'
  {
    hide PaddedAt, Skip, PiecesAt, ClosesAt;
    var o: nat, end: nat, colon: nat :|
      && Blank(content, a, o) && StringAt(content, o, end, m.key) && Blank(content, end, colon)
      && colon < |content| && content[colon] == ':' && PaddedAt(content, colon + 1, b, m.value);
    SkipIs(content, a, o);
    PaddedBegins(content, colon + 1, b, m.value);
  }

  /** One turn of the loop. */
  lemma MemberTurn(content: string, q: nat, depth: nat, before: seq<Member>, m: Member, end: nat, t: nat, next: nat)
    requires Terminated(content) && q + 1 < |content|
    requires ParseString(content, Skip(content, q + 1)) == Ok(String(m.key), end) && end < |content|
    requires var colon := Skip(content, end);
             && content[colon] == ':' && colon + 1 < |content|
             && ParseValue(content, Skip(content, colon + 1), depth) == Ok(m.value, t)
    requires t < |content| && Skip(content, t) == next
    ensures content[next] == ',' && next + 1 < |content| ==>
              ParseMembers(content, q, depth, before) == ParseMembers(content, next, depth, before + [m])
    ensures content[next] == '}' ==> ParseMembers(content, q, depth, before) == Ok(Object(before + [m]), next + 1)
  {
    hide ParseValue, ParseString, Skip;
  }

  /** The loop takes a member that stands before `next`. */
  lemma {:induction false} MemberIsRead(content: string, q: nat, a: nat, next: nat, m: Member, depth: nat,
                                        before: seq<Member>)
    requires Terminated(content) && MemberAt(content, a, next, m) && next < |content| && content[next] > ' '
    requires q + 1 < |content| && a <= |content| && Skip(content, q + 1) == Skip(content, a)
    requires depth + Height(m.value) <= NESTING_LIMIT
    ensures content[next] == ',' && next + 1 < |content| ==>
              ParseMembers(content, q, depth, before) == ParseMembers(content, next, depth, before + [m])
    ensures content[next] == '}' ==> ParseMembers(content, q, depth, before) == Ok(Object(before + [m]), next + 1)
    decreases m, 4
  {
    hide PaddedAt, Skip, ParseValue, ParseString, ParseMembers, PiecesAt, ClosesAt, Height;
    var o: nat, end: nat, colon: nat :|
      && Blank(content, a, o) && StringAt(content, o, end, m.key) && Blank(content, end, colon)
      && colon < |content| && content[colon] == ':' && PaddedAt(content, colon + 1, next, m.value);
    SkipIs(content, a, o);
    StringRead(content, o, end, m.key);
    SkipIs(content, end, colon);
    PaddedIsRead(content, colon + 1, next, m.value, depth);
    PaddedBegins(content, colon + 1, next, m.value);
    MemberTurn(content, q, depth, before, m, end, ParseValue(content, Skip(content, colon + 1), depth).offset, next);
  }

  lemma {:induction false} MembersAreRead(content: string, q: nat, a: nat, b: nat, members: seq<Member>, depth: nat,
                                          before: seq<Member>)
    requires Terminated(content) && MembersAt(content, a, b, members) && members != []
    requires b < |content| && content[b] == '}'
    requires q + 1 < |content| && a <= |content| && Skip(content, q + 1) == Skip(content, a)
    requires depth + MembersHeight(members) <= NESTING_LIMIT
    ensures ParseMembers(content, q, depth, before) == Ok(Object(before + members), b + 1)
    decreases members, 0
  {
    hide MemberAt, ParseMembers, Skip, Height;
    if |members| == 1 {
      MemberIsRead(content, q, a, b, members[0], depth, before);
      assert before + members == before + [members[0]];
    } else {
      var c: nat :| c < b <= |content| && content[c] == ',' && MemberAt(content, a, c, members[0])
                    && MembersAt(content, c + 1, b, members[1..]);
      MemberIsRead(content, q, a, c, members[0], depth, before);
      MembersAreRead(content, c, c + 1, b, members[1..], depth, before + [members[0]]);
      assert before + [members[0]] + members[1..] == before + members;
    }
  }

  // ---------- What is accepted is in the grammar ----------

  lemma NoNumberChar(c: char)
    requires c <= ' ' || c in ",]}"
    ensures !IsNumberChar(c)
  {
  }

  /** White space up to what stands behind a value, or to the end of the input, ends a number. */
  lemma EndsNumber(content: string, a: nat)
    requires Terminated(content) && a < |content|
    requires var c := content[Skip(content, a)]; c <= ' ' || c in ",]}"
    ensures !IsNumberChar(content[a])
  {
    SkippedIsBlank(content, a);
    NoNumberChar(content[a]);
  }

  lemma {:induction false} ValueIsFound(content: string, o: nat, depth: nat)
    requires Terminated(content) && o < |content| && ParseValue(content, o, depth).Ok?
    requires !IsNumberChar(content[ParseValue(content, o, depth).offset])
    ensures var r := ParseValue(content, o, depth); ValueAt(content, o, r.offset, r.value)
    decreases |content| - o, 4
  {
    hide At, ItemsAt, MembersAt, ParseArray, ParseObject, ParseString, ParseNumber, NumberAt, StringAt, IsNumberChar;
    var r := ParseValue(content, o, depth);
    if At(content, o, "null") {
      WordAt(content, o, r.offset, "null");
    } else if At(content, o, "false") {
      WordAt(content, o, r.offset, "false");
    } else if At(content, o, "true") {
      WordAt(content, o, r.offset, "true");
    } else if content[o] == '"' {
      StringRead(content, o, r.offset, r.value.text);
    } else if content[o] == '-' || IsDigit(content[o]) {
      R.NumberIsNumber(content, o);
      NumberRead(content, o, r.offset, r.value.value);
    } else if content[o] == '[' {
      ArrayIsFound(content, o, depth);
    } else {
      ObjectIsFound(content, o, depth);
    }
  }

  lemma {:induction false} ArrayIsFound(content: string, o: nat, depth: nat)
    requires Terminated(content) && o < |content| && content[o] == '[' && ParseArray(content, o, depth).Ok?
    ensures var r := ParseArray(content, o, depth); ValueAt(content, o, r.offset, r.value)
    decreases |content| - o, 3
  {
    hide ItemsAt, ParseItems, Skip, Blank;
    var r, first := ParseArray(content, o, depth), Skip(content, o + 1);
    SkippedIsBlank(content, o + 1);
    if content[first] == ']' {
      NoItems(content, o + 1, first);
    } else {
      ItemsAreFound(content, first - 1, depth + 1, []);
      MoreBlank(content, o + 1, first, r.offset - 1, r.value.items);
    }
  }

  /** White space in front of the first element belongs to it. */
  lemma MoreBlank(content: string, a: nat, first: nat, b: nat, items: seq<JSON>)
    requires ItemsAt(content, first, b, items) && items != [] && Blank(content, a, first)
    ensures ItemsAt(content, a, b, items)
  {
    hide PaddedAt;
    if |items| == 1 {
      PaddedMore(content, a, first, b, items[0]);
    } else {
      var c: nat :| c < b <= |content| && content[c] == ',' && PaddedAt(content, first, c, items[0])
                    && ItemsAt(content, c + 1, b, items[1..]);
      PaddedMore(content, a, first, c, items[0]);
    }
  }

  lemma PaddedMore(content: string, a: nat, first: nat, b: nat, v: JSON)
    requires PaddedAt(content, first, b, v) && Blank(content, a, first)
    ensures PaddedAt(content, a, b, v)
  {
    hide ValueAt;
    var o: nat, end: nat :| Blank(content, first, o) && ValueAt(content, o, end, v) && Blank(content, end, b);
    BlankInTurn(content, a, first, o);
  }

  /** An accepted value with something other than a number behind it, and the white space around it. */
  lemma {:induction false} PaddedIsFound(content: string, a: nat, depth: nat)
    requires Terminated(content) && a < |content| && ParseValue(content, Skip(content, a), depth).Ok?
    requires var r := ParseValue(content, Skip(content, a), depth); content[Skip(content, r.offset)] in ",]}"
    ensures var r := ParseValue(content, Skip(content, a), depth);
            PaddedAt(content, a, Skip(content, r.offset), r.value) && a < r.offset <= Skip(content, r.offset)
    decreases |content| - a, 5
  {
    hide ValueAt, ParseValue, Skip, Blank, IsNumberChar;
    var o := Skip(content, a);
    var r := ParseValue(content, o, depth);
    SkippedIsBlank(content, a);
    SkippedIsBlank(content, r.offset);
    EndsNumber(content, r.offset);
    ValueIsFound(content, o, depth);
  }

  lemma {:induction false} ItemsAreFound(content: string, q: nat, depth: nat, items: seq<JSON>)
    requires Terminated(content) && q + 1 < |content| && ParseItems(content, q, depth, items).Ok?
    ensures var r := ParseItems(content, q, depth, items);
            && r.value.Array? && |items| < |r.value.items| && items == r.value.items[..|items|]
            && q + 1 < r.offset && content[r.offset - 1] == ']'
            && ItemsAt(content, q + 1, r.offset - 1, r.value.items[|items|..])
    decreases |content| - q, 1
  {
    hide PaddedAt, ParseValue, Skip;
    var r := ParseItems(content, q, depth, items);
    var item := ParseValue(content, Skip(content, q + 1), depth);
    var next := Skip(content, item.offset);
    PaddedIsFound(content, q + 1, depth);
    if content[next] == ',' {
      ItemsAreFound(content, next, depth, items + [item.value]);
      var all := r.value.items;
      assert items == (items + [item.value])[..|items|] == all[..|items|];
      assert all[|items|..][0] == all[..|items| + 1][|items|] == item.value;
      assert all[|items|..][1..] == all[|items| + 1..];
    } else {
      assert (items + [item.value])[|items|..] == [item.value] && (items + [item.value])[..|items|] == items;
    }
  }

  lemma {:induction false} ObjectIsFound(content: string, o: nat, depth: nat)
    requires Terminated(content) && o < |content| && content[o] == '{' && ParseObject(content, o, depth).Ok?
    ensures var r := ParseObject(content, o, depth); ValueAt(content, o, r.offset, r.value)
    decreases |content| - o, 3
  {
    hide MembersAt, ParseMembers, Skip, Blank;
    var r, first := ParseObject(content, o, depth), Skip(content, o + 1);
    SkippedIsBlank(content, o + 1);
    if content[first] == '}' {
      NoMembers(content, o + 1, first);
    } else {
      MembersAreFound(content, first - 1, depth + 1, []);
      MembersMore(content, o + 1, first, r.offset - 1, r.value.members);
    }
  }

  lemma MembersMore(content: string, a: nat, first: nat, b: nat, members: seq<Member>)
    requires MembersAt(content, first, b, members) && members != [] && Blank(content, a, first)
    ensures MembersAt(content, a, b, members)
  {
    hide MemberAt;
    if |members| == 1 {
      MemberMore(content, a, first, b, members[0]);
    } else {
      var c: nat :| c < b <= |content| && content[c] == ',' && MemberAt(content, first, c, members[0])
                    && MembersAt(content, c + 1, b, members[1..]);
      MemberMore(content, a, first, c, members[0]);
    }
  }

  lemma MemberMore(content: string, a: nat, first: nat, b: nat, m: Member)
    requires MemberAt(content, first, b, m) && Blank(content, a, first)
    ensures MemberAt(content, a, b, m)
  {
    hide PaddedAt, StringAt;
    var o: nat, end: nat, colon: nat :|
      && Blank(content, first, o) && StringAt(content, o, end, m.key) && Blank(content, end, colon)
      && colon < |content| && content[colon] == ':' && PaddedAt(content, colon + 1, b, m.value);
    BlankInTurn(content, a, first, o);
  }

  lemma {:induction false} MembersAreFound(content: string, q: nat, depth: nat, members: seq<Member>)
    requires Terminated(content) && q + 1 < |content| && ParseMembers(content, q, depth, members).Ok?
    ensures var r := ParseMembers(content, q, depth, members);
            && r.value.Object? && |members| < |r.value.members| && members == r.value.members[..|members|]
            && q + 1 < r.offset && content[r.offset - 1] == '}'
            && MembersAt(content, q + 1, r.offset - 1, r.value.members[|members|..])
    decreases |content| - q, 1
  {
    hide PaddedAt, MemberAt, StringAt, ParseValue, ParseString, Skip;
    var r := ParseMembers(content, q, depth, members);
    var name := ParseString(content, Skip(content, q + 1));
    var colon := Skip(content, name.offset);
    var value := ParseValue(content, Skip(content, colon + 1), depth);
    var next, m := Skip(content, value.offset), Member(name.value.text, value.value);
    MemberIsFound(content, q, depth, name, value);
    if content[next] == ',' {
      MembersAreFound(content, next, depth, members + [m]);
      var all := r.value.members;
      assert members == (members + [m])[..|members|] == all[..|members|];
      assert all[|members|..][0] == all[..|members| + 1][|members|] == m;
      assert all[|members|..][1..] == all[|members| + 1..];
    } else {
      assert (members + [m])[|members|..] == [m] && (members + [m])[..|members|] == members;
    }
  }

  lemma {:induction false} MemberIsFound(content: string, q: nat, depth: nat, name: Parsed, value: Parsed)
    requires Terminated(content) && q + 1 < |content|
    requires name == ParseString(content, Skip(content, q + 1)) && name.Ok?
    requires var colon := Skip(content, name.offset);
             && content[colon] == ':' && colon + 1 < |content|
             && value == ParseValue(content, Skip(content, colon + 1), depth) && value.Ok?
             && content[Skip(content, value.offset)] in ",}"
    ensures name.value.String? && q + 1 < value.offset <= Skip(content, value.offset)
    ensures MemberAt(content, q + 1, Skip(content, value.offset), Member(name.value.text, value.value))
    decreases |content| - q, 0
  {
    hide PaddedAt, StringAt, ParseValue, ParseString, Skip, Blank;
    var o, colon := Skip(content, q + 1), Skip(content, name.offset);
    SkippedIsBlank(content, q + 1);
    SkippedIsBlank(content, name.offset);
    StringRead(content, o, name.offset, name.value.text);
    PaddedIsFound(content, colon + 1, depth);
  }

  // ---------- Main results ----------

  lemma MarkIsSkipped(content: string)
    ensures SkipBom(content) == Beginning(content)
  {
    if |content| > 4 {
      assert content[..3] == [content[0], content[1], content[2]];
    }
  }

  /** With nothing allowed behind the value, an input is accepted exactly if all of it is one value of the grammar
      nested within the limit, and the tree is what the text means. */
  lemma AcceptsExactly(content: string, v: JSON)
    requires Terminated(content)
    ensures ParseWithOpts(content, true) == Ok(v, |content| - 1) <==> DocumentOf(content, v)
    ensures ParseWithOpts(content, true).Ok? ==> ParseWithOpts(content, true).offset == |content| - 1
  {
    hide ParseValue, PaddedAt, Skip, Height;
    MarkIsSkipped(content);
    if DocumentOf(content, v) {
      DocumentIsRead(content, v);
    }
    if ParseWithOpts(content, true).Ok? {
      DocumentIsFound(content);
    }
  }

  lemma DocumentIsRead(content: string, v: JSON)
    requires Terminated(content) && DocumentOf(content, v)
    ensures ParseWithOpts(content, true) == Ok(v, |content| - 1)
  {
    hide ParseValue, ValueAt, Height;
    MarkIsSkipped(content);
    var a, b := Beginning(content), |content| - 1;
    var o: nat, end: nat :| Blank(content, a, o) && ValueAt(content, o, end, v) && Blank(content, end, b);
    ValueIsRead(content, o, end, v, 0);
    ValueBegins(content, o, end, v);
    StartIsVisible(content[o]);
    SkipIs(content, a, o);
    BlankInTurn(content, end, b, b + 1);
    SkipToIs(content, end, b + 1);
  }

  lemma DocumentIsFound(content: string)
    requires Terminated(content) && ParseWithOpts(content, true).Ok?
    ensures var r := ParseWithOpts(content, true); r.offset == |content| - 1 && DocumentOf(content, r.value)
  {
    hide ParseValue, ValueAt, Skip, Height, Blank;
    MarkIsSkipped(content);
    var a := Beginning(content);
    var o := Skip(content, a);
    var r := ParseValue(content, o, 0);
    var end := Skip(content, r.offset);
    SkippedIsBlank(content, a);
    SkippedIsBlank(content, r.offset);
    EndsNumber(content, r.offset);
    ValueIsFound(content, o, 0);
    R.ValueAccepted(content, o, 0);
    RestIsBlank(content, r.offset);
  }

  lemma RestIsBlank(content: string, a: nat)
    requires Terminated(content) && a < |content| && content[Skip(content, a)] == NUL
    ensures Skip(content, a) == |content| - 1
  {
  }

  /** An input is refused exactly if it is no text of the grammar; no text has two meanings. */
  lemma RefusesExactly(content: string)
    requires Terminated(content)
    ensures ParseWithOpts(content, true).Fail? <==> forall v :: !DocumentOf(content, v)
    ensures forall v, w :: DocumentOf(content, v) && DocumentOf(content, w) ==> v == w
  {
    hide ParseWithOpts, DocumentOf;
    forall v
      ensures ParseWithOpts(content, true) == Ok(v, |content| - 1) <==> DocumentOf(content, v)
    {
      AcceptsExactly(content, v);
    }
    if ParseWithOpts(content, true).Ok? {
      AcceptsExactly(content, ParseWithOpts(content, true).value);
    }
  }

  /** With text allowed behind it, every value of the grammar is read from the front of the input, and the parse ends
      where it does. */
  lemma ReadsFromFront(content: string, o: nat, end: nat, v: JSON)
    requires Terminated(content) && Height(v) <= NESTING_LIMIT
    requires Blank(content, Beginning(content), o) && ValueAt(content, o, end, v)
    ensures ParseWithOpts(content, false) == Ok(v, end)
  {
    hide ParseValue, ValueAt, Height;
    MarkIsSkipped(content);
    ValueIsRead(content, o, end, v, 0);
    ValueBegins(content, o, end, v);
    StartIsVisible(content[o]);
    SkipIs(content, Beginning(content), o);
  }

  /** What is printed for a tree is a text of the grammar that means the tree. */
  lemma PrintedMeans(v: JSON, format: bool)
    requires Printable(v) && Height(v) <= NESTING_LIMIT
    ensures DocumentOf(Render(v, format, 0) + [NUL], v)
  {
    hide Render, ParseWithOpts, DocumentOf;
    R.ParseUndoesPrint(v, format, true);
    AcceptsExactly(Render(v, format, 0) + [NUL], v);
  }
}
