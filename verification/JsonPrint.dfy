/** The printer of cJSON.c: a buffer that grows, or the caller's own, filled piece by piece.

    `print_value` leaves the text of a value in the buffer, NUL after it, and the offset somewhere inside that text;
    `update_offset` then finds the end with `strlen`.  Every method below is proved against `Render`. */
module JsonPrint {
  import opened JsonTree
  import opened JsonRender
  import opened JsonRenderFacts
  import opened Text
  import opened Wrappers

  const INT_MAX := 0x7fff_ffff

  /** `printbuffer`. */
  class PrintBuffer {
    var buffer: array<char>
    var length: nat
    var offset: nat
    var depth: nat
    const noalloc: bool
    const format: bool
    /** Whether the allocator hooks offer `realloc`. */
    const reallocates: bool

    constructor (buffer: array<char>, noalloc: bool, format: bool, reallocates: bool)
      requires buffer.Length <= INT_MAX && (!noalloc ==> buffer.Length > 0)
      ensures this.buffer == buffer && this.noalloc == noalloc && this.format == format
      ensures offset == 0 && depth == 0 && Valid() && length == buffer.Length
    {
      this.buffer, length, offset, depth := buffer, buffer.Length, 0, 0;
      this.noalloc, this.format, this.reallocates := noalloc, format, reallocates;
    }

    ghost predicate Valid()
      reads this
    {
      buffer.Length == length <= INT_MAX && (offset < length || (noalloc && offset == 0))
    }

    /** How large the buffer may become. */
    ghost function Capacity(): int
      reads this
    {
      if noalloc then length else INT_MAX
    }

    /** Everything before the offset, which has to be inside the buffer. */
    ghost predicate Before(text: string)
      reads this, buffer
    {
      |text| == offset && offset < length == buffer.Length && buffer[..offset] == text
    }

    /** The buffer starts with `text`, which ends with NUL. */
    ghost predicate Printed(text: string)
      reads this, buffer
    {
      |text| < length == buffer.Length && buffer[..|text|] == text && buffer[|text|] == NUL
    }

    /** The buffer is the one it was, or a new one where the printer may allocate. */
    twostate predicate SameOrNew()
      reads this
    {
      && (buffer == old(buffer) || (!noalloc && fresh(buffer)))
      && (noalloc ==> length == old(length))
    }

    /** `ensure`: room for `needed` characters and a NUL behind the offset.  A buffer that is too small is replaced by one
        of twice what is needed, or of INT_MAX. */
    method Ensure(needed: nat) returns (ok: bool)
      requires Valid()
      modifies `buffer, `length
      ensures Valid() && SameOrNew() && Capacity() == old(Capacity())
      ensures ok <==> offset + needed + 1 <= Capacity()
      ensures ok ==> offset + needed + 1 <= length
      ensures ok ==> old(offset < length) && buffer[..offset + 1] == old(buffer[..offset + 1])
      ensures var total := offset + needed + 1;
              if ok && total > old(length) then fresh(buffer) && length == if 2 * total < INT_MAX then 2 * total else INT_MAX
              else buffer == old(buffer) && length == old(length)
    {
      if length > 0 && offset >= length {
        return false;
      }
      if needed > INT_MAX {
        return false;
      }
      var total := needed + offset + 1;
      if total <= length {
        return true;
      }
      if noalloc {
        return false;
      }
      var newSize: nat;
      if total > INT_MAX / 2 {
        if total <= INT_MAX {
          newSize := INT_MAX;
        } else {
          return false;
        }
      } else {
        newSize := total * 2;
      }
      var kept := if reallocates then length else offset + 1;
      var newBuffer := Copied(kept, newSize);
      assert newBuffer[..offset + 1] == newBuffer[..kept][..offset + 1];
      length, buffer := newSize, newBuffer;
      ok := true;
    }

    /** A larger buffer that starts with the first characters of the old one. */
    method Copied(kept: nat, newSize: nat) returns (newBuffer: array<char>)
      requires kept <= newSize && kept <= buffer.Length
      ensures fresh(newBuffer) && newBuffer.Length == newSize && newBuffer[..kept] == buffer[..kept]
    {
      newBuffer := new char[newSize];
      for i := 0 to kept
        invariant newBuffer[..i] == buffer[..i]
      {
        newBuffer[i] := buffer[i];
      }
    }

    /** `strcpy` and `memcpy` into the buffer. */
    method Copy(at: nat, text: string)
      requires at + |text| <= buffer.Length
      modifies buffer
      ensures buffer[..at] == old(buffer[..at]) && buffer[at..at + |text|] == text
    {
      for i := 0 to |text|
        invariant buffer[..at] == old(buffer[..at]) && buffer[at..at + i] == text[..i]
      {
        buffer[at + i] := text[i];
        assert buffer[at..at + i + 1] == buffer[at..at + i] + [text[i]];
      }
    }

    /** Reserve room for `needed` characters and write `text` at the offset, with NUL behind it if wanted. */
    method Place(text: string, needed: nat, terminate: bool) returns (ok: bool)
      requires Valid() && |text| <= needed
      modifies `buffer, `length, buffer
      ensures Valid() && SameOrNew() && Capacity() == old(Capacity())
      ensures ok <==> offset + needed + 1 <= Capacity()
      ensures ok ==> offset + needed + 1 <= length
      ensures ok ==> buffer[..offset + |text|] == old(buffer[..offset]) + text
      ensures ok && terminate ==> Printed(old(buffer[..offset]) + text)
    {
      ok := Ensure(needed);
      if ok {
        assert buffer[..offset] == buffer[..offset + 1][..offset] == old(buffer[..offset + 1])[..offset];
        Write(text, terminate);
      }
    }

    method Write(text: string, terminate: bool)
      requires offset + |text| < buffer.Length
      modifies buffer
      ensures buffer[..offset + |text|] == old(buffer[..offset]) + text
      ensures terminate ==> buffer[offset + |text|] == NUL
    {
      Copy(offset, text);
      assert buffer[..offset + |text|] == buffer[..offset] + buffer[offset..offset + |text|];
      if terminate {
        ghost var front := buffer[..offset + |text|];
        buffer[offset + |text|] := NUL;
        assert buffer[..offset + |text|] == front;
      }
    }

    /** `Place` followed by the step over what was placed. */
    method Emit(text: string, needed: nat, terminate: bool) returns (ok: bool)
      requires Valid() && |text| <= needed
      modifies `buffer, `length, `offset, buffer
      ensures Valid() && SameOrNew() && Capacity() == old(Capacity())
      ensures ok <==> old(offset) + needed + 1 <= Capacity()
      ensures ok ==> Before(old(buffer[..offset]) + text)
    {
      ok := Place(text, needed, terminate);
      if ok {
        offset := offset + |text|;
      }
    }

    /** `update_offset`. */
    method UpdateOffset(ghost before: string, ghost latest: string)
      requires Printed(before + latest) && |before| <= offset <= |before + latest| && NulFree(latest)
      modifies `offset
      ensures Before(before + latest)
    {
      ghost var text := before + latest;
      assert forall k :: offset <= k < |text| ==> text[k] == latest[k - |before|] != NUL;
      var n := 0;
      while buffer[offset + n] != NUL
        invariant offset + n <= |text|
        decreases |text| - n
      {
        assert buffer[offset + n] == buffer[..|text|][offset + n];
        n := n + 1;
      }
      offset := offset + n;
    }

    // ---------- Strings ----------

    /** The escape of a control character without a short one: `sprintf` of "u%04x" after the backslash, NUL included. */
    method WriteCode(at: nat, c: char)
      requires |Escape(c)| == 6 && at + 6 < buffer.Length
      modifies buffer
      ensures buffer[..at] == old(buffer[..at]) && buffer[at..at + 6] == Escape(c)
    {
      var code := "u00" + [HexDigit(c as int / 16), HexDigit(c as int % 16)];
      buffer[at] := '\\';
      ghost var front := buffer[..at + 1];
      Copy(at + 1, code + [NUL]);
      assert buffer[..at] == front[..at] && buffer[at] == front[at];
      assert buffer[at + 1..at + 6] == (code + [NUL])[..5] == code;
      assert buffer[at..at + 6] == [buffer[at]] + buffer[at + 1..at + 6];
    }

    /** One character of a string, escaped where it has to be. */
    method WriteEscaped(at: nat, c: char) returns (next: nat)
      requires at + |Escape(c)| < buffer.Length
      modifies buffer
      ensures next == at + |Escape(c)|
      ensures buffer[..at] == old(buffer[..at]) && buffer[at..next] == Escape(c)
    {
      if c > '\U{1F}' && c != '"' && c != '\\' {
        buffer[at] := c;
        return at + 1;
      }
      var short := ShortEscape(c);
      if short.Some? {
        buffer[at], buffer[at + 1] := '\\', short.value;
        return at + 2;
      }
      WriteCode(at, c);
      next := at + 6;
    }

    /** The characters escaping adds. */
    method CountEscapes(s: string) returns (escapes: nat)
      ensures |s| + escapes == |EscapeAll(s)|
    {
      escapes := 0;
      for i := 0 to |s|
        invariant i + escapes + |EscapeAll(s[i..])| == |EscapeAll(s)|
      {
        if ShortEscape(s[i]).Some? {
          escapes := escapes + 1;
        } else if s[i] < ' ' {
          escapes := escapes + 5;
        }
        assert s[i..][1..] == s[i + 1..];
      }
    }

    /** `print_string_ptr`; no string at all prints as an empty one. */
    method PrintStringPtr(input: Option<string>) returns (ok: bool)
      requires Valid() && (input.Some? ==> NulFree(input.value))
      modifies `buffer, `length, buffer
      ensures Valid() && SameOrNew() && Capacity() == old(Capacity())
      ensures ok <==> offset + |QuoteOf(input)| + 2 <= Capacity()
      ensures ok ==> Printed(old(buffer[..offset]) + QuoteOf(input))
    {
      hide Quote;
      if input.None? {
        EmptyQuote();
        ok := Place("\"\"", 3, true);
      } else {
        ok := PrintText(input.value);
      }
    }

    method PrintText(s: string) returns (ok: bool)
      requires Valid() && NulFree(s)
      modifies `buffer, `length, buffer
      ensures Valid() && SameOrNew() && Capacity() == old(Capacity())
      ensures ok <==> offset + |Quote(s)| + 2 <= Capacity()
      ensures ok ==> Printed(old(buffer[..offset]) + Quote(s))
    {
      hide EscapeAll;
      var escapes := CountEscapes(s);
      var outputLength := |s| + escapes;
      ok := Ensure(outputLength + 3);
      if !ok {
        return;
      }
      ghost var before := buffer[..offset];
      assert before == buffer[..offset + 1][..offset];
      assert old(buffer[..offset]) == old(buffer[..offset + 1])[..offset];
      WriteQuoted(s, escapes, outputLength);
      assert buffer[..offset + |Quote(s)|] == buffer[..offset] + buffer[offset..offset + |Quote(s)|];
    }

    /** What stands between the quotes: copied as it is when nothing has to be escaped. */
    method WriteBody(s: string, escapes: nat)
      requires |s| + escapes == |EscapeAll(s)| && offset + 1 + |EscapeAll(s)| < buffer.Length
      modifies buffer
      ensures buffer[..offset + 1] == old(buffer[..offset + 1])
      ensures buffer[offset + 1..offset + 1 + |EscapeAll(s)|] == EscapeAll(s)
    {
      hide EscapeAll;
      if escapes == 0 {
        NothingEscaped(s);
        Copy(offset + 1, s);
      } else {
        WriteAll(s);
      }
    }

    method WriteQuoted(s: string, escapes: nat, outputLength: nat)
      requires outputLength == |s| + escapes == |EscapeAll(s)| && offset + outputLength + 3 <= buffer.Length
      modifies buffer
      ensures buffer[..offset] == old(buffer[..offset])
      ensures buffer[offset..offset + |Quote(s)|] == Quote(s) && buffer[offset + |Quote(s)|] == NUL
    {
      hide EscapeAll;
      buffer[offset] := '"';
      ghost var front := buffer[..offset + 1];
      WriteBody(s, escapes);
      assert buffer[..offset] == front[..offset] && buffer[offset] == front[offset];
      ghost var body := buffer[offset + 1..offset + 1 + outputLength];
      buffer[offset + outputLength + 1] := '"';
      buffer[offset + outputLength + 2] := NUL;
      assert buffer[offset + 1..offset + 1 + outputLength] == body;
      assert buffer[offset..offset + outputLength + 2]
          == [buffer[offset]] + buffer[offset + 1..offset + 1 + outputLength] + [buffer[offset + outputLength + 1]];
    }

    /** The escaping loop of `print_string_ptr`. */
    method WriteAll(s: string)
      requires offset + 1 + |EscapeAll(s)| < buffer.Length
      modifies buffer
      ensures buffer[..offset + 1] == old(buffer[..offset + 1])
      ensures buffer[offset + 1..offset + 1 + |EscapeAll(s)|] == EscapeAll(s)
    {
      hide Escape;
      var out := offset + 1;
      for i := 0 to |s|
        invariant offset + 1 <= out && out + |EscapeAll(s[i..])| == offset + 1 + |EscapeAll(s)|
        invariant buffer[..offset + 1] == old(buffer[..offset + 1])
        invariant buffer[offset + 1..out] + EscapeAll(s[i..]) == EscapeAll(s)
      {
        EscapeStep(s, i, buffer[offset + 1..out]);
        out := WriteOneMore(offset + 1, out, s[i]);
      }
    }

    /** One more character behind those written since `from`. */
    method WriteOneMore(from: nat, at: nat, c: char) returns (next: nat)
      requires from <= at && at + |Escape(c)| < buffer.Length
      modifies buffer
      ensures next == at + |Escape(c)|
      ensures buffer[..from] == old(buffer[..from])
      ensures buffer[from..next] == old(buffer[from..at]) + Escape(c)
    {
      hide Escape;
      ghost var front := buffer[..at];
      next := WriteEscaped(at, c);
      assert buffer[..from] == front[..from];
      assert buffer[from..next] == buffer[from..at] + buffer[at..next];
      assert buffer[from..at] == front[from..];
    }

    // ---------- Values ----------

    /** What every printing method promises about the text it is to print. */
    twostate predicate Advanced(text: string)
      reads this, buffer
    {
      && Valid() && depth == old(depth) && old(offset) <= offset <= old(offset) + |text|
      && old(offset <= buffer.Length) && Printed(old(buffer[..offset]) + text)
    }

    /** `print_number` on a number that prints as plain digits. */
    method PrintNumber(d: real) returns (ok: bool)
      requires Valid() && PlainInteger(d)
      modifies `buffer, `length, `offset, buffer
      ensures SameOrNew() && Capacity() == old(Capacity())
      ensures ok <==> old(offset) + |IntegerText(d.Floor)| + 2 <= Capacity()
      ensures ok ==> Valid() && Printed(old(buffer[..offset]) + IntegerText(d.Floor))
      ensures ok ==> offset == old(offset) + |IntegerText(d.Floor)|
    {
      var text := IntegerText(d.Floor);
      ok := Place(text, |text| + 1, true);
      if ok {
        offset := offset + |text|;
      }
    }

    /** `print_value`. */
    method PrintValue(v: JSON) returns (ok: bool)
      requires Valid() && Printable(v)
      modifies `buffer, `length, `offset, `depth, buffer
      ensures SameOrNew() && Capacity() == old(Capacity())
      ensures ok <==> old(offset) + |Render(v, format, old(depth))| + 2 <= Capacity()
      ensures ok ==> Advanced(Render(v, format, old(depth)))
      decreases v, 2
    {
      hide IntegerText, Quote, RenderItems, RenderMembers, NulFree, PlainInteger;
      match v
      case Null => ok := Place("null", 5, true);
      case False => ok := Place("false", 6, true);
      case True => ok := Place("true", 5, true);
      case Number(d) => ok := PrintNumber(d);
      case String(s) => ok := PrintStringPtr(Some(s));
      case Array(items) => ok := PrintArray(v);
      case Object(members) => ok := PrintObject(v);
    }

    // ---------- Arrays ----------

    /** One turn of the loop of `print_array`. */
    method PrintElement(v: JSON, more: bool) returns (ok: bool)
      requires Valid() && offset < length && Printable(v)
      modifies `buffer, `length, `offset, `depth, buffer
      ensures SameOrNew() && Capacity() == old(Capacity())
      ensures ok <==> old(offset) + |ItemText(v, more, format, old(depth))| + 2 <= Capacity()
      ensures ok ==> Valid() && depth == old(depth)
      ensures ok ==> Before(old(buffer[..offset]) + ItemText(v, more, format, depth))
      decreases v, 3
    {
      hide Render, Printable;
      ghost var before, text := buffer[..offset], Render(v, format, depth);
      ok := PrintValue(v);
      if !ok {
        return;
      }
      RenderNulFree(v, format, depth);
      UpdateOffset(before, text);
      if more {
        var separator := Separator(format);
        ok := Place(separator, |separator| + 1, true);
        if !ok {
          return;
        }
        offset := offset + |separator|;
        assert before + text + separator == before + (text + separator);
      }
    }

    /** The loop of `print_array`. */
    method PrintItems(items: seq<JSON>) returns (ok: bool)
      requires Valid() && offset < length && Printable(Array(items))
      modifies `buffer, `length, `offset, `depth, buffer
      ensures SameOrNew() && Capacity() == old(Capacity())
      ensures old(offset) + |RenderItems(items, format, old(depth))| + 2 <= Capacity() ==> ok
      ensures ok ==> Valid() && depth == old(depth)
      ensures ok ==> Before(old(buffer[..offset]) + RenderItems(items, format, depth))
      decreases items, 4
    {
      hide Render, RenderItems, Printable, ItemText;
      ghost var before, all, text := buffer[..offset], RenderItems(items, format, depth), [];
      ok := true;
      for i := 0 to |items|
        invariant ok && SameOrNew() && Valid() && Capacity() == old(Capacity()) && depth == old(depth)
        invariant Before(before + text)
        invariant text + RenderItems(items[i..], format, depth) == all
      {
        PrintableSuffix(items, i);
        ItemsStep(items, i, format, depth);
        ghost var item := ItemText(items[i], i + 1 < |items|, format, depth);
        ok := PrintElement(items[i], i + 1 < |items|);
        if !ok {
          return;
        }
        assert before + text + item == before + (text + item);
        text := text + item;
      }
      NoItems(items[|items|..], format, depth);
      assert text == all;
    }

    /** `print_array`. */
    method PrintArray(v: JSON) returns (ok: bool)
      requires Valid() && v.Array? && Printable(v)
      modifies `buffer, `length, `offset, `depth, buffer
      ensures SameOrNew() && Capacity() == old(Capacity())
      ensures ok <==> old(offset) + |Render(v, format, old(depth))| + 2 <= Capacity()
      ensures ok ==> Advanced(Render(v, format, old(depth)))
      decreases v, 1
    {
      hide Render, RenderItems, Printable;
      ghost var before, all := buffer[..offset], RenderItems(v.items, format, depth + 1);
      ArrayText(v.items, format, depth);
      ok := Emit("[", 1, false);
      if !ok {
        return;
      }
      depth := depth + 1;
      ok := PrintItems(v.items);
      if !ok {
        return;
      }
      ok := Place("]", 2, true);
      if !ok {
        return;
      }
      depth := depth - 1;
      Associate(before, "[", all, "]");
    }

    // ---------- Objects ----------

    /** The indentation, the name and the colon. */
    method PrintName(key: string) returns (ok: bool)
      requires Valid() && offset < length && NulFree(key)
      modifies `buffer, `length, `offset, buffer
      ensures SameOrNew() && Capacity() == old(Capacity())
      ensures ok ==> Valid() && Before(old(buffer[..offset]) + MemberHead(key, format, depth))
      ensures old(offset) + |MemberHead(key, format, depth)| + 2 <= Capacity() ==> ok
    {
      hide Quote, NulFree, Lead, Colon;
      ghost var before, lead := buffer[..offset], Lead(format, depth);
      ok := PrintLead();
      if !ok {
        return;
      }
      ok := PrintKey(key);
      if !ok {
        return;
      }
      var colon := Colon(format);
      ok := Emit(colon, |colon|, false);
      if !ok {
        return;
      }
      Associate(before, lead, Quote(key), colon);
      assert lead + Quote(key) + colon == lead + (Quote(key) + colon);
    }

    method PrintLead() returns (ok: bool)
      requires Valid() && offset < length
      modifies `buffer, `length, `offset, buffer
      ensures Valid() && SameOrNew() && Capacity() == old(Capacity())
      ensures ok <==> old(offset) + |Lead(format, depth)| + 1 <= Capacity()
      ensures ok ==> Before(old(buffer[..offset]) + Lead(format, depth))
    {
      if format {
        ok := Emit(Tabs(depth), depth, false);
      } else {
        ok := true;
        assert buffer[..offset] + [] == buffer[..offset];
      }
    }

    /** The name in its quotes, and the offset behind it. */
    method PrintKey(key: string) returns (ok: bool)
      requires Valid() && offset < length && NulFree(key)
      modifies `buffer, `length, `offset, buffer
      ensures SameOrNew() && Capacity() == old(Capacity())
      ensures ok <==> old(offset) + |Quote(key)| + 2 <= Capacity()
      ensures ok ==> Valid() && Before(old(buffer[..offset]) + Quote(key))
    {
      hide Quote, NulFree;
      ghost var before := buffer[..offset];
      ok := PrintStringPtr(Some(key));
      if ok {
        QuoteNulFree(key);
        UpdateOffset(before, Quote(key));
      }
    }

    /** One turn of the loop of `print_object`. */
    method PrintMember(m: Member, more: bool) returns (ok: bool)
      requires Valid() && offset < length && NulFree(m.key) && Printable(m.value)
      modifies `buffer, `length, `offset, `depth, buffer
      ensures SameOrNew() && Capacity() == old(Capacity())
      ensures ok <==> old(offset) + |MemberText(m, more, format, old(depth))| + 2 <= Capacity()
      ensures ok ==> Valid() && depth == old(depth)
      ensures ok ==> Before(old(buffer[..offset]) + MemberText(m, more, format, depth))
      decreases m, 3
    {
      hide Render, Printable, MemberHead, MemberTail, MemberText, NulFree;
      ghost var before, head := buffer[..offset], MemberHead(m.key, format, depth);
      ghost var text := Render(m.value, format, depth);
      MemberParts(before, m, more, format, depth);
      ok := PrintName(m.key);
      if !ok {
        return;
      }
      ok := PrintValue(m.value);
      if !ok {
        return;
      }
      RenderNulFree(m.value, format, depth);
      UpdateOffset(before + head, text);
      var tail := MemberTail(more, format);
      ok := Emit(tail, |tail| + 1, true);
    }

    /** The loop of `print_object`. */
    method PrintMembers(members: seq<Member>) returns (ok: bool)
      requires Valid() && offset < length && Printable(Object(members))
      modifies `buffer, `length, `offset, `depth, buffer
      ensures SameOrNew() && Capacity() == old(Capacity())
      ensures old(offset) + |RenderMembers(members, format, old(depth))| + 2 <= Capacity() ==> ok
      ensures ok ==> Valid() && depth == old(depth)
      ensures ok ==> Before(old(buffer[..offset]) + RenderMembers(members, format, depth))
      decreases members, 4
    {
      hide Render, RenderMembers, Printable, MemberText, NulFree;
      ghost var before, all, text := buffer[..offset], RenderMembers(members, format, depth), [];
      ok := true;
      for i := 0 to |members|
        invariant ok && SameOrNew() && Valid() && Capacity() == old(Capacity()) && depth == old(depth)
        invariant Before(before + text)
        invariant text + RenderMembers(members[i..], format, depth) == all
      {
        PrintableMembersSuffix(members, i);
        MembersStep(members, i, format, depth);
        ghost var member := MemberText(members[i], i + 1 < |members|, format, depth);
        ok := PrintMember(members[i], i + 1 < |members|);
        if !ok {
          return;
        }
        assert before + text + member == before + (text + member);
        text := text + member;
      }
      NoMembers(members[|members|..], format, depth);
      assert text == all;
    }

    /** `print_object`. */
    method PrintObject(v: JSON) returns (ok: bool)
      requires Valid() && v.Object? && Printable(v)
      modifies `buffer, `length, `offset, `depth, buffer
      ensures SameOrNew() && Capacity() == old(Capacity())
      ensures ok <==> old(offset) + |Render(v, format, old(depth))| + 2 <= Capacity()
      ensures ok ==> Advanced(Render(v, format, old(depth)))
      decreases v, 1
    {
      hide Render, RenderMembers, Printable, Opening, Closing;
      ghost var before, all := buffer[..offset], RenderMembers(v.members, format, depth + 1);
      ObjectText(v.members, format, depth);
      ClosingLength(format, depth);
      var opening, closing := Opening(format), Closing(format, depth);
      ok := Emit(opening, |opening| + 1, false);
      if !ok {
        return;
      }
      depth := depth + 1;
      ok := PrintMembers(v.members);
      if !ok {
        return;
      }
      ok := Place(closing, if format then depth + 1 else 2, true);
      if !ok {
        return;
      }
      depth := depth - 1;
      Associate(before, opening, all, closing);
    }
  }

  // ---------- Entry points ----------

  method CopyOf(buffer: array<char>, size: nat) returns (copy: array<char>)
    requires size <= buffer.Length
    ensures fresh(copy) && copy[..] == buffer[..size]
  {
    copy := new char[size];
    for i := 0 to size
      invariant copy[..i] == buffer[..i]
    {
      copy[i] := buffer[i];
    }
  }

  /** `print`, behind `cJSON_Print` and `cJSON_PrintUnformatted`: the text and its NUL in a buffer of exactly that
      size, unless it and one spare byte exceed INT_MAX. */
  method Print(v: JSON, format: bool, reallocates: bool) returns (printed: array?<char>)
    requires Printable(v)
    ensures printed == null <==> |Render(v, format, 0)| + 2 > INT_MAX
    ensures printed != null ==> fresh(printed) && printed[..] == Render(v, format, 0) + [NUL]
  {
    hide Render, Printable;
    ghost var text := Render(v, format, 0);
    var start := new char[256];
    var p := new PrintBuffer(start, false, format, reallocates);
    var ok := p.PrintValue(v);
    if !ok {
      return null;
    }
    RenderNulFree(v, format, 0);
    assert [] + text == text;
    p.UpdateOffset([], text);
    assert p.buffer[..p.offset + 1] == text + [NUL];
    printed := CopyOf(p.buffer, p.offset + 1);
    printed[p.offset] := NUL;
  }

  /** `cJSON_PrintBuffered`, given a first size of at least one byte. */
  method PrintBuffered(v: JSON, prebuffer: int, format: bool, reallocates: bool) returns (printed: array?<char>)
    requires Printable(v) && prebuffer != 0 && prebuffer <= INT_MAX
    ensures printed == null <==> prebuffer < 0 || |Render(v, format, 0)| + 2 > INT_MAX
    ensures printed != null ==> fresh(printed) && Render(v, format, 0) + [NUL] <= printed[..]
  {
    hide Render, Printable;
    if prebuffer < 0 {
      return null;
    }
    var start := new char[prebuffer];
    var p := new PrintBuffer(start, false, format, reallocates);
    var ok := p.PrintValue(v);
    assert [] + Render(v, format, 0) == Render(v, format, 0);
    printed := if ok then p.buffer else null;
  }

  /** `cJSON_PrintPreallocated`: the caller's buffer is enough exactly when it has two bytes more than the text. */
  method PrintPreallocated(v: JSON, buf: array<char>, len: int, format: bool) returns (ok: bool)
    requires Printable(v) && len <= INT_MAX && (len >= 0 ==> buf.Length == len)
    modifies buf
    ensures ok <==> len >= |Render(v, format, 0)| + 2
    ensures ok ==> Render(v, format, 0) + [NUL] <= buf[..]
  {
    hide Render, Printable;
    if len < 0 {
      return false;
    }
    var p := new PrintBuffer(buf, true, format, false);
    ok := p.PrintValue(v);
    assert [] + Render(v, format, 0) == Render(v, format, 0);
  }
}
