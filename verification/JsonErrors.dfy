/** Where the parser gives up: the position an error is reported at, for every input that is refused. */
module JsonErrors {
  import opened JsonAcceptance
  import opened JsonGrammar
  import opened JsonLiterals
  import opened JsonNumerals
  import opened JsonParse
  import opened JsonText
  import opened JsonTree
  import opened Text

  /** The first character above the space from `a` on, or else the final NUL. */
  predicate Next(content: string, a: nat, s: nat) {
    Blank(content, a, s) && s < |content| && (content[s] > ' ' || s == |content| - 1)
  }

  predicate WordStands(content: string, o: nat) {
    At(content, o, "null") || At(content, o, "false") || At(content, o, "true")
  }

  /** A string breaks off behind its first character if a quote is missing, and otherwise where no piece stands. */
  ghost predicate StringStuck(content: string, o: nat, at: nat) {
    && o < |content|
    && if content[o] != '"' || Unclosed(content, o + 1) then at == o + 1
       else LiteralStuck(content, o + 1, at)
  }

  /** Pieces lead from `start` to `at`, and none stands there. */
  ghost predicate LiteralStuck(content: string, start: nat, at: nat) {
    exists end: nat, ps :: ClosesAt(content, start, end) && at < end && PiecesUpTo(content, start, at, end, ps)
                           && forall p :: !PieceAt(content, at, end, p)
  }

  /** No numeral of at most 63 characters stands there. */
  ghost predicate NoNumeral(content: string, o: nat) {
    forall n :: IsNumeral(n) && |NumeralText(n)| <= 63 ==> !At(content, o, NumeralText(n))
  }

  /** A value expected at `o` breaks off at `at`: there if nothing begins like one, or its nesting is too deep, and
      otherwise inside it. */
  ghost predicate Stuck(content: string, o: nat, at: nat, depth: nat)
    requires Terminated(content)
    decreases |content| - o, 1
  {
    && o < |content| && !WordStands(content, o)
    && if content[o] == '"' then StringStuck(content, o, at)
       else if content[o] == '-' || IsDigit(content[o]) then at == o && NoNumeral(content, o)
       else if content[o] == '[' then if depth >= 1000 then at == o else ItemsStuck(content, o + 1, at, depth + 1)
       else if content[o] == '{' then if depth >= 1000 then at == o else MembersStuck(content, o + 1, at, depth + 1)
       else at == o
  }

  /** Elements from `a` on: one breaks off, or behind one there is no comma and no bracket. */
  ghost predicate ItemsStuck(content: string, a: nat, at: nat, depth: nat)
    requires Terminated(content)
    decreases |content| - a, 2
  {
    exists s: nat ::
      && Next(content, a, s)
      && (|| Stuck(content, s, at, depth)
          || exists end: nat, n: nat :: && s < end && ReadUpTo(content, s, end, depth) && Next(content, end, n)
                                        && if content[n] == ',' then ItemsStuck(content, n + 1, at, depth)
                                           else content[n] != ']' && at == n)
  }

  /** Members likewise: a name, its colon or its value is missing, or what should follow. */
  ghost predicate MembersStuck(content: string, a: nat, at: nat, depth: nat)
    requires Terminated(content)
    decreases |content| - a, 2
  {
    exists s: nat :: Next(content, a, s) && (StringStuck(content, s, at) || BehindName(content, s, at, depth))
  }

  ghost predicate BehindName(content: string, s: nat, at: nat, depth: nat)
    requires Terminated(content)
    decreases |content| - s, 1
  {
    exists name, e: nat, colon: nat ::
      && s < e && StringAt(content, s, e, name) && Next(content, e, colon)
      && if content[colon] != ':' then at == colon else BehindColon(content, colon + 1, at, depth)
  }

  ghost predicate BehindColon(content: string, a: nat, at: nat, depth: nat)
    requires Terminated(content)
    decreases |content| - a, 3
  {
    exists v: nat ::
      && Next(content, a, v)
      && (|| Stuck(content, v, at, depth)
          || exists end: nat, n: nat :: && v < end && ReadUpTo(content, v, end, depth) && Next(content, end, n)
                                        && if content[n] == ',' then MembersStuck(content, n + 1, at, depth)
                                           else content[n] != '}' && at == n)
  }

  ghost predicate ReadUpTo(content: string, o: nat, end: nat, depth: nat)
    requires Terminated(content)
  {
    o < |content| && ParseValue(content, o, depth).Ok? && ParseValue(content, o, depth).offset == end
  }

  // ---------- Proof ----------

  lemma NextIs(content: string, a: nat)
    requires Terminated(content) && a < |content|
    ensures Next(content, a, Skip(content, a))
  {
    SkippedIsBlank(content, a);
  }

  lemma StringBreaksOff(content: string, o: nat)
    requires o < |content| && ParseString(content, o).Fail?
    ensures StringStuck(content, o, ParseString(content, o).at)
  {
    hide ParseString, ClosesAt, PiecesUpTo, PieceAt, Unclosed;
    var end, ps := StringRefused(content, o);
  }

  /** Where a numeral stands `strtod` finds one. */
  lemma NumeralIsFound(s: string, n: Numeral)
    requires IsNumeral(n) && NumeralText(n) <= s
    ensures Strtod(s).Some?
  {
    hide ReadDigits, PowReal, JsonParse.Exponent;
    var text := NumeralText(n);
    PlacesIn(n);
    assert forall k :: 0 <= k < |text| ==> s[k] == text[k];
    if n.whole != "" {
      assert IsDigit(s[|n.sign|]);
    } else {
      assert text[|n.sign|] == '.' && IsDigit(text[|n.sign| + 1]);
    }
  }

  lemma NumberBreaksOff(content: string, o: nat)
    requires o < |content| && ParseNumber(content, o).Fail?
    ensures ParseNumber(content, o).at == o && NoNumeral(content, o)
  {
    hide Strtod, IsNumeral, NumeralText;
    var text := content[o..o + NumberRun(content, o, 0)];
    forall n | IsNumeral(n) && |NumeralText(n)| <= 63 && At(content, o, NumeralText(n))
      ensures false
    {
      TextChars(n);
      assert forall k :: o <= k < o + |NumeralText(n)| ==> content[k] == NumeralText(n)[k - o];
      RunIsLonger(content, o, 0, |NumeralText(n)|);
      NumeralIsFound(text, n);
    }
  }

  lemma {:induction false} RunIsLonger(content: string, o: nat, i: nat, n: nat)
    requires i <= n <= 63 && o + n <= |content| && forall k :: o <= k < o + n ==> IsNumberChar(content[k])
    ensures NumberRun(content, o, i) >= n
    decreases n - i
  {
    if i < n {
      RunIsLonger(content, o, i + 1, n);
    }
  }

  lemma SkipAgain(content: string, a: nat)
    requires Terminated(content) && a < |content|
    ensures Skip(content, Skip(content, a)) == Skip(content, a) >= a
  {
  }

  lemma {:induction false} ValueBreaksOff(content: string, o: nat, depth: nat)
    requires Terminated(content) && o < |content| && ParseValue(content, o, depth).Fail?
    ensures Stuck(content, o, ParseValue(content, o, depth).at, depth)
    decreases |content| - o, 1
  {
    hide At, ParseString, ParseNumber, ParseItems, ParseMembers, StringStuck, NoNumeral, ItemsStuck, MembersStuck, Skip;
    if content[o] == '"' {
      StringBreaksOff(content, o);
    } else if content[o] == '-' || IsDigit(content[o]) {
      NumberBreaksOff(content, o);
    } else if content[o] == '[' && depth < 1000 {
      var first := Skip(content, o + 1);
      SkipAgain(content, o + 1);
      ItemsBreakOff(content, first - 1, o + 1, depth + 1, []);
    } else if content[o] == '{' && depth < 1000 {
      var first := Skip(content, o + 1);
      SkipAgain(content, o + 1);
      MembersBreakOff(content, first - 1, o + 1, depth + 1, []);
    }
  }

  lemma {:induction false} ItemsBreakOff(content: string, q: nat, a: nat, depth: nat, items: seq<JSON>)
    requires Terminated(content) && q + 1 < |content| && a < |content| && a <= q + 1
    requires Skip(content, q + 1) == Skip(content, a) && ParseItems(content, q, depth, items).Fail?
    ensures ItemsStuck(content, a, ParseItems(content, q, depth, items).at, depth)
    decreases |content| - a, 2
  {
    hide ParseValue, Skip, Stuck, Next;
    var s, at := Skip(content, a), ParseItems(content, q, depth, items).at;
    NextIs(content, a);
    SkippedIsBlank(content, a);
    var item := ParseValue(content, s, depth);
    if item.Fail? {
      ValueBreaksOff(content, s, depth);
    } else {
      var n := Skip(content, item.offset);
      NextIs(content, item.offset);
      assert ReadUpTo(content, s, item.offset, depth);
      if content[n] == ',' {
        ItemsBreakOff(content, n, n + 1, depth, items + [item.value]);
      }
    }
  }

  lemma {:induction false} MembersBreakOff(content: string, q: nat, a: nat, depth: nat, members: seq<Member>)
    requires Terminated(content) && q + 1 < |content| && a < |content| && a <= q + 1
    requires Skip(content, q + 1) == Skip(content, a) && ParseMembers(content, q, depth, members).Fail?
    ensures MembersStuck(content, a, ParseMembers(content, q, depth, members).at, depth)
    decreases |content| - a, 2
  {
    hide ParseValue, ParseString, Skip, Stuck, Next, StringStuck, BehindColon, StringAt;
    var s, at := Skip(content, a), ParseMembers(content, q, depth, members).at;
    NextIs(content, a);
    SkippedIsBlank(content, a);
    var name := ParseString(content, s);
    if name.Fail? {
      StringBreaksOff(content, s);
    } else {
      var colon := Skip(content, name.offset);
      StringRead(content, s, name.offset, name.value.text);
      NextIs(content, name.offset);
      if content[colon] == ':' {
        ColonBreaksOff(content, colon, depth, members, name.value.text, at);
      }
      assert BehindName(content, s, at, depth);
    }
  }

  lemma {:induction false} ColonBreaksOff(content: string, colon: nat, depth: nat, members: seq<Member>, name: string,
                                          at: nat)
    requires Terminated(content) && colon + 1 < |content|
    requires var value := ParseValue(content, Skip(content, colon + 1), depth);
             if value.Fail? then at == value.at
             else
               var n := Skip(content, value.offset);
               if content[n] == ',' then
                 ParseMembers(content, n, depth, members + [Member(name, value.value)]) == Fail(at)
               else content[n] != '}' && at == n
    ensures BehindColon(content, colon + 1, at, depth)
    decreases |content| - colon, 1
  {
    hide ParseValue, ParseString, ParseMembers, Skip, Stuck, Next, MembersStuck;
    var v := Skip(content, colon + 1);
    NextIs(content, colon + 1);
    SkippedIsBlank(content, colon + 1);
    var value := ParseValue(content, v, depth);
    if value.Fail? {
      ValueBreaksOff(content, v, depth);
    } else {
      var n := Skip(content, value.offset);
      NextIs(content, value.offset);
      SkippedIsBlank(content, value.offset);
      assert ReadUpTo(content, v, value.offset, depth);
      if content[n] == ',' {
        MembersBreakOff(content, n, n + 1, depth, members + [Member(name, value.value)]);
      }
    }
  }

  /** An error is reported where the value breaks off, or at the end of the input if that is behind it; or, with nothing
      allowed behind the value, at what stands there. */
  lemma ErrorIsWhereItBreaksOff(content: string, requireNullTerminated: bool)
    requires Terminated(content) && ParseWithOpts(content, requireNullTerminated).Fail?
    ensures var at := ParseWithOpts(content, requireNullTerminated).at;
            exists o: nat :: && Next(content, Beginning(content), o)
                             && (|| (exists p: nat :: Stuck(content, o, p, 0)
                                                      && at == if p < |content| then p else |content| - 1)
                                 || (requireNullTerminated
                                     && exists end: nat :: ReadUpTo(content, o, end, 0) && Next(content, end, at)
                                                           && content[at] != NUL))
  {
    hide ParseValue, Skip, Stuck, Next;
    MarkIsSkipped(content);
    var o := Skip(content, Beginning(content));
    NextIs(content, Beginning(content));
    var r := ParseValue(content, o, 0);
    if r.Fail? {
      ValueBreaksOff(content, o, 0);
    } else {
      NextIs(content, r.offset);
      assert ReadUpTo(content, o, r.offset, 0);
    }
  }
}
