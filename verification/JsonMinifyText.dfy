/** What `cJSON_Minify` takes a text for: white space, comments, string literals and other characters, and where each of
    them ends. */
module JsonMinifyText {
  import opened JsonMinify
  import opened JsonTree

  /** The parts of a text, each with its length. */
  datatype Part = White | LineComment(n: nat) | BlockComment(n: nat) | Slash | Quoted(n: nat) | Other

  function Length(p: Part): nat {
    match p
    case White => 1
    case LineComment(n) => n
    case BlockComment(n) => n
    case Slash => 1
    case Quoted(n) => n
    case Other => 1
  }

  /** "*" and "/" stand at `k`. */
  predicate ClosesBlock(s: string, k: nat) {
    k + 2 <= |s| && s[k] == '*' && s[k + 1] == '/'
  }

  /** A quote with no backslash right in front of it stands at `k`. */
  predicate ClosesQuote(s: string, k: nat) {
    0 < k < |s| && s[k] == '"' && s[k - 1] != '\\'
  }

  /** Line comments go up to the first end of a line, block comments up to the first closing mark behind the opening
      one, literals up to the first quote that no backslash precedes, and all of them otherwise up to the end of the
      text. */
  predicate PartAt(s: string, i: nat, p: Part) {
    && i < |s| && 0 < Length(p) && i + Length(p) <= |s|
    && match p
       case White => s[i] as nat in {0x20, 0x09, 0x0d, 0x0a}
       case LineComment(n) =>
         && 2 <= n && s[i] == '/' && s[i + 1] == '/'
         && (forall k :: i + 2 <= k < i + n - 1 ==> s[k] != '\n')
         && ((n > 2 && s[i + n - 1] == '\n') || (i + n == |s| && forall k :: i + 2 <= k < |s| ==> s[k] != '\n'))
       case BlockComment(n) =>
         && 2 <= n && s[i] == '/' && s[i + 1] == '*'
         && (forall k :: i + 2 <= k < i + n - 2 ==> !ClosesBlock(s, k))
         && (|| (n >= 4 && ClosesBlock(s, i + n - 2))
             || (i + n == |s| && forall k :: i + 2 <= k < |s| ==> !ClosesBlock(s, k)))
       case Slash => s[i] == '/' && (i + 1 < |s| ==> s[i + 1] != '/' && s[i + 1] != '*')
       case Quoted(n) =>
         && s[i] == '"' && (forall k :: i < k < i + n - 1 ==> !ClosesQuote(s, k))
         && ((n >= 2 && ClosesQuote(s, i + n - 1)) || (i + n == |s| && forall k :: i < k < |s| ==> !ClosesQuote(s, k)))
       case Other => s[i] as nat !in {0x20, 0x09, 0x0d, 0x0a} && s[i] != '/' && s[i] != '"'
  }

  predicate PartsFrom(s: string, i: nat, ps: seq<Part>)
    decreases |ps|
  {
    if ps == [] then i == |s| else PartAt(s, i, ps[0]) && PartsFrom(s, i + Length(ps[0]), ps[1..])
  }

  /** Literals and other characters stay as they are, and nothing else does. */
  function KeptFrom(s: string, i: nat, ps: seq<Part>): string
    requires PartsFrom(s, i, ps)
    decreases |ps|
  {
    if ps == [] then ""
    else (if ps[0].Quoted? || ps[0].Other? then s[i..i + Length(ps[0])] else "")
         + KeptFrom(s, i + Length(ps[0]), ps[1..])
  }

  // ---------- Where parts end ----------

  lemma {:induction false} LineEnds(s: string, i: nat, end: nat)
    requires i <= end <= |s| && (forall k :: i <= k < end ==> s[k] != '\n') && (end < |s| ==> s[end] == '\n')
    ensures AfterLine(s[i..]) == if end < |s| then s[end + 1..] else []
    decreases end - i
  {
    if i < |s| {
      assert s[i..][1..] == s[i + 1..];
      if i < end {
        LineEnds(s, i + 1, end);
      }
    }
  }

  lemma {:induction false} BlockEnds(s: string, i: nat, end: nat)
    requires i <= end <= |s| && (forall k :: i <= k < end ==> !ClosesBlock(s, k)) && (end < |s| ==> ClosesBlock(s, end))
    ensures AfterBlock(s[i..]) == if end < |s| then s[end + 2..] else []
    decreases end - i
  {
    if i < |s| {
      assert s[i..][1..] == s[i + 1..];
      if i < end {
        assert !ClosesBlock(s, i);
        BlockEnds(s, i + 1, end);
      } else {
        assert s[i..][2..] == s[i + 2..];
      }
    }
  }

  /** What becomes of a text from inside a literal that ends at `end`, or not at all. */
  function Literal(s: string, i: nat, end: nat): string
    requires i <= end <= |s|
  {
    if end < |s| then s[i..end + 1] + Minified(s[end + 1..]) else s[i..]
  }

  lemma LiteralStep(s: string, i: nat, end: nat)
    requires i < end <= |s|
    ensures Literal(s, i, end) == [s[i]] + Literal(s, i + 1, end)
  {
    hide Minified;
    if end < |s| {
      assert s[i..end + 1] == [s[i]] + s[i + 1..end + 1];
      Associated([s[i]], s[i + 1..end + 1], Minified(s[end + 1..]));
    } else {
      assert s[i..] == [s[i]] + s[i + 1..];
    }
  }

  lemma LiteralEnd(s: string, end: nat)
    requires end <= |s| && (end < |s| ==> s[end] == '"')
    ensures Literal(s, end, end) == InString(s[end..])
  {
    hide Minified, InString;
    if end < |s| {
      InStringStep(s, end);
      assert s[end..end + 1] == "\"";
    } else {
      NothingLeft();
      assert s[end..] == [];
    }
  }

  lemma Associated(a: string, b: string, c: string)
    ensures a + (b + c) == a + b + c
  {
  }

  /** From inside a literal, where no escaped quote stands. */
  lemma {:induction false} QuoteEnds(s: string, i: nat, end: nat)
    requires 0 < i <= end <= |s| && (i < |s| && s[i] == '"' ==> s[i - 1] != '\\')
    requires (forall k :: i <= k < end ==> !ClosesQuote(s, k)) && (end < |s| ==> ClosesQuote(s, end))
    ensures InString(s[i..]) == Literal(s, i, end)
    decreases end - i
  {
    hide Minified, InString, Literal;
    if i == end {
      LiteralEnd(s, end);
    } else {
      InStringStep(s, i);
      LiteralStep(s, i, end);
      assert !ClosesQuote(s, i);
      if s[i] == '\\' && i + 1 < |s| && s[i + 1] == '"' {
        assert !ClosesQuote(s, i + 1);
        LiteralStep(s, i + 1, end);
        QuoteEnds(s, i + 2, end);
      } else {
        QuoteEnds(s, i + 1, end);
      }
    }
  }

  // ---------- What is left of a part ----------

  /** Each part is taken as a whole. */
  lemma PartTaken(s: string, i: nat, p: Part)
    requires PartAt(s, i, p)
    ensures Minified(s[i..])
         == (if p.Quoted? || p.Other? then s[i..i + Length(p)] else "") + Minified(s[i + Length(p)..])
  {
    hide Minified, InString;
    MinifiedStep(s, i);
    match p
    case White =>
    case LineComment(n) => LineTaken(s, i, n);
    case BlockComment(n) => BlockTaken(s, i, n);
    case Slash =>
    case Quoted(n) => QuoteTaken(s, i, n);
    case Other => assert s[i..i + 1] == [s[i]];
  }

  lemma LineTaken(s: string, i: nat, n: nat)
    requires PartAt(s, i, LineComment(n))
    ensures AfterLine(s[i + 2..]) == s[i + n..]
  {
    if n > 2 && s[i + n - 1] == '\n' {
      LineEnds(s, i + 2, i + n - 1);
    } else {
      LineEnds(s, i + 2, |s|);
      assert s[i + n..] == [];
    }
  }

  lemma BlockTaken(s: string, i: nat, n: nat)
    requires PartAt(s, i, BlockComment(n))
    ensures AfterBlock(s[i + 2..]) == s[i + n..]
  {
    if n >= 4 && ClosesBlock(s, i + n - 2) {
      BlockEnds(s, i + 2, i + n - 2);
    } else {
      BlockEnds(s, i + 2, |s|);
      assert s[i + n..] == [];
    }
  }

  lemma QuoteTaken(s: string, i: nat, n: nat)
    requires PartAt(s, i, Quoted(n))
    ensures "\"" + InString(s[i + 1..]) == s[i..i + n] + Minified(s[i + n..])
  {
    hide Minified, InString;
    OpeningQuote(s, i, n);
    if n >= 2 && ClosesQuote(s, i + n - 1) {
      QuoteEnds(s, i + 1, i + n - 1);
      hide PartAt, ClosesQuote;
      Associated("\"", s[i + 1..i + n], Minified(s[i + n..]));
    } else {
      QuoteEnds(s, i + 1, |s|);
      hide PartAt, ClosesQuote;
      NothingLeft();
      assert s[i + n..] == [] && s[i..i + n] + [] == s[i..i + n];
    }
  }

  lemma OpeningQuote(s: string, i: nat, n: nat)
    requires i + n <= |s| && 0 < n && s[i] == '"'
    ensures s[i..i + n] == "\"" + s[i + 1..i + n] && (i + n == |s| ==> s[i + 1..i + n] == s[i + 1..])
  {
  }

  /** What is left of a text are its literals and other characters. */
  lemma {:induction false} MinifiedIsKept(s: string, i: nat, ps: seq<Part>)
    requires PartsFrom(s, i, ps)
    ensures i <= |s| && Minified(s[i..]) == KeptFrom(s, i, ps)
    decreases |ps|
  {
    hide PartAt, Minified;
    if ps == [] {
      NothingLeft();
      assert s[i..] == [];
    } else {
      PartFits(s, i, ps[0]);
      PartTaken(s, i, ps[0]);
      MinifiedIsKept(s, i + Length(ps[0]), ps[1..]);
    }
  }

  lemma PartFits(s: string, i: nat, p: Part)
    requires PartAt(s, i, p)
    ensures i + Length(p) <= |s| && 0 < Length(p)
  {
  }

  // ---------- Every text has parts ----------

  lemma FirstLine(s: string, i: nat) returns (end: nat)
    requires i <= |s|
    ensures i <= end <= |s| && (forall k :: i <= k < end ==> s[k] != '\n') && (end < |s| ==> s[end] == '\n')
  {
    end := i;
    while end < |s| && s[end] != '\n'
      invariant i <= end <= |s| && forall k :: i <= k < end ==> s[k] != '\n'
    {
      end := end + 1;
    }
  }

  lemma FirstBlock(s: string, i: nat) returns (end: nat)
    requires i <= |s|
    ensures i <= end <= |s| && (forall k :: i <= k < end ==> !ClosesBlock(s, k)) && (end < |s| ==> ClosesBlock(s, end))
  {
    end := i;
    while end < |s| && !ClosesBlock(s, end)
      invariant i <= end <= |s| && forall k :: i <= k < end ==> !ClosesBlock(s, k)
    {
      end := end + 1;
    }
  }

  lemma FirstQuote(s: string, i: nat) returns (end: nat)
    requires i <= |s|
    ensures i <= end <= |s| && (forall k :: i <= k < end ==> !ClosesQuote(s, k)) && (end < |s| ==> ClosesQuote(s, end))
  {
    end := i;
    while end < |s| && !ClosesQuote(s, end)
      invariant i <= end <= |s| && forall k :: i <= k < end ==> !ClosesQuote(s, k)
    {
      end := end + 1;
    }
  }

  lemma PartFound(s: string, i: nat) returns (p: Part)
    requires i < |s|
    ensures PartAt(s, i, p)
  {
    if s[i] as nat in {0x20, 0x09, 0x0d, 0x0a} {
      p := White;
    } else if s[i] == '"' {
      var end := FirstQuote(s, i + 1);
      p := Quoted(if end < |s| then end + 1 - i else |s| - i);
    } else if s[i] != '/' {
      p := Other;
    } else if i + 1 < |s| && s[i + 1] == '/' {
      var end := FirstLine(s, i + 2);
      p := LineComment(if end < |s| then end + 1 - i else |s| - i);
    } else if i + 1 < |s| && s[i + 1] == '*' {
      var end := FirstBlock(s, i + 2);
      p := BlockComment(if end < |s| then end + 2 - i else |s| - i);
    } else {
      p := Slash;
    }
  }

  lemma {:induction false} PartsFound(s: string, i: nat) returns (ps: seq<Part>)
    requires i <= |s|
    ensures PartsFrom(s, i, ps)
    decreases |s| - i
  {
    hide PartAt;
    ps := [];
    if i < |s| {
      var p := PartFound(s, i);
      PartFits(s, i, p);
      var rest := PartsFound(s, i + Length(p));
      ps := [p] + rest;
    }
  }

  /** Every text consists of parts, and minified it is its literals and its other characters, in their order. */
  lemma MinifiesAs(s: string) returns (ps: seq<Part>)
    ensures PartsFrom(s, 0, ps) && Minified(s) == KeptFrom(s, 0, ps)
    ensures forall qs :: PartsFrom(s, 0, qs) ==> KeptFrom(s, 0, qs) == Minified(s)
  {
    hide Minified, PartsFrom, KeptFrom;
    ps := PartsFound(s, 0);
    assert s[0..] == s;
    forall qs | PartsFrom(s, 0, qs)
      ensures KeptFrom(s, 0, qs) == Minified(s)
    {
      MinifiedIsKept(s, 0, qs);
    }
  }
}
