/** `cJSON_Minify`: white space and comments removed from a text in place.

    `Minified` says what is left of a text, `InString` what is left when it begins inside a string literal.  A literal
    is copied as it is; its end is the first quote that no backslash precedes, so that an escaped backslash before the
    closing quote hides the quote. */
module JsonMinify {
  import opened JsonTree

  predicate IsSpace(c: char) {
    c == ' ' || c == '\t' || c == '\r' || c == '\n'
  }

  /** What follows a comment up to the end of its line. */
  function AfterLine(s: string): (r: string)
    ensures |r| <= |s|
  {
    if s == [] then [] else if s[0] == '\n' then s[1..] else AfterLine(s[1..])
  }

  /** What follows a comment up to its closing mark. */
  function AfterBlock(s: string): (r: string)
    ensures |r| <= |s|
  {
    if s == [] then [] else if |s| > 1 && s[0] == '*' && s[1] == '/' then s[2..] else AfterBlock(s[1..])
  }

  function Minified(s: string): (r: string)
    decreases |s|
  {
    if s == [] then []
    else if IsSpace(s[0]) then Minified(s[1..])
    else if s[0] == '/' then
      if |s| > 1 && s[1] == '/' then Minified(AfterLine(s[2..]))
      else if |s| > 1 && s[1] == '*' then Minified(AfterBlock(s[2..]))
      else Minified(s[1..])
    else if s[0] == '"' then "\"" + InString(s[1..])
    else [s[0]] + Minified(s[1..])
  }

  function InString(s: string): (r: string)
    ensures s != [] ==> r != [] && r[0] == s[0]
    ensures s == [] ==> r == []
    decreases |s|
  {
    if s == [] then []
    else if s[0] == '"' then "\"" + Minified(s[1..])
    else if s[0] == '\\' && |s| > 1 && s[1] == '"' then "\\\"" + InString(s[2..])
    else [s[0]] + InString(s[1..])
  }

  /** Minifying twice changes nothing more. */
  lemma {:induction false} MinifyTwice(s: string)
    ensures Minified(Minified(s)) == Minified(s)
    decreases |s|
  {
    if s == [] {
    } else if IsSpace(s[0]) {
      MinifyTwice(s[1..]);
    } else if s[0] == '/' {
      MinifyTwice(if |s| > 1 && s[1] == '/' then AfterLine(s[2..])
                  else if |s| > 1 && s[1] == '*' then AfterBlock(s[2..]) else s[1..]);
    } else if s[0] == '"' {
      InStringTwice(s[1..]);
      assert ("\"" + InString(s[1..]))[1..] == InString(s[1..]);
    } else {
      MinifyTwice(s[1..]);
      assert ([s[0]] + Minified(s[1..]))[1..] == Minified(s[1..]);
    }
  }

  lemma {:induction false} InStringTwice(s: string)
    ensures InString(InString(s)) == InString(s)
    decreases |s|
  {
    if s == [] {
    } else if s[0] == '"' {
      MinifyTwice(s[1..]);
      assert ("\"" + Minified(s[1..]))[1..] == Minified(s[1..]);
    } else if s[0] == '\\' && |s| > 1 && s[1] == '"' {
      InStringTwice(s[2..]);
      assert ("\\\"" + InString(s[2..]))[2..] == InString(s[2..]);
    } else {
      InStringTwice(s[1..]);
      assert ([s[0]] + InString(s[1..]))[1..] == InString(s[1..]);
    }
  }

  // ---------- In place ----------

  /** `into` has not passed `json`, and what is still to be read is as it was in the text `s`. */
  ghost predicate Working(a: array<char>, s: string, json: nat, into: nat)
    reads a
  {
    && into <= json <= |s| < a.Length
    && forall k :: json <= k <= |s| ==> a[k] == (if k < |s| then s[k] else NUL)
  }

  /** `skip_oneline_comment`. */
  method SkipOnelineComment(a: array<char>, json: nat, ghost s: string, ghost into: nat) returns (next: nat)
    requires NulFree(s) && json + 2 <= |s| && Working(a, s, json, into)
    ensures json < next && Working(a, s, next, into) && s[next..] == AfterLine(s[json + 2..])
  {
    next := json + 2;
    while a[next] != NUL
      invariant json + 2 <= next <= |s| && AfterLine(s[next..]) == AfterLine(s[json + 2..])
      decreases |s| - next
    {
      assert s[next..][1..] == s[next + 1..];
      if a[next] == '\n' {
        next := next + 1;
        return;
      }
      next := next + 1;
    }
    assert s[next..] == [];
  }

  /** `skip_multiline_comment`. */
  method SkipMultilineComment(a: array<char>, json: nat, ghost s: string, ghost into: nat) returns (next: nat)
    requires NulFree(s) && json + 2 <= |s| && Working(a, s, json, into)
    ensures json < next && Working(a, s, next, into) && s[next..] == AfterBlock(s[json + 2..])
  {
    next := json + 2;
    while a[next] != NUL
      invariant json + 2 <= next <= |s| && AfterBlock(s[next..]) == AfterBlock(s[json + 2..])
      decreases |s| - next
    {
      assert s[next..][1..] == s[next + 1..];
      if a[next] == '*' && a[next + 1] == '/' {
        assert s[next..][2..] == s[next + 2..];
        next := next + 2;
        return;
      }
      next := next + 1;
    }
    assert s[next..] == [];
  }

  lemma InStringStep(s: string, i: nat)
    requires i < |s|
    ensures s[i] == '"' ==> InString(s[i..]) == "\"" + Minified(s[i + 1..])
    ensures s[i] == '\\' && i + 1 < |s| && s[i + 1] == '"' ==> InString(s[i..]) == "\\" + ("\"" + InString(s[i + 2..]))
    ensures s[i] != '"' && !(s[i] == '\\' && i + 1 < |s| && s[i + 1] == '"') ==>
              InString(s[i..]) == [s[i]] + InString(s[i + 1..])
  {
    assert s[i..][1..] == s[i + 1..];
    assert i + 1 < |s| ==> s[i..][2..] == s[i + 2..];
  }

  /** One character from the reading to the writing position; `rest` stands for what will follow it. */
  method CopyOne(a: array<char>, json: nat, into: nat, ghost s: string, ghost rest: string)
    requires json < |s| && Working(a, s, json, into)
    modifies a
    ensures Working(a, s, json + 1, into + 1)
    ensures a[..into + 1] + rest == old(a[..into]) + ([s[json]] + rest)
    ensures forall k :: |s| <= k < a.Length ==> a[k] == old(a[k])
  {
    a[into] := a[json];
    assert a[..into + 1] == old(a[..into]) + [s[json]];
  }

  /** `minify_string`. */
  method MinifyString(a: array<char>, json: nat, into: nat, ghost s: string) returns (next: nat, out: nat)
    requires NulFree(s) && json < |s| && Working(a, s, json, into) && a[json] == '"'
    modifies a
    ensures json < next && Working(a, s, next, out)
    ensures a[..out] + Minified(s[next..]) == old(a[..into]) + Minified(s[json..])
    ensures forall k :: |s| <= k < a.Length ==> a[k] == old(a[k])
  {
    hide InString, Minified;
    MinifiedStep(s, json);
    ghost var all := a[..into] + Minified(s[json..]);
    CopyOne(a, json, into, s, InString(s[json + 1..]));
    next, out := json + 1, into + 1;
    while a[next] != NUL
      invariant json < next <= |s| && Working(a, s, next, out)
      invariant a[..out] + InString(s[next..]) == all
      invariant forall k :: |s| <= k < a.Length ==> a[k] == old(a[k])
      decreases |s| - next
    {
      InStringStep(s, next);
      var c, escaped := a[next], a[next] == '\\' && a[next + 1] == '"';
      if c == '"' {
        CopyOne(a, next, out, s, Minified(s[next + 1..]));
        next, out := next + 1, out + 1;
        return;
      }
      CopyOne(a, next, out, s, if escaped then "\"" + InString(s[next + 2..]) else InString(s[next + 1..]));
      next, out := next + 1, out + 1;
      if escaped {
        CopyOne(a, next, out, s, InString(s[next + 1..]));
        next, out := next + 1, out + 1;
      }
    }
    assert s[next..] == [];
    NothingLeft();
  }

  lemma NothingLeft()
    ensures InString([]) == [] && Minified([]) == []
  {
  }

  lemma MinifiedStep(s: string, i: nat)
    requires i < |s|
    ensures IsSpace(s[i]) ==> Minified(s[i..]) == Minified(s[i + 1..])
    ensures s[i] == '/' && i + 1 < |s| && s[i + 1] == '/' ==> Minified(s[i..]) == Minified(AfterLine(s[i + 2..]))
    ensures s[i] == '/' && i + 1 < |s| && s[i + 1] == '*' ==> Minified(s[i..]) == Minified(AfterBlock(s[i + 2..]))
    ensures s[i] == '/' && !(i + 1 < |s| && (s[i + 1] == '/' || s[i + 1] == '*')) ==>
              Minified(s[i..]) == Minified(s[i + 1..])
    ensures s[i] == '"' ==> Minified(s[i..]) == "\"" + InString(s[i + 1..])
    ensures !IsSpace(s[i]) && s[i] != '/' && s[i] != '"' ==> Minified(s[i..]) == [s[i]] + Minified(s[i + 1..])
  {
    assert s[i..][1..] == s[i + 1..];
    assert i + 1 < |s| ==> s[i..][2..] == s[i + 2..];
  }

  /** `cJSON_Minify` on a buffer that holds the text `s` and its NUL: the minified text and a NUL take their place, and
      nothing behind them is touched. */
  method Minify(a: array<char>, ghost s: string)
    requires NulFree(s) && |s| < a.Length && a[..|s| + 1] == s + [NUL]
    modifies a
    ensures |Minified(s)| <= |s| && a[..|Minified(s)| + 1] == Minified(s) + [NUL]
    ensures a[|s| + 1..] == old(a[|s| + 1..])
  {
    hide InString, Minified;
    var json, into := 0, 0;
    assert forall k :: 0 <= k <= |s| ==> a[k] == a[..|s| + 1][k];
    assert s[0..] == s;
    while a[json] != NUL
      invariant 0 <= into <= json <= |s| && Working(a, s, json, into)
      invariant a[..into] + Minified(s[json..]) == Minified(s)
      invariant forall k :: |s| <= k < a.Length ==> a[k] == old(a[k])
      decreases |s| - json
    {
      MinifiedStep(s, json);
      if IsSpace(a[json]) {
        json := json + 1;
      } else if a[json] == '/' {
        if a[json + 1] == '/' {
          json := SkipOnelineComment(a, json, s, into);
        } else if a[json + 1] == '*' {
          json := SkipMultilineComment(a, json, s, into);
        } else {
          json := json + 1;
        }
      } else if a[json] == '"' {
        json, into := MinifyString(a, json, into, s);
      } else {
        CopyOne(a, json, into, s, Minified(s[json + 1..]));
        json, into := json + 1, into + 1;
      }
    }
    assert s[json..] == [];
    NothingLeft();
    a[into] := NUL;
  }
}
