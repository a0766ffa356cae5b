/** What the allowed-tools field accepts, written out as text: plain tools, scopes and
    quoted pieces, and the error for each way of getting it wrong. */
module AllowedToolLaws {
  import opened Options
  import opened Text
  import opened AllowedTools

  /** Neither white space nor a quote nor a parenthesis. */
  predicate IsPlain(s: string) {
    forall k :: 0 <= k < |s| ==> !IsWhitespace(s[k]) && s[k] !in ['"', '\'', '(', ')']
  }

  /** Text for a scope: white space is allowed. */
  predicate IsScope(s: string) {
    forall k :: 0 <= k < |s| ==> s[k] !in ['"', '\'', '(', ')']
  }

  /** Text between two quotes: the quote itself, and a backslash, only after a backslash. */
  predicate IsQuotable(q: char, s: string)
    decreases |s|
  {
    s == "" ||
    (s[0] == '\\' && |s| >= 2 && IsQuotable(q, s[2..])) ||
    (s[0] != '\\' && s[0] != q && IsQuotable(q, s[1..]))
  }

  // ------------------------------------------------------------------
  // Scanning
  // ------------------------------------------------------------------

  lemma {:induction false} ScanConcat(s: Scan, a: string, b: string)
    ensures ScanThrough(s, a + b) ==
            match ScanThrough(s, a) case Some(s') => ScanThrough(s', b) case None => None
    decreases |a|
  {
    if a == "" {
      assert a + b == b;
    } else {
      assert (a + b)[0] == a[0] && (a + b)[1..] == a[1..] + b;
      if !Separates(s, a[0]) && Next(s, a[0]).Some? { ScanConcat(Next(s, a[0]).value, a[1..], b); }
    }
  }

  lemma ScanOne(s: Scan, c: char)
    ensures ScanThrough(s, [c]) == if Separates(s, c) then None else Next(s, c)
  {
    assert [c][1..] == "";
    var next := Next(s, c);
    if next.Some? { assert ScanThrough(next.value, "") == next; }
  }

  lemma {:induction false} ScanPlain(s: string)
    requires IsPlain(s)
    ensures ScanThrough(TOP, s) == Some(TOP)
  {
    if s != "" { ScanPlain(s[1..]); }
  }

  lemma {:induction false} ScanScope(depth: nat, s: string)
    requires depth > 0 && IsScope(s)
    ensures ScanThrough(Scan(depth, None, false), s) == Some(Scan(depth, None, false))
  {
    if s != "" { ScanScope(depth, s[1..]); }
  }

  lemma {:induction false} ScanQuotable(depth: nat, q: char, s: string)
    requires q in ['"', '\''] && IsQuotable(q, s)
    ensures ScanThrough(Scan(depth, Some(q), false), s) == Some(Scan(depth, Some(q), false))
    decreases |s|
  {
    var inside := Scan(depth, Some(q), false);
    if s != "" && s[0] == '\\' {
      ScanQuotable(depth, q, s[2..]);
      assert s == [s[0]] + ([s[1]] + s[2..]);
      ScanConcat(inside, [s[0]], [s[1]] + s[2..]);
      ScanOne(inside, s[0]);
      ScanConcat(Scan(depth, Some(q), true), [s[1]], s[2..]);
      ScanOne(Scan(depth, Some(q), true), s[1]);
    } else if s != "" {
      ScanQuotable(depth, q, s[1..]);
    }
  }

  /** A quoted text is one word, whatever white space or parentheses it holds. */
  lemma QuotedIsWord(q: char, s: string)
    requires q in ['"', '\''] && IsQuotable(q, s)
    ensures IsWord([q] + s + [q])
  {
    ScanOne(TOP, q);
    ScanQuotable(0, q, s);
    ScanOne(Scan(0, Some(q), false), q);
    ScanConcat(TOP, [q], s);
    ScanConcat(TOP, [q] + s, [q]);
  }

  lemma ScanOpen(id: string, scope: string)
    requires IsPlain(id) && IsScope(scope)
    ensures ScanThrough(TOP, id + "(" + scope) == Some(Scan(1, None, false))
  {
    ScanPlain(id);
    ScanOne(TOP, '(');
    ScanConcat(TOP, id, "(");
    ScanScope(1, scope);
    ScanConcat(TOP, id + "(", scope);
  }

  lemma ScopedIsWord(id: string, scope: string)
    requires IsPlain(id) && IsScope(scope)
    ensures IsWord(id + "(" + scope + ")")
  {
    ScanOpen(id, scope);
    ScanOne(Scan(1, None, false), ')');
    ScanConcat(TOP, id + "(" + scope, ")");
  }

  /** Parentheses nest. */
  lemma NestedIsWord(id: string, before: string, inner: string, after: string)
    requires IsPlain(id) && IsScope(before) && IsScope(inner) && IsScope(after)
    ensures IsWord(id + "(" + before + "(" + inner + ")" + after + ")")
  {
    var one, two := Scan(1, None, false), Scan(2, None, false);
    var t := id + "(" + before;
    ScanOpen(id, before);
    ScanOne(one, '(');
    ScanConcat(TOP, t, "(");
    ScanScope(2, inner);
    ScanConcat(TOP, t + "(", inner);
    ScanOne(two, ')');
    ScanConcat(TOP, t + "(" + inner, ")");
    ScanScope(1, after);
    ScanConcat(TOP, t + "(" + inner + ")", after);
    ScanOne(one, ')');
    ScanConcat(TOP, t + "(" + inner + ")" + after, ")");
  }

  // ------------------------------------------------------------------
  // Accepted fields
  // ------------------------------------------------------------------

  lemma ParseWord(w: string)
    requires IsWord(w)
    ensures Parse(w) == var t := ParseToken(w); if t.Err? then Err(t.error) else Ok([t.value])
  {
    TokensOfPrinted([w]);
    assert Join([w], ' ') == w && ParseTokens([w][1..]) == Ok([]);
    var t := ParseToken(w);
    if t.Ok? { assert [t.value] + [] == [t.value]; }
  }

  /** A plain text is a tool without a scope. */
  lemma PlainTool(id: string)
    requires id != "" && IsPlain(id)
    ensures Parse(id) == Ok([AllowedTool(id, id, None)])
  {
    ScanPlain(id);
    ParseWord(id);
    TrimWord(id);
    NoParen(id);
  }

  lemma {:induction false} NoParen(s: string)
    requires '(' !in s
    ensures FirstParen(s) == |s|
  {
    if s != "" { NoParen(s[1..]); }
  }

  /** A plain text and a scope in parentheses, spaces included, are a scoped tool. */
  lemma ScopedTool(id: string, scope: string)
    requires id != "" && IsPlain(id) && IsScope(scope)
    ensures var w := id + "(" + scope + ")"; Parse(w) == Ok([AllowedTool(w, id, Some(scope))])
  {
    var w := id + "(" + scope + ")";
    ScopedIsWord(id, scope);
    ParseWord(w);
    TrimWord(w);
    FirstParenAt(w, |id|);
    ScanPlain(id);
    TrimWord(id);
    assert w[..|id|] == id && w[|id| + 1..|w| - 1] == scope;
  }

  /** Any white space outside quotes and parentheses separates. */
  lemma AnyBlankSeparates(a: string, blank: char, b: string)
    requires IsWord(a) && IsWord(b) && IsWhitespace(blank)
    ensures Tokens(TOP, "", a + [blank] + b) == Ok([a, b])
  {
    assert a + [blank] + b == a + ([blank] + b);
    TokensThroughWord(TOP, "", a, [blank] + b);
    assert "" + a == a;
    FlushWord(a);
    assert ([blank] + b)[1..] == b;
    TokensOfPrinted([b]);
    assert [a] + [b] == [a, b];
  }

  // ------------------------------------------------------------------
  // Refused fields
  // ------------------------------------------------------------------

  lemma TokensOfScanned(text: string)
    requires ScanThrough(TOP, text).Some?
    ensures Tokens(TOP, "", text) == Tokens(ScanThrough(TOP, text).value, text, "")
  {
    TokensThroughWord(TOP, "", text, "");
    assert text + "" == text && "" + text == text;
  }

  /** A closing parenthesis too many, one too few, and a quote that is not closed. */
  lemma UnbalancedIsRefused(id: string, scope: string, q: char, quoted: string)
    requires IsPlain(id) && IsScope(scope) && q in ['"', '\''] && IsQuotable(q, quoted)
    ensures Parse(id + ")") == Err(UnmatchedParen)
    ensures Parse(id + "(" + scope) == Err(UnbalancedParens)
    ensures Parse([q] + quoted) == Err(UnterminatedQuote)
  {
    ScanPlain(id);
    TokensThroughWord(TOP, "", id, ")");
    ScanOpen(id, scope);
    TokensOfScanned(id + "(" + scope);
    ScanOne(TOP, q);
    ScanQuotable(0, q, quoted);
    ScanConcat(TOP, [q], quoted);
    TokensOfScanned([q] + quoted);
  }

  /** A scope needs a tool before it and nothing after it. */
  lemma MisplacedScopeIsRefused(id: string, scope: string, more: string)
    requires IsPlain(id) && IsScope(scope) && IsPlain(more) && more != ""
    ensures Parse("(" + scope + ")") == Err(InvalidToken("(" + scope + ")"))
    ensures Parse(id + "(" + scope + ")" + more) == Err(InvalidToken(id + "(" + scope + ")" + more))
  {
    NoToolIsRefused(scope);
    var w := id + "(" + scope + ")" + more;
    ScopedIsWord(id, scope);
    ScanPlain(more);
    ScanConcat(TOP, id + "(" + scope + ")", more);
    ParseWord(w);
    TrimWord(w);
    FirstParenAt(w, |id|);
    assert w[|w| - 1] == more[|more| - 1];
  }

  lemma NoToolIsRefused(scope: string)
    requires IsScope(scope)
    ensures Parse("(" + scope + ")") == Err(InvalidToken("(" + scope + ")"))
  {
    var w := "(" + scope + ")";
    assert w == "" + "(" + scope + ")";
    ScopedIsWord("", scope);
    ParseWord(w);
    TrimWord(w);
    FirstParenAt(w, 0);
    assert w[..0] == "";
  }

  /** A quoted tool id may hold neither white space nor a closing parenthesis. */
  lemma QuotedIdIsChecked(q: char, s: string)
    requires q in ['"', '\''] && IsQuotable(q, s) && '(' !in s
    ensures var w := [q] + s + [q];
            Parse(w) == if exists k :: 0 <= k < |s| && (IsWhitespace(s[k]) || s[k] == ')') then Err(InvalidToolId(w))
                        else Ok([AllowedTool(w, w, None)])
  {
    var w := [q] + s + [q];
    QuotedIsWord(q, s);
    ParseWord(w);
    TrimWord(w);
    NoParen(w);
    ForbiddenIff(q, s);
  }

  lemma ForbiddenIff(q: char, s: string)
    requires q in ['"', '\''] && '(' !in s
    ensures HasForbidden([q] + s + [q]) <==> exists k :: 0 <= k < |s| && (IsWhitespace(s[k]) || s[k] == ')')
  {
    var w := [q] + s + [q];
    assert !IsWhitespace(q);
    if k :| 0 <= k < |s| && (IsWhitespace(s[k]) || s[k] == ')') { assert w[k + 1] == s[k]; }
    if k :| 0 <= k < |w| && (IsWhitespace(w[k]) || w[k] == '(' || w[k] == ')') {
      assert 0 < k < |w| - 1 && w[k] == s[k - 1];
    }
  }
}
