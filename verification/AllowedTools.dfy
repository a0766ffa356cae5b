/** The `allowed-tools` field of a skill: a list of tokens separated by white
    space outside quotes and parentheses. */
module AllowedTools {
  import opened Options
  import opened Sequences
  import opened Text

  datatype AllowedTool = AllowedTool(raw: string, toolId: string, scope: Option<string>)

  datatype ParseError =
    | UnmatchedParen
    | UnterminatedQuote
    | UnbalancedParens
    | EmptyToken
    | InvalidToken(raw: string)
    | InvalidToolId(raw: string)

  // ------------------------------------------------------------------
  // The scanner
  // ------------------------------------------------------------------

  datatype Scan = Scan(depth: nat, quote: Option<char>, escaped: bool)

  /** Outside quotes and parentheses. */
  const TOP := Scan(0, None, false)

  predicate IsQuote(c: char) {
    c == '"' || c == '\''
  }

  predicate Separates(s: Scan, c: char) {
    s == TOP && IsWhitespace(c)
  }

  /** After a character that belongs to a token; none after an unmatched ')'.
      A backslash escapes inside quotes only. */
  function Next(s: Scan, c: char): Option<Scan> {
    if s.escaped then Some(s.(escaped := false))
    else if s.quote.Some? then
      if c == '\\' then Some(s.(escaped := true))
      else if c == s.quote.value then Some(s.(quote := None))
      else Some(s)
    else if IsQuote(c) then Some(s.(quote := Some(c)))
    else if c == '(' then Some(s.(depth := s.depth + 1))
    else if c == ')' then (if s.depth == 0 then None else Some(s.(depth := s.depth - 1)))
    else Some(s)
  }

  predicate ScanOk(s: Scan) {
    (s.quote.Some? ==> IsQuote(s.quote.value)) && (s.escaped ==> s.quote.Some?)
  }

  function Flush(current: string): seq<string> {
    if Trim(current) == "" then [] else [Trim(current)]
  }

  function Prepend(front: seq<string>, r: Result<seq<string>, ParseError>): Result<seq<string>, ParseError> {
    match r case Ok(rest) => Ok(front + rest) case Err(e) => Err(e)
  }

  function Tokens(s: Scan, current: string, text: string): Result<seq<string>, ParseError>
    decreases |text|
  {
    if text == "" then
      if s.quote.Some? then Err(UnterminatedQuote)
      else if s.depth != 0 then Err(UnbalancedParens)
      else Ok(Flush(current))
    else if Separates(s, text[0]) then Prepend(Flush(current), Tokens(s, "", text[1..]))
    else
      var next := Next(s, text[0]);
      if next.None? then Err(UnmatchedParen) else Tokens(next.value, current + [text[0]], text[1..])
  }

  // ------------------------------------------------------------------
  // One token
  // ------------------------------------------------------------------

  /** The position of the first opening parenthesis, or the length. */
  function FirstParen(s: string): (i: nat)
    ensures i <= |s|
    ensures forall k :: 0 <= k < i ==> s[k] != '('
    ensures i < |s| ==> s[i] == '('
  {
    if s == "" || s[0] == '(' then 0 else 1 + FirstParen(s[1..])
  }

  predicate HasForbidden(id: string) {
    exists k :: 0 <= k < |id| && (IsWhitespace(id[k]) || id[k] == '(' || id[k] == ')')
  }

  function ParseToken(token: string): Result<AllowedTool, ParseError> {
    var raw := Trim(token);
    if raw == "" then Err(EmptyToken)
    else
      var open := FirstParen(raw);
      if open < |raw| && raw[|raw| - 1] != ')' then Err(InvalidToken(raw))
      else
        var toolId := if open < |raw| then Trim(raw[..open]) else raw;
        var scope := if open < |raw| then Some(raw[open + 1..|raw| - 1]) else None;
        if toolId == "" then Err(InvalidToken(raw))
        else if HasForbidden(toolId) then Err(InvalidToolId(raw))
        else Ok(AllowedTool(raw, toolId, scope))
  }

  function ParseTokens(tokens: seq<string>): Result<seq<AllowedTool>, ParseError> {
    if tokens == [] then Ok([])
    else
      var first := ParseToken(tokens[0]);
      if first.Err? then Err(first.error)
      else
        var rest := ParseTokens(tokens[1..]);
        if rest.Err? then rest else Ok([first.value] + rest.value)
  }

  function Parse(value: string): Result<seq<AllowedTool>, ParseError> {
    match Tokens(TOP, "", value)
    case Ok(tokens) => ParseTokens(tokens)
    case Err(e) => Err(e)
  }

  lemma PrependPrepend(a: seq<string>, b: seq<string>, r: Result<seq<string>, ParseError>)
    ensures Prepend(a, Prepend(b, r)) == Prepend(a + b, r)
  {
    if r.Ok? { assert a + (b + r.value) == a + b + r.value; }
  }

  method ParseAllowedTools(value: string) returns (r: Result<seq<AllowedTool>, ParseError>)
    ensures r == Parse(value)
  {
    var tokens: seq<string> := [];
    var current := "";
    var parenDepth := 0;
    var inQuote: Option<char> := None;
    var escaped := false;
    ghost var all := Tokens(TOP, "", value);
    assert value[0..] == value;
    assert all.Ok? ==> [] + all.value == all.value;
    for i := 0 to |value|
      invariant parenDepth >= 0
      invariant escaped ==> inQuote.Some?
      invariant all == Prepend(tokens, Tokens(Scan(parenDepth, inQuote, escaped), current, value[i..]))
    {
      var ch := value[i];
      assert value[i..][0] == ch && value[i..][1..] == value[i + 1..];
      if escaped {
        current := current + [ch];
        escaped := false;
        continue;
      }
      if inQuote.Some? {
        current := current + [ch];
        if ch == '\\' {
          escaped := true;
          continue;
        }
        if ch == inQuote.value {
          inQuote := None;
        }
        continue;
      }
      if ch == '"' || ch == '\'' {
        inQuote := Some(ch);
        current := current + [ch];
      } else if ch == '(' {
        parenDepth := parenDepth + 1;
        current := current + [ch];
      } else if ch == ')' {
        if parenDepth == 0 {
          return Err(UnmatchedParen);
        }
        parenDepth := parenDepth - 1;
        current := current + [ch];
      } else if IsWhitespace(ch) && parenDepth == 0 {
        PrependPrepend(tokens, Flush(current), Tokens(TOP, "", value[i + 1..]));
        assert tokens + [] == tokens;
        var t := Trim(current);
        if t != "" {
          tokens := tokens + [t];
        }
        current := "";
      } else {
        current := current + [ch];
      }
    }
    assert value[|value|..] == "";
    assert tokens + [] == tokens;
    if inQuote.Some? {
      return Err(UnterminatedQuote);
    }
    if parenDepth != 0 {
      return Err(UnbalancedParens);
    }
    var t := Trim(current);
    if t != "" {
      tokens := tokens + [t];
    }
    return ParseTokens(tokens);
  }

  // ------------------------------------------------------------------
  // Words
  // ------------------------------------------------------------------

  /** Scanning a text that meets no separator. */
  function ScanThrough(s: Scan, text: string): Option<Scan>
    decreases |text|
  {
    if text == "" then Some(s)
    else if Separates(s, text[0]) then None
    else
      var next := Next(s, text[0]);
      if next.None? then None else ScanThrough(next.value, text[1..])
  }

  /** Balanced, quotes closed, and without white space outside of both. */
  predicate IsWord(w: string) {
    w != "" && ScanThrough(TOP, w) == Some(TOP)
  }

  lemma {:induction false} ScanSnoc(s: Scan, text: string, c: char)
    ensures ScanThrough(s, text + [c]) ==
              match ScanThrough(s, text)
              case Some(s') => if Separates(s', c) then None else Next(s', c)
              case None => None
    decreases |text|
  {
    if text == "" {
      assert text + [c] == [c];
      var next := Next(s, c);
      if next.Some? { assert ScanThrough(next.value, [c][1..]) == next; }
    } else {
      assert (text + [c])[0] == text[0] && (text + [c])[1..] == text[1..] + [c];
      var next := Next(s, text[0]);
      if next.Some? { ScanSnoc(next.value, text[1..], c); }
    }
  }

  lemma {:induction false} ScanStaysOk(s: Scan, text: string)
    requires ScanOk(s) && ScanThrough(s, text).Some?
    ensures ScanOk(ScanThrough(s, text).value)
    decreases |text|
  {
    if text != "" { ScanStaysOk(Next(s, text[0]).value, text[1..]); }
  }

  /** Trimming a word never drops a character. */
  lemma TrimWord(w: string)
    requires IsWord(w)
    ensures Trim(w) == w
  {
    var front, last := w[..|w| - 1], w[|w| - 1];
    assert w == front + [last];
    ScanSnoc(TOP, front, last);
    ScanStaysOk(TOP, front);
    assert TrimStart(w) == w;
  }

  predicate AllWords(tokens: seq<string>) {
    forall k :: 0 <= k < |tokens| ==> IsWord(tokens[k])
  }

  lemma FlushWord(current: string)
    requires ScanThrough(TOP, current) == Some(TOP)
    ensures Flush(current) == if current == "" then [] else [current]
  {
    if current != "" { TrimWord(current); }
  }

  lemma {:induction false} TokensAreWords(s: Scan, current: string, text: string)
    requires ScanOk(s) && ScanThrough(TOP, current) == Some(s)
    requires Tokens(s, current, text).Ok?
    ensures AllWords(Tokens(s, current, text).value)
    decreases |text|
  {
    if text == "" {
      FlushWord(current);
    } else if Separates(s, text[0]) {
      FlushWord(current);
      TokensAreWords(TOP, "", text[1..]);
    } else {
      ScanSnoc(TOP, current, text[0]);
      TokensAreWords(Next(s, text[0]).value, current + [text[0]], text[1..]);
    }
  }

  // ------------------------------------------------------------------
  // Nothing but separators is lost
  // ------------------------------------------------------------------

  /** The text without its separators. */
  function WithoutSeparators(s: Scan, text: string): string
    decreases |text|
  {
    if text == "" then ""
    else if Separates(s, text[0]) then WithoutSeparators(s, text[1..])
    else
      var next := Next(s, text[0]);
      [text[0]] + WithoutSeparators(if next.Some? then next.value else s, text[1..])
  }

  lemma FlattenFlush(current: string)
    requires ScanThrough(TOP, current) == Some(TOP)
    ensures Flatten(Flush(current)) == current
  {
    FlushWord(current);
    if current != "" { assert Flatten([current]) == current + Flatten([current][1..]); }
  }

  lemma {:induction false} TokensKeepText(s: Scan, current: string, text: string)
    requires ScanOk(s) && ScanThrough(TOP, current) == Some(s)
    requires Tokens(s, current, text).Ok?
    ensures Flatten(Tokens(s, current, text).value) == current + WithoutSeparators(s, text)
    decreases |text|, 0
  {
    if text == "" {
      FlattenFlush(current);
    } else if Separates(s, text[0]) {
      FlushedKeepsText(current, text[1..]);
    } else {
      var next := Next(s, text[0]).value;
      ScanSnoc(TOP, current, text[0]);
      TokensKeepText(next, current + [text[0]], text[1..]);
      MoveChar(current, text[0], WithoutSeparators(next, text[1..]));
    }
  }

  lemma {:induction false} FlushedKeepsText(current: string, rest: string)
    requires ScanThrough(TOP, current) == Some(TOP) && Tokens(TOP, "", rest).Ok?
    ensures Flatten(Flush(current) + Tokens(TOP, "", rest).value) == current + WithoutSeparators(TOP, rest)
    decreases |rest|, 1
  {
    FlattenFlush(current);
    TokensKeepText(TOP, "", rest);
    FlattenAppend(Flush(current), Tokens(TOP, "", rest).value);
    assert "" + WithoutSeparators(TOP, rest) == WithoutSeparators(TOP, rest);
  }

  lemma MoveChar(a: string, c: char, b: string)
    ensures a + [c] + b == a + ([c] + b)
  {
  }

  // ------------------------------------------------------------------
  // Printing and reparsing
  // ------------------------------------------------------------------

  lemma {:induction false} TokensThroughWord(s: Scan, current: string, w: string, rest: string)
    requires ScanThrough(s, w).Some?
    ensures Tokens(s, current, w + rest) == Tokens(ScanThrough(s, w).value, current + w, rest)
    decreases |w|
  {
    if w == "" {
      assert w + rest == rest && current + w == current;
    } else {
      assert (w + rest)[0] == w[0] && (w + rest)[1..] == w[1..] + rest;
      TokensThroughWord(Next(s, w[0]).value, current + [w[0]], w[1..], rest);
      assert current + [w[0]] + w[1..] == current + w;
    }
  }

  lemma {:induction false} TokensOfPrinted(tokens: seq<string>)
    requires AllWords(tokens)
    ensures Tokens(TOP, "", Join(tokens, ' ')) == Ok(tokens)
  {
    if tokens == [] {
    } else if |tokens| == 1 {
      assert tokens == [tokens[0]];
      TokensThroughWord(TOP, "", tokens[0], "");
      assert tokens[0] + "" == tokens[0] && "" + tokens[0] == tokens[0];
      FlushWord(tokens[0]);
    } else {
      var rest := Join(tokens[1..], ' ');
      assert Join(tokens, ' ') == tokens[0] + ([' '] + rest);
      TokensThroughWord(TOP, "", tokens[0], [' '] + rest);
      assert "" + tokens[0] == tokens[0];
      FlushWord(tokens[0]);
      assert ([' '] + rest)[1..] == rest;
      TokensOfPrinted(tokens[1..]);
      assert [tokens[0]] + tokens[1..] == tokens;
    }
  }

  function Raws(tools: seq<AllowedTool>): seq<string> {
    if tools == [] then [] else [tools[0].raw] + Raws(tools[1..])
  }

  lemma {:induction false} ParseTokensKeepsRaws(tokens: seq<string>)
    requires AllWords(tokens) && ParseTokens(tokens).Ok?
    ensures Raws(ParseTokens(tokens).value) == tokens
  {
    if tokens != [] {
      TrimWord(tokens[0]);
      ParseTokensKeepsRaws(tokens[1..]);
      var tools := ParseTokens(tokens).value;
      assert tools[1..] == ParseTokens(tokens[1..]).value;
    }
  }

  /** Accepted tokens are words, and together they are the text without its
      separators: no character inside quotes or parentheses is ever dropped. */
  lemma RawsAreTheText(value: string)
    requires Parse(value).Ok?
    ensures AllWords(Raws(Parse(value).value))
    ensures Flatten(Raws(Parse(value).value)) == WithoutSeparators(TOP, value)
  {
    TokensAreWords(TOP, "", value);
    TokensKeepText(TOP, "", value);
    ParseTokensKeepsRaws(Tokens(TOP, "", value).value);
  }

  /** Printing the accepted tokens with single spaces and reading them again
      yields the same tools. */
  lemma PrintReparse(value: string)
    requires Parse(value).Ok?
    ensures Parse(Join(Raws(Parse(value).value), ' ')) == Parse(value)
  {
    var tokens := Tokens(TOP, "", value).value;
    TokensAreWords(TOP, "", value);
    ParseTokensKeepsRaws(tokens);
    TokensOfPrinted(tokens);
  }

  // ------------------------------------------------------------------
  // Tool id and scope
  // ------------------------------------------------------------------

  /** A tool as it is written in the plain form. */
  function Plain(t: AllowedTool): string {
    match t.scope
    case Some(scope) => t.toolId + "(" + scope + ")"
    case None => t.toolId
  }

  lemma ScopedForm(base: string, trimmed: string, inner: string)
    requires trimmed == base || |trimmed| < |base|
    ensures trimmed + "(" + inner + ")" == base + "(" + inner + ")" <==> trimmed == base
  {
    if trimmed != base {
      assert |trimmed + "(" + inner + ")"| < |base + "(" + inner + ")"|;
    }
  }

  lemma SplitScoped(token: string, open: nat)
    requires open + 1 < |token| && token[open] == '(' && token[|token| - 1] == ')'
    ensures token == token[..open] + "(" + token[open + 1..|token| - 1] + ")"
  {
  }

  /** The fields of a token, split at its first parenthesis. */
  predicate HasShape(token: string, t: AllowedTool) {
    var open := FirstParen(token);
    if open < |token| then
      open + 1 < |token| && token[|token| - 1] == ')' &&
      t == AllowedTool(token, Trim(token[..open]), Some(token[open + 1..|token| - 1]))
    else t == AllowedTool(token, token, None)
  }

  /** A token is its tool id and scope exactly when no white space stands before
      its first parenthesis; such white space can only be inside quotes. */
  lemma PlainIff(token: string)
    requires IsWord(token) && ParseToken(token).Ok?
    ensures Plain(ParseToken(token).value) == token <==>
            var open := FirstParen(token);
            open == |token| || open == 0 || !IsWhitespace(token[open - 1])
  {
    TokenShape(token);
    FirstIsNotWhitespace(token);
    ShapedPlainIff(token, ParseToken(token).value);
  }

  lemma ShapedPlainIff(token: string, t: AllowedTool)
    requires token != "" && !IsWhitespace(token[0]) && HasShape(token, t)
    ensures Plain(t) == token <==>
            var open := FirstParen(token);
            open == |token| || open == 0 || !IsWhitespace(token[open - 1])
  {
    var open := FirstParen(token);
    if open < |token| { ScopedPlainIff(token, open); }
  }

  lemma ScopedPlainIff(token: string, open: nat)
    requires open + 1 < |token| && token[open] == '(' && token[|token| - 1] == ')'
    requires !IsWhitespace(token[0])
    ensures Trim(token[..open]) + "(" + token[open + 1..|token| - 1] + ")" == token <==>
            open == 0 || !IsWhitespace(token[open - 1])
  {
    var base, inner := token[..open], token[open + 1..|token| - 1];
    BaseTrim(base);
    ScopedForm(base, Trim(base), inner);
    SplitScoped(token, open);
  }

  lemma TokenShape(token: string)
    requires IsWord(token) && ParseToken(token).Ok?
    ensures token != "" && HasShape(token, ParseToken(token).value)
  {
    TrimWord(token);
  }

  lemma FirstIsNotWhitespace(w: string)
    requires IsWord(w)
    ensures !IsWhitespace(w[0])
  {
  }

  lemma BaseTrim(base: string)
    requires base != "" ==> !IsWhitespace(base[0])
    ensures Trim(base) == base <==> base == "" || !IsWhitespace(base[|base| - 1])
    ensures |Trim(base)| < |base| || Trim(base) == base
  {
    assert TrimStart(base) == base;
    if base != "" && IsWhitespace(base[|base| - 1]) { TrimEndShortens(base[..|base| - 1]); }
  }

  lemma {:induction false} TrimEndShortens(s: string)
    ensures |TrimEnd(s)| <= |s|
  {
    if s != "" && IsWhitespace(s[|s| - 1]) { TrimEndShortens(s[..|s| - 1]); }
  }

  /** Without a quote before its first parenthesis a token is always plain. */
  lemma UnquotedIsPlain(token: string)
    requires IsWord(token) && ParseToken(token).Ok?
    requires forall k :: 0 <= k < FirstParen(token) ==> !IsQuote(token[k])
    ensures Plain(ParseToken(token).value) == token
  {
    var open := FirstParen(token);
    UnquotedPrefix(token, open);
    PlainIff(token);
  }

  lemma {:induction false} UnquotedPrefix(w: string, n: nat)
    requires n <= |w| && ScanThrough(TOP, w).Some?
    requires forall k :: 0 <= k < n ==> !IsQuote(w[k]) && w[k] != '('
    ensures forall k :: 0 <= k < n ==> !IsWhitespace(w[k])
    decreases n
  {
    if n > 0 {
      assert Next(TOP, w[0]) == Some(TOP);
      UnquotedPrefix(w[1..], n - 1);
      forall k | 0 <= k < n ensures !IsWhitespace(w[k]) {
        if k > 0 { assert w[k] == w[1..][k - 1]; }
      }
    }
  }

  /** With a quote it need not be: the space is dropped from the tool id. */
  lemma QuotedTokenIsNotPlain()
    ensures var token := "\"a (\"(x)";
            IsWord(token) && ParseToken(token) == Ok(AllowedTool(token, "\"a", Some("\"(x")))
  {
    var token := "\"a (\"(x)";
    QuotedTokenIsWord();
    TrimWord(token);
    FirstParenAt(token, 3);
    assert token[..3] == "\"a " && token[4..7] == "\"(x";
    TrimQuotedId();
    assert !HasForbidden("\"a");
  }

  lemma QuotedTokenIsWord()
    ensures IsWord("\"a (\"(x)")
  {
    var token := "\"a (\"(x)";
    var q := Scan(0, Some('"'), false);
    assert token[8..] == "";
    assert ScanThrough(Scan(1, None, false), token[7..]) == Some(TOP);
    assert ScanThrough(Scan(1, None, false), token[6..]) == Some(TOP);
    assert ScanThrough(TOP, token[5..]) == Some(TOP);
    assert ScanThrough(q, token[4..]) == Some(TOP);
    assert ScanThrough(q, token[3..]) == Some(TOP);
    assert ScanThrough(q, token[2..]) == Some(TOP);
    assert ScanThrough(q, token[1..]) == Some(TOP);
  }

  lemma TrimQuotedId()
    ensures Trim("\"a ") == "\"a"
  {
    assert "\"a "[..2] == "\"a";
    assert TrimEnd("\"a ") == TrimEnd("\"a") == "\"a";
  }

  lemma FirstParenAt(s: string, i: nat)
    requires i < |s| && s[i] == '(' && forall k :: 0 <= k < i ==> s[k] != '('
    ensures FirstParen(s) == i
  {
  }
}
