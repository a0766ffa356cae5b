/** Identifiers of tools served over the Model Context Protocol, built from a
    server name and a tool name. */
module ToolIds {
  import opened Options
  import opened Text

  datatype McpError = InvalidToolIdComponent(raw: string)

  predicate IsAlphanumeric(c: char) {
    '0' <= c <= '9' || 'a' <= c <= 'z' || 'A' <= c <= 'Z'
  }

  // ------------------------------------------------------------------
  // What sanitizing means: the words of the text, joined by underscores
  // ------------------------------------------------------------------

  function Mask(s: string): (r: string)
    ensures |r| == |s|
  {
    seq(|s|, i requires 0 <= i < |s| => if IsAlphanumeric(s[i]) then s[i] else '_')
  }

  function NonEmpty(parts: seq<string>): seq<string> {
    if parts == [] then []
    else (if parts[0] == "" then [] else [parts[0]]) + NonEmpty(parts[1..])
  }

  /** The maximal runs of ASCII letters and digits. */
  function Words(s: string): seq<string> {
    NonEmpty(Split(Mask(s), '_'))
  }

  function Sanitized(raw: string): Result<string, McpError> {
    if Words(raw) == [] then Err(InvalidToolIdComponent(raw)) else Ok(Join(Words(raw), '_'))
  }

  predicate IsWord(w: string) {
    w != "" && forall k :: 0 <= k < |w| ==> IsAlphanumeric(w[k])
  }

  predicate AllWords(ws: seq<string>) {
    forall k :: 0 <= k < |ws| ==> IsWord(ws[k])
  }

  lemma {:induction false} SplitPartsAreFromText(s: string)
    requires forall k :: 0 <= k < |s| ==> s[k] == '_' || IsAlphanumeric(s[k])
    ensures forall i, k :: 0 <= i < |Split(s, '_')| && 0 <= k < |Split(s, '_')[i]| ==>
      IsAlphanumeric(Split(s, '_')[i][k])
  {
    if s != "" { SplitPartsAreFromText(s[1..]); }
  }

  lemma {:induction false} NonEmptyPartsAreWords(parts: seq<string>)
    requires forall i, k :: 0 <= i < |parts| && 0 <= k < |parts[i]| ==> IsAlphanumeric(parts[i][k])
    ensures AllWords(NonEmpty(parts))
  {
    if parts != [] { NonEmptyPartsAreWords(parts[1..]); }
  }

  lemma WordsAreWords(s: string)
    ensures AllWords(Words(s))
  {
    SplitPartsAreFromText(Mask(s));
    NonEmptyPartsAreWords(Split(Mask(s), '_'));
  }

  // ------------------------------------------------------------------
  // Joined words
  // ------------------------------------------------------------------

  predicate NoDoubleUnderscore(s: string) {
    forall k :: 0 <= k < |s| - 1 ==> !(s[k] == '_' && s[k + 1] == '_')
  }

  /** A well-formed component: letters and digits, with single underscores inside. */
  predicate Clean(s: string) {
    s != "" && s[0] != '_' && s[|s| - 1] != '_' && NoDoubleUnderscore(s) &&
    forall k :: 0 <= k < |s| ==> s[k] == '_' || IsAlphanumeric(s[k])
  }

  lemma {:induction false} JoinedWordsAreClean(ws: seq<string>)
    requires AllWords(ws) && ws != []
    ensures Clean(Join(ws, '_'))
  {
    if |ws| > 1 {
      JoinedWordsAreClean(ws[1..]);
      var rest := Join(ws[1..], '_');
      var all := Join(ws, '_');
      assert all == ws[0] + ['_'] + rest;
      assert all[|all| - 1] == rest[|rest| - 1];
      assert forall k :: |ws[0]| < k < |all| ==> all[k] == rest[k - |ws[0]| - 1];
    }
  }

  lemma {:induction false} NonEmptyOfWords(ws: seq<string>)
    requires AllWords(ws)
    ensures NonEmpty(ws) == ws
  {
    if ws != [] { NonEmptyOfWords(ws[1..]); }
  }

  lemma MaskOfClean(s: string)
    requires Clean(s)
    ensures Mask(s) == s
  {
  }

  /** A component that can be produced is always clean. */
  lemma SanitizedIsClean(raw: string)
    requires Sanitized(raw).Ok?
    ensures Clean(Sanitized(raw).value)
  {
    WordsAreWords(raw);
    JoinedWordsAreClean(Words(raw));
  }

  lemma SanitizeIsIdempotent(raw: string)
    requires Sanitized(raw).Ok?
    ensures Sanitized(Sanitized(raw).value) == Sanitized(raw)
  {
    var ws := Words(raw);
    WordsAreWords(raw);
    SanitizedIsClean(raw);
    MaskOfClean(Sanitized(raw).value);
    SplitJoin(ws, '_');
    NonEmptyOfWords(ws);
  }

  lemma {:induction false} SingleSplit(s: string)
    requires Clean(s)
    ensures NonEmpty(Split(s, '_')) == Split(s, '_')
  {
    if k :| 0 <= k < |s| && s[k] == '_' {
      var left, right := s[..k], s[k + 1..];
      assert s == left + ['_'] + right;
      assert right[0] == s[k + 1] && left[|left| - 1] == s[k - 1];
      assert right[|right| - 1] == s[|s| - 1];
      assert NoDoubleUnderscore(left) && NoDoubleUnderscore(right);
      SplitConcat(left, right, '_');
      SingleSplit(left);
      SingleSplit(right);
      NonEmptyConcat(Split(left, '_'), Split(right, '_'));
    } else {
      SplitWithoutSeparator(s, '_');
    }
  }

  lemma {:induction false} NonEmptyConcat(a: seq<string>, b: seq<string>)
    ensures NonEmpty(a + b) == NonEmpty(a) + NonEmpty(b)
  {
    if a == [] {
      assert a + b == b;
    } else {
      assert (a + b)[0] == a[0] && (a + b)[1..] == a[1..] + b;
      NonEmptyConcat(a[1..], b);
    }
  }

  /** Sanitizing changes nothing exactly when the component is clean already. */
  lemma FixedIffClean(s: string)
    ensures Sanitized(s) == Ok(s) <==> Clean(s)
  {
    if Clean(s) {
      MaskOfClean(s);
      SingleSplit(s);
      JoinSplit(s, '_');
    } else if Sanitized(s) == Ok(s) {
      SanitizedIsClean(s);
    }
  }

  // ------------------------------------------------------------------
  // The character loop
  // ------------------------------------------------------------------

  function TrimStartOf(s: string, c: char): string {
    if s != "" && s[0] == c then TrimStartOf(s[1..], c) else s
  }

  function TrimEndOf(s: string, c: char): string {
    if s != "" && s[|s| - 1] == c then TrimEndOf(s[..|s| - 1], c) else s
  }

  function TrimMatches(s: string, c: char): string {
    TrimEndOf(TrimStartOf(s, c), c)
  }

  predicate EndsWord(s: string) {
    s != "" && IsAlphanumeric(s[|s| - 1])
  }

  lemma MaskSnoc(s: string, c: char)
    ensures Mask(s + [c]) == Mask(s) + [if IsAlphanumeric(c) then c else '_']
  {
  }

  lemma LastPart(s: string)
    ensures var parts := Split(Mask(s), '_'); parts[|parts| - 1] != "" <==> EndsWord(s)
  {
    if s != "" {
      var front, c := s[..|s| - 1], s[|s| - 1];
      assert s == front + [c];
      MaskSnoc(front, c);
      if IsAlphanumeric(c) { SplitSnocLetter(Mask(front), c, '_'); } else { SplitSnocSeparator(Mask(front), '_'); }
    }
  }

  lemma NonEmptySnoc(parts: seq<string>, last: string)
    ensures NonEmpty(parts + [last]) == NonEmpty(parts) + if last == "" then [] else [last]
  {
    NonEmptyConcat(parts, [last]);
    assert NonEmpty([last][1..]) == [];
  }

  lemma WordsSnocSeparator(s: string, c: char)
    requires !IsAlphanumeric(c)
    ensures Words(s + [c]) == Words(s)
  {
    MaskSnoc(s, c);
    SplitSnocSeparator(Mask(s), '_');
    NonEmptySnoc(Split(Mask(s), '_'), "");
  }

  lemma WordsSnocLetter(s: string, c: char)
    requires IsAlphanumeric(c)
    ensures EndsWord(s) ==> Words(s) != []
    ensures Words(s + [c]) == if EndsWord(s) then AppendToLast(Words(s), c) else Words(s) + [[c]]
  {
    var parts := Split(Mask(s), '_');
    var front, last := parts[..|parts| - 1], parts[|parts| - 1];
    MaskSnoc(s, c);
    SplitSnocLetter(Mask(s), c, '_');
    LastPart(s);
    assert parts == front + [last];
    NonEmptySnoc(front, last);
    NonEmptySnoc(front, last + [c]);
    if EndsWord(s) {
      assert Words(s)[..|Words(s)| - 1] == NonEmpty(front);
    } else {
      assert last + [c] == [c];
    }
  }

  lemma {:induction false} JoinSnoc(ws: seq<string>, w: string)
    ensures Join(ws + [w], '_') == if ws == [] then w else Join(ws, '_') + ['_'] + w
  {
    if ws != [] {
      assert (ws + [w])[0] == ws[0] && (ws + [w])[1..] == ws[1..] + [w];
      JoinSnoc(ws[1..], w);
    }
  }

  /** What the loop has built from a prefix of the text. */
  function Built(s: string): string {
    if s == "" then ""
    else if Words(s) == [] then "_"
    else (if IsAlphanumeric(s[0]) then "" else "_") + Join(Words(s), '_') + (if EndsWord(s) then "" else "_")
  }

  lemma JoinAppendToLast(ws: seq<string>, c: char)
    requires ws != []
    ensures Join(AppendToLast(ws, c), '_') == Join(ws, '_') + [c]
  {
    var front, last := ws[..|ws| - 1], ws[|ws| - 1];
    assert ws == front + [last];
    JoinSnoc(front, last);
    JoinSnoc(front, last + [c]);
    if front != [] {
      assert Join(front, '_') + ['_'] + (last + [c]) == Join(front, '_') + ['_'] + last + [c];
    }
  }

  lemma BuiltLetter(s: string, c: char)
    requires IsAlphanumeric(c)
    ensures Built(s + [c]) == Built(s) + [c]
  {
    var ws := Words(s);
    WordsSnocLetter(s, c);
    assert EndsWord(s + [c]);
    if EndsWord(s) {
      JoinAppendToLast(ws, c);
      assert Join(Words(s + [c]), '_') == Join(ws, '_') + [c];
    } else {
      JoinSnoc(ws, [c]);
      FirstWord(s);
    }
  }

  lemma BuiltSeparator(s: string, c: char)
    requires !IsAlphanumeric(c)
    ensures Built(s + [c]) == if s != "" && !EndsWord(s) then Built(s) else Built(s) + "_"
  {
    WordsSnocSeparator(s, c);
    FirstWord(s);
    assert !EndsWord(s + [c]);
  }

  lemma {:induction false} FirstWord(s: string)
    ensures s != "" && IsAlphanumeric(s[0]) ==> Words(s) != []
    ensures EndsWord(s) ==> Words(s) != []
  {
    if s != "" {
      var front, c := s[..|s| - 1], s[|s| - 1];
      assert s == front + [c];
      FirstWord(front);
      if IsAlphanumeric(c) { WordsSnocLetter(front, c); } else { WordsSnocSeparator(front, c); }
    }
  }

  lemma TrimAround(lead: string, j: string, tail: string)
    requires Clean(j) && lead in ["", "_"] && tail in ["", "_"]
    ensures TrimMatches(lead + j + tail, '_') == j
  {
    var t := j + tail;
    assert t[0] == j[0] && TrimStartOf(t, '_') == t;
    assert TrimStartOf(lead + j + tail, '_') == t by {
      if lead == "" { assert lead + j + tail == t; } else { assert (lead + j + tail)[1..] == t; }
    }
    assert TrimEndOf(j, '_') == j;
    if tail == "" { assert t == j; } else { assert t[..|t| - 1] == j; }
  }

  lemma TrimBuilt(s: string)
    ensures TrimMatches(Built(s), '_') == Join(Words(s), '_')
  {
    if s != "" && Words(s) != [] {
      WordsAreWords(s);
      JoinedWordsAreClean(Words(s));
      TrimAround(if IsAlphanumeric(s[0]) then "" else "_", Join(Words(s), '_'), if EndsWord(s) then "" else "_");
    } else if s != "" {
      assert TrimStartOf("_", '_') == TrimStartOf("_"[1..], '_');
    }
  }

  method SanitizeComponent(raw: string) returns (r: Result<string, McpError>)
    ensures r == Sanitized(raw)
  {
    var out := "";
    var prevUnderscore := false;
    for i := 0 to |raw|
      invariant out == Built(raw[..i])
      invariant prevUnderscore == (i > 0 && !IsAlphanumeric(raw[i - 1]))
    {
      var ch := raw[i];
      assert raw[..i + 1] == raw[..i] + [ch];
      if IsAlphanumeric(ch) { BuiltLetter(raw[..i], ch); } else { BuiltSeparator(raw[..i], ch); }
      var next := if IsAlphanumeric(ch) then ch else '_';
      if next == '_' {
        if prevUnderscore {
          continue;
        }
        prevUnderscore := true;
      } else {
        prevUnderscore := false;
      }
      out := out + [next];
    }
    assert raw[..|raw|] == raw;
    TrimBuilt(raw);
    out := TrimMatches(out, '_');
    if Words(raw) != [] { SanitizedIsClean(raw); }
    return if out == "" then Err(InvalidToolIdComponent(raw)) else Ok(out);
  }

  // ------------------------------------------------------------------
  // Decoding
  // ------------------------------------------------------------------

  function ServerPrefix(server: string): string {
    "mcp__" + server + "__"
  }

  /** The server name is checked first. */
  function ToToolId(serverName: string, toolName: string): Result<string, McpError> {
    var s := Sanitized(serverName);
    if s.Err? then s
    else
      var t := Sanitized(toolName);
      if t.Err? then t else Ok(ServerPrefix(s.value) + t.value)
  }

  lemma NotShorter(a: string, b: string, text: string)
    requires Clean(b) && a + "__" <= text && b + "__" <= text
    ensures |a| >= |b|
  {
    assert (a + "__")[|a|] == '_' && (a + "__")[|a| + 1] == '_';
    assert forall k :: 0 <= k < |b| ==> (b + "__")[k] == b[k];
  }

  /** Two clean names followed by the separator agree if one text starts with both. */
  lemma SeparatorIsUnambiguous(a: string, b: string, text: string)
    requires Clean(a) && Clean(b) && a + "__" <= text && b + "__" <= text
    ensures a == b
  {
    NotShorter(a, b, text);
    NotShorter(b, a, text);
    assert a == text[..|a|] && b == text[..|b|];
  }

  lemma PrefixOfPrefixed(p: string, a: string, b: string)
    ensures p + a <= p + b <==> a <= b
  {
    assert (p + b)[|p|..] == b && (p + a)[|p|..] == a;
    if p + a <= p + b { assert a == (p + b)[|p|..|p| + |a|] == b[..|a|]; }
  }

  lemma ServerPrefixIff(server: string, s: string, t: string)
    ensures ServerPrefix(server) <= ServerPrefix(s) + t <==> server + "__" <= s + "__" + t
  {
    PrefixOfPrefixed("mcp__", server + "__", s + "__" + t);
    assert ServerPrefix(server) == "mcp__" + (server + "__");
    assert ServerPrefix(s) + t == "mcp__" + (s + "__" + t);
  }

  /** The prefix of a server matches exactly the tools of servers that sanitize alike. */
  lemma PrefixMatchesIff(server: string, serverName: string, toolName: string)
    requires Clean(server) && ToToolId(serverName, toolName).Ok?
    ensures ServerPrefix(server) <= ToToolId(serverName, toolName).value <==> Sanitized(serverName) == Ok(server)
  {
    var s, t := Sanitized(serverName).value, Sanitized(toolName).value;
    SanitizedIsClean(serverName);
    ServerPrefixIff(server, s, t);
    assert s + "__" <= s + "__" + t;
    if server + "__" <= s + "__" + t {
      SeparatorIsUnambiguous(server, s, s + "__" + t);
    }
  }

  /** An identifier determines both sanitized components. */
  lemma ToolIdsAgreeIff(server1: string, tool1: string, server2: string, tool2: string)
    requires ToToolId(server1, tool1).Ok? && ToToolId(server2, tool2).Ok?
    ensures ToToolId(server1, tool1) == ToToolId(server2, tool2) <==>
            Sanitized(server1) == Sanitized(server2) && Sanitized(tool1) == Sanitized(tool2)
  {
    if ToToolId(server1, tool1) == ToToolId(server2, tool2) {
      var s1, t1 := Sanitized(server1).value, Sanitized(tool1).value;
      var t2 := Sanitized(tool2).value;
      SanitizedIsClean(server1);
      PrefixMatchesIff(s1, server2, tool2);
      assert t1 == (ServerPrefix(s1) + t1)[|ServerPrefix(s1)|..];
      assert t2 == (ServerPrefix(s1) + t2)[|ServerPrefix(s1)|..];
    }
  }

  /** Exactly the 62 ASCII letters and digits are kept. */
  lemma AlphanumericIff(c: char)
    ensures IsAlphanumeric(c) <==>
            c in {'0', '1', '2', '3', '4', '5', '6', '7', '8', '9'} ||
            c in {'a', 'b', 'c', 'd', 'e', 'f', 'g', 'h', 'i', 'j', 'k', 'l', 'm',
                  'n', 'o', 'p', 'q', 'r', 's', 't', 'u', 'v', 'w', 'x', 'y', 'z'} ||
            c in {'A', 'B', 'C', 'D', 'E', 'F', 'G', 'H', 'I', 'J', 'K', 'L', 'M',
                  'N', 'O', 'P', 'Q', 'R', 'S', 'T', 'U', 'V', 'W', 'X', 'Y', 'Z'}
  {
  }

  /** Names that are clean already appear in the identifier as they are. */
  lemma CleanNamesAppear(server: string, tool: string)
    requires Clean(server) && Clean(tool)
    ensures ToToolId(server, tool) == Ok("mcp__" + server + "__" + tool)
  {
    FixedIffClean(server);
    FixedIffClean(tool);
  }

  /** A name without a letter or digit is refused, the server's first. */
  lemma RefusedIff(server: string, tool: string)
    ensures ToToolId(server, tool) == Err(InvalidToolIdComponent(server)) <==>
            !HasAlphanumeric(server) || (server == tool && !HasAlphanumeric(tool))
    ensures HasAlphanumeric(server) && !HasAlphanumeric(tool) ==>
      ToToolId(server, tool) == Err(InvalidToolIdComponent(tool))
  {
    WordsEmptyIff(server);
    WordsEmptyIff(tool);
  }

  predicate HasAlphanumeric(s: string) {
    exists k :: 0 <= k < |s| && IsAlphanumeric(s[k])
  }

  lemma {:induction false} WordsEmptyIff(s: string)
    ensures Words(s) == [] <==> !HasAlphanumeric(s)
  {
    if s != "" {
      var front, c := s[..|s| - 1], s[|s| - 1];
      assert s == front + [c];
      WordsEmptyIff(front);
      if IsAlphanumeric(c) { WordsSnocLetter(front, c); } else { WordsSnocSeparator(front, c); }
      if k :| 0 <= k < |front| && IsAlphanumeric(front[k]) { assert s[k] == front[k]; }
      if k :| 0 <= k < |s| && IsAlphanumeric(s[k]) { assert k < |front| ==> front[k] == s[k]; }
    }
  }
}
