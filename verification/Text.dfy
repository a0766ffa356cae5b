/** Splitting, joining and trimming text. */
module Text {

  /** The pieces between occurrences of a separator; always at least one. */
  function Split(s: string, sep: char): (r: seq<string>)
    ensures r != []
    ensures forall k :: 0 <= k < |r| ==> sep !in r[k]
  {
    if s == "" then [""]
    else
      var rest := Split(s[1..], sep);
      if s[0] == sep then [""] + rest
      else [[s[0]] + rest[0]] + rest[1..]
  }

  function Join(parts: seq<string>, sep: char): string {
    if parts == [] then ""
    else if |parts| == 1 then parts[0]
    else parts[0] + [sep] + Join(parts[1..], sep)
  }

  lemma {:induction false} SplitAtSeparator(a: string, b: string, sep: char)
    requires sep !in a
    ensures Split(a + [sep] + b, sep) == [a] + Split(b, sep)
  {
    var s := a + [sep] + b;
    if a == "" {
      assert s[1..] == b;
    } else {
      assert s[0] == a[0] && s[1..] == a[1..] + [sep] + b;
      SplitAtSeparator(a[1..], b, sep);
      assert [a[0]] + a[1..] == a;
    }
  }

  lemma {:induction false} SplitWithoutSeparator(a: string, sep: char)
    requires sep !in a
    ensures Split(a, sep) == [a]
  {
    if a != "" {
      SplitWithoutSeparator(a[1..], sep);
      assert [a[0]] + a[1..] == a;
    }
  }

  /** Splitting on either side of one separator. */
  lemma {:induction false} SplitConcat(a: string, b: string, sep: char)
    ensures Split(a + [sep] + b, sep) == Split(a, sep) + Split(b, sep)
  {
    var s := a + [sep] + b;
    if a == "" {
      assert s[0] == sep && s[1..] == b;
      assert Split("", sep) == [""];
    } else {
      assert s[0] == a[0] && s[1..] == a[1..] + [sep] + b;
      SplitConcat(a[1..], b, sep);
      SplitCons(s, sep);
      SplitCons(a, sep);
      PrependToFirst(a[0], Split(a[1..], sep), Split(b, sep));
    }
  }

  lemma SplitCons(s: string, sep: char)
    requires s != ""
    ensures Split(s, sep) ==
            var rest := Split(s[1..], sep);
            if s[0] == sep then [""] + rest else [[s[0]] + rest[0]] + rest[1..]
  {
  }

  lemma PrependToFirst(c: char, left: seq<string>, right: seq<string>)
    requires left != []
    ensures [""] + (left + right) == ([""] + left) + right
    ensures [[c] + (left + right)[0]] + (left + right)[1..] == ([[c] + left[0]] + left[1..]) + right
  {
    assert (left + right)[1..] == left[1..] + right;
  }

  lemma {:induction false} SplitJoin(parts: seq<string>, sep: char)
    requires parts != []
    requires forall k :: 0 <= k < |parts| ==> sep !in parts[k]
    ensures Split(Join(parts, sep), sep) == parts
  {
    if |parts| == 1 {
      SplitWithoutSeparator(parts[0], sep);
    } else {
      SplitJoin(parts[1..], sep);
      SplitAtSeparator(parts[0], Join(parts[1..], sep), sep);
    }
  }

  lemma {:induction false} JoinSplit(s: string, sep: char)
    ensures Join(Split(s, sep), sep) == s
  {
    if s != "" {
      JoinSplit(s[1..], sep);
      var rest := Split(s[1..], sep);
      if s[0] == sep {
        assert ([""] + rest)[1..] == rest;
      } else {
        assert ([[s[0]] + rest[0]] + rest[1..])[1..] == rest[1..];
      }
    }
  }

  function AppendToLast(parts: seq<string>, c: char): seq<string>
    requires parts != []
  {
    parts[..|parts| - 1] + [parts[|parts| - 1] + [c]]
  }

  lemma AppendToLastCons(part: string, rest: seq<string>, c: char)
    requires rest != []
    ensures AppendToLast([part] + rest, c) == [part] + AppendToLast(rest, c)
  {
  }

  lemma SplitSnocSeparator(s: string, sep: char)
    ensures Split(s + [sep], sep) == Split(s, sep) + [""]
  {
    SplitConcat(s, "", sep);
    assert s + [sep] + "" == s + [sep];
  }

  lemma {:induction false} SplitSnocLetter(s: string, c: char, sep: char)
    requires c != sep
    ensures Split(s + [c], sep) == AppendToLast(Split(s, sep), c)
  {
    if s == "" {
      assert s + [c] == [c];
      SplitWithoutSeparator([c], sep);
    } else {
      assert (s + [c])[0] == s[0] && (s + [c])[1..] == s[1..] + [c];
      SplitSnocLetter(s[1..], c, sep);
      SplitSnocStep(s[0], Split(s[1..], sep), c);
      AppendToLastCons("", Split(s[1..], sep), c);
    }
  }

  lemma SplitSnocStep(first: char, rest: seq<string>, c: char)
    requires rest != []
    ensures var grown := AppendToLast(rest, c);
            [[first] + grown[0]] + grown[1..] == AppendToLast([[first] + rest[0]] + rest[1..], c)
  {
    if |rest| == 1 {
      assert [first] + (rest[0] + [c]) == [first] + rest[0] + [c];
    } else {
      assert rest == [rest[0]] + rest[1..];
      AppendToLastCons(rest[0], rest[1..], c);
      AppendToLastCons([first] + rest[0], rest[1..], c);
    }
  }

  /** Replaces every occurrence of the two characters a, b, from the left. */
  function ReplacePair(s: string, a: char, b: char, repl: char): string {
    if s == "" then ""
    else if |s| >= 2 && s[0] == a && s[1] == b then [repl] + ReplacePair(s[2..], a, b, repl)
    else [s[0]] + ReplacePair(s[1..], a, b, repl)
  }

  /** A line without the carriage return of its ending. */
  function DropCarriageReturn(line: string): string {
    if line != "" && line[|line| - 1] == '\r' then line[..|line| - 1] else line
  }

  // ------------------------------------------------------------------
  // White space
  // ------------------------------------------------------------------

  /** The characters with the Unicode property White_Space. */
  predicate IsWhitespace(c: char) {
    '\U{9}' <= c <= '\U{D}' || c == ' ' || c == '\U{85}' || c == '\U{A0}' || c == '\U{1680}' ||
    '\U{2000}' <= c <= '\U{200A}' || c == '\U{2028}' || c == '\U{2029}' || c == '\U{202F}' ||
    c == '\U{205F}' || c == '\U{3000}'
  }

  function TrimStart(s: string): string {
    if s != "" && IsWhitespace(s[0]) then TrimStart(s[1..]) else s
  }

  function TrimEnd(s: string): string {
    if s != "" && IsWhitespace(s[|s| - 1]) then TrimEnd(s[..|s| - 1]) else s
  }

  function Trim(s: string): string {
    TrimEnd(TrimStart(s))
  }

  /** The 25 code points with that property, one by one. */
  lemma WhitespaceIff(c: char)
    ensures IsWhitespace(c) <==>
            c as int in {0x9, 0xA, 0xB, 0xC, 0xD, 0x20, 0x85, 0xA0, 0x1680, 0x2000, 0x2001, 0x2002, 0x2003, 0x2004,
                         0x2005, 0x2006, 0x2007, 0x2008, 0x2009, 0x200A, 0x2028, 0x2029, 0x202F, 0x205F, 0x3000}
  {
  }

  predicate IsBlank(s: string) {
    forall k :: 0 <= k < |s| ==> IsWhitespace(s[k])
  }

  lemma {:induction false} TrimStartCuts(s: string) returns (n: nat)
    ensures n <= |s| && IsBlank(s[..n]) && TrimStart(s) == s[n..]
    ensures TrimStart(s) != "" ==> !IsWhitespace(TrimStart(s)[0])
  {
    if s != "" && IsWhitespace(s[0]) {
      n := TrimStartCuts(s[1..]);
      n := n + 1;
      assert s[1..][..n - 1] == s[..n][1..];
      assert forall k :: 0 < k < n ==> s[..n][k] == s[1..][..n - 1][k - 1];
      assert s[1..][n - 1..] == s[n..];
    } else {
      n := 0;
      assert s[0..] == s;
    }
  }

  lemma {:induction false} TrimEndCuts(s: string) returns (n: nat)
    ensures n <= |s| && IsBlank(s[n..]) && TrimEnd(s) == s[..n]
    ensures TrimEnd(s) != "" ==> !IsWhitespace(TrimEnd(s)[|TrimEnd(s)| - 1])
  {
    if s != "" && IsWhitespace(s[|s| - 1]) {
      var front := s[..|s| - 1];
      n := TrimEndCuts(front);
      assert front[..n] == s[..n];
      forall k | 0 <= k < |s[n..]| ensures IsWhitespace(s[n..][k]) {
        if k < |s| - 1 - n { assert s[n..][k] == front[n..][k]; }
      }
    } else {
      n := |s|;
      assert s[..n] == s && s[n..] == "";
    }
  }

  /** Trimming cuts off all the white space at both ends, and nothing else. */
  lemma TrimCuts(s: string) returns (a: string, b: string)
    ensures s == a + Trim(s) + b && IsBlank(a) && IsBlank(b)
    ensures Trim(s) != "" ==> !IsWhitespace(Trim(s)[0]) && !IsWhitespace(Trim(s)[|Trim(s)| - 1])
  {
    var m := TrimStartCuts(s);
    var n := TrimEndCuts(TrimStart(s));
    a, b := s[..m], TrimStart(s)[n..];
    assert TrimStart(s) == Trim(s) + b;
    assert s == a + TrimStart(s);
    if Trim(s) != "" { assert Trim(s)[0] == TrimStart(s)[0]; }
  }

  /** A text without white space at its ends is what trimming leaves of it, however much
      white space stands around it. */
  lemma {:induction false} TrimPadded(before: string, s: string, after: string)
    requires IsBlank(before) && IsBlank(after)
    requires s != "" ==> !IsWhitespace(s[0]) && !IsWhitespace(s[|s| - 1])
    ensures Trim(before + s + after) == s
    decreases |before| + |after|
  {
    var t := before + s + after;
    if before != "" {
      assert t[0] == before[0] && t[1..] == before[1..] + s + after;
      TrimPadded(before[1..], s, after);
    } else if s == "" {
      assert t == after;
      TrimBlank(after);
    } else {
      assert t == s + after && TrimStart(t) == t;
      TrimEndPadded(s, after);
    }
  }

  lemma {:induction false} TrimBlank(s: string)
    requires IsBlank(s)
    ensures TrimStart(s) == "" && Trim(s) == ""
  {
    if s != "" { TrimBlank(s[1..]); }
  }

  lemma TrimIsEmptyIff(s: string)
    ensures Trim(s) == "" <==> IsBlank(s)
  {
    var a, b := TrimCuts(s);
    assert Trim(s) == "" ==> s == a + b;
    if IsBlank(s) { TrimBlank(s); }
  }

  lemma {:induction false} TrimEndPadded(s: string, after: string)
    requires IsBlank(after) && s != "" && !IsWhitespace(s[|s| - 1])
    ensures TrimEnd(s + after) == s
    decreases |after|
  {
    if after == "" {
      assert s + after == s;
    } else {
      var t := s + after;
      assert t[|t| - 1] == after[|after| - 1] && t[..|t| - 1] == s + after[..|after| - 1];
      TrimEndPadded(s, after[..|after| - 1]);
    }
  }
}
