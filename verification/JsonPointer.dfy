/** The path syntax of patches: JSON Pointers (RFC 6901), read leniently. */
module JsonPointer {
  import opened Text

  /** Two passes over the whole segment, "~1" first. */
  function Unescape(s: string): string {
    ReplacePair(ReplacePair(s, '~', '1', '/'), '~', '0', '~')
  }

  function UnescapeAll(parts: seq<string>): seq<string> {
    if parts == [] then [] else [Unescape(parts[0])] + UnescapeAll(parts[1..])
  }

  /** A leading slash is optional. */
  function ParsePointer(path: string): (segments: seq<string>)
    ensures segments != []
  {
    var raw := if path != "" && path[0] == '/' then path[1..] else path;
    UnescapeAll(Split(raw, '/'))
  }

  // ------------------------------------------------------------------
  // The syntax of RFC 6901, sections 3 and 4
  // ------------------------------------------------------------------

  function Escape(s: string): string {
    if s == "" then ""
    else (if s[0] == '~' then "~0" else if s[0] == '/' then "~1" else [s[0]]) + Escape(s[1..])
  }

  function EscapeAll(segments: seq<string>): seq<string> {
    if segments == [] then [] else [Escape(segments[0])] + EscapeAll(segments[1..])
  }

  function Format(segments: seq<string>): string {
    if segments == [] then "" else "/" + Escape(segments[0]) + Format(segments[1..])
  }

  /** Decoding a segment in one scan, each escape read where it stands. */
  function DecodeOnce(s: string): string {
    if s == "" then ""
    else if |s| >= 2 && s[0] == '~' && s[1] == '1' then "/" + DecodeOnce(s[2..])
    else if |s| >= 2 && s[0] == '~' && s[1] == '0' then "~" + DecodeOnce(s[2..])
    else [s[0]] + DecodeOnce(s[1..])
  }

  /** Every tilde starts an escape. */
  predicate WellEscaped(s: string) {
    forall i :: 0 <= i < |s| && s[i] == '~' ==> i + 1 < |s| && (s[i + 1] == '0' || s[i + 1] == '1')
  }

  // ------------------------------------------------------------------
  // Two passes are one scan
  // ------------------------------------------------------------------

  lemma ReplaceConsOther(c: char, s: string, a: char, b: char, repl: char)
    requires !(c == a && s != "" && s[0] == b)
    ensures ReplacePair([c] + s, a, b, repl) == [c] + ReplacePair(s, a, b, repl)
  {
    assert ([c] + s)[1..] == s;
  }

  lemma ReplaceConsPair(s: string, a: char, b: char, repl: char)
    ensures ReplacePair([a, b] + s, a, b, repl) == [repl] + ReplacePair(s, a, b, repl)
  {
    assert ([a, b] + s)[2..] == s;
  }

  /** On every text, escaped properly or not. */
  lemma {:induction false} UnescapeIsOneScan(s: string)
    ensures Unescape(s) == DecodeOnce(s)
    decreases |s|
  {
    if s == "" {
    } else if |s| >= 2 && s[0] == '~' && s[1] == '1' {
      UnescapeIsOneScan(s[2..]);
      ReplaceConsOther('/', ReplacePair(s[2..], '~', '1', '/'), '~', '0', '~');
    } else if |s| >= 2 && s[0] == '~' && s[1] == '0' {
      UnescapeIsOneScan(s[2..]);
      var rest := ReplacePair(s[2..], '~', '1', '/');
      assert s[1..] == ['0'] + s[2..];
      ReplaceConsOther('0', s[2..], '~', '1', '/');
      assert ReplacePair(s, '~', '1', '/') == ['~', '0'] + rest;
      ReplaceConsPair(rest, '~', '0', '~');
    } else {
      UnescapeIsOneScan(s[1..]);
      ReplaceConsOther(s[0], ReplacePair(s[1..], '~', '1', '/'), '~', '0', '~');
    }
  }

  // ------------------------------------------------------------------
  // Round trips
  // ------------------------------------------------------------------

  lemma {:induction false} DecodeEscape(s: string)
    ensures DecodeOnce(Escape(s)) == s
    ensures '/' !in Escape(s)
    ensures WellEscaped(Escape(s))
  {
    if s != "" {
      DecodeEscape(s[1..]);
      var head := if s[0] == '~' then "~0" else if s[0] == '/' then "~1" else [s[0]];
      var tail := Escape(s[1..]);
      assert Escape(s) == head + tail;
      assert (head + tail)[|head|..] == tail;
      WellEscapedConcat(head, tail);
      assert [s[0]] + s[1..] == s;
    }
  }

  lemma WellEscapedConcat(a: string, b: string)
    requires WellEscaped(a) && WellEscaped(b)
    ensures WellEscaped(a + b)
  {
    forall i | 0 <= i < |a + b| && (a + b)[i] == '~'
      ensures i + 1 < |a + b| && ((a + b)[i + 1] == '0' || (a + b)[i + 1] == '1')
    {
      if i < |a| { assert a[i] == '~'; } else { assert b[i - |a|] == '~'; }
    }
  }

  lemma {:induction false} EscapeDecode(s: string)
    requires WellEscaped(s) && '/' !in s
    ensures Escape(DecodeOnce(s)) == s
    decreases |s|
  {
    if s != "" {
      var width := if s[0] == '~' then 2 else 1;
      forall i | 0 <= i < |s[width..]| && s[width..][i] == '~'
        ensures i + 1 < |s[width..]| && (s[width..][i + 1] == '0' || s[width..][i + 1] == '1')
      {
        assert s[i + width] == '~';
      }
      EscapeDecode(s[width..]);
      assert s == s[..width] + s[width..];
    }
  }

  lemma JoinCons(head: string, rest: seq<string>, sep: char)
    requires rest != []
    ensures Join([head] + rest, sep) == head + [sep] + Join(rest, sep)
  {
    assert ([head] + rest)[1..] == rest;
  }

  lemma {:induction false} FormatIsJoin(segments: seq<string>)
    requires segments != []
    ensures EscapeAll(segments) != []
    ensures Format(segments) == "/" + Join(EscapeAll(segments), '/')
  {
    var head := Escape(segments[0]);
    var rest := segments[1..];
    if rest == [] {
      assert EscapeAll(segments) == [head];
      assert Format(rest) == "";
    } else {
      FormatIsJoin(rest);
      var tail := Join(EscapeAll(rest), '/');
      JoinCons(head, EscapeAll(rest), '/');
      ConcatAssociates("/", head, "/", tail);
    }
  }

  lemma ConcatAssociates(a: string, b: string, c: string, d: string)
    ensures a + b + (c + d) == a + (b + c + d)
  {
  }

  lemma {:induction false} EscapeAllAt(segments: seq<string>)
    ensures |EscapeAll(segments)| == |segments|
    ensures forall k :: 0 <= k < |segments| ==> EscapeAll(segments)[k] == Escape(segments[k])
    ensures forall k :: 0 <= k < |segments| ==> '/' !in EscapeAll(segments)[k]
    ensures UnescapeAll(EscapeAll(segments)) == segments
  {
    if segments != [] {
      EscapeAllAt(segments[1..]);
      DecodeEscape(segments[0]);
      UnescapeIsOneScan(Escape(segments[0]));
      assert EscapeAll(segments)[1..] == EscapeAll(segments[1..]);
    }
  }

  /** Reading back any non-empty list of arbitrary segments. */
  lemma ParseFormat(segments: seq<string>)
    requires segments != []
    ensures ParsePointer(Format(segments)) == segments
  {
    FormatIsJoin(segments);
    EscapeAllAt(segments);
    SplitJoin(EscapeAll(segments), '/');
    assert Format(segments)[1..] == Join(EscapeAll(segments), '/');
  }

  lemma {:induction false} FormatIsWellEscaped(segments: seq<string>)
    ensures WellEscaped(Format(segments))
  {
    if segments != [] {
      DecodeEscape(segments[0]);
      FormatIsWellEscaped(segments[1..]);
      WellEscapedConcat("/", Escape(segments[0]));
      WellEscapedConcat("/" + Escape(segments[0]), Format(segments[1..]));
    }
  }

  lemma {:induction false} WellEscapedParts(raw: string)
    requires WellEscaped(raw)
    ensures forall k :: 0 <= k < |Split(raw, '/')| ==> WellEscaped(Split(raw, '/')[k])
  {
    if raw != "" {
      forall i | 0 <= i < |raw[1..]| && raw[1..][i] == '~'
        ensures i + 1 < |raw[1..]| && (raw[1..][i + 1] == '0' || raw[1..][i + 1] == '1')
      {
        assert raw[i + 1] == '~';
      }
      WellEscapedParts(raw[1..]);
      var rest := Split(raw[1..], '/');
      if raw[0] != '/' {
        var first := [raw[0]] + rest[0];
        if raw[0] == '~' {
          SplitHead(raw[1..], '/');
        }
        forall i | 0 <= i < |first| && first[i] == '~'
          ensures i + 1 < |first| && (first[i + 1] == '0' || first[i + 1] == '1')
        {
          if i > 0 { assert rest[0][i - 1] == '~'; }
        }
      }
    }
  }

  lemma SplitHead(s: string, sep: char)
    requires s != "" && s[0] != sep
    ensures Split(s, sep)[0] != "" && Split(s, sep)[0][0] == s[0]
  {
  }

  lemma {:induction false} EscapeUnescapeAll(parts: seq<string>)
    requires forall k :: 0 <= k < |parts| ==> WellEscaped(parts[k]) && '/' !in parts[k]
    ensures EscapeAll(UnescapeAll(parts)) == parts
  {
    if parts != [] {
      EscapeUnescapeAll(parts[1..]);
      UnescapeIsOneScan(parts[0]);
      EscapeDecode(parts[0]);
    }
  }

  /** A path is the printed form of its own segments exactly when it is a
      non-empty pointer by the grammar. */
  lemma FormatParseIff(path: string)
    ensures Format(ParsePointer(path)) == path <==> path != "" && path[0] == '/' && WellEscaped(path)
  {
    var segments := ParsePointer(path);
    FormatIsWellEscaped(segments);
    if path != "" && path[0] == '/' && WellEscaped(path) {
      var raw := path[1..];
      forall i | 0 <= i < |raw| && raw[i] == '~'
        ensures i + 1 < |raw| && (raw[i + 1] == '0' || raw[i + 1] == '1')
      {
        assert path[i + 1] == '~';
      }
      WellEscapedParts(raw);
      EscapeUnescapeAll(Split(raw, '/'));
      FormatIsJoin(segments);
      JoinSplit(raw, '/');
    }
  }

  // ------------------------------------------------------------------
  // What the printed form looks like
  // ------------------------------------------------------------------

  /** Escaping goes character by character: only "~" and "/" change. */
  lemma {:induction false} EscapeConcat(a: string, b: string)
    ensures Escape(a + b) == Escape(a) + Escape(b)
  {
    if a == "" {
      assert a + b == b;
    } else {
      assert (a + b)[0] == a[0] && (a + b)[1..] == a[1..] + b;
      EscapeConcat(a[1..], b);
    }
  }

  lemma EscapeOne(c: char)
    ensures Escape([c]) == if c == '~' then "~0" else if c == '/' then "~1" else [c]
  {
    assert Escape([c][1..]) == "";
  }

  /** The printed form is a slash and the escaped text for each segment; without its
      first slash it reads the same, and so do the slash alone and nothing at all. */
  lemma PrintedSegments(first: string, rest: seq<string>)
    ensures Format([first] + rest) == "/" + Escape(first) + Format(rest)
    ensures first != "" ==> ParsePointer(Format([first] + rest)[1..]) == [first] + rest
    ensures ParsePointer("/") == ParsePointer("") == [""]
  {
    assert ([first] + rest)[1..] == rest;
    ParseFormat([first] + rest);
    var raw := Format([first] + rest)[1..];
    assert raw == Escape(first) + Format(rest);
    if first != "" {
      DecodeEscape(first);
      assert raw[0] == Escape(first)[0];
    }
    assert "/"[1..] == "";
    assert Split("", '/') == [""] && UnescapeAll([""]) == [Unescape("")] + UnescapeAll([""][1..]);
  }
}
