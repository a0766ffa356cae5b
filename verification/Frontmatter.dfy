/** Finding the YAML frontmatter of a skill file: by the parser, which has the
    whole document in memory, and by the reader, which stops at the closing
    fence and hands what it collected to the parser. */
module Frontmatter {
  import opened Options
  import opened Text

  datatype FenceError = Missing | Unterminated

  datatype Document = Document(frontmatter: seq<string>, body: seq<string>)

  const FENCE := "---"

  /** Windows line endings become plain ones. */
  function Normalize(s: string): string {
    ReplacePair(s, '\r', '\n', '\n')
  }

  /** The first fence at or after a position; the length if there is none. */
  function FindFence(lines: seq<string>, from: nat): (k: nat)
    requires from <= |lines|
    ensures from <= k <= |lines|
    ensures forall j :: from <= j < k ==> lines[j] != FENCE
    ensures k < |lines| ==> lines[k] == FENCE
    decreases |lines| - from
  {
    if from == |lines| || lines[from] == FENCE then from else FindFence(lines, from + 1)
  }

  // ------------------------------------------------------------------
  // The parser
  // ------------------------------------------------------------------

  function SplitDocument(input: string): Result<Document, FenceError> {
    SplitLines(Split(Normalize(input), '\n'))
  }

  function SplitLines(lines: seq<string>): Result<Document, FenceError> {
    if |lines| < 2 || lines[0] != FENCE then Err(Missing)
    else
      var k := FindFence(lines, 1);
      if k == |lines| then Err(Unterminated) else Ok(Document(lines[1..k], lines[k + 1..]))
  }

  predicate StartsWithFence(s: string) {
    |s| >= 4 && s[..4] == "---\n"
  }

  method ParseSkillMd(input: string) returns (r: Result<Document, FenceError>)
    ensures r == SplitDocument(input)
  {
    var text := Normalize(input);
    var lines := Split(text, '\n');
    StartsWithFenceIff(text);
    if !StartsWithFence(text) {
      return Err(Missing);
    }
    var fmLines: seq<string> := [];
    var foundEnd := false;
    var i := 1;
    while i < |lines| && !foundEnd
      invariant 1 <= i <= |lines|
      invariant if foundEnd then FindFence(lines, 1) == i - 1 < |lines| && fmLines == lines[1..i - 1]
                else FindFence(lines, 1) == FindFence(lines, i) && fmLines == lines[1..i]
    {
      if lines[i] == FENCE {
        foundEnd := true;
      } else {
        fmLines := fmLines + [lines[i]];
      }
      i := i + 1;
    }
    if !foundEnd {
      return Err(Unterminated);
    }
    return Ok(Document(fmLines, lines[i..]));
  }

  /** A text starts with a fence and a line feed exactly when the fence is its
      first line and not its last. */
  lemma StartsWithFenceIff(text: string)
    ensures StartsWithFence(text) <==> |Split(text, '\n')| >= 2 && Split(text, '\n')[0] == FENCE
  {
    var parts := Split(text, '\n');
    if StartsWithFence(text) {
      assert text == FENCE + ['\n'] + text[4..];
      SplitAtSeparator(FENCE, text[4..], '\n');
    }
    if |parts| >= 2 && parts[0] == FENCE {
      JoinSplit(text, '\n');
      assert text == parts[0] + ['\n'] + Join(parts[1..], '\n');
      assert text[..4] == FENCE + ['\n'];
    }
  }

  // ------------------------------------------------------------------
  // The streaming reader
  // ------------------------------------------------------------------

  /** How many characters the next line takes, its line feed included. */
  function LineLength(s: string): (n: nat)
    ensures n <= |s|
    ensures s != "" ==> n > 0
  {
    if s == "" then 0 else if s[0] == '\n' then 1 else 1 + LineLength(s[1..])
  }

  /** Drops every line feed and carriage return from the end. */
  function TrimLineEnding(line: string): string {
    if line != "" && (line[|line| - 1] == '\n' || line[|line| - 1] == '\r')
    then TrimLineEnding(line[..|line| - 1])
    else line
  }

  /** The lines up to the closing fence, as they stand in the file. */
  function CollectLines(rest: string): Option<string>
    decreases |rest|
  {
    if rest == "" then None
    else
      var n := LineLength(rest);
      if TrimLineEnding(rest[..n]) == FENCE then Some("")
      else
        var more := CollectLines(rest[n..]);
        if more.None? then None else Some(rest[..n] + more.value)
  }

  function ReadFrontmatter(text: string): Result<string, FenceError> {
    var n := LineLength(text);
    if n == 0 || TrimLineEnding(text[..n]) != FENCE then Err(Missing)
    else
      var fm := CollectLines(text[n..]);
      if fm.None? then Err(Unterminated) else Ok(fm.value)
  }

  method ReadFrontmatterFromFile(text: string) returns (r: Result<Document, FenceError>)
    ensures r == match ReadFrontmatter(text)
                 case Ok(fm) => SplitDocument(Fenced(fm, ""))
                 case Err(e) => Err(e)
  {
    var n := LineLength(text);
    if n == 0 || TrimLineEnding(text[..n]) != FENCE {
      return Err(Missing);
    }
    var rest := text[n..];
    var fm := "";
    ghost var all := CollectLines(rest);
    assert all.Some? ==> "" + all.value == all.value;
    while true
      invariant var more := CollectLines(rest);
                all == if more.None? then None else Some(fm + more.value)
      decreases |rest|
    {
      var read := LineLength(rest);
      if read == 0 {
        return Err(Unterminated);
      }
      var line := rest[..read];
      if TrimLineEnding(line) == FENCE {
        break;
      }
      ghost var more := CollectLines(rest[read..]);
      assert more.Some? ==> fm + (line + more.value) == fm + line + more.value;
      fm := fm + line;
      rest := rest[read..];
    }
    assert fm + "" == fm;
    assert Fenced(fm, "") == "---\n" + fm + "---\n";
    r := ParseSkillMd("---\n" + fm + "---\n");
  }

  // ------------------------------------------------------------------
  // Both in terms of the pieces between line feeds
  // ------------------------------------------------------------------

  /** What the parser makes of the pieces: one carriage return less at the end of
      every piece that a line feed follows. */
  function ParserLines(parts: seq<string>): (r: seq<string>) {
    seq(|parts|, k requires 0 <= k < |parts| => if k < |parts| - 1 then DropCarriageReturn(parts[k]) else parts[k])
  }

  /** What the reader compares with the fence: no carriage return at the end. */
  function ReaderLines(parts: seq<string>): (r: seq<string>) {
    seq(|parts|, k requires 0 <= k < |parts| => TrimLineEnding(parts[k]))
  }

  /** Putting a character in front of the first piece. */
  function ConsFirst(c: char, parts: seq<string>): (r: seq<string>)
    requires parts != []
    ensures |r| == |parts|
  {
    [[c] + parts[0]] + parts[1..]
  }

  lemma ParserLinesConsFirst(c: char, parts: seq<string>)
    requires parts != []
    requires |parts| > 1 && parts[0] == "" ==> c != '\r'
    ensures ParserLines(ConsFirst(c, parts)) == ConsFirst(c, ParserLines(parts))
  {
    if |parts| > 1 {
      var first := [c] + parts[0];
      if parts[0] != "" { assert first[|first| - 1] == parts[0][|parts[0]| - 1]; }
      assert DropCarriageReturn(first) == [c] + DropCarriageReturn(parts[0]);
      assert ConsFirst(c, parts)[1..] == parts[1..];
      assert ParserLines(parts)[1..] == ParserLines(parts[1..]);
    }
  }

  lemma ParserLinesCons(first: string, rest: seq<string>)
    requires rest != []
    ensures ParserLines([first] + rest) == [DropCarriageReturn(first)] + ParserLines(rest)
  {
    assert ([first] + rest)[1..] == rest;
  }

  lemma SplitCons(c: char, text: string)
    ensures Split([c] + text, '\n') == if c == '\n' then [""] + Split(text, '\n') else ConsFirst(c, Split(text, '\n'))
  {
    assert ([c] + text)[1..] == text;
  }

  lemma {:induction false} NormalizeSplits(text: string)
    ensures Split(Normalize(text), '\n') == ParserLines(Split(text, '\n'))
    decreases |text|
  {
    if text == "" {
    } else if |text| >= 2 && text[0] == '\r' && text[1] == '\n' {
      var tail := text[2..];
      assert text == ['\r'] + (['\n'] + tail);
      SplitCons('\r', ['\n'] + tail);
      SplitCons('\n', tail);
      ParserLinesCons("\r", Split(tail, '\n'));
      assert ['\r'] + "" == "\r" && ([""] + Split(tail, '\n'))[1..] == Split(tail, '\n');
      assert ConsFirst('\r', [""] + Split(tail, '\n')) == ["\r"] + Split(tail, '\n');
      SplitCons('\n', Normalize(tail));
      NormalizeSplits(tail);
    } else {
      var tail := text[1..];
      assert text == [text[0]] + tail;
      SplitCons(text[0], tail);
      SplitCons(text[0], Normalize(tail));
      NormalizeSplits(tail);
      if text[0] == '\n' {
        ParserLinesCons("", Split(tail, '\n'));
      } else {
        FirstPieceEmptyIff(tail);
        ParserLinesConsFirst(text[0], Split(tail, '\n'));
      }
    }
  }

  lemma FirstPieceEmptyIff(text: string)
    ensures Split(text, '\n')[0] == "" <==> text == "" || text[0] == '\n'
  {
  }

  lemma TrimLineFeed(piece: string)
    ensures TrimLineEnding(piece + ['\n']) == TrimLineEnding(piece)
  {
    assert (piece + ['\n'])[..|piece|] == piece;
  }

  /** The next line of a text that consists of these pieces. */
  lemma {:induction false} NextLine(text: string)
    requires text != ""
    ensures var parts := Split(text, '\n');
            if |parts| == 1 then LineLength(text) == |text| && text == parts[0]
            else
              LineLength(text) == |parts[0]| + 1 &&
              text[..LineLength(text)] == parts[0] + ['\n'] &&
              Split(text[LineLength(text)..], '\n') == parts[1..]
    decreases |text|
  {
    if text[0] != '\n' && |text| > 1 {
      NextLine(text[1..]);
      var rest := Split(text[1..], '\n');
      var n := LineLength(text[1..]);
      assert text[n + 1..] == text[1..][n..];
      assert text[..n + 1] == [text[0]] + text[1..][..n];
      assert Split(text, '\n')[1..] == rest[1..];
    } else if text[0] == '\n' {
      assert Split(text, '\n')[1..] == Split(text[1..], '\n');
    }
  }

  function Terminated(parts: seq<string>): string {
    if parts == [] then "" else parts[0] + ['\n'] + Terminated(parts[1..])
  }

  /** The collected lines, in terms of pieces. */
  function CollectPieces(parts: seq<string>): Option<string> {
    var k := FindFence(ReaderLines(parts), 0);
    if k == |parts| then None else Some(Terminated(parts[..k]))
  }

  lemma CollectPiecesStep(parts: seq<string>)
    requires |parts| > 1
    ensures CollectPieces(parts) ==
              if TrimLineEnding(parts[0]) == FENCE then Some("")
              else
                match CollectPieces(parts[1..])
                case Some(more) => Some(parts[0] + ['\n'] + more)
                case None => None
  {
    var lines := ReaderLines(parts);
    assert lines[1..] == ReaderLines(parts[1..]);
    if lines[0] == FENCE {
      assert parts[..0] == [];
    } else {
      FindFenceShift(lines, 0);
      var k := FindFence(lines[1..], 0);
      if k < |parts| - 1 {
        assert parts[..k + 1][0] == parts[0] && parts[..k + 1][1..] == parts[1..][..k];
      }
    }
  }

  lemma CollectLastPiece(piece: string)
    ensures CollectPieces([piece]) == if TrimLineEnding(piece) == FENCE then Some("") else None
  {
    var lines := ReaderLines([piece]);
    assert [piece][..0] == [];
    assert FindFence(lines, 1) == 1;
  }

  lemma {:induction false} CollectedLines(rest: string)
    ensures CollectLines(rest) == CollectPieces(Split(rest, '\n'))
    decreases |rest|
  {
    var parts := Split(rest, '\n');
    if rest == "" {
      CollectLastPiece("");
    } else {
      NextLine(rest);
      var n := LineLength(rest);
      if |parts| == 1 {
        assert parts == [rest] && rest[..n] == rest && rest[n..] == "";
        CollectLastPiece(rest);
        assert CollectLines("") == None;
      } else {
        TrimLineFeed(parts[0]);
        CollectedLines(rest[n..]);
        CollectPiecesStep(parts);
      }
    }
  }

  lemma {:induction false} FindFenceShift(lines: seq<string>, from: nat)
    requires from < |lines|
    ensures FindFence(lines, from + 1) == FindFence(lines[1..], from) + 1
    decreases |lines| - from
  {
    if from + 1 < |lines| && lines[from + 1] != FENCE { FindFenceShift(lines, from + 1); }
  }

  // ------------------------------------------------------------------
  // Agreement
  // ------------------------------------------------------------------

  /** The frontmatter lines the parser finds. */
  function Parsed(text: string): Option<seq<string>> {
    match SplitDocument(text) case Ok(d) => Some(d.frontmatter) case Err(_) => None
  }

  /** The frontmatter lines that come out of the streaming reader. */
  function Streamed(text: string): Option<seq<string>> {
    match ReadFrontmatter(text) case Ok(fm) => Parsed(Fenced(fm, "")) case Err(_) => None
  }

  lemma ReadByPieces(text: string)
    ensures var parts := Split(text, '\n');
            var lines := ReaderLines(parts);
            if |parts| < 2 || lines[0] != FENCE || FindFence(lines, 1) == |parts|
            then ReadFrontmatter(text).Err?
            else ReadFrontmatter(text) == Ok(Terminated(parts[1..FindFence(lines, 1)]))
  {
    var parts := Split(text, '\n');
    var lines := ReaderLines(parts);
    if text != "" {
      NextLine(text);
      var n := LineLength(text);
      if |parts| == 1 {
        assert text[..n] == text && text[n..] == "";
        assert CollectLines("") == None;
      } else {
        TrimLineFeed(parts[0]);
        CollectedLines(text[n..]);
        FindFenceShift(lines, 0);
        assert lines[1..] == ReaderLines(parts[1..]);
        var k := FindFence(lines[1..], 0);
        assert k < |parts| - 1 ==> parts[1..][..k] == parts[1..k + 1];
      }
    }
  }

  lemma TerminatedStep(parts: seq<string>, tail: string)
    requires parts != []
    ensures Terminated(parts) + tail == parts[0] + ['\n'] + (Terminated(parts[1..]) + tail)
  {
    var head := parts[0] + ['\n'];
    assert head + Terminated(parts[1..]) + tail == head + (Terminated(parts[1..]) + tail);
  }

  lemma {:induction false} SplitTerminated(parts: seq<string>, tail: string)
    requires forall k :: 0 <= k < |parts| ==> '\n' !in parts[k]
    ensures Split(Terminated(parts) + tail, '\n') == parts + Split(tail, '\n')
  {
    if parts == [] {
      assert Terminated(parts) + tail == tail;
    } else {
      TerminatedStep(parts, tail);
      SplitAtSeparator(parts[0], Terminated(parts[1..]) + tail, '\n');
      SplitTerminated(parts[1..], tail);
      HeadAndTail(parts, Split(tail, '\n'));
    }
  }

  lemma HeadAndTail(a: seq<string>, b: seq<string>)
    requires a != []
    ensures [a[0]] + (a[1..] + b) == a + b
  {
  }

  /** A text between two fences, and whatever follows. */
  function Fenced(inner: string, tail: string): string {
    "---\n" + inner + "---\n" + tail
  }

  lemma FencedPieces(parts: seq<string>, tail: string)
    requires forall k :: 0 <= k < |parts| ==> '\n' !in parts[k]
    ensures Split(Fenced(Terminated(parts), tail), '\n') == [FENCE] + parts + [FENCE] + Split(tail, '\n')
  {
    var whole := [FENCE] + parts + [FENCE];
    assert Terminated([FENCE]) == "---\n" by {
      assert Terminated([FENCE]) == FENCE + ['\n'] + Terminated([FENCE][1..]);
    }
    TerminatedConcat([FENCE] + parts, [FENCE]);
    TerminatedConcat([FENCE], parts);
    assert Terminated(whole) + tail == Fenced(Terminated(parts), tail);
    SplitTerminated(whole, tail);
  }

  function DropAll(parts: seq<string>): (r: seq<string>) {
    seq(|parts|, k requires 0 <= k < |parts| => DropCarriageReturn(parts[k]))
  }

  lemma FencedLines(parts: seq<string>, tail: seq<string>)
    requires tail != []
    requires forall k :: 0 <= k < |parts| ==> TrimLineEnding(parts[k]) != FENCE
    ensures var lines := ParserLines([FENCE] + parts + [FENCE] + tail);
            lines[0] == FENCE && FindFence(lines, 1) == |parts| + 1 && lines[1..|parts| + 1] == DropAll(parts)
  {
    var whole := [FENCE] + parts + [FENCE] + tail;
    var lines := ParserLines(whole);
    forall k | 1 <= k <= |parts| ensures lines[k] == DropCarriageReturn(parts[k - 1]) && lines[k] != FENCE {
      DropThenTrim(parts[k - 1]);
    }
    assert lines[|parts| + 1] == FENCE;
    FenceIs(lines, 1, |parts| + 1);
  }

  /** Parsing what the reader collected finds just the collected lines. */
  lemma ParseCollected(parts: seq<string>)
    requires forall k :: 0 <= k < |parts| ==> '\n' !in parts[k] && TrimLineEnding(parts[k]) != FENCE
    ensures Parsed(Fenced(Terminated(parts), "")) == Some(DropAll(parts))
  {
    FencedPieces(parts, "");
    FencedLines(parts, [""]);
    ParsedByPieces(Fenced(Terminated(parts), ""));
  }

  lemma {:induction false} TerminatedConcat(a: seq<string>, b: seq<string>)
    ensures Terminated(a + b) == Terminated(a) + Terminated(b)
  {
    if a == [] {
      assert a + b == b;
    } else {
      assert (a + b)[0] == a[0] && (a + b)[1..] == a[1..] + b;
      TerminatedConcat(a[1..], b);
    }
  }

  lemma DropThenTrim(line: string)
    ensures TrimLineEnding(DropCarriageReturn(line)) == TrimLineEnding(line)
    ensures DropCarriageReturn(line) == FENCE ==> TrimLineEnding(line) == FENCE
  {
    assert TrimLineEnding(FENCE) == FENCE;
  }

  lemma FenceIs(lines: seq<string>, from: nat, k: nat)
    requires from <= k < |lines| && lines[k] == FENCE
    requires forall j :: from <= j < k ==> lines[j] != FENCE
    ensures FindFence(lines, from) == k
  {
  }

  /** The lines between the first line and the next fence, if both are fences
      among the given marks. */
  function Between(marks: seq<string>, lines: seq<string>): Option<seq<string>>
    requires |marks| == |lines|
  {
    if |marks| < 2 || marks[0] != FENCE || FindFence(marks, 1) == |marks| then None
    else Some(lines[1..FindFence(marks, 1)])
  }

  lemma ParsedByPieces(text: string)
    ensures var lines := ParserLines(Split(text, '\n'));
            Parsed(text) == Between(lines, lines)
  {
    NormalizeSplits(text);
  }

  lemma CollectedSlice(parts: seq<string>, k: nat)
    requires 1 <= k < |parts|
    requires FindFence(ReaderLines(parts), 1) == k
    requires forall j :: 0 <= j < |parts| ==> '\n' !in parts[j]
    ensures Parsed(Fenced(Terminated(parts[1..k]), "")) == Some(ParserLines(parts)[1..k])
  {
    var inner := parts[1..k];
    forall j | 0 <= j < |inner| ensures '\n' !in inner[j] && TrimLineEnding(inner[j]) != FENCE {
      assert inner[j] == parts[j + 1] && ReaderLines(parts)[j + 1] != FENCE;
    }
    ParseCollected(inner);
    assert DropAll(inner) == ParserLines(parts)[1..k];
  }

  lemma StreamedByPieces(text: string)
    ensures var parts := Split(text, '\n');
            Streamed(text) == Between(ReaderLines(parts), ParserLines(parts))
  {
    var parts := Split(text, '\n');
    ReadByPieces(text);
    if |parts| >= 2 {
      var k := FindFence(ReaderLines(parts), 1);
      if k < |parts| { CollectedSlice(parts, k); }
    }
  }

  /** Both fences among the marks are fences among the lines. */
  predicate Proper(marks: seq<string>, lines: seq<string>)
    requires |marks| == |lines| && |marks| >= 1
  {
    var k := FindFence(marks, 1);
    lines[0] == FENCE && (k < |lines| ==> lines[k] == FENCE)
  }

  predicate FindsFences(marks: seq<string>) {
    |marks| >= 2 && marks[0] == FENCE && FindFence(marks, 1) < |marks|
  }

  lemma BetweenAgreesIff(marks: seq<string>, lines: seq<string>)
    requires |marks| == |lines| && |marks| >= 1
    requires forall j :: 0 <= j < |lines| && lines[j] == FENCE ==> marks[j] == FENCE
    ensures Between(marks, lines) == Between(lines, lines) <==> (FindsFences(marks) ==> Proper(marks, lines))
  {
    if |marks| >= 2 {
      var k, n := FindFence(marks, 1), FindFence(lines, 1);
      assert k <= n;
      if k < n { assert |lines[1..n]| != |lines[1..k]|; }
    }
  }

  /** The first line, and some later one, is a fence but for the carriage returns at
      its end. */
  predicate ReaderFindsFences(text: string) {
    FindsFences(ReaderLines(Split(text, '\n')))
  }

  /** The first line, and the first later one that is a fence but for its carriage
      returns, carry none beyond the one that a line feed takes with it. */
  predicate FencesAreProper(text: string) {
    var parts := Split(text, '\n');
    Proper(ReaderLines(parts), ParserLines(parts))
  }

  /** The reader agrees with the parser exactly when the fences it would stop at, if
      the text has any, are proper ones. */
  lemma ReaderAgreesIff(text: string)
    ensures Streamed(text) == Parsed(text) <==> (ReaderFindsFences(text) ==> FencesAreProper(text))
  {
    var parts := Split(text, '\n');
    ParsedByPieces(text);
    StreamedByPieces(text);
    ParserFencesAreSeen(parts);
    BetweenAgreesIff(ReaderLines(parts), ParserLines(parts));
  }

  lemma ParserFencesAreSeen(parts: seq<string>)
    ensures forall k :: 0 <= k < |parts| && ParserLines(parts)[k] == FENCE ==> ReaderLines(parts)[k] == FENCE
  {
    forall k | 0 <= k < |parts| && ParserLines(parts)[k] == FENCE ensures ReaderLines(parts)[k] == FENCE {
      DropThenTrim(parts[k]);
      assert TrimLineEnding(FENCE) == FENCE;
    }
  }

  /** Carriage returns occur in line endings only. */
  predicate PlainEndings(text: string) {
    forall i :: 0 <= i < |text| && text[i] == '\r' ==> i + 1 < |text| && text[i + 1] == '\n'
  }

  /** A carriage return can only end a piece, and not the last one. */
  predicate PlainPiece(piece: string, last: bool) {
    forall i :: 0 <= i < |piece| && piece[i] == '\r' ==> !last && i == |piece| - 1
  }

  lemma PlainPieceCons(c: char, piece: string, last: bool)
    requires PlainPiece(piece, last) && (c == '\r' ==> piece == "" && !last)
    ensures PlainPiece([c] + piece, last)
  {
    forall i | 0 <= i < |[c] + piece| && ([c] + piece)[i] == '\r'
      ensures !last && i == |[c] + piece| - 1
    {
      if i > 0 { assert piece[i - 1] == '\r'; }
    }
  }

  predicate AllPlain(parts: seq<string>) {
    forall k :: 0 <= k < |parts| ==> PlainPiece(parts[k], k == |parts| - 1)
  }

  lemma AllPlainCons(first: string, rest: seq<string>)
    requires rest != [] && AllPlain(rest) && PlainPiece(first, false)
    ensures AllPlain([first] + rest)
  {
    var parts := [first] + rest;
    forall k | 0 <= k < |parts| ensures PlainPiece(parts[k], k == |parts| - 1) {
      if k > 0 { assert parts[k] == rest[k - 1] && PlainPiece(rest[k - 1], k - 1 == |rest| - 1); }
    }
  }

  lemma AllPlainConsFirst(c: char, parts: seq<string>)
    requires parts != [] && AllPlain(parts)
    requires c == '\r' ==> parts[0] == "" && |parts| > 1
    ensures AllPlain(ConsFirst(c, parts))
  {
    var parts' := ConsFirst(c, parts);
    assert PlainPiece(parts[0], 0 == |parts| - 1);
    PlainPieceCons(c, parts[0], |parts| == 1);
    forall k | 0 <= k < |parts'| ensures PlainPiece(parts'[k], k == |parts'| - 1) {
      if k > 0 { assert parts'[k] == parts[k] && PlainPiece(parts[k], k == |parts| - 1); }
    }
  }

  lemma {:induction false} PlainPieces(text: string)
    requires PlainEndings(text)
    ensures AllPlain(Split(text, '\n'))
    decreases |text|
  {
    if text != "" {
      var tail := text[1..];
      forall i | 0 <= i < |tail| && tail[i] == '\r' ensures i + 1 < |tail| && tail[i + 1] == '\n' {
        assert text[i + 1] == '\r';
      }
      PlainPieces(tail);
      assert text == [text[0]] + tail;
      SplitCons(text[0], tail);
      if text[0] == '\n' {
        AllPlainCons("", Split(tail, '\n'));
      } else {
        if text[0] == '\r' {
          assert tail[0] == '\n';
          FirstPieceEmptyIff(tail);
          assert Split(tail, '\n') == [""] + Split(tail[1..], '\n');
        }
        AllPlainConsFirst(text[0], Split(tail, '\n'));
      }
    }
  }

  lemma PlainPieceTrim(piece: string, last: bool)
    requires '\n' !in piece && PlainPiece(piece, last)
    ensures TrimLineEnding(piece) == if last then piece else DropCarriageReturn(piece)
  {
    if piece != "" {
      var front := piece[..|piece| - 1];
      assert piece[|piece| - 1] in piece;
      if front != "" {
        assert front[|front| - 1] == piece[|piece| - 2] && piece[|piece| - 2] in piece;
      }
      assert TrimLineEnding(front) == front;
    }
  }

  lemma PlainMarks(parts: seq<string>)
    requires AllPlain(parts) && forall k :: 0 <= k < |parts| ==> '\n' !in parts[k]
    ensures ReaderLines(parts) == ParserLines(parts)
  {
    forall k | 0 <= k < |parts| ensures ReaderLines(parts)[k] == ParserLines(parts)[k] {
      assert PlainPiece(parts[k], k == |parts| - 1);
      PlainPieceTrim(parts[k], k == |parts| - 1);
    }
  }

  /** On such texts the reader always agrees with the parser, so whatever decodes
      the YAML, both accept the same files with the same frontmatter. */
  lemma ReaderAgreesOnPlainEndings<T>(text: string, decode: string -> Option<T>)
    requires PlainEndings(text)
    ensures Streamed(text) == Parsed(text)
    ensures Decoded(Streamed(text), decode) == Decoded(Parsed(text), decode)
  {
    PlainPieces(text);
    PlainMarks(Split(text, '\n'));
    ParsedByPieces(text);
    StreamedByPieces(text);
  }

  function Decoded<T>(lines: Option<seq<string>>, decode: string -> Option<T>): Option<T> {
    if lines.Some? then decode(Join(lines.value, '\n')) else None
  }

  /** Lines that can stand in a frontmatter as they are. */
  predicate AreInnerLines(lines: seq<string>) {
    forall k :: 0 <= k < |lines| ==> lines[k] != FENCE && '\n' !in lines[k] && '\r' !in lines[k]
  }

  /** Any frontmatter closed by a fence and a bare carriage return at the end of the
      text: the reader takes all of it, the parser none. */
  lemma BareCarriageReturnDisagrees(frontmatter: seq<string>)
    requires AreInnerLines(frontmatter)
    ensures var text := "---\n" + Terminated(frontmatter) + "---\r";
            Parsed(text) == None && Streamed(text) == Some(frontmatter)
  {
    var text := "---\n" + Terminated(frontmatter) + "---\r";
    BareFencePieces(frontmatter);
    BareFenceMarks(frontmatter);
    ParsedByPieces(text);
    StreamedByPieces(text);
  }

  lemma BareFencePieces(frontmatter: seq<string>)
    requires AreInnerLines(frontmatter)
    ensures Split("---\n" + Terminated(frontmatter) + "---\r", '\n') == [FENCE] + frontmatter + ["---\r"]
  {
    var lines := [FENCE] + frontmatter;
    assert Terminated(lines) == FENCE + ['\n'] + Terminated(lines[1..]);
    assert lines[1..] == frontmatter;
    assert Terminated(lines) + "---\r" == "---\n" + Terminated(frontmatter) + "---\r";
    SplitTerminated(lines, "---\r");
    SplitWithoutSeparator("---\r", '\n');
  }

  lemma InnerLineStays(line: string)
    requires '\n' !in line && '\r' !in line
    ensures TrimLineEnding(line) == line && DropCarriageReturn(line) == line
  {
    if line != "" { assert line[|line| - 1] in line; }
  }

  lemma BareFenceMarks(frontmatter: seq<string>)
    requires AreInnerLines(frontmatter)
    ensures var parts := [FENCE] + frontmatter + ["---\r"];
            Between(ReaderLines(parts), ParserLines(parts)) == Some(frontmatter) &&
            Between(ParserLines(parts), ParserLines(parts)) == None
  {
    var n := |frontmatter|;
    var parts := [FENCE] + frontmatter + ["---\r"];
    forall k | 0 <= k < n
      ensures TrimLineEnding(frontmatter[k]) == frontmatter[k] == DropCarriageReturn(frontmatter[k])
    {
      InnerLineStays(frontmatter[k]);
    }
    assert "---\r"[..3] == FENCE && TrimLineEnding(FENCE) == FENCE;
    assert ReaderLines(parts) == [FENCE] + frontmatter + [FENCE];
    FenceIs(ReaderLines(parts), 1, n + 1);
    assert ParserLines(parts) == parts;
    assert parts[1..n + 1] == frontmatter;
    assert parts[n + 1] == "---\r";
  }

  // ------------------------------------------------------------------
  // Writing a document
  // ------------------------------------------------------------------

  predicate HasCrLf(s: string) {
    exists i :: 0 <= i < |s| - 1 && s[i] == '\r' && s[i + 1] == '\n'
  }

  /** The parser recovers any frontmatter of inner lines, and the body exactly when that
      holds no carriage return before a line feed. */
  lemma ParseRenderedIff(frontmatter: seq<string>, body: string)
    requires AreInnerLines(frontmatter)
    ensures SplitDocument(Fenced(Terminated(frontmatter), body)).Ok?
    ensures SplitDocument(Fenced(Terminated(frontmatter), body)).value.frontmatter == frontmatter
    ensures SplitDocument(Fenced(Terminated(frontmatter), body)).value.body == Split(body, '\n') <==> !HasCrLf(body)
  {
    var text, tail := Fenced(Terminated(frontmatter), body), Split(body, '\n');
    FencedPieces(frontmatter, body);
    NormalizeSplits(text);
    FencedLinesStay(frontmatter, tail);
    SplitFencedLines(frontmatter, ParserLines(tail));
    CrLfIff(body);
  }

  lemma FencedLinesStay(inner: seq<string>, tail: seq<string>)
    requires AreInnerLines(inner) && tail != []
    ensures ParserLines([FENCE] + inner + [FENCE] + tail) == [FENCE] + inner + [FENCE] + ParserLines(tail)
  {
    forall k | 0 <= k < |inner| ensures DropCarriageReturn(inner[k]) == inner[k] { InnerLineStays(inner[k]); }
    assert DropCarriageReturn(FENCE) == FENCE;
  }

  lemma SplitFencedLines(inner: seq<string>, tail: seq<string>)
    requires forall k :: 0 <= k < |inner| ==> inner[k] != FENCE
    ensures SplitLines([FENCE] + inner + [FENCE] + tail) == Ok(Document(inner, tail))
  {
    var lines := [FENCE] + inner + [FENCE] + tail;
    FenceIs(lines, 1, |inner| + 1);
    assert lines[1..|inner| + 1] == inner;
    assert lines[|inner| + 2..] == tail;
  }

  lemma {:induction false} CrLfIff(s: string)
    ensures ParserLines(Split(s, '\n')) == Split(s, '\n') <==> !HasCrLf(s)
  {
    if s == "" {
      assert ParserLines([""]) == [""];
    } else {
      var rest := Split(s[1..], '\n');
      CrLfIff(s[1..]);
      CrLfStep(s);
      if s[0] == '\n' {
        ParserLinesCons("", rest);
        assert Split(s, '\n') == [""] + rest;
        assert ([""] + rest)[1..] == rest && ([""] + ParserLines(rest))[1..] == ParserLines(rest);
      } else {
        ConsFirstStaysIff(s[0], rest);
        FirstPieceEmptyIff(s[1..]);
        SinglePieceIff(s[1..]);
      }
    }
  }

  lemma CrLfStep(s: string)
    requires s != ""
    ensures HasCrLf(s) <==> HasCrLf(s[1..]) || (|s| >= 2 && s[0] == '\r' && s[1] == '\n')
  {
    if i :| 0 <= i < |s| - 1 && s[i] == '\r' && s[i + 1] == '\n' {
      if i > 0 { assert s[1..][i - 1] == '\r' && s[1..][i] == '\n'; }
    }
    if i :| 0 <= i < |s[1..]| - 1 && s[1..][i] == '\r' && s[1..][i + 1] == '\n' {
      assert s[i + 1] == '\r' && s[i + 2] == '\n';
    }
  }

  lemma ConsFirstStaysIff(c: char, parts: seq<string>)
    requires parts != []
    ensures ParserLines(ConsFirst(c, parts)) == ConsFirst(c, parts) <==>
            ParserLines(parts) == parts && !(c == '\r' && parts[0] == "" && |parts| > 1)
  {
    var all := ConsFirst(c, parts);
    assert forall k :: 0 < k < |parts| ==> all[k] == parts[k] && ParserLines(all)[k] == ParserLines(parts)[k];
    assert ParserLines(all) == all <==> ParserLines(all)[0] == all[0] && ParserLines(all)[1..] == all[1..];
    assert ParserLines(parts) == parts <==> ParserLines(parts)[0] == parts[0] && ParserLines(parts)[1..] == parts[1..];
    assert ParserLines(all)[1..] == ParserLines(parts)[1..];
    if parts[0] != "" { assert all[0][|all[0]| - 1] == parts[0][|parts[0]| - 1]; }
  }

  lemma {:induction false} SinglePieceIff(s: string)
    ensures |Split(s, '\n')| > 1 <==> '\n' in s
  {
    if s != "" { SinglePieceIff(s[1..]); }
  }

  // ------------------------------------------------------------------
  // Documents without a fence
  // ------------------------------------------------------------------

  /** Lines of which the first is no fence have no frontmatter; a fence and inner lines
      without another have one that does not end: to the parser and to the reader. */
  lemma FencesAreNeeded(lines: seq<string>)
    requires AreInnerLines(lines)
    ensures SplitDocument(Terminated(lines)) == Err(Missing) && ReadFrontmatter(Terminated(lines)) == Err(Missing)
    ensures SplitDocument("---\n" + Terminated(lines)) == Err(Unterminated)
    ensures ReadFrontmatter("---\n" + Terminated(lines)) == Err(Unterminated)
  {
    SplitTerminated(lines, "");
    assert Terminated(lines) + "" == Terminated(lines);
    NoFence(Terminated(lines), lines + [""]);
    var fenced := [FENCE] + lines;
    assert Terminated(fenced) == FENCE + ['\n'] + Terminated(fenced[1..]) && fenced[1..] == lines;
    assert Terminated(fenced) == "---\n" + Terminated(lines);
    SplitTerminated(fenced, "");
    assert Terminated(fenced) + "" == Terminated(fenced);
    OneFence("---\n" + Terminated(lines), lines);
  }

  lemma InnerLinesStay(lines: seq<string>)
    requires AreInnerLines(lines)
    ensures forall k :: 0 <= k < |lines| ==> TrimLineEnding(lines[k]) == lines[k] == DropCarriageReturn(lines[k])
  {
    forall k | 0 <= k < |lines| ensures TrimLineEnding(lines[k]) == lines[k] == DropCarriageReturn(lines[k]) {
      InnerLineStays(lines[k]);
    }
  }

  lemma NoFence(text: string, parts: seq<string>)
    requires parts != [] && AreInnerLines(parts) && Split(text, '\n') == parts
    ensures SplitDocument(text) == Err(Missing) && ReadFrontmatter(text) == Err(Missing)
  {
    InnerLinesStay(parts);
    NormalizeSplits(text);
    assert ParserLines(parts) == parts;
    if text != "" {
      NextLine(text);
      var n := LineLength(text);
      if |parts| > 1 { TrimLineFeed(parts[0]); }
    }
  }

  lemma OneFence(text: string, lines: seq<string>)
    requires AreInnerLines(lines) && Split(text, '\n') == [FENCE] + lines + [""]
    ensures SplitDocument(text) == Err(Unterminated) && ReadFrontmatter(text) == Err(Unterminated)
  {
    var parts := [FENCE] + lines + [""];
    InnerLinesStay(lines);
    NormalizeSplits(text);
    assert DropCarriageReturn(FENCE) == FENCE && TrimLineEnding(FENCE) == FENCE && TrimLineEnding("") == "";
    assert ParserLines(parts) == parts && ReaderLines(parts) == parts;
    assert forall k :: 1 <= k < |parts| ==> parts[k] != FENCE;
    assert FindFence(parts, 1) == |parts|;
    NextLine(text);
    TrimLineFeed(FENCE);
    ReadByPieces(text);
  }
}
