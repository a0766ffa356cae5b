/** What a stream of patches compiles to: the effect of one patch, of a stream,
    and the check the finished document must pass. */
module SpecStream {
  import opened Options
  import opened Sequences
  import opened Text
  import opened JsonTree
  import opened JsonPointer

  datatype Patch = Patch(op: string, path: string, from: Option<string>, value: Option<Json>)

  datatype SpecError =
    | EmptyOutput
    | InvalidJson
    | MissingFrom(op: string)
    | MissingValue
    | TestFailed(path: string)
    | UnsupportedOperation(op: string)
    | NotAnObject
    | NoRoot
    | NoElements
    | RootNotInElements(root: string)

  // ------------------------------------------------------------------
  // Operations by path
  // ------------------------------------------------------------------

  predicate IsRootPath(path: string) {
    path == "" || path == "/"
  }

  function GetAt(t: Json, path: string): Option<Json> {
    if IsRootPath(path) then Some(t) else Get(t, ParsePointer(path))
  }

  function WriteAt(t: Json, path: string, e: Edit): Json {
    if IsRootPath(path) then e.value else Write(t, ParsePointer(path), e)
  }

  function RemoveAt(t: Json, path: string): Json {
    if IsRootPath(path) then t else Remove(t, ParsePointer(path))
  }

  function OrNull(value: Option<Json>): Json {
    match value case Some(v) => v case None => Null
  }

  function ApplyPatch(t: Json, p: Patch): Result<Json, SpecError> {
    match p.op
    case "add" => Ok(WriteAt(t, p.path, InsertAt(OrNull(p.value))))
    case "replace" => Ok(WriteAt(t, p.path, SetTo(OrNull(p.value))))
    case "remove" => Ok(RemoveAt(t, p.path))
    case "move" =>
      if p.from.None? then Err(MissingFrom(p.op))
      else if GetAt(t, p.from.value).None? then Ok(t)
      else Ok(WriteAt(RemoveAt(t, p.from.value), p.path, InsertAt(GetAt(t, p.from.value).value)))
    case "copy" =>
      if p.from.None? then Err(MissingFrom(p.op))
      else if GetAt(t, p.from.value).None? then Ok(t)
      else Ok(WriteAt(t, p.path, InsertAt(GetAt(t, p.from.value).value)))
    case "test" =>
      if p.value.None? then Err(MissingValue)
      else if GetAt(t, p.path) != p.value then Err(TestFailed(p.path))
      else Ok(t)
    case _ => Err(UnsupportedOperation(p.op))
  }

  /** Patches in order, up to the first that fails. */
  function ApplyAll(t: Json, patches: seq<Patch>): Result<Json, SpecError>
    decreases |patches|
  {
    if patches == [] then Ok(t)
    else
      var r := ApplyPatch(t, patches[0]);
      if r.Err? then r else ApplyAll(r.value, patches[1..])
  }

  lemma {:induction false} ApplyAllConcat(t: Json, a: seq<Patch>, b: seq<Patch>)
    ensures ApplyAll(t, a + b) ==
              match ApplyAll(t, a)
              case Ok(t') => ApplyAll(t', b)
              case Err(e) => Err(e)
    decreases |a|
  {
    if a == [] {
      assert a + b == b;
    } else {
      assert (a + b)[0] == a[0] && (a + b)[1..] == a[1..] + b;
      var r := ApplyPatch(t, a[0]);
      if r.Ok? { ApplyAllConcat(r.value, a[1..], b); }
    }
  }

  // ------------------------------------------------------------------
  // The finished document
  // ------------------------------------------------------------------

  /** The root names an existing element. */
  predicate IsRenderable(spec: Json) {
    spec.Obj? &&
    "root" in spec.fields && spec.fields["root"].Str? &&
    Trim(spec.fields["root"].s) != "" &&
    "elements" in spec.fields && spec.fields["elements"].Obj? &&
    spec.fields["root"].s in spec.fields["elements"].fields
  }

  function ValidateSpec(spec: Json): (r: Option<SpecError>)
    ensures r.None? <==> IsRenderable(spec)
  {
    if !spec.Obj? then Some(NotAnObject)
    else if !("root" in spec.fields && spec.fields["root"].Str? && Trim(spec.fields["root"].s) != "") then
      Some(NoRoot)
    else if !("elements" in spec.fields && spec.fields["elements"].Obj?) then Some(NoElements)
    else if spec.fields["root"].s !in spec.fields["elements"].fields then
      Some(RootNotInElements(spec.fields["root"].s))
    else None
  }

  function Checked(spec: Json): (r: Result<Json, SpecError>)
    ensures r == Ok(spec) <==> IsRenderable(spec)
    ensures r.Ok? ==> r.value == spec
  {
    match ValidateSpec(spec) case None => Ok(spec) case Some(e) => Err(e)
  }

  // ------------------------------------------------------------------
  // Lines
  // ------------------------------------------------------------------

  /** Lines end with a line feed, perhaps after a carriage return; the last one
      may go without. */
  function Lines(s: string): seq<string> {
    TerminatedLines(Split(s, '\n'))
  }

  function TerminatedLines(parts: seq<string>): seq<string> {
    if parts == [] then []
    else if |parts| == 1 then (if parts[0] == "" then [] else parts)
    else [DropCarriageReturn(parts[0])] + TerminatedLines(parts[1..])
  }

  /** The patch a line carries: none if it is blank, is no patch, or has an
      empty path. */
  function LinePatch(line: string, parse: string -> Option<Patch>): Option<Patch> {
    var text := Trim(line);
    if text == "" then None
    else
      var patch := parse(text);
      if patch.Some? && patch.value.path == "" then None else patch
  }

  function EffectivePatches(lines: seq<string>, parse: string -> Option<Patch>): seq<Patch> {
    if lines == [] then []
    else
      var patch := LinePatch(lines[0], parse);
      (if patch.Some? then [patch.value] else []) + EffectivePatches(lines[1..], parse)
  }

  /** The patches of a text, read off its pieces between line feeds. */
  function PatchesOf(content: string, parse: string -> Option<Patch>): seq<Patch> {
    EffectivePatches(Split(content, '\n'), parse)
  }

  function Compile(content: string, parse: string -> Option<Patch>, document: string -> Option<Json>)
    : Result<Json, SpecError>
  {
    var trimmed := Trim(content);
    if trimmed == "" then Err(EmptyOutput)
    else
      var patches := EffectivePatches(Lines(trimmed), parse);
      var spec := ApplyAll(Obj(map[]), patches);
      if spec.Err? then spec
      else if patches == [] then
        var whole := document(trimmed);
        if whole.None? then Err(InvalidJson) else Checked(whole.value)
      else Checked(spec.value)
  }

  // ------------------------------------------------------------------
  // Trimming
  // ------------------------------------------------------------------

  lemma {:induction false} TrimStartSnoc(s: string, c: char)
    requires IsWhitespace(c)
    ensures TrimStart(s + [c]) == if TrimStart(s) == "" then "" else TrimStart(s) + [c]
  {
    if s == "" {
      assert s + [c] == [c];
      assert TrimStart([c]) == TrimStart([c][1..]);
    } else if IsWhitespace(s[0]) {
      assert (s + [c])[1..] == s[1..] + [c];
      TrimStartSnoc(s[1..], c);
    }
  }

  lemma TrimSnoc(s: string, c: char)
    requires IsWhitespace(c)
    ensures Trim(s + [c]) == Trim(s)
  {
    TrimStartSnoc(s, c);
    var t := TrimStart(s);
    if t != "" { assert (t + [c])[..|t + [c]| - 1] == t; }
  }

  lemma TrimCons(s: string, c: char)
    requires IsWhitespace(c)
    ensures Trim([c] + s) == Trim(s)
  {
    assert ([c] + s)[1..] == s;
  }

  lemma TrimDropCarriageReturn(line: string)
    ensures Trim(DropCarriageReturn(line)) == Trim(line)
  {
    if line != "" && line[|line| - 1] == '\r' {
      TrimSnoc(line[..|line| - 1], '\r');
      assert line[..|line| - 1] + ['\r'] == line;
    }
  }

  // ------------------------------------------------------------------
  // Trimming the text loses no patch
  // ------------------------------------------------------------------

  lemma {:induction false} EffectiveConcat(a: seq<string>, b: seq<string>, parse: string -> Option<Patch>)
    ensures EffectivePatches(a + b, parse) == EffectivePatches(a, parse) + EffectivePatches(b, parse)
  {
    if a == [] {
      assert a + b == b;
    } else {
      var patch := LinePatch(a[0], parse);
      var head := if patch.Some? then [patch.value] else [];
      assert (a + b)[0] == a[0] && (a + b)[1..] == a[1..] + b;
      EffectiveConcat(a[1..], b, parse);
      Associates(head, EffectivePatches(a[1..], parse), EffectivePatches(b, parse));
    }
  }

  lemma {:induction false} EffectiveTerminated(parts: seq<string>, parse: string -> Option<Patch>)
    ensures EffectivePatches(TerminatedLines(parts), parse) == EffectivePatches(parts, parse)
  {
    if |parts| > 1 {
      TrimDropCarriageReturn(parts[0]);
      EffectiveTerminated(parts[1..], parse);
      assert TerminatedLines(parts)[1..] == TerminatedLines(parts[1..]);
    } else if |parts| == 1 {
      assert parts[0] == "" ==> Trim(parts[0]) == "";
      assert EffectivePatches(parts[1..], parse) == [];
    }
  }

  lemma {:induction false} PatchesOfTrimStart(s: string, parse: string -> Option<Patch>)
    ensures PatchesOf(TrimStart(s), parse) == PatchesOf(s, parse)
  {
    if s != "" && IsWhitespace(s[0]) {
      PatchesOfTrimStart(s[1..], parse);
      var rest := Split(s[1..], '\n');
      if s[0] == '\n' {
        assert Split(s, '\n')[1..] == rest;
        assert LinePatch("", parse) == None;
      } else {
        TrimCons(rest[0], s[0]);
        assert Split(s, '\n') == [[s[0]] + rest[0]] + rest[1..];
      }
    }
  }

  lemma PatchesOfLineFeed(front: string, parse: string -> Option<Patch>)
    ensures PatchesOf(front + ['\n'], parse) == PatchesOf(front, parse)
  {
    SplitSnocSeparator(front, '\n');
    EffectiveConcat(Split(front, '\n'), [""], parse);
    assert EffectivePatches([""][1..], parse) == [];
  }

  lemma EffectiveSingle(line: string, parse: string -> Option<Patch>)
    ensures EffectivePatches([line], parse) ==
            var patch := LinePatch(line, parse); if patch.Some? then [patch.value] else []
  {
    assert EffectivePatches([line][1..], parse) == [];
  }

  lemma PatchesOfBlankEnd(front: string, c: char, parse: string -> Option<Patch>)
    requires IsWhitespace(c) && c != '\n'
    ensures PatchesOf(front + [c], parse) == PatchesOf(front, parse)
  {
    SplitSnocLetter(front, c, '\n');
    var parts := Split(front, '\n');
    var init, last := parts[..|parts| - 1], parts[|parts| - 1];
    assert init + [last] == parts;
    TrimSnoc(last, c);
    EffectiveConcat(init, [last], parse);
    EffectiveConcat(init, [last + [c]], parse);
    EffectiveSingle(last, parse);
    EffectiveSingle(last + [c], parse);
  }

  lemma {:induction false} PatchesOfTrimEnd(s: string, parse: string -> Option<Patch>)
    ensures PatchesOf(TrimEnd(s), parse) == PatchesOf(s, parse)
    decreases |s|
  {
    if s != "" && IsWhitespace(s[|s| - 1]) {
      var front, c := s[..|s| - 1], s[|s| - 1];
      assert s == front + [c];
      PatchesOfTrimEnd(front, parse);
      if c == '\n' { PatchesOfLineFeed(front, parse); } else { PatchesOfBlankEnd(front, c, parse); }
    }
  }

  lemma PatchesOfTrimmed(content: string, parse: string -> Option<Patch>)
    ensures EffectivePatches(Lines(Trim(content)), parse) == PatchesOf(content, parse)
  {
    EffectiveTerminated(Split(Trim(content), '\n'), parse);
    PatchesOfTrimEnd(TrimStart(content), parse);
    PatchesOfTrimStart(content, parse);
  }

  // ------------------------------------------------------------------
  // Compilation
  // ------------------------------------------------------------------

  /** A text with at least one patch compiles to what its patches, in line order,
      make of the empty object, provided that document is renderable. */
  lemma CompileIsFold(content: string, parse: string -> Option<Patch>, document: string -> Option<Json>)
    requires PatchesOf(content, parse) != []
    ensures Compile(content, parse, document) ==
              match ApplyAll(Obj(map[]), PatchesOf(content, parse))
              case Ok(spec) => Checked(spec)
              case Err(e) => Err(e)
  {
    PatchesOfTrimmed(content, parse);
  }

  /** A text without patches is read as one whole document. */
  lemma CompileWholeDocument(content: string, parse: string -> Option<Patch>, document: string -> Option<Json>)
    requires PatchesOf(content, parse) == []
    ensures Compile(content, parse, document).Ok? <==>
            Trim(content) != "" && document(Trim(content)).Some? && IsRenderable(document(Trim(content)).value)
    ensures Compile(content, parse, document).Ok? ==>
              document(Trim(content)) == Some(Compile(content, parse, document).value)
  {
    PatchesOfTrimmed(content, parse);
  }

  lemma CompiledIsRenderable(content: string, parse: string -> Option<Patch>, document: string -> Option<Json>)
    requires Compile(content, parse, document).Ok?
    ensures IsRenderable(Compile(content, parse, document).value)
  {
    PatchesOfTrimmed(content, parse);
    if PatchesOf(content, parse) == [] {
      CompileWholeDocument(content, parse, document);
    } else {
      CompileIsFold(content, parse, document);
    }
  }

  /** A line that carries no patch can be inserted between any two lines. */
  lemma NoiseLineIsIgnored(before: string, noise: string, after: string,
                           parse: string -> Option<Patch>, document: string -> Option<Json>)
    requires '\n' !in noise && LinePatch(noise, parse).None?
    requires PatchesOf(before + ['\n'] + after, parse) != []
    ensures Compile(before + ['\n'] + noise + ['\n'] + after, parse, document)
            == Compile(before + ['\n'] + after, parse, document)
  {
    var plain := before + ['\n'] + after;
    var noisy := before + ['\n'] + noise + ['\n'] + after;
    PatchesOfLines(before, after, parse);
    PatchesOfLines(before + ['\n'] + noise, after, parse);
    PatchesOfLines(before, noise, parse);
    assert PatchesOf(noise, parse) == [] by {
      SplitWithoutSeparator(noise, '\n');
      assert EffectivePatches([noise][1..], parse) == [];
    }
    assert PatchesOf(before, parse) + [] == PatchesOf(before, parse);
    CompileIsFold(plain, parse, document);
    CompileIsFold(noisy, parse, document);
  }

  lemma PatchesOfLines(a: string, b: string, parse: string -> Option<Patch>)
    ensures PatchesOf(a + ['\n'] + b, parse) == PatchesOf(a, parse) + PatchesOf(b, parse)
  {
    SplitConcat(a, b, '\n');
    EffectiveConcat(Split(a, '\n'), Split(b, '\n'), parse);
  }

  // ------------------------------------------------------------------
  // Paths as text
  // ------------------------------------------------------------------

  /** Printed segments address what the segments address, except that the printed
      form of the one empty key is taken for the whole document. */
  lemma GetAtFormat(t: Json, segments: seq<string>)
    requires segments != []
    ensures GetAt(t, Format(segments)) == if segments == [""] then Some(t) else Get(t, segments)
  {
    ParseFormat(segments);
    assert ParsePointer("/") == [""] by {
      assert Split("/"[1..], '/') == [""];
      assert UnescapeAll([""]) == [Unescape("")] + UnescapeAll([""][1..]);
    }
    assert Format([""]) == "/" by {
      assert Format([""]) == "/" + Escape("") + Format([""][1..]);
    }
  }

  /** What add, replace, and the second half of move and copy, wrote is read back
      exactly when the path fits the tree. */
  lemma WriteAtIsReadableIff(t: Json, path: string, e: Edit)
    ensures GetAt(WriteAt(t, path, e), path) == Some(e.value) <==>
            IsRootPath(path) || PathFits(t, ParsePointer(path), e)
  {
    if !IsRootPath(path) { WriteIsReadableIff(t, ParsePointer(path), e); }
  }

  /** A moved value is readable at its target exactly when the target fits the
      tree the removal leaves. */
  lemma MovedValueIsReadableIff(t: Json, p: Patch, from: string, x: Json)
    requires p.op == "move" && p.from == Some(from) && GetAt(t, from) == Some(x)
    ensures ApplyPatch(t, p).Ok?
    ensures GetAt(ApplyPatch(t, p).value, p.path) == Some(x) <==>
            IsRootPath(p.path) || PathFits(RemoveAt(t, from), ParsePointer(p.path), InsertAt(x))
  {
    WriteAtIsReadableIff(RemoveAt(t, from), p.path, InsertAt(x));
  }

  /** A copy leaves its source readable wherever the target is elsewhere. */
  lemma CopyKeepsSource(t: Json, p: Patch, from: string, x: Json)
    requires p.op == "copy" && p.from == Some(from) && GetAt(t, from) == Some(x)
    requires !IsRootPath(from) && !IsRootPath(p.path)
    requires Diverges(t, ParsePointer(p.path), ParsePointer(from), InsertAt(x))
    ensures ApplyPatch(t, p).Ok? && GetAt(ApplyPatch(t, p).value, from) == Some(x)
  {
    WriteFrame(t, ParsePointer(p.path), ParsePointer(from), InsertAt(x));
  }

  /** Removing right after adding restores the document exactly when the slot was
      free, in a container that existed. */
  lemma RemoveAtUndoesAddIff(t: Json, path: string, v: Json)
    ensures RemoveAt(WriteAt(t, path, InsertAt(v)), path) == t <==>
            if IsRootPath(path) then v == t else Restorable(t, ParsePointer(path))
  {
    RemoveUndoesInsertIff(t, ParsePointer(path), v);
  }
}
