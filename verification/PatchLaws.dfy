/** What each patch operation does to the document, in terms of the containers and
    values that reading finds, and how the operations relate (RFC 6902, section 4). */
module PatchLaws {
  import opened Options
  import opened DecimalIndex
  import opened Text
  import opened JsonTree
  import opened JsonPointer
  import opened SpecStream

  const OPERATIONS: set<string> := {"add", "replace", "remove", "move", "copy", "test"}

  function Parent(path: string): seq<string> {
    var segments := ParsePointer(path);
    segments[..|segments| - 1]
  }

  function Last(path: string): string {
    var segments := ParsePointer(path);
    segments[|segments| - 1]
  }

  /** The container that the last segment of the path is looked up in. */
  predicate StandsIn(t: Json, path: string, container: Json) {
    !IsRootPath(path) && Get(t, Parent(path)) == Some(container)
  }

  /** A patch without a value stands for null. */
  predicate Carries(p: Patch, v: Json) {
    p.value == Some(v) || (p.value == None && v == Null)
  }

  // ------------------------------------------------------------------
  // Arrays
  // ------------------------------------------------------------------

  lemma AddToArray(t: Json, p: Patch, items: seq<Json>, v: Json)
    requires p.op == "add" && Carries(p, v) && StandsIn(t, p.path, Arr(items))
    ensures var i := ParseIndex(Last(p.path));
            ApplyPatch(t, p).Ok? &&
            Get(ApplyPatch(t, p).value, Parent(p.path)) ==
              Some(Arr(if i.Some? && i.value <= |items| then items[..i.value] + [v] + items[i.value..]
                       else items + [v]))
  {
    WriteAtParent(t, ParsePointer(p.path), InsertAt(v));
    assert items[..|items|] + [v] + items[|items|..] == items + [v];
  }

  /** Past the end the gap is filled with nulls; a segment that is no index appends. */
  lemma ReplaceInArray(t: Json, p: Patch, items: seq<Json>, v: Json)
    requires p.op == "replace" && Carries(p, v) && StandsIn(t, p.path, Arr(items))
    ensures var i := ParseIndex(Last(p.path));
            ApplyPatch(t, p).Ok? &&
            Get(ApplyPatch(t, p).value, Parent(p.path)) ==
              Some(Arr(if i.Some? && i.value < |items| then items[i.value := v]
                       else items + seq(if i.Some? then i.value - |items| else 0, _ => Null) + [v]))
  {
    WriteAtParent(t, ParsePointer(p.path), SetTo(v));
    SetInArray(items, Last(p.path), v);
  }

  lemma SetInArray(items: seq<Json>, last: string, v: Json)
    ensures var i := ParseIndex(last);
            EditChild(Arr(items), last, SetTo(v)) ==
              Arr(if i.Some? && i.value < |items| then items[i.value := v]
                  else items + seq(if i.Some? then i.value - |items| else 0, _ => Null) + [v])
  {
    var i := EffectiveIndex(items, last);
    if i < |items| {
      assert Padded(items, i + 1) == items;
    } else {
      var nulls := seq(i - |items|, _ => Null);
      assert Padded(items, i + 1)[i := v] == items + nulls + [v];
    }
  }

  lemma RemoveFromArray(t: Json, p: Patch, items: seq<Json>)
    requires p.op == "remove" && StandsIn(t, p.path, Arr(items))
    ensures var i := ParseIndex(Last(p.path));
            ApplyPatch(t, p).Ok? &&
            Get(ApplyPatch(t, p).value, Parent(p.path)) ==
              Some(Arr(if i.Some? && i.value < |items| then items[..i.value] + items[i.value + 1..] else items))
  {
    RemoveAtParent(t, ParsePointer(p.path));
  }

  // ------------------------------------------------------------------
  // Objects, scalars and the whole document
  // ------------------------------------------------------------------

  lemma EditObject(t: Json, p: Patch, fields: map<string, Json>, v: Json)
    requires Carries(p, v) && StandsIn(t, p.path, Obj(fields))
    ensures p.op in ["add", "replace"] ==>
      ApplyPatch(t, p).Ok? &&
      Get(ApplyPatch(t, p).value, Parent(p.path)) == Some(Obj(fields[Last(p.path) := v]))
    ensures p.op == "remove" ==>
      ApplyPatch(t, p).Ok? &&
      Get(ApplyPatch(t, p).value, Parent(p.path)) == Some(Obj(fields - {Last(p.path)}))
  {
    var segments := ParsePointer(p.path);
    WriteAtParent(t, segments, InsertAt(v));
    WriteAtParent(t, segments, SetTo(v));
    RemoveAtParent(t, segments);
  }

  /** A removal below a scalar, or where there is no container, changes nothing. */
  lemma RemoveNothing(t: Json, p: Patch)
    requires p.op == "remove" && !IsRootPath(p.path)
    requires Get(t, Parent(p.path)).Some? ==> !Get(t, Parent(p.path)).value.IsContainer()
    ensures ApplyPatch(t, p) == Ok(t)
  {
    RemoveChangesNothing(t, ParsePointer(p.path));
  }

  lemma {:induction false} RemoveChangesNothing(t: Json, segments: seq<string>)
    requires segments != []
    requires var parent := Get(t, segments[..|segments| - 1]); parent.Some? ==> !parent.value.IsContainer()
    ensures Remove(t, segments) == t
    decreases |segments|
  {
    var child, parent := Child(t, segments[0]), segments[..|segments| - 1];
    if |segments| > 1 && child.Some? {
      assert parent[0] == segments[0] && parent[1..] == segments[1..][..|segments| - 2];
      RemoveChangesNothing(child.value, segments[1..]);
      PutChildAtExisting(t, segments[0], child.value);
    }
  }

  /** The empty path and "/" are the whole document: written as a whole, never removed. */
  lemma RootOperations(t: Json, p: Patch, v: Json)
    requires p.path in ["", "/"] && Carries(p, v)
    ensures p.op in ["add", "replace"] ==> ApplyPatch(t, p) == Ok(v)
    ensures p.op == "remove" ==> ApplyPatch(t, p) == Ok(t)
  {
  }

  // ------------------------------------------------------------------
  // How operations relate
  // ------------------------------------------------------------------

  lemma ApplyTwo(t: Json, first: Patch, second: Patch)
    ensures ApplyAll(t, [first, second]) ==
            var r := ApplyPatch(t, first); if r.Err? then r else ApplyPatch(r.value, second)
  {
    assert [first, second][1..] == [second] && [second][1..] == [];
    var r := ApplyPatch(t, first);
    if r.Ok? {
      var s := ApplyPatch(r.value, second);
      if s.Ok? { assert ApplyAll(s.value, []) == s; }
    }
  }

  function RemovePatch(path: string): Patch {
    Patch("remove", path, None, None)
  }

  function AddPatch(path: string, v: Json): Patch {
    Patch("add", path, None, Some(v))
  }

  /** A move is a removal at its source and an addition of what stood there; without
      a source, or with nothing there, it fails or does nothing. */
  lemma MoveIsRemoveThenAdd(t: Json, p: Patch)
    requires p.op == "move"
    ensures p.from == None <==> ApplyPatch(t, p) == Err(MissingFrom("move"))
    ensures p.from.Some? && GetAt(t, p.from.value) == None ==> ApplyPatch(t, p) == Ok(t)
    ensures p.from.Some? && GetAt(t, p.from.value).Some? ==>
      ApplyPatch(t, p)
        == ApplyAll(t, [RemovePatch(p.from.value), AddPatch(p.path, GetAt(t, p.from.value).value)])
  {
    if p.from.Some? && GetAt(t, p.from.value).Some? {
      ApplyTwo(t, RemovePatch(p.from.value), AddPatch(p.path, GetAt(t, p.from.value).value));
    }
  }

  /** A copy is an addition of what stands at its source. */
  lemma CopyIsAdd(t: Json, p: Patch)
    requires p.op == "copy"
    ensures p.from == None <==> ApplyPatch(t, p) == Err(MissingFrom("copy"))
    ensures p.from.Some? && GetAt(t, p.from.value) == None ==> ApplyPatch(t, p) == Ok(t)
    ensures p.from.Some? && GetAt(t, p.from.value).Some? ==>
      ApplyPatch(t, p) == ApplyPatch(t, AddPatch(p.path, GetAt(t, p.from.value).value))
  {
  }

  lemma {:induction false} SetIsRemoveThenInsert(t: Json, segments: seq<string>, v: Json)
    requires segments != [] && Get(t, segments).Some?
    ensures Write(Remove(t, segments), segments, InsertAt(v)) == Write(t, segments, SetTo(v))
    decreases |segments|
  {
    var child := Child(t, segments[0]).value;
    if |segments| == 1 {
      SetChildIsRemoveThenInsert(t, segments[0], v);
    } else {
      var rest, numeric := segments[1..], NextIsNumeric(segments);
      if !child.IsContainer() { ScalarHasNoDescendants(child, rest); }
      SetIsRemoveThenInsert(child, rest, v);
      RemoveKeepsContainer(child, rest);
      DescendAfterPut(t, segments[0], Remove(child, rest), numeric);
      assert Descend(t, segments[0], numeric) == child;
      PutChildTwice(t, segments[0], Remove(child, rest), Write(child, rest, SetTo(v)));
    }
  }

  lemma SetChildIsRemoveThenInsert(t: Json, last: string, v: Json)
    requires Child(t, last).Some?
    ensures EditChild(RemoveChild(t, last), last, InsertAt(v)) == EditChild(t, last, SetTo(v))
  {
    match t {
      case Arr(items) =>
        var i := ParseIndex(last).value;
        var fewer := items[..i] + items[i + 1..];
        assert fewer[..i] == items[..i] && fewer[i..] == items[i + 1..];
        assert items[..i] + [v] + items[i + 1..] == items[i := v];
        SetInArray(items, last, v);
      case Obj(fields) =>
        assert (fields - {last})[last := v] == fields[last := v];
      case _ =>
    }
  }

  /** Where there is something, a replacement is a removal and an addition there. */
  lemma ReplaceIsRemoveThenAdd(t: Json, p: Patch, v: Json)
    requires p.op == "replace" && Carries(p, v) && GetAt(t, p.path).Some?
    ensures ApplyPatch(t, p) == ApplyAll(t, [RemovePatch(p.path), AddPatch(p.path, v)])
  {
    ApplyTwo(t, RemovePatch(p.path), AddPatch(p.path, v));
    if !IsRootPath(p.path) { SetIsRemoveThenInsert(t, ParsePointer(p.path), v); }
  }

  /** A test changes nothing; it passes exactly when what it expects is there. */
  lemma TestPassesIff(t: Json, p: Patch)
    requires p.op == "test"
    ensures ApplyPatch(t, p) == Ok(t) <==> p.value.Some? && GetAt(t, p.path) == p.value
    ensures ApplyPatch(t, p) == Err(MissingValue) <==> p.value == None
    ensures ApplyPatch(t, p) == Err(TestFailed(p.path)) <==> p.value.Some? && GetAt(t, p.path) != p.value
  {
  }

  lemma UnsupportedIff(t: Json, p: Patch)
    ensures ApplyPatch(t, p) == Err(UnsupportedOperation(p.op)) <==> p.op !in OPERATIONS
  {
  }

  // ------------------------------------------------------------------
  // Created containers
  // ------------------------------------------------------------------

  /** On the way to a longer path a missing container below an index is an array, padded
      with nulls up to that index. */
  lemma CreatedArrayIsPadded(key: string, i: nat, last: string, v: Json)
    requires i < 0x1_0000_0000_0000_0000
    ensures Write(Obj(map[]), [key, Decimal(i), last], SetTo(v))
            == Obj(map[key := Arr(seq(i, _ => Null) + [Obj(map[last := v])])])
  {
    var path := [key, Decimal(i), last];
    DecimalIsNumeric(i);
    ParseDecimal(i);
    assert path[1..] == [Decimal(i), last] && [Decimal(i), last][1..] == [last];
    var inner := Obj(map[last := v]);
    assert Write(Obj(map[]), [last], SetTo(v)) == inner;
    assert Padded([], i + 1)[i := inner] == seq(i, _ => Null) + [inner];
    assert Write(Arr([]), [Decimal(i), last], SetTo(v)) == Arr(seq(i, _ => Null) + [inner]);
    assert map[][key := Arr(seq(i, _ => Null) + [inner])] == map[key := Arr(seq(i, _ => Null) + [inner])];
  }

  /** A dash makes it an array, too; anything else, a signed index among them, an object. */
  lemma CreatedContainerKind(key: string, next: string, last: string, v: Json)
    ensures Write(Obj(map[]), [key, "-", last], SetTo(v)) == Obj(map[key := Arr([Obj(map[last := v])])])
    ensures next != "-" && !(next != "" && forall c :: c in next ==> c in "0123456789") ==>
      Write(Obj(map[]), [key, next, last], SetTo(v)) == Obj(map[key := Obj(map[next := Obj(map[last := v])])])
  {
    var inner := Obj(map[last := v]);
    assert Write(Obj(map[]), [last], SetTo(v)) == inner;
    forall s: string ensures [key, s, last][1..] == [s, last] && [s, last][1..] == [last] {
    }
    assert Padded([], 1)[0 := inner] == [inner];
    assert Write(Arr([]), ["-", last], SetTo(v)) == Arr([inner]);
    assert map[][key := Arr([inner])] == map[key := Arr([inner])];
    if IsNumericIndex(next) {
      forall c | c in next ensures c in "0123456789" {
        DigitOf(c);
        assert "0123456789"[c as int - '0' as int] == c;
      }
    }
    var outer := Obj(map[next := inner]);
    assert map[][next := inner] == map[next := inner];
    assert Write(Obj(map[]), [next, last], SetTo(v)) == outer;
    assert map[][key := outer] == map[key := outer];
  }

  // ------------------------------------------------------------------
  // A stream printed line by line
  // ------------------------------------------------------------------

  function Effective(patches: seq<Patch>): seq<Patch> {
    if patches == [] then []
    else (if patches[0].path == "" then [] else [patches[0]]) + Effective(patches[1..])
  }

  function Printed(patches: seq<Patch>, show: Patch -> string): seq<string> {
    seq(|patches|, i requires 0 <= i < |patches| => show(patches[i]))
  }

  /** Each patch is printed as one line that reads back. */
  predicate PrintsAsLines(patches: seq<Patch>, show: Patch -> string, parse: string -> Option<Patch>) {
    forall p :: p in patches ==>
      '\n' !in show(p) && Trim(show(p)) == show(p) != "" && parse(show(p)) == Some(p)
  }

  lemma {:induction false} PrintedPatches(patches: seq<Patch>, show: Patch -> string, parse: string -> Option<Patch>)
    requires PrintsAsLines(patches, show, parse)
    ensures EffectivePatches(Printed(patches, show), parse) == Effective(patches)
    decreases |patches|
  {
    if patches != [] {
      assert Printed(patches, show)[1..] == Printed(patches[1..], show);
      assert patches[0] in patches;
      PrintedPatches(patches[1..], show, parse);
    }
  }

  /** A stream of patches, each printed on a line of its own, compiles to their fold from
      the empty object, but for those with an empty path, if that can be rendered. */
  lemma PrintedStreamCompiles(patches: seq<Patch>, show: Patch -> string, parse: string -> Option<Patch>,
                              document: string -> Option<Json>)
    requires PrintsAsLines(patches, show, parse) && Effective(patches) != []
    ensures Compile(Join(Printed(patches, show), '\n'), parse, document) ==
              match ApplyAll(Obj(map[]), Effective(patches))
              case Ok(spec) => Checked(spec)
              case Err(e) => Err(e)
  {
    var lines := Printed(patches, show);
    forall k | 0 <= k < |lines| ensures '\n' !in lines[k] { assert patches[k] in patches; }
    SplitJoin(lines, '\n');
    PrintedPatches(patches, show, parse);
    CompileIsFold(Join(lines, '\n'), parse, document);
  }

  /** What the finished document must look like, error by error. */
  lemma CheckedIff(spec: Json, fields: map<string, Json>, root: string, elements: map<string, Json>)
    ensures Checked(Obj(fields["root" := Str(root)]["elements" := Obj(elements)])) ==
            if Trim(root) == "" then Err(NoRoot)
            else if root !in elements then Err(RootNotInElements(root))
            else Ok(Obj(fields["root" := Str(root)]["elements" := Obj(elements)]))
    ensures Checked(spec) == Err(NotAnObject) <==> !spec.Obj?
    ensures Checked(Obj(fields - {"root"})) == Err(NoRoot)
    ensures Trim(root) != "" ==> Checked(Obj(fields["root" := Str(root)] - {"elements"})) == Err(NoElements)
  {
  }

  /** The two errors of a text without patches. */
  lemma NothingToCompileIff(content: string, parse: string -> Option<Patch>, document: string -> Option<Json>)
    ensures Compile(content, parse, document) == Err(EmptyOutput) <==> IsBlank(content)
    ensures Compile(content, parse, document) == Err(InvalidJson) <==>
            !IsBlank(content) && PatchesOf(content, parse) == [] && document(Trim(content)) == None
  {
    TrimIsEmptyIff(content);
    PatchesOfTrimmed(content, parse);
    NoSuchError(Obj(map[]), EffectivePatches(Lines(Trim(content)), parse));
  }

  lemma {:induction false} NoSuchError(t: Json, patches: seq<Patch>)
    ensures ApplyAll(t, patches) != Err(EmptyOutput) && ApplyAll(t, patches) != Err(InvalidJson)
    decreases |patches|
  {
    if patches != [] && ApplyPatch(t, patches[0]).Ok? { NoSuchError(ApplyPatch(t, patches[0]).value, patches[1..]); }
  }
}
