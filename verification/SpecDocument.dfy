/** The patch engine as it runs: a document updated in place through a cursor
    that walks down the path. A mutable borrow of a node is represented by the
    node together with the frames that lead from it back to the root; writing
    through the borrow is plugging the new node into those frames. */
module SpecDocument {
  import opened Options
  import opened Text
  import opened DecimalIndex
  import opened JsonTree
  import opened JsonPointer
  import opened SpecStream

  datatype Frame = InArray(items: seq<Json>, index: nat) | InObject(fields: map<string, Json>, key: string)

  predicate WellFormed(f: Frame) {
    f.InArray? ==> f.index < |f.items|
  }

  function Rebuild(f: Frame, node: Json): Json
    requires WellFormed(f)
  {
    match f
    case InArray(items, index) => Arr(items[index := node])
    case InObject(fields, key) => Obj(fields[key := node])
  }

  type Borrow = frames: seq<Frame> | forall k :: 0 <= k < |frames| ==> WellFormed(frames[k])

  /** The document once the borrowed node has been replaced; innermost frame last. */
  function Plug(frames: Borrow, node: Json): Json {
    if frames == [] then node
    else Plug(frames[..|frames| - 1], Rebuild(frames[|frames| - 1], node))
  }

  lemma PlugSnoc(frames: Borrow, f: Frame, node: Json)
    requires WellFormed(f)
    ensures Plug(frames + [f], node) == Plug(frames, Rebuild(f, node))
  {
    assert (frames + [f])[..|frames|] == frames;
  }

  /** The borrow stands at the container where `rest` remains to be walked: any
      edit below it amounts to the same edit of the whole document. */
  ghost predicate WalksTo(root: Json, path: seq<string>, frames: Borrow, node: Json, rest: seq<string>) {
    forall last: string, e: Edit {:trigger Write(node, rest + [last], e)} ::
      Plug(frames, Write(node, rest + [last], e)) == Write(root, path + [last], e)
  }

  lemma WalkStep(root: Json, path: seq<string>, frames: Borrow, node: Json, rest: seq<string>,
                 f: Frame, child: Json)
    requires WalksTo(root, path, frames, node, rest) && rest != []
    requires WellFormed(f)
    requires child == Descend(node, rest[0], |rest| > 1 && (IsNumericIndex(rest[1]) || rest[1] == "-"))
    requires forall c :: Rebuild(f, c) == PutChild(node, rest[0], c)
    ensures WalksTo(root, path, frames + [f], child, rest[1..])
  {
    forall last: string, e: Edit
      ensures Plug(frames + [f], Write(child, rest[1..] + [last], e)) == Write(root, path + [last], e)
    {
      var whole := rest + [last];
      assert whole[1..] == rest[1..] + [last];
      var c' := Write(child, rest[1..] + [last], e);
      assert Write(node, whole, e) == PutChild(node, rest[0], c');
      PlugSnoc(frames, f, c');
    }
  }

  lemma AppendIsInsert(items: seq<Json>, value: Json)
    ensures EditChild(Arr(items), "-", InsertAt(value)) == Arr(items + [value])
  {
    assert items[..|items|] + [value] + items[|items|..] == items + [value];
  }

  lemma EditThroughBorrow(root: Json, parents: seq<string>, frames: Borrow, node: Json, last: string, e: Edit)
    requires WalksTo(root, parents, frames, node, [])
    ensures Plug(frames, EditChild(node, last, e)) == Write(root, parents + [last], e)
  {
    assert [] + [last] == [last];
    assert Write(node, [] + [last], e) == EditChild(node, last, e);
  }

  /** The same for a removal, which creates nothing on its way. */
  ghost predicate RemovesThrough(root: Json, path: seq<string>, frames: Borrow, node: Json, rest: seq<string>) {
    forall last: string {:trigger Remove(node, rest + [last])} ::
      Plug(frames, Remove(node, rest + [last])) == Remove(root, path + [last])
  }

  lemma RemovalStep(root: Json, path: seq<string>, frames: Borrow, node: Json, rest: seq<string>,
                    f: Frame, child: Json)
    requires RemovesThrough(root, path, frames, node, rest) && rest != []
    requires WellFormed(f) && Child(node, rest[0]) == Some(child)
    requires match node
             case Arr(items) => f == InArray(items, ParseIndex(rest[0]).value)
             case Obj(fields) => f == InObject(fields, rest[0])
             case _ => false
    ensures RemovesThrough(root, path, frames + [f], child, rest[1..])
  {
    forall last: string
      ensures Plug(frames + [f], Remove(child, rest[1..] + [last])) == Remove(root, path + [last])
    {
      var whole := rest + [last];
      assert whole[1..] == rest[1..] + [last];
      var c' := Remove(child, rest[1..] + [last]);
      assert Remove(node, whole) == PutChild(node, rest[0], c');
      assert Rebuild(f, c') == PutChild(node, rest[0], c');
      PlugSnoc(frames, f, c');
    }
  }

  lemma RemoveThroughBorrow(root: Json, parents: seq<string>, frames: Borrow, node: Json, last: string)
    requires RemovesThrough(root, parents, frames, node, [])
    ensures Plug(frames, RemoveChild(node, last)) == Remove(root, parents + [last])
  {
    assert [] + [last] == [last];
    assert Remove(node, [] + [last]) == RemoveChild(node, last);
  }

  class Document {
    var spec: Json

    constructor ()
      ensures spec == Obj(map[])
    {
      spec := Obj(map[]);
    }

    method GetByPath(path: string) returns (r: Option<Json>)
      ensures r == GetAt(spec, path)
    {
      if path == "" || path == "/" {
        return Some(spec);
      }
      var segments := ParsePointer(path);
      var current := spec;
      for i := 0 to |segments|
        invariant Get(spec, segments) == Get(current, segments[i..])
      {
        assert segments[i..][1..] == segments[i + 1..];
        match current
        case Arr(items) =>
          var index := ParseIndex(segments[i]);
          if index.None? || index.value >= |items| {
            return None;
          }
          current := items[index.value];
        case Obj(fields) =>
          if segments[i] !in fields {
            return None;
          }
          current := fields[segments[i]];
        case _ =>
          return None;
      }
      return Some(current);
    }

    /** Walks down the given segments, creating, padding and overwriting on the
        way, and borrows the node reached. */
    method EnsureParentContainer(segments: seq<string>) returns (frames: Borrow, current: Json)
      ensures WalksTo(spec, segments, frames, current, [])
    {
      frames, current := [], spec;
      assert segments[0..] == segments;
      for i := 0 to |segments|
        invariant WalksTo(spec, segments, frames, current, segments[i..])
      {
        var nextIsNumeric := i + 1 < |segments| && (IsNumericIndex(segments[i + 1]) || segments[i + 1] == "-");
        var frame, child := EnterChild(current, segments[i], nextIsNumeric);
        ghost var rest := segments[i..];
        assert rest[1..] == segments[i + 1..];
        assert |rest| > 1 ==> rest[1] == segments[i + 1];
        WalkStep(spec, segments, frames, current, rest, frame, child);
        frames, current := frames + [frame], child;
      }
      assert segments[|segments|..] == [];
    }

    /** One round of that walk: makes the child a container and borrows it. */
    static method EnterChild(node: Json, segment: string, nextIsNumeric: bool) returns (frame: Frame, child: Json)
      ensures WellFormed(frame)
      ensures child == Descend(node, segment, nextIsNumeric)
      ensures forall c :: Rebuild(frame, c) == PutChild(node, segment, c)
    {
      var created := if nextIsNumeric then Arr([]) else Obj(map[]);
      match node {
        case Arr(items) =>
          var parsed := ParseIndex(segment);
          var index := if parsed.Some? then parsed.value else |items|;
          var slots := items;
          if index >= |slots| {
            slots := Padded(slots, index + 1);
          }
          if !slots[index].IsContainer() {
            slots := slots[index := created];
          }
          frame, child := InArray(slots, index), slots[index];
          forall c ensures Rebuild(frame, c) == PutChild(node, segment, c) {
            assert slots[index := c] == Padded(items, index + 1)[index := c];
          }
        case Obj(fields) =>
          var members := fields;
          if segment !in members {
            members := members[segment := created];
          }
          if !members[segment].IsContainer() {
            members := members[segment := created];
          }
          frame, child := InObject(members, segment), members[segment];
          forall c ensures Rebuild(frame, c) == PutChild(node, segment, c) {
            assert members[segment := c] == fields[segment := c];
          }
        case _ =>
          frame, child := InObject(map[segment := created], segment), created;
          forall c ensures Rebuild(frame, c) == PutChild(node, segment, c) {
            assert map[segment := created][segment := c] == map[segment := c];
          }
      }
    }

    method SetByPath(path: string, value: Json)
      modifies this
      ensures spec == WriteAt(old(spec), path, SetTo(value))
    {
      if path == "" || path == "/" {
        spec := value;
        return;
      }
      var segments := ParsePointer(path);
      var parents, last := segments[..|segments| - 1], segments[|segments| - 1];
      var frames, current := EnsureParentContainer(parents);
      EditThroughBorrow(spec, parents, frames, current, last, SetTo(value));
      assert parents + [last] == segments;
      var edited := SetChildValue(current, last, value);
      spec := Plug(frames, edited);
    }

    static method SetChildValue(current: Json, last: string, value: Json) returns (edited: Json)
      ensures edited == EditChild(current, last, SetTo(value))
    {
      match current {
        case Arr(items) =>
          if last == "-" {
            assert items + [value] == Padded(items, |items| + 1)[|items| := value];
            return Arr(items + [value]);
          }
          var parsed := ParseIndex(last);
          var index := if parsed.Some? then parsed.value else |items|;
          var slots := items;
          if index >= |slots| {
            slots := Padded(slots, index + 1);
          }
          edited := Arr(slots[index := value]);
        case Obj(fields) =>
          edited := Obj(fields[last := value]);
        case _ =>
          edited := current;
      }
    }

    method AddByPath(path: string, value: Json)
      modifies this
      ensures spec == WriteAt(old(spec), path, InsertAt(value))
    {
      if path == "" || path == "/" {
        spec := value;
        return;
      }
      var segments := ParsePointer(path);
      var parents, last := segments[..|segments| - 1], segments[|segments| - 1];
      var frames, current := EnsureParentContainer(parents);
      EditThroughBorrow(spec, parents, frames, current, last, InsertAt(value));
      assert parents + [last] == segments;
      var edited := current;
      match current {
        case Arr(items) =>
          if last == "-" {
            AppendIsInsert(items, value);
            edited := Arr(items + [value]);
          } else {
            var parsed := ParseIndex(last);
            var index := if parsed.Some? && parsed.value <= |items| then parsed.value else |items|;
            edited := Arr(items[..index] + [value] + items[index..]);
          }
        case Obj(fields) =>
          edited := Obj(fields[last := value]);
        case _ =>
      }
      spec := Plug(frames, edited);
    }

    /** Borrows the node the segments lead to, creating nothing. */
    method GetParentContainer(segments: seq<string>) returns (r: Option<(Borrow, Json)>)
      ensures r.None? ==> Get(spec, segments).None?
      ensures r.Some? ==> Get(spec, segments) == Some(r.value.1)
      ensures r.Some? ==> RemovesThrough(spec, segments, r.value.0, r.value.1, [])
    {
      var frames: Borrow, current := [], spec;
      assert segments[0..] == segments;
      for i := 0 to |segments|
        invariant Get(spec, segments) == Get(current, segments[i..])
        invariant RemovesThrough(spec, segments, frames, current, segments[i..])
      {
        ghost var rest := segments[i..];
        assert rest[1..] == segments[i + 1..];
        var frame: Frame;
        var child: Json;
        match current {
          case Arr(items) =>
            var index := ParseIndex(segments[i]);
            if index.None? || index.value >= |items| {
              return None;
            }
            frame, child := InArray(items, index.value), items[index.value];
          case Obj(fields) =>
            if segments[i] !in fields {
              return None;
            }
            frame, child := InObject(fields, segments[i]), fields[segments[i]];
          case _ =>
            return None;
        }
        RemovalStep(spec, segments, frames, current, rest, frame, child);
        frames, current := frames + [frame], child;
      }
      assert segments[|segments|..] == [];
      return Some((frames, current));
    }

    method RemoveByPath(path: string)
      modifies this
      ensures spec == RemoveAt(old(spec), path)
    {
      if path == "" || path == "/" {
        return;
      }
      var segments := ParsePointer(path);
      var parents, last := segments[..|segments| - 1], segments[|segments| - 1];
      var parent := GetParentContainer(parents);
      assert parents + [last] == segments;
      if parent.None? {
        RemoveAtParent(spec, segments);
        return;
      }
      var (frames, current) := parent.value;
      RemoveThroughBorrow(spec, parents, frames, current, last);
      var edited := current;
      match current {
        case Arr(items) =>
          var index := ParseIndex(last);
          if index.Some? && index.value < |items| {
            edited := Arr(items[..index.value] + items[index.value + 1..]);
          }
        case Obj(fields) =>
          edited := Obj(fields - {last});
        case _ =>
      }
      spec := Plug(frames, edited);
    }

    /** Applies one patch; a failing patch leaves the document as it was. */
    method Apply(patch: Patch) returns (error: Option<SpecError>)
      modifies this
      ensures match ApplyPatch(old(spec), patch)
              case Ok(t) => error.None? && spec == t
              case Err(e) => error == Some(e) && spec == old(spec)
    {
      match patch.op {
        case "add" =>
          AddByPath(patch.path, OrNull(patch.value));
        case "replace" =>
          SetByPath(patch.path, OrNull(patch.value));
        case "remove" =>
          RemoveByPath(patch.path);
        case "move" =>
          if patch.from.None? {
            return Some(MissingFrom(patch.op));
          }
          var value := GetByPath(patch.from.value);
          if value.None? {
            return None;
          }
          RemoveByPath(patch.from.value);
          AddByPath(patch.path, value.value);
        case "copy" =>
          if patch.from.None? {
            return Some(MissingFrom(patch.op));
          }
          var value := GetByPath(patch.from.value);
          if value.None? {
            return None;
          }
          AddByPath(patch.path, value.value);
        case "test" =>
          if patch.value.None? {
            return Some(MissingValue);
          }
          var actual := GetByPath(patch.path);
          if actual.None? || actual.value != patch.value.value {
            return Some(TestFailed(patch.path));
          }
        case _ =>
          return Some(UnsupportedOperation(patch.op));
      }
      return None;
    }
  }

  /** What one line contributes to the patches still to come. */
  lemma EffectiveStep(lines: seq<string>, i: nat, parse: string -> Option<Patch>)
    requires i < |lines|
    ensures var patch := LinePatch(lines[i], parse);
            var rest := EffectivePatches(lines[i + 1..], parse);
            EffectivePatches(lines[i..], parse) == if patch.Some? then [patch.value] + rest else rest
  {
    assert lines[i..][1..] == lines[i + 1..];
  }

  lemma ApplyAllStep(t: Json, patch: Patch, rest: seq<Patch>)
    ensures ApplyAll(t, [patch] + rest) ==
              if ApplyPatch(t, patch).Ok? then ApplyAll(ApplyPatch(t, patch).value, rest)
              else ApplyPatch(t, patch)
  {
    assert ([patch] + rest)[1..] == rest;
  }

  /** Feeds the lines to the document, and counts the patches applied. */
  method ApplyLines(doc: Document, lines: seq<string>, parse: string -> Option<Patch>)
    returns (error: Option<SpecError>, patchCount: nat)
    modifies doc
    ensures ApplyAll(old(doc.spec), EffectivePatches(lines, parse)) ==
              match error case None => Ok(doc.spec) case Some(e) => Err(e)
    ensures error.None? ==> patchCount == |EffectivePatches(lines, parse)|
  {
    patchCount := 0;
    ghost var patches := EffectivePatches(lines, parse);
    assert lines[0..] == lines;
    for i := 0 to |lines|
      invariant ApplyAll(old(doc.spec), patches) == ApplyAll(doc.spec, EffectivePatches(lines[i..], parse))
      invariant |patches| == patchCount + |EffectivePatches(lines[i..], parse)|
    {
      EffectiveStep(lines, i, parse);
      var line := Trim(lines[i]);
      if line == "" {
        continue;
      }
      var patch := parse(line);
      if patch.None? {
        continue;
      }
      if patch.value.path == "" {
        continue;
      }
      ApplyAllStep(doc.spec, patch.value, EffectivePatches(lines[i + 1..], parse));
      error := doc.Apply(patch.value);
      if error.Some? {
        return;
      }
      patchCount := patchCount + 1;
    }
    assert lines[|lines|..] == [];
    return None, patchCount;
  }

  method CompileOutput(content: string, parse: string -> Option<Patch>, document: string -> Option<Json>)
    returns (r: Result<Json, SpecError>)
    ensures r == Compile(content, parse, document)
  {
    var trimmed := Trim(content);
    if trimmed == "" {
      return Err(EmptyOutput);
    }
    var doc := new Document();
    var error, patchCount := ApplyLines(doc, Lines(trimmed), parse);
    if error.Some? {
      return Err(error.value);
    }
    if patchCount == 0 {
      var parsed := document(trimmed);
      if parsed.None? {
        return Err(InvalidJson);
      }
      return Checked(parsed.value);
    }
    return Checked(doc.spec);
  }
}
