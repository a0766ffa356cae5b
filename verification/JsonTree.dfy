/** JSON values as trees, and reading, writing and removing the node a list of
    path segments leads to. These functions say what the patch engine's cursor
    loops compute; SpecDocument.dfy holds the loops and connects the two. */
module JsonTree {
  import opened DecimalIndex
  import opened Options

  /** A parsed JSON value. The order of an object's members is not observable:
      two objects are equal when they bind the same keys to equal values. */
  datatype Json =
    | Null
    | Bool(b: bool)
    | Number(n: real)
    | Str(s: string)
    | Arr(items: seq<Json>)
    | Obj(fields: map<string, Json>)
  {
    predicate IsContainer() {
      Arr? || Obj?
    }
  }

  // ------------------------------------------------------------------
  // Reading
  // ------------------------------------------------------------------

  /** The existing child a segment names. */
  function Child(t: Json, segment: string): Option<Json> {
    match t
    case Arr(items) =>
      var index := ParseIndex(segment);
      if index.Some? && index.value < |items| then Some(items[index.value]) else None
    case Obj(fields) =>
      if segment in fields then Some(fields[segment]) else None
    case _ => None
  }

  function Get(t: Json, segments: seq<string>): Option<Json> {
    if segments == [] then Some(t)
    else
      var c := Child(t, segments[0]);
      if c.None? then None else Get(c.value, segments[1..])
  }

  /** An element is read by the decimal notation of its position, a member by its key. */
  lemma ReadsChild(items: seq<Json>, i: nat, fields: map<string, Json>, key: string, rest: seq<string>)
    requires i < 0x1_0000_0000_0000_0000
    ensures Get(Arr(items), [Decimal(i)] + rest) == if i < |items| then Get(items[i], rest) else None
    ensures Get(Obj(fields), [key] + rest) == if key in fields then Get(fields[key], rest) else None
  {
    ParseDecimal(i);
    assert ([Decimal(i)] + rest)[1..] == rest && ([key] + rest)[1..] == rest;
  }

  // ------------------------------------------------------------------
  // Writing
  // ------------------------------------------------------------------

  /** What is done to the last container: overwrite a slot, or insert one. */
  datatype Edit = SetTo(value: Json) | InsertAt(value: Json)

  /** A segment that is not an index means the end of the array. */
  function EffectiveIndex(items: seq<Json>, segment: string): nat {
    var index := ParseIndex(segment);
    if index.Some? then index.value else |items|
  }

  function Padded(items: seq<Json>, length: nat): (r: seq<Json>)
    ensures |r| == if length <= |items| then |items| else length
    ensures items <= r
    ensures forall i :: |items| <= i < |r| ==> r[i] == Null
  {
    if length <= |items| then items else items + seq(length - |items|, _ => Null)
  }

  /** The container created for a missing or scalar child. */
  function Fresh(numeric: bool): Json {
    if numeric then Arr([]) else Obj(map[])
  }

  /** Whether the child created below the first segment is an array: decided by
      the next segment, unless that one is the last of the path. */
  predicate NextIsNumeric(segments: seq<string>) {
    |segments| > 2 && (IsNumericIndex(segments[1]) || segments[1] == "-")
  }

  /** The child to continue in: an existing container, else a created one. */
  function Descend(t: Json, segment: string, numeric: bool): Json {
    match t
    case Arr(items) =>
      var i := EffectiveIndex(items, segment);
      if i < |items| && items[i].IsContainer() then items[i] else Fresh(numeric)
    case Obj(fields) =>
      if segment in fields && fields[segment].IsContainer() then fields[segment] else Fresh(numeric)
    case _ => Fresh(numeric)
  }

  function PutChild(t: Json, segment: string, c: Json): Json {
    match t
    case Arr(items) =>
      var i := EffectiveIndex(items, segment);
      Arr(Padded(items, i + 1)[i := c])
    case Obj(fields) => Obj(fields[segment := c])
    case _ => Obj(map[segment := c])
  }

  function InsertPosition(items: seq<Json>, segment: string): nat
    ensures InsertPosition(items, segment) <= |items|
  {
    var i := EffectiveIndex(items, segment);
    if i <= |items| then i else |items|
  }

  /** The edit of the last container; a scalar is left alone. */
  function EditChild(t: Json, last: string, e: Edit): Json {
    if !t.IsContainer() then t
    else if e.InsertAt? && t.Arr? then
      var i := InsertPosition(t.items, last);
      Arr(t.items[..i] + [e.value] + t.items[i..])
    else PutChild(t, last, e.value)
  }

  function Write(t: Json, segments: seq<string>, e: Edit): Json
    requires segments != []
    decreases |segments|
  {
    if |segments| == 1 then EditChild(t, segments[0], e)
    else
      var c := Descend(t, segments[0], NextIsNumeric(segments));
      PutChild(t, segments[0], Write(c, segments[1..], e))
  }

  // ------------------------------------------------------------------
  // Removing
  // ------------------------------------------------------------------

  function RemoveChild(t: Json, last: string): Json {
    match t
    case Arr(items) =>
      var index := ParseIndex(last);
      if index.Some? && index.value < |items|
      then Arr(items[..index.value] + items[index.value + 1..])
      else t
    case Obj(fields) => Obj(fields - {last})
    case _ => t
  }

  function Remove(t: Json, segments: seq<string>): Json
    requires segments != []
    decreases |segments|
  {
    if |segments| == 1 then RemoveChild(t, segments[0])
    else
      var c := Child(t, segments[0]);
      if c.None? then t else PutChild(t, segments[0], Remove(c.value, segments[1..]))
  }

  // ------------------------------------------------------------------
  // Read after write
  // ------------------------------------------------------------------

  /** The walk a write makes, with the two ways it can go astray: a segment that
      names no position of an array, and a path that ends in a scalar. */
  predicate Addressable(t: Json, segments: seq<string>, e: Edit)
    requires segments != []
    decreases |segments|
  {
    (t.Arr? ==> ParseIndex(segments[0]).Some?) &&
    if |segments| == 1 then
      t.IsContainer() &&
      (t.Arr? && e.InsertAt? ==> ParseIndex(segments[0]).value <= |t.items|)
    else
      Addressable(Descend(t, segments[0], NextIsNumeric(segments)), segments[1..], e)
  }

  lemma {:induction false} ReadAfterWrite(t: Json, segments: seq<string>, e: Edit)
    requires segments != []
    ensures Get(Write(t, segments, e), segments) == Some(e.value) <==> Addressable(t, segments, e)
    decreases |segments|
  {
    if |segments| == 1 {
      ReadAfterEditChild(t, segments[0], e);
      var w := Write(t, segments, e);
      assert Get(w, segments) == if Child(w, segments[0]).None? then None
                                 else Get(Child(w, segments[0]).value, []);
    } else {
      var c := Descend(t, segments[0], NextIsNumeric(segments));
      var c' := Write(c, segments[1..], e);
      ReadAfterWrite(c, segments[1..], e);
      if t.Arr? && ParseIndex(segments[0]).None? {
        assert Child(PutChild(t, segments[0], c'), segments[0]) == None;
      } else {
        assert Child(PutChild(t, segments[0], c'), segments[0]) == Some(c');
      }
    }
  }

  lemma ReadAfterEditChild(t: Json, last: string, e: Edit)
    ensures Child(EditChild(t, last, e), last) == Some(e.value) <==> Addressable(t, [last], e)
  {
    if t.Arr? && e.InsertAt? {
      var i := InsertPosition(t.items, last);
      var items' := t.items[..i] + [e.value] + t.items[i..];
      assert |items'| == |t.items| + 1 && items'[i] == e.value;
    }
  }

  // ------------------------------------------------------------------
  // Addressability as a condition on the tree before the write
  // ------------------------------------------------------------------

  /** What position n of the path demands of its segment: an index wherever an
      array stands there, or will be created there. */
  predicate SegmentFits(t: Json, segments: seq<string>, n: nat, e: Edit)
    requires n < |segments|
  {
    var here := Get(t, segments[..n]);
    if here.Some? && here.value.IsContainer() then
      here.value.Arr? ==>
        ParseIndex(segments[n]).Some? &&
        (e.InsertAt? && n == |segments| - 1 ==> ParseIndex(segments[n]).value <= |here.value.items|)
    else
      0 < n < |segments| - 1 && (IsNumericIndex(segments[n]) || segments[n] == "-") ==>
        ParseIndex(segments[n]).Some?
  }

  predicate PathFits(t: Json, segments: seq<string>, e: Edit)
    requires segments != []
  {
    (t.IsContainer() || |segments| >= 2) &&
    forall n :: 0 <= n < |segments| ==> SegmentFits(t, segments, n, e)
  }

  lemma {:induction false} AddressableIffPathFits(t: Json, segments: seq<string>, e: Edit)
    requires segments != []
    ensures Addressable(t, segments, e) <==> PathFits(t, segments, e)
    decreases |segments|
  {
    assert segments[..0] == [];
    assert SegmentFits(t, segments, 0, e) ==> (t.Arr? ==> ParseIndex(segments[0]).Some?);
    if |segments| > 1 {
      var rest := segments[1..];
      var c := Descend(t, segments[0], NextIsNumeric(segments));
      AddressableIffPathFits(c, rest, e);
      if t.Arr? ==> ParseIndex(segments[0]).Some? {
        assert SegmentFits(t, segments, 0, e);
        forall n | 0 <= n < |rest|
          ensures SegmentFits(c, rest, n, e) <==> SegmentFits(t, segments, n + 1, e)
        {
          SegmentFitsBelow(t, segments, n, e);
        }
        if PathFits(t, segments, e) {
          forall n | 0 <= n < |rest| ensures SegmentFits(c, rest, n, e) {
            assert SegmentFits(t, segments, n + 1, e);
          }
        }
        if PathFits(c, rest, e) {
          forall n | 0 <= n < |segments| ensures SegmentFits(t, segments, n, e) {
            if n > 0 { assert SegmentFits(c, rest, n - 1, e); }
          }
        }
      }
    }
  }

  lemma SegmentFitsBelow(t: Json, segments: seq<string>, n: nat, e: Edit)
    requires |segments| > 1 && n < |segments| - 1
    requires t.Arr? ==> ParseIndex(segments[0]).Some?
    ensures SegmentFits(Descend(t, segments[0], NextIsNumeric(segments)), segments[1..], n, e)
            <==> SegmentFits(t, segments, n + 1, e)
  {
    var rest := segments[1..];
    var c := Descend(t, segments[0], NextIsNumeric(segments));
    assert segments[..n + 1][0] == segments[0];
    assert segments[..n + 1][1..] == rest[..n];
    var child := Child(t, segments[0]);
    if child.Some? && child.value.IsContainer() {
      assert c == child.value;
    } else {
      assert c == Fresh(NextIsNumeric(segments));
      if n > 0 {
        assert rest[..n][0] == rest[0];
        assert Get(c, rest[..n]).None?;
        assert Get(t, segments[..n + 1]).None?;
      } else {
        assert rest[..0] == [] && Get(t, segments[..1]) == child;
      }
    }
  }

  /** Read-after-write, with the condition spelled out on the tree before. */
  lemma WriteIsReadableIff(t: Json, segments: seq<string>, e: Edit)
    requires segments != []
    ensures Get(Write(t, segments, e), segments) == Some(e.value) <==> PathFits(t, segments, e)
  {
    ReadAfterWrite(t, segments, e);
    AddressableIffPathFits(t, segments, e);
  }

  /** The plainest write that cannot be read back: appending with "-" does append, but
      "-" names no element. */
  lemma AppendedIsUnreadable(items: seq<Json>, v: Json)
    ensures Write(Arr(items), ["-"], InsertAt(v)) == Arr(items + [v])
    ensures Get(Write(Arr(items), ["-"], InsertAt(v)), ["-"]) == None
  {
    assert items[..|items|] + [v] + items[|items|..] == items + [v];
  }

  /** Overwriting twice is overwriting once. */
  lemma {:induction false} SetOverwrites(t: Json, segments: seq<string>, v: Json, w: Json)
    requires segments != []
    requires Addressable(t, segments, SetTo(v))
    ensures Write(Write(t, segments, SetTo(v)), segments, SetTo(w)) == Write(t, segments, SetTo(w))
    decreases |segments|
  {
    if |segments| == 1 {
      PutChildTwice(t, segments[0], v, w);
    } else {
      var c := Descend(t, segments[0], NextIsNumeric(segments));
      var c' := Write(c, segments[1..], SetTo(v));
      SetOverwrites(c, segments[1..], v, w);
      WriteKeepsContainer(c, segments[1..], SetTo(v));
      DescendAfterPut(t, segments[0], c', NextIsNumeric(segments));
      PutChildTwice(t, segments[0], c', Write(c', segments[1..], SetTo(w)));
    }
  }

  lemma DescendAfterPut(t: Json, segment: string, c: Json, numeric: bool)
    requires t.Arr? ==> ParseIndex(segment).Some?
    requires c.IsContainer()
    ensures Descend(PutChild(t, segment, c), segment, numeric) == c
  {
  }

  lemma PutChildTwice(t: Json, segment: string, a: Json, b: Json)
    requires t.Arr? ==> ParseIndex(segment).Some?
    ensures PutChild(PutChild(t, segment, a), segment, b) == PutChild(t, segment, b)
  {
    match t
    case Arr(items) =>
      var i := EffectiveIndex(items, segment);
      var once := Padded(items, i + 1)[i := a];
      assert Padded(once, i + 1)[i := b] == Padded(items, i + 1)[i := b];
    case Obj(fields) =>
      assert fields[segment := a][segment := b] == fields[segment := b];
    case _ =>
      assert map[segment := a][segment := b] == map[segment := b];
  }

  lemma WriteKeepsContainer(t: Json, segments: seq<string>, e: Edit)
    requires segments != [] && t.IsContainer()
    ensures Write(t, segments, e).IsContainer()
  {
  }

  // ------------------------------------------------------------------
  // Frame
  // ------------------------------------------------------------------

  /** Path q leaves path p at a different key or a different array position. An
      insertion moves the elements from its position on, so only the ones before
      it count as elsewhere. */
  predicate Diverges(t: Json, p: seq<string>, q: seq<string>, e: Edit)
    requires p != []
    decreases |p|
  {
    q != [] &&
    match t
    case Arr(items) =>
      var j := ParseIndex(q[0]);
      if |p| == 1 && e.InsertAt? then j.None? || j.value < InsertPosition(items, p[0])
      else if j != Some(EffectiveIndex(items, p[0])) then true
      else |p| > 1 && Diverges(Descend(t, p[0], NextIsNumeric(p)), p[1..], q[1..], e)
    case Obj(_) =>
      q[0] != p[0] || (|p| > 1 && Diverges(Descend(t, p[0], NextIsNumeric(p)), p[1..], q[1..], e))
    case _ =>
      |p| == 1 || q[0] != p[0] || Diverges(Descend(t, p[0], NextIsNumeric(p)), p[1..], q[1..], e)
  }

  /** A write changes nothing at a diverging path, whether or not that path leads
      anywhere, except that padding may turn an absent array slot into a null. */
  lemma {:induction false} WriteFrame(t: Json, p: seq<string>, q: seq<string>, e: Edit)
    requires p != [] && Diverges(t, p, q, e)
    ensures Get(Write(t, p, e), q) == Get(t, q) ||
            (Get(t, q) == None && Get(Write(t, p, e), q) == Some(Null))
    decreases |p|
  {
    var w := Write(t, p, e);
    if |p| == 1 {
      EditChildFrame(t, p[0], q, e);
    } else {
      var c := Descend(t, p[0], NextIsNumeric(p));
      var c' := Write(c, p[1..], e);
      if Child(w, q[0]) == Child(t, q[0]) {
      } else if t.Arr? && ParseIndex(q[0]) != Some(EffectiveIndex(t.items, p[0])) {
        assert Child(t, q[0]) == None && Child(w, q[0]) == Some(Null);
        ScalarHasNoDescendants(Null, q[1..]);
      } else {
        assert Child(w, q[0]) == Some(c');
        assert Diverges(c, p[1..], q[1..], e);
        WriteFrame(c, p[1..], q[1..], e);
        DescendReads(t, p[0], NextIsNumeric(p), q);
      }
    }
  }

  lemma EditChildFrame(t: Json, last: string, q: seq<string>, e: Edit)
    requires Diverges(t, [last], q, e)
    ensures Get(EditChild(t, last, e), q) == Get(t, q) ||
            (Get(t, q) == None && Get(EditChild(t, last, e), q) == Some(Null))
  {
    var w := EditChild(t, last, e);
    if Child(w, q[0]) != Child(t, q[0]) {
      assert t.Arr? && e.SetTo?;
      assert Child(t, q[0]) == None && Child(w, q[0]) == Some(Null);
      ScalarHasNoDescendants(Null, q[1..]);
    }
  }

  lemma ScalarHasNoDescendants(t: Json, q: seq<string>)
    requires !t.IsContainer()
    ensures Get(t, q) == if q == [] then Some(t) else None
  {
  }

  /** Continuing below a child that is no container reads nothing, as does the
      container created in its place. */
  lemma DescendReads(t: Json, segment: string, numeric: bool, q: seq<string>)
    requires |q| > 1
    requires if t.Arr? then ParseIndex(q[0]) == Some(EffectiveIndex(t.items, segment)) else q[0] == segment
    ensures Get(Descend(t, segment, numeric), q[1..]) == Get(t, q)
  {
    var child := Child(t, q[0]);
    if child.Some? && !child.value.IsContainer() {
      ScalarHasNoDescendants(child.value, q[1..]);
    }
  }

  lemma WriteThroughChild(t: Json, segments: seq<string>, e: Edit, child: Json)
    requires |segments| > 1 && Child(t, segments[0]) == Some(child) && child.IsContainer()
    ensures Child(Write(t, segments, e), segments[0]) == Some(Write(child, segments[1..], e))
  {
    assert Descend(t, segments[0], NextIsNumeric(segments)) == child;
    PutChildAtExisting(t, segments[0], Write(child, segments[1..], e));
  }

  /** The last container of an existing path receives exactly the edit. */
  lemma {:induction false} WriteAtParent(t: Json, segments: seq<string>, e: Edit)
    requires segments != []
    requires Get(t, segments[..|segments| - 1]).Some?
    requires Get(t, segments[..|segments| - 1]).value.IsContainer()
    ensures Get(Write(t, segments, e), segments[..|segments| - 1])
            == Some(EditChild(Get(t, segments[..|segments| - 1]).value, segments[|segments| - 1], e))
    decreases |segments|
  {
    var parent := segments[..|segments| - 1];
    if |segments| > 1 {
      var rest := segments[1..];
      assert parent[0] == segments[0] && parent[1..] == rest[..|rest| - 1];
      var child := Child(t, segments[0]).value;
      if !child.IsContainer() { ScalarHasNoDescendants(child, parent[1..]); }
      WriteAtParent(child, rest, e);
      WriteThroughChild(t, segments, e, child);
    }
  }

  /** A last container that is missing, or a scalar, is replaced by an object whatever
      the last segment looks like: "0" becomes a key. */
  lemma {:induction false} CreatedParentIsObject(t: Json, segments: seq<string>, e: Edit)
    requires |segments| >= 2 && Addressable(t, segments, e)
    requires var parent := Get(t, segments[..|segments| - 1]); parent.Some? ==> !parent.value.IsContainer()
    ensures Get(Write(t, segments, e), segments[..|segments| - 1])
            == Some(Obj(map[segments[|segments| - 1] := e.value]))
    decreases |segments|
  {
    var parent, last := segments[..|segments| - 1], segments[|segments| - 1];
    var rest := segments[1..];
    var c := Descend(t, segments[0], NextIsNumeric(segments));
    var c' := Write(c, rest, e);
    assert parent[0] == segments[0] && parent[1..] == rest[..|rest| - 1];
    assert Child(PutChild(t, segments[0], c'), segments[0]) == Some(c');
    if |segments| == 2 {
      assert Get(t, parent) == if Child(t, parent[0]).None? then None else Get(Child(t, parent[0]).value, []);
      assert c == Obj(map[]) && c' == Obj(map[last := e.value]);
      assert Get(c', parent[1..]) == Some(c');
    } else {
      DescendReads(t, segments[0], NextIsNumeric(segments), parent);
      CreatedParentIsObject(c, rest, e);
    }
  }

  // ------------------------------------------------------------------
  // Removing
  // ------------------------------------------------------------------

  /** After a removal, the path's last container has lost exactly that child;
      where there is none, the tree is unchanged. */
  lemma {:induction false} RemoveAtParent(t: Json, segments: seq<string>)
    requires segments != []
    ensures var parent := segments[..|segments| - 1];
            match Get(t, parent)
            case Some(c) => Get(Remove(t, segments), parent) == Some(RemoveChild(c, segments[|segments| - 1]))
            case None => Remove(t, segments) == t
    decreases |segments|
  {
    var parent := segments[..|segments| - 1];
    if |segments| > 1 {
      var rest := segments[1..];
      assert parent[0] == segments[0] && parent[1..] == rest[..|rest| - 1];
      var child := Child(t, segments[0]);
      if child.Some? {
        RemoveAtParent(child.value, rest);
        PutChildAtExisting(t, segments[0], Remove(child.value, rest));
      }
    }
  }

  lemma PutChildAtExisting(t: Json, segment: string, c: Json)
    requires Child(t, segment).Some?
    ensures Child(PutChild(t, segment, c), segment) == Some(c)
    ensures PutChild(t, segment, c) == t <==> c == Child(t, segment).value
  {
    match t
    case Arr(items) =>
      var i := EffectiveIndex(items, segment);
      assert Padded(items, i + 1) == items;
      if c == items[i] { assert items[i := c] == items; }
    case Obj(fields) =>
      if c == fields[segment] { assert fields[segment := c] == fields; }
    case _ =>
  }

  /** Removing an object member leaves nothing at its path; removing an array
      element leaves there its successor, if it had one. */
  lemma ReadAfterRemove(t: Json, segments: seq<string>)
    requires segments != []
    ensures var parent := Get(t, segments[..|segments| - 1]);
            var last := segments[|segments| - 1];
            Get(Remove(t, segments), segments) ==
              if parent.Some? && parent.value.Arr? && ParseIndex(last).Some? &&
                 ParseIndex(last).value + 1 < |parent.value.items|
              then Some(parent.value.items[ParseIndex(last).value + 1])
              else None
  {
    var parent := segments[..|segments| - 1];
    var last := segments[|segments| - 1];
    assert segments == parent + [last];
    RemoveAtParent(t, segments);
    GetSnoc(Remove(t, segments), parent, last);
  }

  lemma {:induction false} GetSnoc(t: Json, path: seq<string>, last: string)
    ensures Get(t, path + [last]) == match Get(t, path)
                                     case Some(c) => Child(c, last)
                                     case None => None
    decreases |path|
  {
    if path == [] {
      assert path + [last] == [last];
      assert Child(t, last).Some? ==> Get(Child(t, last).value, []) == Child(t, last);
    } else {
      assert (path + [last])[0] == path[0] && (path + [last])[1..] == path[1..] + [last];
      var child := Child(t, path[0]);
      if child.Some? { GetSnoc(child.value, path[1..], last); }
    }
  }

  lemma {:induction false} GetConcat(t: Json, a: seq<string>, b: seq<string>)
    ensures Get(t, a + b) == match Get(t, a)
                             case Some(c) => Get(c, b)
                             case None => None
    decreases |a|
  {
    if a == [] {
      assert a + b == b;
    } else {
      assert (a + b)[0] == a[0] && (a + b)[1..] == a[1..] + b;
      var child := Child(t, a[0]);
      if child.Some? { GetConcat(child.value, a[1..], b); }
    }
  }

  /** Two children that agree, below the same path of two trees. */
  lemma SameBelow(t: Json, u: Json, path: seq<string>, a: string, b: string, below: seq<string>)
    requires Get(t, path).Some? && Get(u, path).Some?
    requires Child(Get(t, path).value, a) == Child(Get(u, path).value, b)
    ensures Get(t, path + ([a] + below)) == Get(u, path + ([b] + below))
  {
    GetConcat(t, path, [a] + below);
    GetConcat(u, path, [b] + below);
    assert ([a] + below)[1..] == below && ([b] + below)[1..] == below;
  }

  lemma InsertedMoves(items: seq<Json>, at: nat, v: Json, j: nat)
    requires at <= j < |items| && at <= |items|
    ensures (items[..at] + [v] + items[at..])[j + 1] == items[j]
  {
  }

  lemma InsertedChildMoves(items: seq<Json>, last: string, v: Json, from: string, to: string)
    requires ParseIndex(from).Some? && ParseIndex(to) == Some(ParseIndex(from).value + 1)
    requires ParseIndex(from).value >= InsertPosition(items, last)
    ensures Child(EditChild(Arr(items), last, InsertAt(v)), to) == Child(Arr(items), from)
  {
    var at, j := InsertPosition(items, last), ParseIndex(from).value;
    var grown := items[..at] + [v] + items[at..];
    assert EditChild(Arr(items), last, InsertAt(v)) == Arr(grown) && |grown| == |items| + 1;
    if j < |items| { InsertedMoves(items, at, v, j); }
  }

  /** An insertion into an array moves every element from its position on, with all
      below it, up by one. */
  lemma InsertShifts(t: Json, segments: seq<string>, v: Json, from: string, to: string, below: seq<string>)
    requires segments != [] && ParseIndex(from).Some? && ParseIndex(to) == Some(ParseIndex(from).value + 1)
    requires var parent := Get(t, segments[..|segments| - 1]);
             parent.Some? && parent.value.Arr? &&
             ParseIndex(from).value >= InsertPosition(parent.value.items, segments[|segments| - 1])
    ensures var path := segments[..|segments| - 1];
            Get(Write(t, segments, InsertAt(v)), path + ([to] + below)) == Get(t, path + ([from] + below))
  {
    var path, last := segments[..|segments| - 1], segments[|segments| - 1];
    WriteAtParent(t, segments, InsertAt(v));
    InsertedChildMoves(Get(t, path).value.items, last, v, from, to);
    SameBelow(Write(t, segments, InsertAt(v)), t, path, to, from, below);
  }

  lemma RemovedChildMoves(items: seq<Json>, last: string, from: string, to: string)
    requires ParseIndex(to).Some? && ParseIndex(from) == Some(ParseIndex(to).value + 1)
    requires ParseIndex(last).Some? && ParseIndex(last).value < |items|
    requires ParseIndex(to).value >= ParseIndex(last).value
    ensures Child(RemoveChild(Arr(items), last), to) == Child(Arr(items), from)
  {
    var at, j := ParseIndex(last).value, ParseIndex(to).value;
    var shrunk := items[..at] + items[at + 1..];
    assert RemoveChild(Arr(items), last) == Arr(shrunk) && |shrunk| == |items| - 1;
    if j < |shrunk| { assert shrunk[j] == items[j + 1]; }
  }

  /** A removal from an array moves every element behind it down by one. */
  lemma RemovalShifts(t: Json, segments: seq<string>, from: string, to: string, below: seq<string>)
    requires segments != [] && ParseIndex(to).Some? && ParseIndex(from) == Some(ParseIndex(to).value + 1)
    requires var parent, index := Get(t, segments[..|segments| - 1]), ParseIndex(segments[|segments| - 1]);
             parent.Some? && parent.value.Arr? && index.Some? && index.value < |parent.value.items| &&
             ParseIndex(to).value >= index.value
    ensures var path := segments[..|segments| - 1];
            Get(Remove(t, segments), path + ([to] + below)) == Get(t, path + ([from] + below))
  {
    var path, last := segments[..|segments| - 1], segments[|segments| - 1];
    RemoveAtParent(t, segments);
    RemovedChildMoves(Get(t, path).value.items, last, from, to);
    SameBelow(Remove(t, segments), t, path, to, from, below);
  }

  /** Path q leaves path p at a different key or position, p is removed. */
  predicate RemovalDiverges(t: Json, p: seq<string>, q: seq<string>)
    requires p != []
    decreases |p|
  {
    q != [] &&
    var child := Child(t, p[0]);
    if t.Arr? && ParseIndex(p[0]) != ParseIndex(q[0]) then
      |p| > 1 || child.None? || ParseIndex(q[0]).None? || ParseIndex(q[0]).value < ParseIndex(p[0]).value
    else if t.Obj? && p[0] != q[0] then true
    else child.None? || (|p| > 1 && RemovalDiverges(child.value, p[1..], q[1..]))
  }

  lemma {:induction false} RemoveFrame(t: Json, p: seq<string>, q: seq<string>)
    requires p != [] && RemovalDiverges(t, p, q)
    ensures Get(Remove(t, p), q) == Get(t, q)
    decreases |p|
  {
    var child := Child(t, p[0]);
    if |p| > 1 && child.Some? {
      var c' := Remove(child.value, p[1..]);
      PutChildAtExisting(t, p[0], c');
      if Child(t, q[0]) != Child(PutChild(t, p[0], c'), q[0]) {
        RemoveFrame(child.value, p[1..], q[1..]);
      }
    }
  }

  // ------------------------------------------------------------------
  // Removing what was inserted
  // ------------------------------------------------------------------

  /** The slot an insertion can fill so that a removal empties it again: an
      absent key or a position up to the end, of a container that exists. A
      scalar document addressed by one segment is left alone by both. */
  predicate Restorable(t: Json, segments: seq<string>)
    requires segments != []
  {
    var parent := Get(t, segments[..|segments| - 1]);
    var last := segments[|segments| - 1];
    if |segments| == 1 && !t.IsContainer() then true
    else
      parent.Some? &&
      match parent.value
      case Arr(items) => ParseIndex(last).Some? && ParseIndex(last).value <= |items|
      case Obj(fields) => last !in fields
      case _ => false
  }

  lemma {:induction false} RemoveUndoesInsertIff(t: Json, segments: seq<string>, v: Json)
    requires segments != []
    ensures Remove(Write(t, segments, InsertAt(v)), segments) == t <==> Restorable(t, segments)
    decreases |segments|
  {
    var parent := segments[..|segments| - 1];
    if |segments| == 1 {
      assert parent == [];
      RemoveUndoesInsertHere(t, segments[0], v);
    } else {
      var rest := segments[1..];
      assert parent[0] == segments[0] && parent[1..] == rest[..|rest| - 1];
      assert segments[|segments| - 1] == rest[|rest| - 1];
      var child := Child(t, segments[0]);
      if child.Some? && child.value.IsContainer() {
        var c' := Write(child.value, rest, InsertAt(v));
        RemoveUndoesInsertIff(child.value, rest, v);
        PutChildAtExisting(t, segments[0], c');
        PutChildTwice(t, segments[0], c', Remove(c', rest));
        PutChildAtExisting(t, segments[0], Remove(c', rest));
      } else {
        CreatedParentStays(t, segments, v);
        if child.Some? { ScalarHasNoDescendants(child.value, parent[1..]); }
      }
    }
  }

  lemma RemoveUndoesInsertHere(t: Json, last: string, v: Json)
    ensures RemoveChild(EditChild(t, last, InsertAt(v)), last) == t <==> Restorable(t, [last])
  {
    assert [last][..0] == [];
    match t
    case Arr(items) =>
      var i := InsertPosition(items, last);
      var items' := items[..i] + [v] + items[i..];
      if ParseIndex(last) == Some(i) {
        assert items'[..i] + items'[i + 1..] == items;
      }
    case Obj(fields) =>
      assert last !in fields ==> fields[last := v] - {last} == fields;
    case _ =>
  }

  /** A parent the insertion had to create is still there after the removal. */
  lemma CreatedParentStays(t: Json, segments: seq<string>, v: Json)
    requires |segments| > 1
    requires Child(t, segments[0]).Some? ==> !Child(t, segments[0]).value.IsContainer()
    ensures Remove(Write(t, segments, InsertAt(v)), segments) != t
  {
    var rest := segments[1..];
    var c := Descend(t, segments[0], NextIsNumeric(segments));
    var c' := Write(c, rest, InsertAt(v));
    WriteKeepsContainer(c, rest, InsertAt(v));
    RemoveKeepsContainer(c', rest);
    var w := PutChild(t, segments[0], c');
    if Child(w, segments[0]).Some? {
      assert Child(w, segments[0]) == Some(c');
      PutChildAtExisting(w, segments[0], Remove(c', rest));
    }
  }

  lemma RemoveKeepsContainer(t: Json, segments: seq<string>)
    requires segments != [] && t.IsContainer()
    ensures Remove(t, segments).IsContainer()
  {
  }
}
