/** The document operations addressed by path text: read, test, read with a
    default, write and delete. A path that does not parse fails with the
    syntax error; a write or delete at the root itself is refused. */
module JsonPath {
  import opened Results
  import opened Values
  import opened PathSyntax
  import opened PathOps

  /** The value a path names. The root path names the whole document; a
      read fails on a syntax error, a missing slot, a value of the wrong
      kind or an append marker. */
  function Get(root: Value, path: string): (r: Result<Value, PathError>)
    ensures Parse(path) == Ok([]) ==> r == Ok(root)
    ensures r.Err? ==> r.error.SyntaxError? || r.error in {NotFound, TypeMismatch, MisplacedAppend}
  {
    match Parse(path)
    case Err(e) => Err(e)
    case Ok(segs) => GetIn(root, segs)
  }

  /** Whether the path names a value (a stored null counts as present). The
      root always exists; a path that does not parse names nothing. */
  predicate PathExists(root: Value, path: string)
    ensures Parse(path) == Ok([]) ==> PathExists(root, path)
    ensures PathExists(root, path) ==> Parse(path).Ok?
  {
    Get(root, path).Ok?
  }

  /** The value a path names, or `default` when it names nothing. */
  function GetOr(root: Value, path: string, default: Value): (r: Value)
    ensures PathExists(root, path) ==> Get(root, path) == Ok(r)
    ensures !PathExists(root, path) ==> r == default
  {
    match Get(root, path)
    case Ok(v) => v
    case Err(_) => default
  }

  /** The tree after writing `v` at the path. The root itself cannot be
      written, and a successful write leaves a container at the root. */
  function Set(root: Value, path: string, v: Value): (r: Result<Value, PathError>)
    ensures Parse(path) == Ok([]) ==> r == Err(RootPath)
    ensures r.Ok? ==> r.value.Obj? || r.value.Arr?
  {
    match Parse(path)
    case Err(e) => Err(e)
    case Ok(segs) => if segs == [] then Err(RootPath) else SetIn(root, segs, v)
  }

  /** The tree after deleting what the path names. The root itself cannot
      be deleted, and a successful delete keeps the kind of the root. */
  function Remove(root: Value, path: string): (r: Result<Value, PathError>)
    ensures Parse(path) == Ok([]) ==> r == Err(RootPath)
    ensures r.Ok? ==> (root.Obj? && r.value.Obj?) || (root.Arr? && r.value.Arr?)
  {
    match Parse(path)
    case Err(e) => Err(e)
    case Ok(segs) => if segs == [] then Err(RootPath) else RemoveIn(root, segs)
  }

  // ---------------------------------------------------------------------
  // Properties
  // ---------------------------------------------------------------------

  /** `$` and the empty path name the whole document, which always exists;
      a path without `$` is read after `$.`. */
  lemma RootAndRelative(root: Value, path: string)
    ensures Get(root, "$") == Ok(root) && Get(root, "") == Ok(root)
    ensures path != [] && path[0] != '$' ==> Get(root, path) == Get(root, "$." + path)
  {
    assert Normalize("$")[1..] == [];
  }

  /** A key written without `$` or dots is the single key step it spells. */
  lemma ParseBareKey(k: string)
    requires IsDotName(k) && k[0] != '$'
    ensures Parse(k) == Ok([Key(k)])
  {
    var p := Normalize(k);
    var ts := [DotKey(k)];
    assert Render(ts) == "." + k by { RenderCons(DotKey(k), []); }
    assert p[1..] == "." + k;
    assert ValidTokens(ts);
    TokenizeRender(ts, 1);
    assert Tokenize(p[1..], 1) == Ok(ts);
    assert Segments(ts) == [Key(k)];
  }

  /** Writing a bare key into an object adds or overwrites that one key. */
  lemma SetBareKey(es: seq<Entry>, k: string, v: Value)
    requires IsDotName(k) && k[0] != '$'
    ensures Set(Obj(es), k, v) == Ok(Obj(Put(es, k, v)))
  {
    ParseBareKey(k);
    assert Set(Obj(es), k, v) == SetIn(Obj(es), [Key(k)], v);
    SetOneKey(es, k, v);
  }

  lemma SetOneKey(es: seq<Entry>, k: string, v: Value)
    ensures SetIn(Obj(es), [Key(k)], v) == Ok(Obj(Put(es, k, v)))
  {
    assert [Key(k)][1..] == [];
    assert SetIn(Lookup(es, k).GetOr(Null), [], v) == Ok(v);
  }

  /** After a write without an append marker, the path exists and reads as
      the value written. */
  lemma SetThenGet(root: Value, path: string, v: Value)
    requires Set(root, path, v).Ok? && NoAppend(Parse(path).value)
    ensures PathExists(Set(root, path, v).value, path)
    ensures Get(Set(root, path, v).value, path) == Ok(v)
  {
    GetAfterSet(root, Parse(path).value, v);
  }

  /** A write fails only on a value of the wrong kind in the way, or on an
      append marker before the end; it never fails for a missing slot. */
  lemma SetFailures(root: Value, path: string, v: Value)
    requires Parse(path).Ok? && Set(root, path, v).Err?
    ensures Set(root, path, v).error in {TypeMismatch, MisplacedAppend, RootPath}
  {
    SetErrors(root, Parse(path).value, v);
  }

  /** A write goes through the parent path of the split: the parent ends up
      an object, and holds what writing the leaf into the old parent (null
      when it was missing) gives. Without a key in the path, the leaf is the
      whole path. */
  lemma SetThroughParent(root: Value, path: string, v: Value)
    requires Set(root, path, v).Ok?
    ensures ToParentAndLeaf(path).Ok?
    ensures var (parent, leaf) := ToParentAndLeaf(path).value;
      if parent == "" then leaf == Normalize(path)
      else
        && ParseLeaf(leaf).Ok?
        && Get(Set(root, path, v).value, parent).Ok?
        && Get(Set(root, path, v).value, parent).value.Obj?
        && Get(Set(root, path, v).value, parent) ==
           SetIn(GetOr(root, parent, Null), ParseLeaf(leaf).value, v)
  {
    var segs := Parse(path).value;
    SplitSegments(path);
    var (parent, leaf) := ToParentAndLeaf(path).value;
    if parent != "" {
      var ps, ls := Parse(parent).value, ParseLeaf(leaf).value;
      SetSplit(root, ps, ls, v);
      assert GetOr(root, parent, Null) == Slot(root, ps);
    }
  }

  /** The part of the split that writes and deletes rely on: a parsed path
      is its parent's segments followed by a leaf that opens with a key. */
  lemma SplitSegments(path: string)
    requires Parse(path).Ok?
    ensures ToParentAndLeaf(path).Ok?
    ensures var (parent, leaf) := ToParentAndLeaf(path).value;
      if parent == "" then leaf == Normalize(path)
      else
        && Parse(parent).Ok? && ParseLeaf(leaf).Ok?
        && Parse(path).value == Parse(parent).value + ParseLeaf(leaf).value
        && ParseLeaf(leaf).value != [] && ParseLeaf(leaf).value[0].Key?
  {
    ParentAndLeafSegments(path);
  }

  /** A write cut before a key step: above the cut the tree is only walked,
      and the slot at the cut becomes an object. */
  lemma SetSplit(root: Value, ps: seq<Segment>, ls: seq<Segment>, v: Value)
    requires ls != [] && ls[0].Key? && SetIn(root, ps + ls, v).Ok?
    ensures SetIn(Slot(root, ps), ls, v).Ok?
    ensures SetIn(Slot(root, ps), ls, v).value.Obj?
    ensures GetIn(SetIn(root, ps + ls, v).value, ps) == SetIn(Slot(root, ps), ls, v)
  {
    var segs := ps + ls;
    SetAppendLast(root, segs, v);
    assert NoAppend(ps) by {
      forall i | 0 <= i < |ps| ensures !ps[i].Append? {
        assert ps[i] == segs[i];
      }
    }
    SetBelow(root, ps, ls, v);
    KeyFirstGivesObject(Slot(root, ps), ls, v);
  }

  /** A write whose first step is a key leaves an object. */
  lemma KeyFirstGivesObject(node: Value, segs: seq<Segment>, v: Value)
    requires segs != [] && segs[0].Key? && SetIn(node, segs, v).Ok?
    ensures SetIn(node, segs, v).value.Obj?
  {
  }

  /** The path parses to steps whose last one is a key: the delete of such
      a path is the one that tolerates a missing leaf. */
  predicate KeyLeaf(path: string) {
    Parse(path).Ok? && Parse(path).value != [] && Parse(path).value[|Parse(path).value| - 1].Key?
  }

  /** A delete below the root succeeds exactly when every step above the
      leaf exists and the leaf is a key of the object there or an index
      inside the array there. So whatever the path names can be deleted, an
      index leaf that names nothing fails, and a key leaf that names nothing
      is a success that leaves the document as it was. */
  lemma RemoveDefined(root: Value, path: string)
    ensures Remove(root, path).Ok? <==>
      && Parse(path).Ok? && Parse(path).value != []
      && var segs := Parse(path).value;
         var parent, leaf := segs[..|segs| - 1], segs[|segs| - 1];
         GetIn(root, parent).Ok? && Removable(GetIn(root, parent).value, leaf)
    ensures PathExists(root, path) && Parse(path) != Ok([]) ==> Remove(root, path).Ok?
    ensures Remove(root, path).Ok? && !KeyLeaf(path) ==> PathExists(root, path)
    ensures Remove(root, path).Ok? && !PathExists(root, path) ==> Remove(root, path).value == root
  {
    if Parse(path).Ok? && Parse(path).value != [] {
      var segs := Parse(path).value;
      PathOps.RemoveDefined(root, segs);
      if Remove(root, path).Ok? && !PathExists(root, path) {
        RemoveMissing(root, segs);
      }
    }
  }

  /** A key that was written and then deleted no longer exists. */
  lemma RemoveAfterSet(root: Value, path: string, v: Value)
    requires KeyLeaf(path) && Set(root, path, v).Ok?
    ensures Remove(Set(root, path, v).value, path).Ok?
    ensures !PathExists(Remove(Set(root, path, v).value, path).value, path)
  {
    var segs := Parse(path).value;
    var parent, k := segs[..|segs| - 1], segs[|segs| - 1].name;
    SplitLast(segs);
    PathOps.RemoveAfterSet(root, parent, k, v);
    var t := SetIn(root, segs, v).value;
    assert Set(root, path, v) == Ok(t);
    assert Remove(t, path) == RemoveIn(t, segs);
  }

  /** Deleting a key leaf twice is deleting it once. */
  lemma RemoveKeyTwice(root: Value, path: string)
    requires KeyLeaf(path) && Remove(root, path).Ok?
    ensures Remove(Remove(root, path).value, path) == Remove(root, path)
  {
    var segs := Parse(path).value;
    var parent, k := segs[..|segs| - 1], segs[|segs| - 1].name;
    SplitLast(segs);
    PathOps.RemoveKeyTwice(root, parent, k);
  }

  /** A delete goes through the parent path of the split: the parent exists,
      and afterwards holds what deleting the leaf inside it gives. */
  lemma RemoveThroughParent(root: Value, path: string)
    requires Remove(root, path).Ok?
    ensures ToParentAndLeaf(path).Ok?
    ensures var (parent, leaf) := ToParentAndLeaf(path).value;
      parent != "" ==>
        && ParseLeaf(leaf).Ok?
        && PathExists(root, parent)
        && Get(Remove(root, path).value, parent) ==
           RemoveIn(Get(root, parent).value, ParseLeaf(leaf).value)
  {
    SplitSegments(path);
    var (parent, leaf) := ToParentAndLeaf(path).value;
    if parent != "" {
      var ps, ls := Parse(parent).value, ParseLeaf(leaf).value;
      RemoveBelow(root, ps, ls);
    }
  }
}
