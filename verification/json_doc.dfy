/** A JSON document: one mutable root that paths read from and that writes
    and deletes replace. Writes return the document itself so that calls
    can be chained. */
module JsonDoc {
  import opened Results
  import opened Values
  import opened PathSyntax
  import PathOps
  import JsonPath

  class Json {
    var root: Value

    /** Objects in the document never hold a key twice. */
    ghost predicate Valid()
      reads this
    {
      WellFormed(root)
    }

    /** An empty object. */
    constructor Object()
      ensures Valid() && root == Obj([])
    {
      root := Obj([]);
    }

    /** An empty array. */
    constructor Array()
      ensures Valid() && root == Arr([])
    {
      root := Arr([]);
    }

    /** A document around an already-built tree. */
    constructor Of(v: Value)
      requires WellFormed(v)
      ensures Valid() && root == v
    {
      root := v;
    }

    /** What `path` names in the document; the root path names the whole
        document. */
    function Get(path: string): (r: Result<Value, PathError>)
      reads this
      ensures Parse(path) == Ok([]) ==> r == Ok(root)
      ensures r.Ok? ==> Parse(path).Ok?
    {
      JsonPath.Get(root, path)
    }

    /** Whether `path` names something in the document; the root always
        exists. */
    predicate PathExists(path: string)
      reads this
      ensures Parse(path) == Ok([]) ==> PathExists(path)
      ensures PathExists(path) <==> Get(path).Ok?
    {
      JsonPath.PathExists(root, path)
    }

    /** What `path` names, or `default` when it names nothing. */
    function GetOr(path: string, default: Value): (r: Value)
      reads this
      ensures PathExists(path) ==> Get(path) == Ok(r)
      ensures !PathExists(path) ==> r == default
    {
      JsonPath.GetOr(root, path, default)
    }

    /** Writes `v` at `path`. On success the root is the written tree, the
        path reads as `v` unless it ends in an append marker, and the
        document itself is handed back; on failure nothing changes. */
    method Set(path: string, v: Value) returns (r: Result<Json, PathError>)
      requires Valid() && WellFormed(v)
      modifies this
      ensures Valid()
      ensures r.Ok? <==> JsonPath.Set(old(root), path, v).Ok?
      ensures r.Ok? ==> r.value == this && root == JsonPath.Set(old(root), path, v).value
      ensures r.Ok? && PathOps.NoAppend(Parse(path).value) ==> Get(path) == Ok(v)
      ensures r.Err? ==> r.error == JsonPath.Set(old(root), path, v).error && root == old(root)
    {
      match JsonPath.Set(root, path, v)
      case Ok(t) =>
        var segs := Parse(path).value;
        PathOps.SetPreservesWellFormed(root, segs, v);
        if PathOps.NoAppend(segs) { JsonPath.SetThenGet(root, path, v); }
        root := t;
        r := Ok(this);
      case Err(e) =>
        r := Err(e);
    }

    /** Deletes what `path` names. Whatever the path names below the root
        can be deleted; a key leaf that names nothing is a success that
        changes nothing; on failure nothing changes. */
    method Remove(path: string) returns (r: Result<Json, PathError>)
      requires Valid()
      modifies this
      ensures Valid()
      ensures r.Ok? <==> JsonPath.Remove(old(root), path).Ok?
      ensures old(PathExists(path)) && Parse(path) != Ok([]) ==> r.Ok?
      ensures r.Ok? && !JsonPath.KeyLeaf(path) ==> old(PathExists(path))
      ensures r.Ok? && !old(PathExists(path)) ==> root == old(root)
      ensures r.Ok? ==> r.value == this && root == JsonPath.Remove(old(root), path).value
      ensures r.Err? ==> r.error == JsonPath.Remove(old(root), path).error && root == old(root)
    {
      JsonPath.RemoveDefined(root, path);
      match JsonPath.Remove(root, path)
      case Ok(t) =>
        PathOps.RemovePreservesWellFormed(root, Parse(path).value);
        root := t;
        r := Ok(this);
      case Err(e) =>
        r := Err(e);
    }
  }
}
