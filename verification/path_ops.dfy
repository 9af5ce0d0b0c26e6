/** Reading, writing and deleting inside a value tree along parsed paths.
    Everything here is pure: a write or a delete returns the new tree, and
    the document class applies it to its root. */
module PathOps {
  import opened Results
  import opened Values
  import opened PathSyntax

  // ---------------------------------------------------------------------
  // Reading
  // ---------------------------------------------------------------------

  /** The child `seg` names inside `node`. A missing key, an index past the
      end, or a null in the way is `NotFound`; a key on a non-object or an
      index on a non-array is `TypeMismatch`; the append marker names no
      existing slot. */
  function Child(node: Value, seg: Segment): (r: Result<Value, PathError>)
    ensures r.Ok? <==> match seg
      case Key(k) => node.Obj? && k in Keys(node.entries)
      case Index(i) => node.Arr? && i < |node.items|
      case Append => false
    ensures r.Ok? && seg.Key? ==> Entry(seg.name, r.value) in node.entries
    ensures r.Ok? && seg.Index? ==> r.value == node.items[seg.i]
    ensures r.Err? && node.Null? && !seg.Append? ==> r.error == NotFound
  {
    match seg
    case Append => Err(MisplacedAppend)
    case Key(k) =>
      (match node
       case Obj(es) =>
         (match Lookup(es, k)
          case Some(v) => Ok(v)
          case None => Err(NotFound))
       case Null => Err(NotFound)
       case _ => Err(TypeMismatch))
    case Index(i) =>
      match node
      case Arr(items) => if i < |items| then Ok(items[i]) else Err(NotFound)
      case Null => Err(NotFound)
      case _ => Err(TypeMismatch)
  }

  /** The value at the end of `segs`, walking down from `node`. No read
      passes an append marker; a read fails only on a missing slot, a value
      of the wrong kind, or an append marker. */
  function GetIn(node: Value, segs: seq<Segment>): (r: Result<Value, PathError>)
    ensures !NoAppend(segs) ==> r.Err?
    ensures r.Err? ==> r.error in {NotFound, TypeMismatch, MisplacedAppend}
    decreases |segs|
  {
    if segs == [] then Ok(node)
    else
      match Child(node, segs[0])
      case Err(e) => Err(e)
      case Ok(c) => GetIn(c, segs[1..])
  }

  /** Walking a concatenated path is walking the first part, then the second
      from where the first ended. */
  lemma {:induction false} GetInConcat(node: Value, a: seq<Segment>, b: seq<Segment>)
    ensures GetIn(node, a + b) ==
      match GetIn(node, a)
      case Err(e) => Err(e)
      case Ok(c) => GetIn(c, b)
    decreases |a|
  {
    if a == [] {
      assert a + b == b;
    } else {
      assert (a + b)[0] == a[0] && (a + b)[1..] == a[1..] + b;
      if Child(node, a[0]).Ok? {
        GetInConcat(Child(node, a[0]).value, a[1..], b);
      }
    }
  }

  /** Segment lists in which the append marker, if present, is the last
      step: the only place a write accepts it. */
  predicate AppendOnlyLast(segs: seq<Segment>) {
    forall i :: 0 <= i < |segs| - 1 ==> !segs[i].Append?
  }

  predicate NoAppend(segs: seq<Segment>) {
    forall i :: 0 <= i < |segs| ==> !segs[i].Append?
  }

  // ---------------------------------------------------------------------
  // Writing
  // ---------------------------------------------------------------------

  /** The container a missing or null slot becomes so that `seg` can be
      taken inside it: an object before a key, an array before an index or
      an append. */
  function FreshContainer(seg: Segment): Value {
    if seg.Key? then Obj([]) else Arr([])
  }

  /** `c` is a container of the kind `seg` steps into. */
  predicate Fits(c: Value, seg: Segment) {
    if seg.Key? then c.Obj? else c.Arr?
  }

  /** Writes `v` at the end of `segs`. Missing and null slots along the way
      become fresh containers; a key is added or overwritten in place; an
      index past the end pads the array with nulls; the append marker adds
      `v` after the last element. A scalar, or a container of the wrong kind,
      in the way is a `TypeMismatch`. A write below `node` passes only
      through a null or a container of the kind the first step needs, and
      leaves such a container there. */
  function SetIn(node: Value, segs: seq<Segment>, v: Value): (r: Result<Value, PathError>)
    ensures r.Ok? && segs != [] ==> Fits(r.value, segs[0])
    ensures r.Ok? && segs != [] && !node.Null? ==> Fits(node, segs[0])
    decreases |segs|
  {
    if segs == [] then Ok(v)
    else
      var seg := segs[0];
      var here := if node.Null? then FreshContainer(seg) else node;
      match seg
      case Append =>
        if |segs| > 1 then Err(MisplacedAppend)
        else
          (match here
           case Arr(items) => Ok(Arr(items + [v]))
           case _ => Err(TypeMismatch))
      case Key(k) =>
        (match here
         case Obj(es) =>
           (match SetIn(Lookup(es, k).GetOr(Null), segs[1..], v)
            case Err(e) => Err(e)
            case Ok(c) => Ok(Obj(Put(es, k, c))))
         case _ => Err(TypeMismatch))
      case Index(i) =>
        match here
        case Arr(items) =>
          (match SetIn(if i < |items| then items[i] else Null, segs[1..], v)
           case Err(e) => Err(e)
           case Ok(c) => Ok(Arr(SetAt(items, i, c))))
        case _ => Err(TypeMismatch)
  }

  /** A write never fails for want of a slot: it fails only on a value of
      the wrong kind in the way or on an append marker before the end. */
  lemma {:induction false} SetErrors(node: Value, segs: seq<Segment>, v: Value)
    ensures SetIn(node, segs, v).Err? ==>
      SetIn(node, segs, v).error in {TypeMismatch, MisplacedAppend}
    ensures SetIn(node, segs, v).Err? && AppendOnlyLast(segs) ==>
      SetIn(node, segs, v).error == TypeMismatch
    decreases |segs|
  {
    if segs != [] {
      var here := if node.Null? then FreshContainer(segs[0]) else node;
      assert AppendOnlyLast(segs) ==> AppendOnlyLast(segs[1..]);
      match segs[0]
      case Append =>
      case Key(k) =>
        if here.Obj? { SetErrors(Lookup(here.entries, k).GetOr(Null), segs[1..], v); }
      case Index(i) =>
        if here.Arr? {
          SetErrors(if i < |here.items| then here.items[i] else Null, segs[1..], v);
        }
    }
  }

  /** Writing into nothing always succeeds: every level is created. */
  lemma {:induction false} SetIntoNull(segs: seq<Segment>, v: Value)
    requires AppendOnlyLast(segs)
    ensures SetIn(Null, segs, v).Ok?
    decreases |segs|
  {
    if |segs| > 1 {
      assert AppendOnlyLast(segs[1..]);
      SetIntoNull(segs[1..], v);
      match segs[0]
      case Key(k) => assert Lookup([], k) == None;
      case Index(i) =>
    }
  }

  /** What a write leaves behind: the written value at the path, and at
      every proper prefix of the path a container of the kind its next step
      needs (created when it was missing or null). */
  lemma {:induction false} SetLeavesContainers(node: Value, segs: seq<Segment>, v: Value, n: nat)
    requires SetIn(node, segs, v).Ok? && n < |segs|
    ensures GetIn(SetIn(node, segs, v).value, segs[..n]).Ok?
    ensures Fits(GetIn(SetIn(node, segs, v).value, segs[..n]).value, segs[n])
    decreases |segs|, 1
  {
    if n == 0 {
      assert segs[..0] == [];
    } else {
      match segs[0]
      case Key(k) => LeavesContainersKey(node, segs, v, n, k);
      case Index(i) => LeavesContainersIndex(node, segs, v, n, i);
    }
  }

  lemma TakeBehindHead<T>(s: seq<T>, n: nat)
    requires 0 < n <= |s|
    ensures s[..n] == [s[0]] + s[1..][..n - 1]
  {
  }

  lemma {:induction false} LeavesContainersKey(node: Value, segs: seq<Segment>, v: Value, n: nat, k: string)
    requires SetIn(node, segs, v).Ok? && 0 < n < |segs| && segs[0] == Key(k)
    ensures GetIn(SetIn(node, segs, v).value, segs[..n]).Ok?
    ensures Fits(GetIn(SetIn(node, segs, v).value, segs[..n]).value, segs[n])
    decreases |segs|, 0
  {
    var r := SetIn(node, segs, v).value;
    var here := if node.Null? then Obj([]) else node;
    TakeBehindHead(segs, n);
    var child := Lookup(here.entries, k).GetOr(Null);
    SetLeavesContainers(child, segs[1..], v, n - 1);
    assert Child(r, segs[0]) == Ok(SetIn(child, segs[1..], v).value);
  }

  lemma {:induction false} LeavesContainersIndex(node: Value, segs: seq<Segment>, v: Value, n: nat, i: nat)
    requires SetIn(node, segs, v).Ok? && 0 < n < |segs| && segs[0] == Index(i)
    ensures GetIn(SetIn(node, segs, v).value, segs[..n]).Ok?
    ensures Fits(GetIn(SetIn(node, segs, v).value, segs[..n]).value, segs[n])
    decreases |segs|, 0
  {
    var r := SetIn(node, segs, v).value;
    var here := if node.Null? then Arr([]) else node;
    TakeBehindHead(segs, n);
    var child := if i < |here.items| then here.items[i] else Null;
    SetLeavesContainers(child, segs[1..], v, n - 1);
    assert Child(r, segs[0]) == Ok(SetIn(child, segs[1..], v).value);
  }

  /** What a read finds at `segs`, with a missing slot read as null: the
      slot a write through `segs` starts from. */
  function Slot(node: Value, segs: seq<Segment>): Value {
    match GetIn(node, segs)
    case Ok(x) => x
    case Err(_) => Null
  }

  /** Below a null there is nothing but null. */
  lemma NullSlot(segs: seq<Segment>)
    ensures Slot(Null, segs) == Null
  {
  }

  /** A write through `a` and then `b` leaves at `a` exactly what writing
      `b` alone into the old slot at `a` gives: the levels above are only
      walked (or created), never otherwise changed. */
  lemma {:induction false} SetBelow(node: Value, a: seq<Segment>, b: seq<Segment>, v: Value)
    requires NoAppend(a) && SetIn(node, a + b, v).Ok?
    ensures SetIn(Slot(node, a), b, v).Ok?
    ensures GetIn(SetIn(node, a + b, v).value, a) == SetIn(Slot(node, a), b, v)
    decreases |a|, 1
  {
    if a == [] {
      assert a + b == b;
    } else {
      match a[0]
      case Key(k) => SetBelowKey(node, a, b, v, k);
      case Index(i) => SetBelowIndex(node, a, b, v, i);
    }
  }

  /** The first step of a non-empty path, and the rest, seen in the path
      with something appended. */
  lemma ConsConcat<T>(a: seq<T>, b: seq<T>)
    requires a != []
    ensures (a + b)[0] == a[0] && (a + b)[1..] == a[1..] + b
  {
  }

  /** A non-empty sequence is its front followed by its last element. */
  lemma SplitLast<T>(s: seq<T>)
    requires s != []
    ensures s == s[..|s| - 1] + [s[|s| - 1]]
  {
  }

  lemma {:induction false} SetBelowKey(node: Value, a: seq<Segment>, b: seq<Segment>, v: Value, k: string)
    requires NoAppend(a) && a != [] && a[0] == Key(k) && SetIn(node, a + b, v).Ok?
    ensures SetIn(Slot(node, a), b, v).Ok?
    ensures GetIn(SetIn(node, a + b, v).value, a) == SetIn(Slot(node, a), b, v)
    decreases |a|, 0
  {
    var p := a + b;
    ConsConcat(a, b);
    assert NoAppend(a[1..]);
    var r := SetIn(node, p, v).value;
    var here := if node.Null? then Obj([]) else node;
    var child := Lookup(here.entries, k).GetOr(Null);
    SetBelow(child, a[1..], b, v);
    assert Child(r, a[0]) == Ok(SetIn(child, p[1..], v).value);
    assert Slot(node, a) == Slot(child, a[1..]) by {
      if node.Null? || k !in Keys(here.entries) { NullSlot(a[1..]); }
    }
  }

  lemma {:induction false} SetBelowIndex(node: Value, a: seq<Segment>, b: seq<Segment>, v: Value, i: nat)
    requires NoAppend(a) && a != [] && a[0] == Index(i) && SetIn(node, a + b, v).Ok?
    ensures SetIn(Slot(node, a), b, v).Ok?
    ensures GetIn(SetIn(node, a + b, v).value, a) == SetIn(Slot(node, a), b, v)
    decreases |a|, 0
  {
    var p := a + b;
    ConsConcat(a, b);
    assert NoAppend(a[1..]);
    var r := SetIn(node, p, v).value;
    var here := if node.Null? then Arr([]) else node;
    var child := if i < |here.items| then here.items[i] else Null;
    SetBelow(child, a[1..], b, v);
    assert Child(r, a[0]) == Ok(SetIn(child, p[1..], v).value);
    assert Slot(node, a) == Slot(child, a[1..]) by {
      if node.Null? || i >= |here.items| { NullSlot(a[1..]); }
    }
  }

  /** After a write, reading the same path gives the value written. */
  lemma GetAfterSet(node: Value, segs: seq<Segment>, v: Value)
    requires NoAppend(segs) && SetIn(node, segs, v).Ok?
    ensures GetIn(SetIn(node, segs, v).value, segs) == Ok(v)
  {
    assert segs + [] == segs;
    SetBelow(node, segs, [], v);
  }

  /** The elements of the array a write at `segs` extends: those already
      there, or none when the slot is missing or null. */
  function ExistingItems(node: Value, segs: seq<Segment>): seq<Value> {
    match Slot(node, segs)
    case Arr(items) => items
    case _ => []
  }

  /** The entries of the object a write at `segs` extends: those already
      there, or none when the slot is missing or null. */
  function ExistingEntries(node: Value, segs: seq<Segment>): seq<Entry> {
    match Slot(node, segs)
    case Obj(es) => es
    case _ => []
  }

  /** Appending puts the value after the elements already there, which keep
      their order: repeated appends keep call order, and a missing array is
      created with the value as its only element. */
  lemma AppendPushes(node: Value, segs: seq<Segment>, v: Value)
    requires NoAppend(segs) && SetIn(node, segs + [Append], v).Ok?
    ensures GetIn(SetIn(node, segs + [Append], v).value, segs) ==
      Ok(Arr(ExistingItems(node, segs) + [v]))
  {
    SetBelow(node, segs, [Append], v);
  }

  /** A write that succeeded can be made again at the same path with any
      value: the containers it walked or created still fit the path. */
  lemma {:induction false} SetRepeatable(node: Value, segs: seq<Segment>, v: Value, w: Value)
    requires SetIn(node, segs, v).Ok?
    ensures SetIn(SetIn(node, segs, v).value, segs, w).Ok?
    decreases |segs|, 1
  {
    if segs != [] {
      match segs[0]
      case Key(k) => RepeatableKey(node, segs, v, w, k);
      case Index(i) => RepeatableIndex(node, segs, v, w, i);
      case Append =>
    }
  }

  lemma {:induction false} RepeatableKey(node: Value, segs: seq<Segment>, v: Value, w: Value, k: string)
    requires SetIn(node, segs, v).Ok? && segs != [] && segs[0] == Key(k)
    ensures SetIn(SetIn(node, segs, v).value, segs, w).Ok?
    decreases |segs|, 0
  {
    var here := if node.Null? then Obj([]) else node;
    var r := SetIn(node, segs, v).value;
    var c := Lookup(here.entries, k).GetOr(Null);
    SetRepeatable(c, segs[1..], v, w);
    assert Lookup(r.entries, k) == Some(SetIn(c, segs[1..], v).value);
  }

  lemma {:induction false} RepeatableIndex(node: Value, segs: seq<Segment>, v: Value, w: Value, i: nat)
    requires SetIn(node, segs, v).Ok? && segs != [] && segs[0] == Index(i)
    ensures SetIn(SetIn(node, segs, v).value, segs, w).Ok?
    decreases |segs|, 0
  {
    var here := if node.Null? then Arr([]) else node;
    var r := SetIn(node, segs, v).value;
    var c := if i < |here.items| then here.items[i] else Null;
    SetRepeatable(c, segs[1..], v, w);
    assert r.items[i] == SetIn(c, segs[1..], v).value;
  }

  /** Two appends at the same path leave both values, in call order, after
      the elements that were there. */
  lemma AppendTwice(node: Value, segs: seq<Segment>, a: Value, b: Value)
    requires NoAppend(segs) && SetIn(node, segs + [Append], a).Ok?
    ensures SetIn(SetIn(node, segs + [Append], a).value, segs + [Append], b).Ok?
    ensures GetIn(SetIn(SetIn(node, segs + [Append], a).value, segs + [Append], b).value, segs) ==
      Ok(Arr(ExistingItems(node, segs) + [a, b]))
  {
    var once := SetIn(node, segs + [Append], a).value;
    var items := ExistingItems(node, segs);
    SetRepeatable(node, segs + [Append], a, b);
    AppendPushes(node, segs, a);
    ExistingArray(once, segs, items + [a]);
    AppendPushes(once, segs, b);
    PushTwo(items, a, b);
  }

  lemma ExistingArray(node: Value, segs: seq<Segment>, items: seq<Value>)
    requires GetIn(node, segs) == Ok(Arr(items))
    ensures ExistingItems(node, segs) == items
  {
  }

  lemma PushTwo<T>(s: seq<T>, a: T, b: T)
    ensures s + [a] + [b] == s + [a, b]
  {
  }

  /** Writing an index: an index inside the array overwrites that element
      and keeps the length; an index at or past the end pads with nulls so
      the array ends at the index; the other elements stay. */
  lemma SetAtIndex(node: Value, segs: seq<Segment>, i: nat, v: Value)
    requires NoAppend(segs) && SetIn(node, segs + [Index(i)], v).Ok?
    ensures var before := ExistingItems(node, segs);
      var after := GetIn(SetIn(node, segs + [Index(i)], v).value, segs);
      && after.Ok? && after.value.Arr?
      && |after.value.items| == (if i < |before| then |before| else i + 1)
      && after.value.items[i] == v
      && (forall j :: 0 <= j < |before| && j != i ==> after.value.items[j] == before[j])
      && (forall j :: |before| <= j < i ==> after.value.items[j] == Null)
  {
    SetBelow(node, segs, [Index(i)], v);
    assert [Index(i)][1..] == [];
  }

  /** Writing a key: the key reads as the value written, and every other key
      of the object reads as before (a missing object starts empty). */
  lemma SetAtKey(node: Value, segs: seq<Segment>, k: string, v: Value)
    requires NoAppend(segs) && SetIn(node, segs + [Key(k)], v).Ok?
    ensures var before := ExistingEntries(node, segs);
      var after := GetIn(SetIn(node, segs + [Key(k)], v).value, segs);
      && after.Ok? && after.value.Obj?
      && Lookup(after.value.entries, k) == Some(v)
      && (forall k' :: k' != k ==> Lookup(after.value.entries, k') == Lookup(before, k'))
      && Keys(after.value.entries) ==
         if k in Keys(before) then Keys(before) else Keys(before) + [k]
  {
    SetBelow(node, segs, [Key(k)], v);
    assert [Key(k)][1..] == [];
  }

  /** A write that succeeds had its append marker, if any, at the end. */
  lemma {:induction false} SetAppendLast(node: Value, segs: seq<Segment>, v: Value)
    requires SetIn(node, segs, v).Ok?
    ensures AppendOnlyLast(segs)
    decreases |segs|
  {
    if |segs| > 1 {
      var here := if node.Null? then FreshContainer(segs[0]) else node;
      match segs[0]
      case Key(k) => SetAppendLast(Lookup(here.entries, k).GetOr(Null), segs[1..], v);
      case Index(i) => SetAppendLast(if i < |here.items| then here.items[i] else Null, segs[1..], v);
    }
  }

  /** Two paths that part ways: at some step they name different slots of
      the same container. */
  predicate Diverge(p: seq<Segment>, q: seq<Segment>)
    decreases |p|
  {
    p != [] && q != [] && (p[0] != q[0] || Diverge(p[1..], q[1..]))
  }

  /** A write leaves every value that could be read at a diverging path as
      it was. */
  lemma {:induction false} SetFrame(node: Value, segs: seq<Segment>, v: Value, q: seq<Segment>)
    requires SetIn(node, segs, v).Ok? && Diverge(segs, q) && GetIn(node, q).Ok?
    ensures GetIn(SetIn(node, segs, v).value, q) == GetIn(node, q)
    decreases |segs|, 1
  {
    if segs[0] == q[0] {
      SetFrameStep(node, segs, v, q);
    } else {
      var r := SetIn(node, segs, v).value;
      var c := Child(node, q[0]).value;
      assert Child(r, q[0]) == Ok(c) by { SetKeepsSibling(node, segs, v, q[0]); }
    }
  }

  lemma {:induction false} SetFrameStep(node: Value, segs: seq<Segment>, v: Value, q: seq<Segment>)
    requires SetIn(node, segs, v).Ok? && Diverge(segs, q) && GetIn(node, q).Ok?
    requires segs[0] == q[0]
    ensures GetIn(SetIn(node, segs, v).value, q) == GetIn(node, q)
    decreases |segs|, 0
  {
    var r := SetIn(node, segs, v).value;
    var c := Child(node, q[0]).value;
    assert !node.Null?;
    assert Diverge(segs[1..], q[1..]);
    SetFrame(c, segs[1..], v, q[1..]);
    assert Child(r, q[0]) == Ok(SetIn(c, segs[1..], v).value);
  }

  /** One level down: a write through `segs[0]` keeps every other existing
      child of the same container. */
  lemma SetKeepsSibling(node: Value, segs: seq<Segment>, v: Value, other: Segment)
    requires segs != [] && SetIn(node, segs, v).Ok? && other != segs[0]
    requires Child(node, other).Ok?
    ensures Child(SetIn(node, segs, v).value, other) == Child(node, other)
  {
    var r := SetIn(node, segs, v).value;
    match segs[0]
    case Key(k) =>
      if other.Key? {
        assert Lookup(r.entries, other.name) == Lookup(node.entries, other.name);
      }
    case Index(i) =>
    case Append =>
  }

  // ---------------------------------------------------------------------
  // Deleting
  // ---------------------------------------------------------------------

  /** Whether `seg` can be deleted inside `node`: any key of an object,
      present or not, or an index inside an array. */
  predicate Removable(node: Value, seg: Segment) {
    match seg
    case Key(_) => node.Obj?
    case Index(i) => node.Arr? && i < |node.items|
    case Append => false
  }

  /** Deletes the slot `seg` names inside `node`: a key with its whole
      subtree, or an array element, later elements moving down by one. A key
      the object does not hold leaves it as it is; any other slot that is
      not there is the lookup's error. */
  function DropLeaf(node: Value, seg: Segment): (r: Result<Value, PathError>)
    ensures r.Ok? <==> Removable(node, seg)
    ensures Child(node, seg).Ok? ==> r.Ok?
    ensures r.Ok? && seg.Key? ==> r.value == Obj(Delete(node.entries, seg.name))
    ensures r.Ok? && seg.Key? ==> Child(r.value, seg) == Err(NotFound)
    ensures r.Ok? && seg.Key? && seg.name !in Keys(node.entries) ==> r.value == node
    ensures r.Ok? && seg.Index? ==> r.value == Arr(RemoveAt(node.items, seg.i))
    ensures r.Err? ==> r == Child(node, seg)
  {
    match seg
    case Key(k) =>
      (match node
       case Obj(es) =>
         LookupDelete(es, k, k);
         Ok(Obj(Delete(es, k)))
       case _ => Child(node, seg))
    case Index(i) =>
      (match Child(node, seg)
       case Err(e) => Err(e)
       case Ok(_) => Ok(Arr(RemoveAt(node.items, i))))
    case Append => Err(MisplacedAppend)
  }

  /** Puts `c` back in the slot `seg` names, which exists. */
  function Replace(node: Value, seg: Segment, c: Value): (r: Value)
    requires Child(node, seg).Ok?
    ensures Child(r, seg) == Ok(c)
  {
    match seg
    case Key(k) => Obj(Put(node.entries, k, c))
    case Index(i) => Arr(node.items[i := c])
  }

  /** Putting a child back keeps every other slot of the container, and what
      cannot be read there, as it was. */
  lemma ReplaceKeepsSibling(node: Value, seg: Segment, c: Value, other: Segment)
    requires Child(node, seg).Ok? && other != seg
    ensures Child(Replace(node, seg, c), other) == Child(node, other)
  {
    match seg
    case Key(k) => PutKeepsSibling(node.entries, k, c, other);
    case Index(i) => SetAtKeepsSibling(node.items, i, c, other);
  }

  lemma PutKeepsSibling(es: seq<Entry>, k: string, c: Value, other: Segment)
    requires k in Keys(es) && other != Key(k)
    ensures Child(Obj(Put(es, k, c)), other) == Child(Obj(es), other)
  {
    if other.Key? {
      assert Lookup(Put(es, k, c), other.name) == Lookup(es, other.name);
    }
  }

  lemma SetAtKeepsSibling(items: seq<Value>, i: nat, c: Value, other: Segment)
    requires i < |items| && other != Index(i)
    ensures Child(Arr(items[i := c]), other) == Child(Arr(items), other)
  {
  }

  /** Deletes the slot at the end of `segs` and puts every container on the
      way back. Nothing is created: a missing step is an error. A delete
      passes only through containers of the kind the first step needs, and
      leaves the same kind of container. */
  function RemoveIn(node: Value, segs: seq<Segment>): (r: Result<Value, PathError>)
    requires segs != []
    ensures r.Ok? ==> Fits(node, segs[0]) && Fits(r.value, segs[0])
    ensures r.Err? ==> r.error in {NotFound, TypeMismatch, MisplacedAppend}
    decreases |segs|
  {
    if |segs| == 1 then DropLeaf(node, segs[0])
    else
      match Child(node, segs[0])
      case Err(e) => Err(e)
      case Ok(c) =>
        match RemoveIn(c, segs[1..])
        case Err(e) => Err(e)
        case Ok(c') => Ok(Replace(node, segs[0], c'))
  }

  /** A delete succeeds exactly when every step above the leaf exists and
      the leaf is a key of the object there or an index inside the array
      there; deleting a key that is not there changes nothing. Whatever the
      path reads is always deletable, and an index leaf must read. A failed
      delete fails with the error of the step that is missing or of the
      wrong kind. */
  lemma RemoveDefined(node: Value, segs: seq<Segment>)
    requires segs != []
    ensures var parent, leaf := segs[..|segs| - 1], segs[|segs| - 1];
      RemoveIn(node, segs).Ok? <==> GetIn(node, parent).Ok? && Removable(GetIn(node, parent).value, leaf)
    ensures var parent, leaf := segs[..|segs| - 1], segs[|segs| - 1];
      RemoveIn(node, segs).Err? ==>
        RemoveIn(node, segs).error ==
          if GetIn(node, parent).Err? then GetIn(node, parent).error
          else Child(GetIn(node, parent).value, leaf).error
    ensures GetIn(node, segs).Ok? ==> RemoveIn(node, segs).Ok?
    ensures RemoveIn(node, segs).Ok? && !segs[|segs| - 1].Key? ==> GetIn(node, segs).Ok?
  {
    RemoveAtLast(node, segs);
    GetInLast(node, segs);
  }

  /** The delete, seen from the container of the leaf: it succeeds exactly
      when deleting the leaf there does, and otherwise fails the same way. */
  lemma {:induction false} RemoveAtLast(node: Value, segs: seq<Segment>)
    requires segs != []
    ensures var r := AtParent(node, segs);
      (RemoveIn(node, segs).Ok? <==> r.Ok?) && (r.Err? ==> RemoveIn(node, segs) == r)
    decreases |segs|
  {
    if |segs| == 1 {
      assert segs[..0] == [];
    } else {
      var parent := segs[..|segs| - 1];
      DropLastHead(segs);
      assert segs[1..][..|segs[1..]| - 1] == parent[1..];
      match Child(node, segs[0])
      case Err(e) =>
        assert GetIn(node, parent) == Err(e);
      case Ok(c) =>
        assert GetIn(node, parent) == GetIn(c, parent[1..]);
        assert AtParent(node, segs) == AtParent(c, segs[1..]);
        RemoveAtLast(c, segs[1..]);
    }
  }

  /** What deleting the leaf of `segs` inside its container gives, or the
      error of reading that container. */
  function AtParent(node: Value, segs: seq<Segment>): Result<Value, PathError>
    requires segs != []
  {
    match GetIn(node, segs[..|segs| - 1])
    case Err(e) => Err(e)
    case Ok(p) => DropLeaf(p, segs[|segs| - 1])
  }

  /** A read, seen from the container of its last step. */
  lemma GetInLast(node: Value, segs: seq<Segment>)
    requires segs != []
    ensures var parent, leaf := segs[..|segs| - 1], segs[|segs| - 1];
      GetIn(node, segs) ==
        match GetIn(node, parent)
        case Err(e) => Err(e)
        case Ok(p) => Child(p, leaf)
  {
    var parent, leaf := segs[..|segs| - 1], segs[|segs| - 1];
    SplitLast(segs);
    GetInConcat(node, parent, [leaf]);
    assert [leaf][1..] == [];
  }

  /** A delete that succeeds although the path reads nothing has deleted a
      missing key, and leaves the tree as it was. */
  lemma RemoveMissing(node: Value, segs: seq<Segment>)
    requires segs != [] && RemoveIn(node, segs).Ok? && GetIn(node, segs).Err?
    ensures segs[|segs| - 1].Key?
    ensures RemoveIn(node, segs) == Ok(node)
  {
    var parent, leaf := segs[..|segs| - 1], segs[|segs| - 1];
    RemoveAtLast(node, segs);
    GetInLast(node, segs);
    var p := GetIn(node, parent).value;
    assert DropLeaf(p, leaf).Ok? && Child(p, leaf).Err?;
    assert leaf.Key? && leaf.name !in Keys(p.entries);
    SplitLast(segs);
    RemoveAbsentKey(node, parent, leaf.name);
  }

  /** Deleting a key the object at the parent path does not hold, or that
      is already gone, changes nothing. */
  lemma {:induction false} RemoveAbsentKey(node: Value, parent: seq<Segment>, k: string)
    requires GetIn(node, parent).Ok? && GetIn(node, parent).value.Obj?
    requires k !in Keys(GetIn(node, parent).value.entries)
    ensures RemoveIn(node, parent + [Key(k)]) == Ok(node)
    decreases |parent|
  {
    if parent == [] {
      assert [Key(k)][1..] == [];
    } else {
      var segs := parent + [Key(k)];
      ConsConcat(parent, [Key(k)]);
      var c := Child(node, parent[0]).value;
      RemoveAbsentKey(c, parent[1..], k);
      assert RemoveIn(node, segs) == Ok(Replace(node, parent[0], c));
      match parent[0]
      case Key(k0) => PutSame(node.entries, k0, c);
      case Index(i) => assert node.items[i := c] == node.items;
    }
  }

  /** After a delete whose leaf is a key, the path no longer reads. */
  lemma RemoveKeyGone(node: Value, parent: seq<Segment>, k: string)
    requires RemoveIn(node, parent + [Key(k)]).Ok?
    ensures var once := RemoveIn(node, parent + [Key(k)]).value;
      && GetIn(once, parent).Ok? && GetIn(once, parent).value.Obj?
      && k !in Keys(GetIn(once, parent).value.entries)
      && GetIn(once, parent + [Key(k)]) == Err(NotFound)
  {
    var segs := parent + [Key(k)];
    var once := RemoveIn(node, segs).value;
    assert segs[..|segs| - 1] == parent && segs[|segs| - 1] == Key(k);
    RemoveAtParent(node, segs);
    GetInConcat(once, parent, [Key(k)]);
    assert [Key(k)][1..] == [];
  }

  /** A key that was written and then deleted no longer reads. */
  lemma RemoveAfterSet(node: Value, parent: seq<Segment>, k: string, v: Value)
    requires SetIn(node, parent + [Key(k)], v).Ok?
    ensures RemoveIn(SetIn(node, parent + [Key(k)], v).value, parent + [Key(k)]).Ok?
    ensures var t := SetIn(node, parent + [Key(k)], v).value;
      GetIn(RemoveIn(t, parent + [Key(k)]).value, parent + [Key(k)]) == Err(NotFound)
  {
    var segs := parent + [Key(k)];
    var t := SetIn(node, segs, v).value;
    SetAppendLast(node, segs, v);
    assert NoAppend(segs) by {
      forall i | 0 <= i < |segs| ensures !segs[i].Append? {
        if i == |segs| - 1 { assert segs[i] == Key(k); }
      }
    }
    GetAfterSet(node, segs, v);
    RemoveAtLast(t, segs);
    GetInLast(t, segs);
    assert segs[..|segs| - 1] == parent && segs[|segs| - 1] == Key(k);
    RemoveKeyGone(t, parent, k);
  }

  /** Deleting a key twice is deleting it once. */
  lemma RemoveKeyTwice(node: Value, parent: seq<Segment>, k: string)
    requires RemoveIn(node, parent + [Key(k)]).Ok?
    ensures var once := RemoveIn(node, parent + [Key(k)]).value;
      RemoveIn(once, parent + [Key(k)]) == Ok(once)
  {
    RemoveKeyGone(node, parent, k);
    RemoveAbsentKey(RemoveIn(node, parent + [Key(k)]).value, parent, k);
  }

  /** A delete through `a` and then `b` leaves at `a` exactly what deleting
      `b` inside the old value at `a` gives: the containers above are only
      walked, and put back around the changed child. */
  lemma {:induction false} RemoveBelow(node: Value, a: seq<Segment>, b: seq<Segment>)
    requires b != [] && RemoveIn(node, a + b).Ok?
    ensures GetIn(node, a).Ok? && RemoveIn(GetIn(node, a).value, b).Ok?
    ensures GetIn(RemoveIn(node, a + b).value, a) == RemoveIn(GetIn(node, a).value, b)
    decreases |a|
  {
    var p := a + b;
    if a == [] {
      assert p == b;
    } else {
      ConsConcat(a, b);
      var c, c' := RemoveStep(node, p);
      RemoveBelow(c, a[1..], b);
      assert Child(Replace(node, a[0], c'), a[0]) == Ok(c');
    }
  }

  /** A delete changes only the container the leaf sits in, and that one as
      `DropLeaf` says. */
  lemma RemoveAtParent(node: Value, segs: seq<Segment>)
    requires segs != [] && RemoveIn(node, segs).Ok?
    ensures var parent := segs[..|segs| - 1];
      && GetIn(node, parent).Ok?
      && DropLeaf(GetIn(node, parent).value, segs[|segs| - 1]).Ok?
      && GetIn(RemoveIn(node, segs).value, parent) ==
         DropLeaf(GetIn(node, parent).value, segs[|segs| - 1])
  {
    SplitLast(segs);
    RemoveBelow(node, segs[..|segs| - 1], [segs[|segs| - 1]]);
  }

  /** A delete leaves everything at a path that parts from it above the
      leaf's container exactly as it was, including what cannot be read. */
  lemma {:induction false} RemoveFrame(node: Value, segs: seq<Segment>, q: seq<Segment>)
    requires segs != [] && RemoveIn(node, segs).Ok? && Diverge(segs[..|segs| - 1], q)
    ensures GetIn(RemoveIn(node, segs).value, q) == GetIn(node, q)
    decreases |segs|
  {
    DropLastHead(segs);
    var c, c' := RemoveStep(node, segs);
    var r := RemoveIn(node, segs).value;
    if segs[0] == q[0] {
      RemoveFrame(c, segs[1..], q[1..]);
      assert Child(r, q[0]) == Ok(c');
    } else {
      ReplaceKeepsSibling(node, segs[0], c', q[0]);
    }
  }

  /** The path without its last step, seen from its second step. */
  lemma DropLastHead<T>(s: seq<T>)
    requires |s| > 1
    ensures s[..|s| - 1][0] == s[0] && s[..|s| - 1][1..] == s[1..][..|s| - 2]
  {
  }

  /** One level of a delete below the first step: the child there loses
      what the rest of the path names and is put back. */
  lemma RemoveStep(node: Value, segs: seq<Segment>) returns (c: Value, c': Value)
    requires |segs| > 1 && RemoveIn(node, segs).Ok?
    ensures Child(node, segs[0]) == Ok(c)
    ensures RemoveIn(c, segs[1..]) == Ok(c')
    ensures RemoveIn(node, segs) == Ok(Replace(node, segs[0], c'))
  {
    c := Child(node, segs[0]).value;
    c' := RemoveIn(c, segs[1..]).value;
  }

  // ---------------------------------------------------------------------
  // Well-formedness
  // ---------------------------------------------------------------------

  lemma WellFormedChild(node: Value, seg: Segment)
    requires WellFormed(node) && Child(node, seg).Ok?
    ensures WellFormed(Child(node, seg).value)
  {
    if seg.Key? {
      var es := node.entries;
      var e := Entry(seg.name, Child(node, seg).value);
      var i :| 0 <= i < |es| && es[i] == e;
    }
  }

  lemma WellFormedPut(es: seq<Entry>, k: string, c: Value)
    requires WellFormed(Obj(es)) && WellFormed(c)
    ensures WellFormed(Obj(Put(es, k, c)))
  {
    PutKeepsDistinct(es, k, c);
    var r := Put(es, k, c);
    forall i | 0 <= i < |r| ensures WellFormed(r[i].value) {
      if r[i].key == k {
        assert IndexOf(r, k).Some?;
        assert Lookup(r, k) == Some(c);
        assert r[i].value == c by { KeyAt(r, i); }
      } else {
        KeyAt(r, i);
        assert Lookup(es, r[i].key) == Some(r[i].value);
        var e := Entry(r[i].key, r[i].value);
        assert e in es;
        var j :| 0 <= j < |es| && es[j] == e;
      }
    }
  }

  /** With distinct keys, the entry at position `i` is what its key reads. */
  lemma KeyAt(es: seq<Entry>, i: nat)
    requires DistinctKeys(es) && i < |es|
    ensures Lookup(es, es[i].key) == Some(es[i].value)
  {
    var k := es[i].key;
    assert k in Keys(es) by { assert Keys(es)[i] == k; }
    var j := IndexOf(es, k).value;
    assert j == i;
  }

  lemma WellFormedSetAt(items: seq<Value>, i: nat, c: Value)
    requires WellFormed(Arr(items)) && WellFormed(c)
    ensures WellFormed(Arr(SetAt(items, i, c)))
  {
    var r := SetAt(items, i, c);
    forall j | 0 <= j < |r| ensures WellFormed(r[j]) {
      if j < |items| && j != i {
        assert r[j] == items[j];
      }
    }
  }

  /** A write of a well-formed value keeps the tree well-formed. */
  lemma {:induction false} SetPreservesWellFormed(node: Value, segs: seq<Segment>, v: Value)
    requires WellFormed(node) && WellFormed(v) && SetIn(node, segs, v).Ok?
    ensures WellFormed(SetIn(node, segs, v).value)
    decreases |segs|
  {
    if segs != [] {
      var here := if node.Null? then FreshContainer(segs[0]) else node;
      match segs[0]
      case Append =>
        var r := here.items + [v];
        forall j | 0 <= j < |r| ensures WellFormed(r[j]) {
          if j < |here.items| { assert r[j] == here.items[j]; }
        }
      case Key(k) =>
        var child := Lookup(here.entries, k).GetOr(Null);
        if k in Keys(here.entries) { WellFormedChild(here, segs[0]); }
        SetPreservesWellFormed(child, segs[1..], v);
        WellFormedPut(here.entries, k, SetIn(child, segs[1..], v).value);
      case Index(i) =>
        var child := if i < |here.items| then here.items[i] else Null;
        SetPreservesWellFormed(child, segs[1..], v);
        WellFormedSetAt(here.items, i, SetIn(child, segs[1..], v).value);
    }
  }

  /** A delete keeps the tree well-formed. */
  lemma {:induction false} RemovePreservesWellFormed(node: Value, segs: seq<Segment>)
    requires segs != [] && WellFormed(node) && RemoveIn(node, segs).Ok?
    ensures WellFormed(RemoveIn(node, segs).value)
    decreases |segs|
  {
    var r := RemoveIn(node, segs).value;
    if |segs| == 1 {
      match segs[0]
      case Key(k) =>
        var es := node.entries;
        DeleteKeepsDistinct(es, k);
        forall i | 0 <= i < |r.entries| ensures WellFormed(r.entries[i].value) {
          assert r.entries[i] in es;
        }
      case Index(i) =>
        forall j | 0 <= j < |r.items| ensures WellFormed(r.items[j]) {
          assert r.items[j] == if j < i then node.items[j] else node.items[j + 1];
        }
    } else {
      var c := Child(node, segs[0]).value;
      WellFormedChild(node, segs[0]);
      RemovePreservesWellFormed(c, segs[1..]);
      var c' := RemoveIn(c, segs[1..]).value;
      match segs[0]
      case Key(k) =>
        WellFormedPut(node.entries, k, c');
      case Index(i) =>
        WellFormedSetAt(node.items, i, c');
        assert SetAt(node.items, i, c') == node.items[i := c'];
    }
  }

  // ---------------------------------------------------------------------
  // Undoing a write
  // ---------------------------------------------------------------------

  lemma {:induction false} DeleteAfterAppend(es: seq<Entry>, k: string, v: Value)
    requires k !in Keys(es)
    ensures Delete(es + [Entry(k, v)], k) == es
    decreases |es|
  {
    if es == [] {
      assert Delete([Entry(k, v)], k) == Delete([], k);
    } else {
      assert (es + [Entry(k, v)])[1..] == es[1..] + [Entry(k, v)];
      assert Keys(es) == [es[0].key] + Keys(es[1..]);
      DeleteAfterAppend(es[1..], k, v);
    }
  }

  /** Overwriting a key with the value it already has changes nothing. */
  lemma PutSame(es: seq<Entry>, k: string, x: Value)
    requires Lookup(es, k) == Some(x)
    ensures Put(es, k, x) == es
  {
  }

  /** Adding a new key below existing containers and deleting it again gives
      back the tree it started from. */
  lemma {:induction false} RemoveUndoesSet(node: Value, segs: seq<Segment>, k: string, v: Value)
    requires NoAppend(segs) && WellFormed(node)
    requires GetIn(node, segs).Ok? && GetIn(node, segs).value.Obj?
    requires k !in Keys(GetIn(node, segs).value.entries)
    ensures SetIn(node, segs + [Key(k)], v).Ok?
    ensures RemoveIn(SetIn(node, segs + [Key(k)], v).value, segs + [Key(k)]) == Ok(node)
    decreases |segs|, 1
  {
    if segs == [] {
      assert segs + [Key(k)] == [Key(k)];
      RemoveUndoesSetHere(node, k, v);
    } else {
      match segs[0]
      case Key(k0) => RemoveUndoesSetKey(node, segs, k, v, k0);
      case Index(i) => RemoveUndoesSetIndex(node, segs, k, v, i);
    }
  }

  lemma RemoveUndoesSetHere(node: Value, k: string, v: Value)
    requires node.Obj? && k !in Keys(node.entries)
    ensures SetIn(node, [Key(k)], v).Ok?
    ensures RemoveIn(SetIn(node, [Key(k)], v).value, [Key(k)]) == Ok(node)
  {
    var es := node.entries;
    assert [Key(k)][1..] == [];
    PutNewKeyShape(es, k, v);
    DeleteAfterAppend(es, k, v);
  }

  lemma {:induction false} RemoveUndoesSetKey(node: Value, segs: seq<Segment>, k: string, v: Value, k0: string)
    requires NoAppend(segs) && WellFormed(node) && segs != [] && segs[0] == Key(k0)
    requires GetIn(node, segs).Ok? && GetIn(node, segs).value.Obj?
    requires k !in Keys(GetIn(node, segs).value.entries)
    ensures SetIn(node, segs + [Key(k)], v).Ok?
    ensures RemoveIn(SetIn(node, segs + [Key(k)], v).value, segs + [Key(k)]) == Ok(node)
    decreases |segs|, 0
  {
    var p := segs + [Key(k)];
    ConsConcat(segs, [Key(k)]);
    assert NoAppend(segs[1..]);
    var c := Child(node, segs[0]).value;
    WellFormedChild(node, segs[0]);
    RemoveUndoesSet(c, segs[1..], k, v);
    var c1 := SetIn(c, p[1..], v).value;
    var r := SetIn(node, p, v).value;
    assert Lookup(node.entries, k0) == Some(c);
    assert r == Obj(Put(node.entries, k0, c1));
    assert Child(r, segs[0]) == Ok(c1);
    assert RemoveIn(r, p) == Ok(Replace(r, segs[0], c));
    assert Put(Put(node.entries, k0, c1), k0, c) == node.entries by {
      PutTwice(node.entries, k0, c1, c);
      PutSame(node.entries, k0, c);
    }
  }

  lemma {:induction false} RemoveUndoesSetIndex(node: Value, segs: seq<Segment>, k: string, v: Value, i: nat)
    requires NoAppend(segs) && WellFormed(node) && segs != [] && segs[0] == Index(i)
    requires GetIn(node, segs).Ok? && GetIn(node, segs).value.Obj?
    requires k !in Keys(GetIn(node, segs).value.entries)
    ensures SetIn(node, segs + [Key(k)], v).Ok?
    ensures RemoveIn(SetIn(node, segs + [Key(k)], v).value, segs + [Key(k)]) == Ok(node)
    decreases |segs|, 0
  {
    var p := segs + [Key(k)];
    ConsConcat(segs, [Key(k)]);
    assert NoAppend(segs[1..]);
    var c := Child(node, segs[0]).value;
    WellFormedChild(node, segs[0]);
    RemoveUndoesSet(c, segs[1..], k, v);
    var c1 := SetIn(c, p[1..], v).value;
    var r := SetIn(node, p, v).value;
    assert r == Arr(node.items[i := c1]);
    assert RemoveIn(r, p) == Ok(Replace(r, segs[0], c));
    assert node.items[i := c1][i := c] == node.items;
  }

  lemma PutNewKeyShape(es: seq<Entry>, k: string, v: Value)
    requires k !in Keys(es)
    ensures Put(es, k, v) == es + [Entry(k, v)]
  {
  }

  lemma PutTwice(es: seq<Entry>, k: string, a: Value, b: Value)
    requires k in Keys(es)
    ensures Put(Put(es, k, a), k, b) == Put(es, k, b)
  {
    var i := IndexOf(es, k).value;
    var r := Put(es, k, a);
    assert r == es[i := Entry(k, a)];
    assert Keys(r) == Keys(es);
    IndexOfSameKeys(r, es, k);
    assert Put(r, k, b) == r[i := Entry(k, b)];
    assert Put(es, k, b) == es[i := Entry(k, b)];
    assert r[i := Entry(k, b)] == es[i := Entry(k, b)];
  }
}
