/** The document scenarios of the path engine's unit tests, step by step on
    concrete trees. Each write or delete is proved in two parts: what it does
    to the parsed segments, then that the path text parses to them. */
module Scenarios {
  import opened Results
  import opened Values
  import opened PathSyntax
  import opened PathOps
  import opened JsonPath
  import opened ScenarioPaths

  // ---------------------------------------------------------------------
  // Set and remove on keys
  // ---------------------------------------------------------------------

  /** An empty object: the root exists, `$.foo` does not. */
  lemma EmptyObjectPaths()
    ensures PathExists(Obj([]), "$")
    ensures !PathExists(Obj([]), "$.foo")
  {
    ParseRoot();
    ParseRootFoo();
  }

  lemma WriteFoo()
    ensures Set(Obj([]), "foo", Str("bar")) == Ok(Obj([Entry("foo", Str("bar"))]))
  {
    assert IsDotName("foo");
    SetBareKey([], "foo", Str("bar"));
    assert Put([], "foo", Str("bar")) == [Entry("foo", Str("bar"))] by {
      PutNewKeyShape([], "foo", Str("bar"));
    }
  }

  /** After the first write, `$.foo` exists and neither `bar` nor `bar.baz` does. */
  lemma AfterWriteFoo()
    ensures PathExists(Obj([Entry("foo", Str("bar"))]), "$.foo")
    ensures !PathExists(Obj([Entry("foo", Str("bar"))]), "bar")
    ensures !PathExists(Obj([Entry("foo", Str("bar"))]), "bar.baz")
  {
    ParseRootFoo();
    ParseBar();
    ParseBarBaz();
    ReadAfterWriteFoo();
  }

  lemma ReadAfterWriteFoo()
    ensures GetIn(Obj([Entry("foo", Str("bar"))]), [Key("foo")]) == Ok(Str("bar"))
    ensures GetIn(Obj([Entry("foo", Str("bar"))]), [Key("bar")]) == Err(NotFound)
    ensures GetIn(Obj([Entry("foo", Str("bar"))]), [Key("bar"), Key("baz")]) == Err(NotFound)
  {
    assert [Key("foo")][1..] == [];
    assert Lookup([Entry("foo", Str("bar"))], "bar") == None;
  }

  lemma WriteBazIntoNull()
    ensures SetIn(Null, [Key("baz")], Str("ban")) == Ok(Obj([Entry("baz", Str("ban"))]))
  {
    var segs := [Key("baz")];
    assert segs[1..] == [];
    assert Put([], "baz", Str("ban")) == [Entry("baz", Str("ban"))] by {
      PutNewKeyShape([], "baz", Str("ban"));
    }
  }

  lemma WriteBarBazSegments()
    ensures SetIn(Obj([Entry("foo", Str("bar"))]), [Key("bar"), Key("baz")], Str("ban")) ==
      Ok(Obj([Entry("foo", Str("bar")), Entry("bar", Obj([Entry("baz", Str("ban"))]))]))
  {
    var es := [Entry("foo", Str("bar"))];
    var c := Obj([Entry("baz", Str("ban"))]);
    WriteBazIntoNull();
    assert "bar" !in Keys(es);
    SetNewKey(es, "bar", [Key("baz")], Str("ban"), c);
    Pair(Key("bar"), Key("baz"));
    Pair(Entry("foo", Str("bar")), Entry("bar", c));
  }

  /** Writing two keys deep under a missing key creates the middle object. */
  lemma WriteBarBaz()
    ensures Set(Obj([Entry("foo", Str("bar"))]), "bar.baz", Str("ban")) ==
      Ok(Obj([Entry("foo", Str("bar")), Entry("bar", Obj([Entry("baz", Str("ban"))]))]))
  {
    ParseBarBaz();
    WriteBarBazSegments();
  }

  lemma RemoveFoo()
    ensures Remove(Obj([Entry("foo", Str("bar")), Entry("bar", Obj([Entry("baz", Str("ban"))]))]), "foo") ==
      Ok(Obj([Entry("bar", Obj([Entry("baz", Str("ban"))]))]))
  {
    ParseFoo();
    var es := [Entry("foo", Str("bar")), Entry("bar", Obj([Entry("baz", Str("ban"))]))];
    assert es[1..] == [Entry("bar", Obj([Entry("baz", Str("ban"))]))];
    assert Delete(es[1..], "foo") == es[1..];
  }

  lemma RemoveBarBazSegments()
    ensures RemoveIn(Obj([Entry("bar", Obj([Entry("baz", Str("ban"))]))]), [Key("bar"), Key("baz")]) ==
      Ok(Obj([Entry("bar", Obj([]))]))
  {
    var segs := [Key("bar"), Key("baz")];
    assert segs[1..] == [Key("baz")];
    assert Delete([Entry("baz", Str("ban"))], "baz") == [];
    var es := [Entry("bar", Obj([Entry("baz", Str("ban"))]))];
    assert Put(es, "bar", Obj([])) == [Entry("bar", Obj([]))];
  }

  /** Deleting the only key of a nested object leaves it empty, not missing. */
  lemma RemoveBarBaz()
    ensures Remove(Obj([Entry("bar", Obj([Entry("baz", Str("ban"))]))]), "bar.baz") ==
      Ok(Obj([Entry("bar", Obj([]))]))
  {
    ParseBarBaz();
    RemoveBarBazSegments();
  }

  lemma RemoveBar()
    ensures Remove(Obj([Entry("bar", Obj([]))]), "bar") == Ok(Obj([]))
  {
    ParseBar();
    assert Delete([Entry("bar", Obj([]))], "bar") == [];
  }

  // ---------------------------------------------------------------------
  // One step of a write or delete
  // ---------------------------------------------------------------------

  /** A write whose first step is a key, taken in an object. */
  lemma SetKeyStep(es: seq<Entry>, k: string, rest: seq<Segment>, v: Value, c: Value)
    requires SetIn(Lookup(es, k).GetOr(Null), rest, v) == Ok(c)
    ensures SetIn(Obj(es), [Key(k)] + rest, v) == Ok(Obj(Put(es, k, c)))
  {
    var segs := [Key(k)] + rest;
    assert segs[0] == Key(k) && segs[1..] == rest;
  }

  /** A write whose first step is an index, taken in an array. */
  lemma SetIndexStep(items: seq<Value>, i: nat, rest: seq<Segment>, v: Value, c: Value)
    requires SetIn(if i < |items| then items[i] else Null, rest, v) == Ok(c)
    ensures SetIn(Arr(items), [Index(i)] + rest, v) == Ok(Arr(SetAt(items, i, c)))
  {
    var segs := [Index(i)] + rest;
    assert segs[0] == Index(i) && segs[1..] == rest;
  }

  /** A write under a key the object lacks appends that key. */
  lemma SetNewKey(es: seq<Entry>, k: string, rest: seq<Segment>, v: Value, c: Value)
    requires k !in Keys(es) && SetIn(Null, rest, v) == Ok(c)
    ensures SetIn(Obj(es), [Key(k)] + rest, v) == Ok(Obj(es + [Entry(k, c)]))
  {
    assert Lookup(es, k).GetOr(Null) == Null;
    SetKeyStep(es, k, rest, v, c);
    PutNewKeyShape(es, k, c);
  }

  /** A write under a key the object holds rewrites that key's value. */
  lemma SetOldKey(es: seq<Entry>, k: string, rest: seq<Segment>, v: Value, c: Value)
    requires Lookup(es, k).Some? && SetIn(Lookup(es, k).value, rest, v) == Ok(c)
    ensures SetIn(Obj(es), [Key(k)] + rest, v) == Ok(Obj(Put(es, k, c)))
  {
    SetKeyStep(es, k, rest, v, c);
  }

  /** A write at an index inside the array rewrites that element. */
  lemma SetOldIndex(items: seq<Value>, i: nat, rest: seq<Segment>, v: Value, c: Value)
    requires i < |items| && SetIn(items[i], rest, v) == Ok(c)
    ensures SetIn(Arr(items), [Index(i)] + rest, v) == Ok(Arr(items[i := c]))
  {
    SetIndexStep(items, i, rest, v, c);
  }

  /** A write at an index past the end pads with nulls up to it. */
  lemma SetNewIndex(items: seq<Value>, i: nat, rest: seq<Segment>, v: Value, c: Value)
    requires |items| <= i && SetIn(Null, rest, v) == Ok(c)
    ensures SetIn(Arr(items), [Index(i)] + rest, v) == Ok(Arr(items + Nulls(i - |items|) + [c]))
  {
    SetIndexStep(items, i, rest, v, c);
  }

  /** A null in the way of a write is first replaced by a fresh container. */
  lemma SetNull(segs: seq<Segment>, v: Value)
    requires segs != []
    ensures SetIn(Null, segs, v) == SetIn(FreshContainer(segs[0]), segs, v)
  {
  }

  /** A write through a missing key creates an object holding just that key. */
  lemma SetKeyIntoNull(k: string, rest: seq<Segment>, v: Value, c: Value)
    requires SetIn(Null, rest, v) == Ok(c)
    ensures SetIn(Null, [Key(k)] + rest, v) == Ok(Obj([Entry(k, c)]))
  {
    SetNull([Key(k)] + rest, v);
    SetNewKey([], k, rest, v, c);
    assert [] + [Entry(k, c)] == [Entry(k, c)];
  }

  /** A write through a missing index creates an array padded with nulls up
      to that index. */
  lemma SetIndexIntoNull(i: nat, rest: seq<Segment>, v: Value, c: Value)
    requires SetIn(Null, rest, v) == Ok(c)
    ensures SetIn(Null, [Index(i)] + rest, v) == Ok(Arr(Nulls(i) + [c]))
  {
    SetNull([Index(i)] + rest, v);
    SetNewIndex([], i, rest, v, c);
    assert [] + Nulls(i) + [c] == Nulls(i) + [c];
  }

  /** A delete below a key rewrites that key's value. */
  lemma RemoveUnderKey(es: seq<Entry>, k: string, rest: seq<Segment>, c: Value)
    requires Lookup(es, k).Some? && rest != [] && RemoveIn(Lookup(es, k).value, rest) == Ok(c)
    ensures RemoveIn(Obj(es), [Key(k)] + rest) == Ok(Obj(Put(es, k, c)))
  {
    var segs := [Key(k)] + rest;
    assert |segs| > 1 && segs[0] == Key(k) && segs[1..] == rest;
    ChildKey(es, k);
    assert RemoveIn(Obj(es), segs) == Ok(Replace(Obj(es), Key(k), c));
  }

  lemma ChildKey(es: seq<Entry>, k: string)
    requires Lookup(es, k).Some?
    ensures Child(Obj(es), Key(k)) == Ok(Lookup(es, k).value)
  {
  }

  /** An object with one entry, rewritten under its own key. */
  lemma PutOnly(k: string, x: Value, c: Value)
    ensures Put([Entry(k, x)], k, c) == [Entry(k, c)]
  {
    assert IndexOf([Entry(k, x)], k) == Some(0);
  }

  lemma LookupOnly(k: string, x: Value)
    ensures Lookup([Entry(k, x)], k) == Some(x)
  {
    assert IndexOf([Entry(k, x)], k) == Some(0);
  }

  lemma Pair<T>(a: T, b: T)
    ensures [a] + [b] == [a, b]
  {
  }

  lemma FirstEntry(e: Entry)
    ensures [] + [e] == [e]
  {
  }

  /** No padding before index 0. */
  lemma NoPadding(c: Value)
    ensures Nulls(0) + [c] == [c]
  {
  }

  lemma OtherKey(k: string, x: Value, k': string)
    requires k != k'
    ensures k' !in Keys([Entry(k, x)])
  {
  }

  lemma ConsTwo<T>(a: T, b: T, c: seq<T>)
    ensures [a] + ([b] + c) == [a, b] + c
  {
  }

  lemma ConsThree<T>(a: T, b: T, c: T, y: seq<T>, z: seq<T>)
    ensures [a] + ([b, c] + (y + z)) == [a, b, c] + y + z
  {
  }

  // ---------------------------------------------------------------------
  // Set and remove on arrays
  // ---------------------------------------------------------------------

  lemma WriteFooBarSegments()
    ensures SetIn(Obj([]), [Key("foo"), Key("bar")], Arr([Int(1), Int(2)])) ==
      Ok(Obj([Entry("foo", Obj([Entry("bar", Arr([Int(1), Int(2)]))]))]))
  {
    var v := Arr([Int(1), Int(2)]);
    assert SetIn(Null, [], v) == Ok(v);
    SetNull([Key("bar")], v);
    SetNewKey([], "bar", [], v, v);
    assert [Key("bar")] + [] == [Key("bar")];
    assert [] + [Entry("bar", v)] == [Entry("bar", v)];
    SetNewKey([], "foo", [Key("bar")], v, Obj([Entry("bar", v)]));
    assert [Key("foo")] + [Key("bar")] == [Key("foo"), Key("bar")];
    assert [] + [Entry("foo", Obj([Entry("bar", v)]))] == [Entry("foo", Obj([Entry("bar", v)]))];
  }

  /** Writing an array two keys deep into an empty object. */
  lemma WriteFooBar()
    ensures Set(Obj([]), "foo.bar", Arr([Int(1), Int(2)])) ==
      Ok(Obj([Entry("foo", Obj([Entry("bar", Arr([Int(1), Int(2)]))]))]))
  {
    ParseFooBar();
    WriteFooBarSegments();
  }

  lemma WriteFirstItemSegments()
    ensures SetIn(Obj([Entry("foo", Obj([Entry("bar", Arr([Int(1), Int(2)]))]))]),
                  [Key("foo"), Key("bar"), Index(0)], Int(9)) ==
      Ok(Obj([Entry("foo", Obj([Entry("bar", Arr([Int(9), Int(2)]))]))]))
  {
    assert SetIn(Int(1), [], Int(9)) == Ok(Int(9));
    SetOldIndex([Int(1), Int(2)], 0, [], Int(9), Int(9));
    assert [Index(0)] + [] == [Index(0)];
    assert [Int(1), Int(2)][0 := Int(9)] == [Int(9), Int(2)];
    SetOldKey([Entry("bar", Arr([Int(1), Int(2)]))], "bar", [Index(0)], Int(9), Arr([Int(9), Int(2)]));
    PutOnly("bar", Arr([Int(1), Int(2)]), Arr([Int(9), Int(2)]));
    SetOldKey([Entry("foo", Obj([Entry("bar", Arr([Int(1), Int(2)]))]))], "foo",
      [Key("bar"), Index(0)], Int(9), Obj([Entry("bar", Arr([Int(9), Int(2)]))]));
    PutOnly("foo", Obj([Entry("bar", Arr([Int(1), Int(2)]))]), Obj([Entry("bar", Arr([Int(9), Int(2)]))]));
    assert [Key("bar")] + [Index(0)] == [Key("bar"), Index(0)];
    assert [Key("foo")] + [Key("bar"), Index(0)] == [Key("foo"), Key("bar"), Index(0)];
  }

  /** Writing at an index inside an array overwrites that element. */
  lemma WriteFirstItem()
    ensures Set(Obj([Entry("foo", Obj([Entry("bar", Arr([Int(1), Int(2)]))]))]), "foo.bar[0]", Int(9)) ==
      Ok(Obj([Entry("foo", Obj([Entry("bar", Arr([Int(9), Int(2)]))]))]))
  {
    ParseFooBarFirst();
    WriteFirstItemSegments();
  }

  lemma AppendItemSegments()
    ensures SetIn(Obj([Entry("foo", Obj([Entry("bar", Arr([Int(9), Int(2)]))]))]),
                  [Key("foo"), Key("bar"), Append], Int(8)) ==
      Ok(Obj([Entry("foo", Obj([Entry("bar", Arr([Int(9), Int(2), Int(8)]))]))]))
  {
    assert [Int(9), Int(2)] + [Int(8)] == [Int(9), Int(2), Int(8)];
    assert SetIn(Arr([Int(9), Int(2)]), [Append], Int(8)) == Ok(Arr([Int(9), Int(2), Int(8)]));
    SetOldKey([Entry("bar", Arr([Int(9), Int(2)]))], "bar", [Append], Int(8), Arr([Int(9), Int(2), Int(8)]));
    PutOnly("bar", Arr([Int(9), Int(2)]), Arr([Int(9), Int(2), Int(8)]));
    SetOldKey([Entry("foo", Obj([Entry("bar", Arr([Int(9), Int(2)]))]))], "foo",
      [Key("bar"), Append], Int(8), Obj([Entry("bar", Arr([Int(9), Int(2), Int(8)]))]));
    PutOnly("foo", Obj([Entry("bar", Arr([Int(9), Int(2)]))]), Obj([Entry("bar", Arr([Int(9), Int(2), Int(8)]))]));
    assert [Key("bar")] + [Append] == [Key("bar"), Append];
    assert [Key("foo")] + [Key("bar"), Append] == [Key("foo"), Key("bar"), Append];
  }

  /** The append marker adds after the last element. */
  lemma AppendItem()
    ensures Set(Obj([Entry("foo", Obj([Entry("bar", Arr([Int(9), Int(2)]))]))]), "foo.bar[]", Int(8)) ==
      Ok(Obj([Entry("foo", Obj([Entry("bar", Arr([Int(9), Int(2), Int(8)]))]))]))
  {
    ParseFooBarAppend();
    AppendItemSegments();
  }

  lemma RemoveFirstItemSegments()
    ensures RemoveIn(Obj([Entry("foo", Obj([Entry("bar", Arr([Int(9), Int(2), Int(8)]))]))]),
                     [Key("foo"), Key("bar"), Index(0)]) ==
      Ok(Obj([Entry("foo", Obj([Entry("bar", Arr([Int(2), Int(8)]))]))]))
  {
    assert RemoveAt([Int(9), Int(2), Int(8)], 0) == [Int(2), Int(8)];
    assert RemoveIn(Arr([Int(9), Int(2), Int(8)]), [Index(0)]) == Ok(Arr([Int(2), Int(8)]));
    RemoveUnderKey([Entry("bar", Arr([Int(9), Int(2), Int(8)]))], "bar", [Index(0)], Arr([Int(2), Int(8)]));
    PutOnly("bar", Arr([Int(9), Int(2), Int(8)]), Arr([Int(2), Int(8)]));
    RemoveUnderKey([Entry("foo", Obj([Entry("bar", Arr([Int(9), Int(2), Int(8)]))]))], "foo",
      [Key("bar"), Index(0)], Obj([Entry("bar", Arr([Int(2), Int(8)]))]));
    PutOnly("foo", Obj([Entry("bar", Arr([Int(9), Int(2), Int(8)]))]), Obj([Entry("bar", Arr([Int(2), Int(8)]))]));
    assert [Key("bar")] + [Index(0)] == [Key("bar"), Index(0)];
    assert [Key("foo")] + [Key("bar"), Index(0)] == [Key("foo"), Key("bar"), Index(0)];
  }

  /** Deleting an element moves the later ones down. */
  lemma RemoveFirstItem()
    ensures Remove(Obj([Entry("foo", Obj([Entry("bar", Arr([Int(9), Int(2), Int(8)]))]))]), "foo.bar[0]") ==
      Ok(Obj([Entry("foo", Obj([Entry("bar", Arr([Int(2), Int(8)]))]))]))
  {
    ParseFooBarFirst();
    RemoveFirstItemSegments();
  }

  lemma RemoveSecondItemSegments()
    ensures RemoveIn(Obj([Entry("foo", Obj([Entry("bar", Arr([Int(2), Int(8)]))]))]),
                     [Key("foo"), Key("bar"), Index(1)]) ==
      Ok(Obj([Entry("foo", Obj([Entry("bar", Arr([Int(2)]))]))]))
  {
    assert RemoveAt([Int(2), Int(8)], 1) == [Int(2)];
    assert RemoveIn(Arr([Int(2), Int(8)]), [Index(1)]) == Ok(Arr([Int(2)]));
    RemoveUnderKey([Entry("bar", Arr([Int(2), Int(8)]))], "bar", [Index(1)], Arr([Int(2)]));
    PutOnly("bar", Arr([Int(2), Int(8)]), Arr([Int(2)]));
    RemoveUnderKey([Entry("foo", Obj([Entry("bar", Arr([Int(2), Int(8)]))]))], "foo",
      [Key("bar"), Index(1)], Obj([Entry("bar", Arr([Int(2)]))]));
    PutOnly("foo", Obj([Entry("bar", Arr([Int(2), Int(8)]))]), Obj([Entry("bar", Arr([Int(2)]))]));
    assert [Key("bar")] + [Index(1)] == [Key("bar"), Index(1)];
    assert [Key("foo")] + [Key("bar"), Index(1)] == [Key("foo"), Key("bar"), Index(1)];
  }

  lemma RemoveSecondItem()
    ensures Remove(Obj([Entry("foo", Obj([Entry("bar", Arr([Int(2), Int(8)]))]))]), "foo.bar[1]") ==
      Ok(Obj([Entry("foo", Obj([Entry("bar", Arr([Int(2)]))]))]))
  {
    ParseFooBarSecond();
    RemoveSecondItemSegments();
  }

  lemma RemoveArraySegments()
    ensures RemoveIn(Obj([Entry("foo", Obj([Entry("bar", Arr([Int(2)]))]))]), [Key("foo"), Key("bar")]) ==
      Ok(Obj([Entry("foo", Obj([]))]))
  {
    assert Delete([Entry("bar", Arr([Int(2)]))], "bar") == [];
    assert RemoveIn(Obj([Entry("bar", Arr([Int(2)]))]), [Key("bar")]) == Ok(Obj([]));
    RemoveUnderKey([Entry("foo", Obj([Entry("bar", Arr([Int(2)]))]))], "foo", [Key("bar")], Obj([]));
    PutOnly("foo", Obj([Entry("bar", Arr([Int(2)]))]), Obj([]));
    assert [Key("foo")] + [Key("bar")] == [Key("foo"), Key("bar")];
  }

  /** Deleting a key that holds an array removes the whole array. */
  lemma RemoveArray()
    ensures Remove(Obj([Entry("foo", Obj([Entry("bar", Arr([Int(2)]))]))]), "foo.bar") ==
      Ok(Obj([Entry("foo", Obj([]))]))
  {
    ParseFooBar();
    RemoveArraySegments();
  }

  lemma RemoveLastKey()
    ensures Remove(Obj([Entry("foo", Obj([]))]), "foo") == Ok(Obj([]))
  {
    ParseFoo();
    assert Delete([Entry("foo", Obj([]))], "foo") == [];
  }

  // ---------------------------------------------------------------------
  // Set and remove on a root array
  // ---------------------------------------------------------------------

  lemma WriteIntoFirstSegments()
    ensures SetIn(Arr([]), [Index(0), Key("foo")], Arr([Int(1), Int(2)])) ==
      Ok(Arr([Obj([Entry("foo", Arr([Int(1), Int(2)]))])]))
  {
    var v := Arr([Int(1), Int(2)]);
    assert SetIn(Null, [], v) == Ok(v);
    SetKeyIntoNull("foo", [], v, v);
    assert [Key("foo")] + [] == [Key("foo")];
    SetNewIndex([], 0, [Key("foo")], v, Obj([Entry("foo", v)]));
    assert [Index(0)] + [Key("foo")] == [Index(0), Key("foo")];
    assert [] + Nulls(0) + [Obj([Entry("foo", v)])] == [Obj([Entry("foo", v)])];
  }

  /** Writing through index 0 of an empty array creates its first element. */
  lemma WriteIntoFirst()
    ensures Set(Arr([]), "$[0].foo", Arr([Int(1), Int(2)])) ==
      Ok(Arr([Obj([Entry("foo", Arr([Int(1), Int(2)]))])]))
  {
    ParseFirstFoo();
    WriteIntoFirstSegments();
  }

  lemma WriteIntoSecondSegments()
    ensures SetIn(Arr([Obj([Entry("foo", Arr([Int(1), Int(2)]))])]), [Index(1), Key("foo")], Arr([Int(3), Int(4)])) ==
      Ok(Arr([Obj([Entry("foo", Arr([Int(1), Int(2)]))]), Obj([Entry("foo", Arr([Int(3), Int(4)]))])]))
  {
    var v := Arr([Int(3), Int(4)]);
    assert SetIn(Null, [], v) == Ok(v);
    SetKeyIntoNull("foo", [], v, v);
    assert [Key("foo")] + [] == [Key("foo")];
    var items := [Obj([Entry("foo", Arr([Int(1), Int(2)]))])];
    SetNewIndex(items, 1, [Key("foo")], v, Obj([Entry("foo", v)]));
    assert [Index(1)] + [Key("foo")] == [Index(1), Key("foo")];
    assert Nulls(0) == [];
    assert items + Nulls(0) + [Obj([Entry("foo", v)])] ==
      [Obj([Entry("foo", Arr([Int(1), Int(2)]))]), Obj([Entry("foo", v)])];
  }

  /** Writing through the index just past the end appends an element. */
  lemma WriteIntoSecond()
    ensures Set(Arr([Obj([Entry("foo", Arr([Int(1), Int(2)]))])]), "$[1].foo", Arr([Int(3), Int(4)])) ==
      Ok(Arr([Obj([Entry("foo", Arr([Int(1), Int(2)]))]), Obj([Entry("foo", Arr([Int(3), Int(4)]))])]))
  {
    ParseSecondFoo();
    WriteIntoSecondSegments();
  }

  /** Deleting index 0 of the root array: a path without a key still names
      a value below the root. */
  lemma RemoveFirst()
    ensures Remove(Arr([Obj([Entry("foo", Arr([Int(1), Int(2)]))]), Obj([Entry("foo", Arr([Int(3), Int(4)]))])]), "$[0]") ==
      Ok(Arr([Obj([Entry("foo", Arr([Int(3), Int(4)]))])]))
  {
    ParseFirst();
    var items := [Obj([Entry("foo", Arr([Int(1), Int(2)]))]), Obj([Entry("foo", Arr([Int(3), Int(4)]))])];
    assert RemoveAt(items, 0) == [Obj([Entry("foo", Arr([Int(3), Int(4)]))])];
  }

  lemma AppendIntoMissingSegments()
    ensures SetIn(Obj([]), [Key("foo"), Append], Str("a")) == Ok(Obj([Entry("foo", Arr([Str("a")]))]))
  {
    assert [] + [Str("a")] == [Str("a")];
    assert SetIn(Null, [Append], Str("a")) == Ok(Arr([Str("a")]));
    SetNewKey([], "foo", [Append], Str("a"), Arr([Str("a")]));
    assert [Key("foo")] + [Append] == [Key("foo"), Append];
    assert [] + [Entry("foo", Arr([Str("a")]))] == [Entry("foo", Arr([Str("a")]))];
  }

  /** Appending under a missing key creates a one-element array there. */
  lemma AppendIntoMissing()
    ensures Set(Obj([]), "$.foo[]", Str("a")) == Ok(Obj([Entry("foo", Arr([Str("a")]))]))
  {
    ParseFooAppend();
    AppendIntoMissingSegments();
  }

  // ---------------------------------------------------------------------
  // Nested writes
  // ---------------------------------------------------------------------

  lemma WriteKittenNameSegments()
    ensures SetIn(Obj([Entry("name", Str("Wild")), Entry("kitten", Null)]), [Key("kitten"), Key("name")], Str("Bob")) ==
      Ok(Obj([Entry("name", Str("Wild")), Entry("kitten", Obj([Entry("name", Str("Bob"))]))]))
  {
    var es := [Entry("name", Str("Wild")), Entry("kitten", Null)];
    assert SetIn(Null, [], Str("Bob")) == Ok(Str("Bob"));
    SetKeyIntoNull("name", [], Str("Bob"), Str("Bob"));
    assert [Key("name")] + [] == [Key("name")];
    assert IndexOf(es, "kitten") == Some(1);
    SetOldKey(es, "kitten", [Key("name")], Str("Bob"), Obj([Entry("name", Str("Bob"))]));
    assert [Key("kitten")] + [Key("name")] == [Key("kitten"), Key("name")];
    assert Put(es, "kitten", Obj([Entry("name", Str("Bob"))])) ==
      [Entry("name", Str("Wild")), Entry("kitten", Obj([Entry("name", Str("Bob"))]))];
  }

  /** Writing through a stored null replaces it with an object. */
  lemma WriteKittenName()
    ensures Set(Obj([Entry("name", Str("Wild")), Entry("kitten", Null)]), "$.kitten.name", Str("Bob")) ==
      Ok(Obj([Entry("name", Str("Wild")), Entry("kitten", Obj([Entry("name", Str("Bob"))]))]))
  {
    ParseKittenName();
    WriteKittenNameSegments();
  }

  lemma WriteFirstNameSegments()
    ensures SetIn(Arr([]), [Index(0), Key("name"), Key("first")], Str("Bob")) ==
      Ok(Arr([Obj([Entry("name", Obj([Entry("first", Str("Bob"))]))])]))
  {
    assert SetIn(Null, [], Str("Bob")) == Ok(Str("Bob"));
    SetKeyIntoNull("first", [], Str("Bob"), Str("Bob"));
    assert [Key("first")] + [] == [Key("first")];
    SetKeyIntoNull("name", [Key("first")], Str("Bob"), Obj([Entry("first", Str("Bob"))]));
    assert [Key("name")] + [Key("first")] == [Key("name"), Key("first")];
    SetNewIndex([], 0, [Key("name"), Key("first")], Str("Bob"), Obj([Entry("name", Obj([Entry("first", Str("Bob"))]))]));
    assert [Index(0)] + [Key("name"), Key("first")] == [Index(0), Key("name"), Key("first")];
    assert [] + Nulls(0) + [Obj([Entry("name", Obj([Entry("first", Str("Bob"))]))])] ==
      [Obj([Entry("name", Obj([Entry("first", Str("Bob"))]))])];
  }

  /** Writing two keys deep through index 0 of an empty array. */
  lemma WriteFirstName()
    ensures Set(Arr([]), "$[0].name.first", Str("Bob")) ==
      Ok(Arr([Obj([Entry("name", Obj([Entry("first", Str("Bob"))]))])]))
  {
    ParseFirstNameFirst();
    WriteFirstNameSegments();
  }

  lemma FourthIntoNull()
    ensures SetIn(Null, [Key("fourth"), Index(0)], Str("hello")) ==
      Ok(Obj([Entry("fourth", Arr([Str("hello")]))]))
  {
    var h := Str("hello");
    assert SetIn(Null, [], h) == Ok(h);
    SetIndexIntoNull(0, [], h, h);
    assert [Index(0)] + [] == [Index(0)] && Nulls(0) + [h] == [h];
    SetKeyIntoNull("fourth", [Index(0)], h, Arr([h]));
    assert [Key("fourth")] + [Index(0)] == [Key("fourth"), Index(0)];
  }

  lemma ThirdIntoNull()
    ensures SetIn(Null, [Key("third"), Index(0)] + [Key("fourth"), Index(0)], Str("hello")) ==
      Ok(Obj([Entry("third", Arr([Obj([Entry("fourth", Arr([Str("hello")]))])]))]))
  {
    var h := Str("hello");
    var c := [Key("fourth"), Index(0)];
    var v4 := Obj([Entry("fourth", Arr([h]))]);
    FourthIntoNull();
    SetIndexIntoNull(0, c, h, v4);
    assert Nulls(0) + [v4] == [v4];
    SetKeyIntoNull("third", [Index(0)] + c, h, Arr([v4]));
    ConsTwo(Key("third"), Index(0), c);
  }

  lemma SecondIntoNull()
    ensures SetIn(Null, [Key("second"), Index(0)] + ([Key("third"), Index(0)] + [Key("fourth"), Index(0)]), Str("hello")) ==
      Ok(Obj([Entry("second", Arr([Obj([Entry("third", Arr([Obj([Entry("fourth", Arr([Str("hello")]))])]))])]))]))
  {
    var h := Str("hello");
    var bc := [Key("third"), Index(0)] + [Key("fourth"), Index(0)];
    var v3 := Obj([Entry("third", Arr([Obj([Entry("fourth", Arr([h]))])]))]);
    ThirdIntoNull();
    SetIndexIntoNull(0, bc, h, v3);
    assert Nulls(0) + [v3] == [v3];
    SetKeyIntoNull("second", [Index(0)] + bc, h, Arr([v3]));
    ConsTwo(Key("second"), Index(0), bc);
  }

  lemma WriteFourthSegments()
    ensures SetIn(Obj([]), [Key("first"), Key("second"), Index(0)] + [Key("third"), Index(0)] + [Key("fourth"), Index(0)],
                  Str("hello")) ==
      Ok(Obj([Entry("first", Obj([Entry("second", Arr([Obj([Entry("third", Arr([Obj([Entry("fourth",
        Arr([Str("hello")]))])]))])]))]))]))
  {
    var h := Str("hello");
    var bc := [Key("third"), Index(0)] + [Key("fourth"), Index(0)];
    var v2 := Obj([Entry("second", Arr([Obj([Entry("third", Arr([Obj([Entry("fourth", Arr([h]))])]))])]))]);
    SecondIntoNull();
    SetNewKey([], "first", [Key("second"), Index(0)] + bc, h, v2);
    FirstEntry(Entry("first", v2));
    ConsThree(Key("first"), Key("second"), Index(0), [Key("third"), Index(0)], [Key("fourth"), Index(0)]);
  }

  /** Writing three arrays deep into an empty object creates every level. */
  lemma WriteFourth()
    ensures Set(Obj([]), "first.second[0].third[0].fourth[0]", Str("hello")) ==
      Ok(Obj([Entry("first", Obj([Entry("second", Arr([Obj([Entry("third", Arr([Obj([Entry("fourth",
        Arr([Str("hello")]))])]))])]))]))]))
  {
    ParseFourth();
    WriteFourthSegments();
  }

  lemma SeventhIntoNull()
    ensures SetIn(Null, [Key("seventh"), Index(2)], Str("hello")) ==
      Ok(Obj([Entry("seventh", Arr([Null, Null, Str("hello")]))]))
  {
    var h := Str("hello");
    assert SetIn(Null, [], h) == Ok(h);
    SetIndexIntoNull(2, [], h, h);
    assert [Index(2)] + [] == [Index(2)] && Nulls(2) + [h] == [Null, Null, h];
    SetKeyIntoNull("seventh", [Index(2)], h, Arr([Null, Null, h]));
    assert [Key("seventh")] + [Index(2)] == [Key("seventh"), Index(2)];
  }

  lemma SixthIntoNull()
    ensures SetIn(Null, [Key("sixth"), Index(1)] + [Key("seventh"), Index(2)], Str("hello")) ==
      Ok(Obj([Entry("sixth", Arr([Null, Obj([Entry("seventh", Arr([Null, Null, Str("hello")]))])]))]))
  {
    var h := Str("hello");
    var c := [Key("seventh"), Index(2)];
    var v7 := Obj([Entry("seventh", Arr([Null, Null, h]))]);
    SeventhIntoNull();
    SetIndexIntoNull(1, c, h, v7);
    assert Nulls(1) + [v7] == [Null, v7];
    SetKeyIntoNull("sixth", [Index(1)] + c, h, Arr([Null, v7]));
    ConsTwo(Key("sixth"), Index(1), c);
  }

  lemma FifthBesideSecond()
    ensures SetIn(Obj([Entry("second", Arr([Obj([Entry("third", Arr([Obj([Entry("fourth", Arr([Str("hello")]))])]))])]))]),
                  [Key("fifth"), Index(0)] + ([Key("sixth"), Index(1)] + [Key("seventh"), Index(2)]), Str("hello")) ==
      Ok(Obj([
        Entry("second", Arr([Obj([Entry("third", Arr([Obj([Entry("fourth", Arr([Str("hello")]))])]))])])),
        Entry("fifth", Arr([Obj([Entry("sixth", Arr([Null, Obj([Entry("seventh",
          Arr([Null, Null, Str("hello")]))])]))])]))]))
  {
    var h := Str("hello");
    var bc := [Key("sixth"), Index(1)] + [Key("seventh"), Index(2)];
    var v6 := Obj([Entry("sixth", Arr([Null, Obj([Entry("seventh", Arr([Null, Null, h]))])]))]);
    SixthIntoNull();
    SetIndexIntoNull(0, bc, h, v6);
    NoPadding(v6);
    var s := Arr([Obj([Entry("third", Arr([Obj([Entry("fourth", Arr([h]))])]))])]);
    OtherKey("second", s, "fifth");
    SetNewKey([Entry("second", s)], "fifth", [Index(0)] + bc, h, Arr([v6]));
    ConsTwo(Key("fifth"), Index(0), bc);
    Pair(Entry("second", s), Entry("fifth", Arr([v6])));
  }

  lemma WriteSeventhSegments()
    ensures SetIn(Obj([Entry("first", Obj([Entry("second", Arr([Obj([Entry("third", Arr([Obj([Entry("fourth",
                    Arr([Str("hello")]))])]))])]))]))]),
                  [Key("first"), Key("fifth"), Index(0)] + [Key("sixth"), Index(1)] + [Key("seventh"), Index(2)],
                  Str("hello")) ==
      Ok(Obj([Entry("first", Obj([
        Entry("second", Arr([Obj([Entry("third", Arr([Obj([Entry("fourth", Arr([Str("hello")]))])]))])])),
        Entry("fifth", Arr([Obj([Entry("sixth", Arr([Null, Obj([Entry("seventh",
          Arr([Null, Null, Str("hello")]))])]))])]))]))]))
  {
    var h := Str("hello");
    var rest := [Key("fifth"), Index(0)] + ([Key("sixth"), Index(1)] + [Key("seventh"), Index(2)]);
    var old1 := Obj([Entry("second", Arr([Obj([Entry("third", Arr([Obj([Entry("fourth", Arr([h]))])]))])]))]);
    var new1 := Obj([
        Entry("second", Arr([Obj([Entry("third", Arr([Obj([Entry("fourth", Arr([h]))])]))])])),
        Entry("fifth", Arr([Obj([Entry("sixth", Arr([Null, Obj([Entry("seventh", Arr([Null, Null, h]))])]))])]))]);
    FifthBesideSecond();
    LookupOnly("first", old1);
    SetOldKey([Entry("first", old1)], "first", rest, h, new1);
    PutOnly("first", old1, new1);
    ConsThree(Key("first"), Key("fifth"), Index(0), [Key("sixth"), Index(1)], [Key("seventh"), Index(2)]);
  }

  /** A second deep write beside the first adds a key to the shared object
      and pads the new arrays with nulls. */
  lemma WriteSeventh()
    ensures Set(Obj([Entry("first", Obj([Entry("second", Arr([Obj([Entry("third", Arr([Obj([Entry("fourth",
                  Arr([Str("hello")]))])]))])]))]))]),
                "first.fifth[0].sixth[1].seventh[2]", Str("hello")) ==
      Ok(Obj([Entry("first", Obj([
        Entry("second", Arr([Obj([Entry("third", Arr([Obj([Entry("fourth", Arr([Str("hello")]))])]))])])),
        Entry("fifth", Arr([Obj([Entry("sixth", Arr([Null, Obj([Entry("seventh",
          Arr([Null, Null, Str("hello")]))])]))])]))]))]))
  {
    ParseSeventh();
    WriteSeventhSegments();
  }

  // ---------------------------------------------------------------------
  // Reads
  // ---------------------------------------------------------------------

  /** A nested key reads as its value; a missing one falls back to the default. */
  lemma ReadNested()
    ensures Get(Obj([Entry("a", Int(1)), Entry("b", Obj([Entry("c", Int(2))]))]), "b.c") == Ok(Int(2))
    ensures GetOr(Obj([Entry("a", Int(1)), Entry("b", Obj([Entry("c", Int(2))]))]), "b.d", Null) == Null
    ensures GetOr(Obj([Entry("a", Int(1)), Entry("b", Obj([Entry("c", Int(2))]))]), "b.d", Int(3)) == Int(3)
  {
    ParseBC();
    ParseBD();
    ReadNestedSegments();
  }

  lemma ReadNestedSegments()
    ensures GetIn(Obj([Entry("a", Int(1)), Entry("b", Obj([Entry("c", Int(2))]))]), [Key("b"), Key("c")]) == Ok(Int(2))
    ensures GetIn(Obj([Entry("a", Int(1)), Entry("b", Obj([Entry("c", Int(2))]))]), [Key("b"), Key("d")]) == Err(NotFound)
  {
    var es := [Entry("a", Int(1)), Entry("b", Obj([Entry("c", Int(2))]))];
    assert Lookup(es, "b") == Some(Obj([Entry("c", Int(2))])) by {
      assert IndexOf(es, "b") == Some(1);
    }
    assert [Key("b"), Key("c")][1..] == [Key("c")] && [Key("c")][1..] == [];
    assert [Key("b"), Key("d")][1..] == [Key("d")];
    assert Lookup([Entry("c", Int(2))], "d") == None;
  }
}
