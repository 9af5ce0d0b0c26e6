/** The unit tests' sessions on one mutable document: the same object is
    written and deleted call after call, and `seen` records its tree after
    each call, in order. */
module Sessions {
  import opened Results
  import opened Values
  import opened JsonDoc
  import opened Scenarios

  /** A two-number array, the value the array tests write. */
  lemma PairWellFormed(a: int, b: int)
    ensures WellFormed(Arr([Int(a), Int(b)]))
  {
    assert forall i :: 0 <= i < 2 ==> [Int(a), Int(b)][i].Int?;
  }

  /** Keys written and deleted on a fresh object until it is empty again. */
  method KeySession() returns (seen: seq<Value>)
    ensures seen == [
      Obj([]),
      Obj([Entry("foo", Str("bar"))]),
      Obj([Entry("foo", Str("bar")), Entry("bar", Obj([Entry("baz", Str("ban"))]))]),
      Obj([Entry("bar", Obj([Entry("baz", Str("ban"))]))]),
      Obj([Entry("bar", Obj([]))]),
      Obj([])]
  {
    var doc := new Json.Object();
    var start := doc.root;
    WriteFoo();
    var r := doc.Set("foo", Str("bar"));
    var s1 := doc.root;
    WriteBarBaz();
    r := doc.Set("bar.baz", Str("ban"));
    var s2 := doc.root;
    RemoveFoo();
    r := doc.Remove("foo");
    var s3 := doc.root;
    RemoveBarBaz();
    r := doc.Remove("bar.baz");
    var s4 := doc.root;
    RemoveBar();
    r := doc.Remove("bar");
    seen := [start, s1, s2, s3, s4, doc.root];
  }

  /** The same test goes on from the empty object with an array under
      `foo.bar`: an index write, an append, two index deletes, then the
      keys, back to the empty object. */
  method ArraySession() returns (seen: seq<Value>)
    ensures seen == [
      Obj([Entry("foo", Obj([Entry("bar", Arr([Int(1), Int(2)]))]))]),
      Obj([Entry("foo", Obj([Entry("bar", Arr([Int(9), Int(2)]))]))]),
      Obj([Entry("foo", Obj([Entry("bar", Arr([Int(9), Int(2), Int(8)]))]))]),
      Obj([Entry("foo", Obj([Entry("bar", Arr([Int(2), Int(8)]))]))]),
      Obj([Entry("foo", Obj([Entry("bar", Arr([Int(2)]))]))]),
      Obj([Entry("foo", Obj([]))]),
      Obj([])]
  {
    var doc := new Json.Object();
    WriteFooBar();
    PairWellFormed(1, 2);
    var r := doc.Set("foo.bar", Arr([Int(1), Int(2)]));
    var s0 := doc.root;
    WriteFirstItem();
    r := doc.Set("foo.bar[0]", Int(9));
    var s1 := doc.root;
    AppendItem();
    r := doc.Set("foo.bar[]", Int(8));
    var s2 := doc.root;
    RemoveFirstItem();
    r := doc.Remove("foo.bar[0]");
    var s3 := doc.root;
    RemoveSecondItem();
    r := doc.Remove("foo.bar[1]");
    var s4 := doc.root;
    RemoveArray();
    r := doc.Remove("foo.bar");
    var s5 := doc.root;
    RemoveLastKey();
    r := doc.Remove("foo");
    seen := [s0, s1, s2, s3, s4, s5, doc.root];
  }

  /** An empty root array: two writes through indices 0 and 1, then the
      delete of element 0. */
  method RootArraySession() returns (seen: seq<Value>)
    ensures seen == [
      Arr([Obj([Entry("foo", Arr([Int(1), Int(2)]))])]),
      Arr([Obj([Entry("foo", Arr([Int(1), Int(2)]))]), Obj([Entry("foo", Arr([Int(3), Int(4)]))])]),
      Arr([Obj([Entry("foo", Arr([Int(3), Int(4)]))])])]
  {
    var doc := new Json.Array();
    WriteIntoFirst();
    PairWellFormed(1, 2);
    var r := doc.Set("$[0].foo", Arr([Int(1), Int(2)]));
    var s0 := doc.root;
    WriteIntoSecond();
    PairWellFormed(3, 4);
    r := doc.Set("$[1].foo", Arr([Int(3), Int(4)]));
    var s1 := doc.root;
    RemoveFirst();
    r := doc.Remove("$[0]");
    seen := [s0, s1, doc.root];
  }

  /** A write chained onto a fresh object hands back that same object. */
  method ChainedAppend() returns (doc: Json)
    ensures fresh(doc)
    ensures doc.root == Obj([Entry("foo", Arr([Str("a")]))])
  {
    var blank := new Json.Object();
    AppendIntoMissing();
    var r := blank.Set("$.foo[]", Str("a"));
    doc := r.value;
  }

  /** Writing through a stored null. */
  method NestedObjectSession() returns (doc: Json)
    ensures doc.root == Obj([Entry("name", Str("Wild")), Entry("kitten", Obj([Entry("name", Str("Bob"))]))])
  {
    doc := new Json.Of(Obj([Entry("name", Str("Wild")), Entry("kitten", Null)]));
    WriteKittenName();
    var r := doc.Set("$.kitten.name", Str("Bob"));
  }

  /** Writing through index 0 of an empty array. */
  method NestedArraySession() returns (doc: Json)
    ensures doc.root == Arr([Obj([Entry("name", Obj([Entry("first", Str("Bob"))]))])])
  {
    doc := new Json.Array();
    WriteFirstName();
    var r := doc.Set("$[0].name.first", Str("Bob"));
  }

  /** Two deep writes into one object. */
  method DeepSession() returns (seen: seq<Value>)
    ensures seen == [
      Obj([Entry("first", Obj([Entry("second", Arr([Obj([Entry("third", Arr([Obj([Entry("fourth",
        Arr([Str("hello")]))])]))])]))]))]),
      Obj([Entry("first", Obj([
        Entry("second", Arr([Obj([Entry("third", Arr([Obj([Entry("fourth", Arr([Str("hello")]))])]))])])),
        Entry("fifth", Arr([Obj([Entry("sixth", Arr([Null, Obj([Entry("seventh",
          Arr([Null, Null, Str("hello")]))])]))])]))]))])]
  {
    var doc := new Json.Object();
    WriteFourth();
    var r := doc.Set("first.second[0].third[0].fourth[0]", Str("hello"));
    var s0 := doc.root;
    WriteSeventh();
    r := doc.Set("first.fifth[0].sixth[1].seventh[2]", Str("hello"));
    seen := [s0, doc.root];
  }
}
