/** The concrete paths that the path engine's unit tests use: how each one
    splits into parent and leaf, and the segments each one reads as. */
module ScenarioPaths {
  import opened Results
  import opened PathSyntax

  // ---------------------------------------------------------------------
  // From tokens to text
  // ---------------------------------------------------------------------

  /** A path with `$` reads as the segments of the tokens it spells. */
  lemma RootedParsesAs(path: string, ts: seq<Token>, segs: seq<Segment>)
    requires path == "$" + Render(ts)
    requires ValidTokens(ts) && Segments(ts) == segs
    ensures Parse(path) == Ok(segs)
  {
    TokenizeRender(ts, 1);
    assert Normalize(path)[1..] == Render(ts);
  }

  /** A path without `$` reads as the segments of the tokens `.path` spells. */
  lemma RelativeParsesAs(path: string, ts: seq<Token>, segs: seq<Segment>)
    requires path != [] && path[0] != '$'
    requires "." + path == Render(ts)
    requires ValidTokens(ts) && Segments(ts) == segs
    ensures Parse(path) == Ok(segs)
  {
    TokenizeRender(ts, 1);
    assert Normalize(path)[1..] == "." + path;
  }

  /** A path with `$` splits after the last key token it spells; without a
      key token the parent is empty and the leaf is the whole path. */
  lemma SplitsAs(path: string, ts: seq<Token>, parent: string, leaf: string)
    requires ValidTokens(ts) && path == "$" + Render(ts)
    requires match LastKey(ts)
      case None => parent == "" && leaf == path
      case Some(j) => parent == "$" + Render(ts[..j]) && leaf == LeafHead(ts[j]) + Render(ts[j + 1..])
    ensures ToParentAndLeaf(path) == Ok((parent, leaf))
  {
    TokenizeRender(ts, 1);
    assert path[1..] == Render(ts);
  }

  // ---------------------------------------------------------------------
  // Parent and leaf
  // ---------------------------------------------------------------------

  lemma SplitRoot()
    ensures ToParentAndLeaf("$") == Ok(("", "$"))
  {
    SplitsAs("$", [], "", "$");
  }

  lemma SplitFoo()
    ensures ToParentAndLeaf("$.foo") == Ok(("$", "foo"))
  {
    SplitsAs("$.foo", [DotKey("foo")], "$", "foo");
  }

  lemma SplitQuotedFoo()
    ensures ToParentAndLeaf("$['foo']") == Ok(("$", "['foo']"))
  {
    SplitsAs("$['foo']", [BracketKey("foo")], "$", "['foo']");
  }

  lemma SplitFooBar()
    ensures ToParentAndLeaf("$.foo.bar") == Ok(("$.foo", "bar"))
  {
    SplitsAs("$.foo.bar", [DotKey("foo"), DotKey("bar")], "$.foo", "bar");
  }

  lemma SplitFooQuotedBar()
    ensures ToParentAndLeaf("$.foo['bar']") == Ok(("$.foo", "['bar']"))
  {
    SplitsAs("$.foo['bar']", [DotKey("foo"), BracketKey("bar")], "$.foo", "['bar']");
  }

  /** A path with `$` whose tokens are `a`, then the key `k`, then tokens
      without a key splits just before `k`. */
  lemma SplitsAtKey(path: string, a: seq<Token>, k: Token, b: seq<Token>, parent: string, leaf: string)
    requires ValidTokens(a) && ValidToken(k) && ValidTokens(b)
    requires IsKeyToken(k) && forall i :: 0 <= i < |b| ==> !IsKeyToken(b[i])
    requires parent == "$" + Render(a) && path == parent + (Text(k) + Render(b))
    requires leaf == LeafHead(k) + Render(b)
    ensures ToParentAndLeaf(path) == Ok((parent, leaf))
  {
    var ts := TokensAround(a, k, b);
    Assoc("$", Render(a), Text(k) + Render(b));
    SplitsAtLast(path, ts, |a|);
  }

  /** A path with `$` splits at the last key token it spells. */
  lemma SplitsAtLast(path: string, ts: seq<Token>, j: nat)
    requires ValidTokens(ts) && path == "$" + Render(ts) && LastKey(ts) == Some(j)
    ensures j < |ts|
    ensures ToParentAndLeaf(path) == Ok(("$" + Render(ts[..j]), LeafHead(ts[j]) + Render(ts[j + 1..])))
  {
    TokenizeRender(ts, 1);
    assert path[1..] == Render(ts);
  }

  lemma Assoc<T>(x: seq<T>, y: seq<T>, z: seq<T>)
    ensures x + (y + z) == (x + y) + z
  {
  }

  /** The tokens `a`, then `k`, then `b`: valid, spelling the three texts in
      order, with `k` as the last key. */
  lemma TokensAround(a: seq<Token>, k: Token, b: seq<Token>) returns (ts: seq<Token>)
    requires ValidTokens(a) && ValidToken(k) && ValidTokens(b)
    requires IsKeyToken(k) && forall i :: 0 <= i < |b| ==> !IsKeyToken(b[i])
    ensures ValidTokens(ts) && Render(ts) == Render(a) + (Text(k) + Render(b))
    ensures LastKey(ts) == Some(|a|)
    ensures ts[..|a|] == a && ts[|a|] == k && ts[|a| + 1..] == b
  {
    ts := a + ([k] + b);
    LastKeyAt(a, k, b);
    RenderCons(k, b);
    ValidCons(k, b);
    RenderConcat(a, [k] + b);
    ValidConcat(a, [k] + b);
    assert ts[..|a|] == a && ts[|a|] == k && ts[|a| + 1..] == b;
  }

  /** The last key of `a + ([k] + b)` is `k` when `b` holds no key. */
  lemma {:induction false} LastKeyAt(a: seq<Token>, k: Token, b: seq<Token>)
    requires IsKeyToken(k) && forall i :: 0 <= i < |b| ==> !IsKeyToken(b[i])
    ensures LastKey(a + ([k] + b)) == Some(|a|)
    decreases |b|
  {
    var ts := a + ([k] + b);
    if b == [] {
      assert ts[|ts| - 1] == k;
    } else {
      var front := b[..|b| - 1];
      assert ts[|ts| - 1] == b[|b| - 1];
      assert ts[..|ts| - 1] == a + ([k] + front);
      LastKeyAt(a, k, front);
    }
  }

  lemma ValidConcat(a: seq<Token>, b: seq<Token>)
    requires ValidTokens(a) && ValidTokens(b)
    ensures ValidTokens(a + b)
  {
    forall i | 0 <= i < |a + b| ensures ValidToken((a + b)[i]) {
      if i >= |a| { assert (a + b)[i] == b[i - |a|]; }
    }
  }

  /** One token spells its text and is valid when the token is. */
  lemma OneToken(t: Token)
    ensures Render([t]) == Text(t)
    ensures ValidToken(t) ==> ValidTokens([t])
  {
    RenderCons(t, []);
    assert Text(t) + [] == Text(t);
  }

  lemma SplitFooBarIndex()
    ensures ToParentAndLeaf("$.foo.bar[0]") == Ok(("$.foo", "bar[0]"))
  {
    OneToken(DotKey("foo"));
    OneToken(BracketIndex("0"));
    assert ".bar" + "[0]" == ".bar[0]" && "bar" + "[0]" == "bar[0]";
    SplitsAtKey("$.foo.bar[0]", [DotKey("foo")], DotKey("bar"), [BracketIndex("0")], "$.foo", "bar[0]");
  }

  lemma SplitFooQuotedBarIndex()
    ensures ToParentAndLeaf("$.foo['bar'][0]") == Ok(("$.foo", "['bar'][0]"))
  {
    OneToken(DotKey("foo"));
    OneToken(BracketIndex("0"));
    QuotedBarIndexText();
    SplitsAtKey("$.foo['bar'][0]", [DotKey("foo")], BracketKey("bar"), [BracketIndex("0")],
      "$.foo", "['bar'][0]");
  }

  lemma QuotedBarIndexText()
    ensures Text(BracketKey("bar")) == "['bar']" && LeafHead(BracketKey("bar")) == "['bar']"
    ensures Text(BracketIndex("0")) == "[0]"
    ensures "['bar']" + "[0]" == "['bar'][0]" && "$.foo" + "['bar'][0]" == "$.foo['bar'][0]"
  {
  }

  /** The parent `$.foo[2]` shared by the next four rows. */
  lemma IndexedFoo()
    ensures Render([DotKey("foo"), BracketIndex("2")]) == ".foo[2]"
    ensures ValidTokens([DotKey("foo"), BracketIndex("2")])
  {
    ValidCons(DotKey("foo"), [BracketIndex("2")]);
    OneToken(BracketIndex("2"));
    assert [DotKey("foo"), BracketIndex("2")] == [DotKey("foo")] + [BracketIndex("2")];
    RenderCons(DotKey("foo"), [BracketIndex("2")]);
  }

  lemma SplitIndexedBarIndex()
    ensures ToParentAndLeaf("$.foo[2].bar[0]") == Ok(("$.foo[2]", "bar[0]"))
  {
    IndexedFoo();
    OneToken(BracketIndex("0"));
    assert ".bar" + "[0]" == ".bar[0]" && "bar" + "[0]" == "bar[0]";
    SplitsAtKey("$.foo[2].bar[0]", [DotKey("foo"), BracketIndex("2")], DotKey("bar"), [BracketIndex("0")],
      "$.foo[2]", "bar[0]");
  }

  lemma SplitIndexedQuotedBarIndex()
    ensures ToParentAndLeaf("$.foo[2]['bar'][0]") == Ok(("$.foo[2]", "['bar'][0]"))
  {
    IndexedFoo();
    OneToken(BracketIndex("0"));
    assert "['bar']" + "[0]" == "['bar'][0]";
    SplitsAtKey("$.foo[2]['bar'][0]", [DotKey("foo"), BracketIndex("2")], BracketKey("bar"), [BracketIndex("0")],
      "$.foo[2]", "['bar'][0]");
  }

  lemma SplitIndexedBar()
    ensures ToParentAndLeaf("$.foo[2].bar") == Ok(("$.foo[2]", "bar"))
  {
    IndexedFoo();
    assert ".bar" + [] == ".bar" && "bar" + [] == "bar";
    SplitsAtKey("$.foo[2].bar", [DotKey("foo"), BracketIndex("2")], DotKey("bar"), [], "$.foo[2]", "bar");
  }

  lemma SplitIndexedQuotedBar()
    ensures ToParentAndLeaf("$.foo[2]['bar']") == Ok(("$.foo[2]", "['bar']"))
  {
    IndexedFoo();
    assert "['bar']" + [] == "['bar']";
    SplitsAtKey("$.foo[2]['bar']", [DotKey("foo"), BracketIndex("2")], BracketKey("bar"), [], "$.foo[2]", "['bar']");
  }

  /** A path with no key at all has no parent: the leaf is the whole path. */
  lemma SplitBareIndex()
    ensures ToParentAndLeaf("$[0]") == Ok(("", "$[0]"))
  {
    SplitsAs("$[0]", [BracketIndex("0")], "", "$[0]");
  }

  /** The parent-and-leaf table of the unit tests, row by row. */
  lemma SplitTable()
    ensures ToParentAndLeaf("$") == Ok(("", "$"))
    ensures ToParentAndLeaf("$.foo") == Ok(("$", "foo"))
    ensures ToParentAndLeaf("$['foo']") == Ok(("$", "['foo']"))
    ensures ToParentAndLeaf("$.foo.bar") == Ok(("$.foo", "bar"))
    ensures ToParentAndLeaf("$.foo['bar']") == Ok(("$.foo", "['bar']"))
    ensures ToParentAndLeaf("$.foo.bar[0]") == Ok(("$.foo", "bar[0]"))
    ensures ToParentAndLeaf("$.foo['bar'][0]") == Ok(("$.foo", "['bar'][0]"))
    ensures ToParentAndLeaf("$.foo[2].bar[0]") == Ok(("$.foo[2]", "bar[0]"))
    ensures ToParentAndLeaf("$.foo[2]['bar'][0]") == Ok(("$.foo[2]", "['bar'][0]"))
    ensures ToParentAndLeaf("$.foo[2].bar") == Ok(("$.foo[2]", "bar"))
    ensures ToParentAndLeaf("$.foo[2]['bar']") == Ok(("$.foo[2]", "['bar']"))
  {
    SplitRoot();
    SplitFoo();
    SplitQuotedFoo();
    SplitFooBar();
    SplitFooQuotedBar();
    SplitFooBarIndex();
    SplitFooQuotedBarIndex();
    SplitIndexedBarIndex();
    SplitIndexedQuotedBarIndex();
    SplitIndexedBar();
    SplitIndexedQuotedBar();
  }

  // ---------------------------------------------------------------------
  // Segments
  // ---------------------------------------------------------------------

  lemma ParseRoot()
    ensures Parse("$") == Ok([])
  {
    RootedParsesAs("$", [], []);
  }

  lemma ParseRootFoo()
    ensures Parse("$.foo") == Ok([Key("foo")])
  {
    RootedParsesAs("$.foo", [DotKey("foo")], [Key("foo")]);
  }

  lemma ParseFoo()
    ensures Parse("foo") == Ok([Key("foo")])
  {
    RelativeParsesAs("foo", [DotKey("foo")], [Key("foo")]);
  }

  lemma ParseBar()
    ensures Parse("bar") == Ok([Key("bar")])
  {
    RelativeParsesAs("bar", [DotKey("bar")], [Key("bar")]);
  }

  lemma ParseBarBaz()
    ensures Parse("bar.baz") == Ok([Key("bar"), Key("baz")])
  {
    RelativeParsesAs("bar.baz", [DotKey("bar"), DotKey("baz")], [Key("bar"), Key("baz")]);
  }

  lemma ParseFooBar()
    ensures Parse("foo.bar") == Ok([Key("foo"), Key("bar")])
  {
    RelativeParsesAs("foo.bar", [DotKey("foo"), DotKey("bar")], [Key("foo"), Key("bar")]);
  }

  lemma ParseFooBarFirst()
    ensures Parse("foo.bar[0]") == Ok([Key("foo"), Key("bar"), Index(0)])
  {
    RelativeParsesAs("foo.bar[0]", [DotKey("foo"), DotKey("bar"), BracketIndex("0")],
      [Key("foo"), Key("bar"), Index(0)]);
  }

  lemma ParseFooBarSecond()
    ensures Parse("foo.bar[1]") == Ok([Key("foo"), Key("bar"), Index(1)])
  {
    RelativeParsesAs("foo.bar[1]", [DotKey("foo"), DotKey("bar"), BracketIndex("1")],
      [Key("foo"), Key("bar"), Index(1)]);
  }

  lemma ParseFooBarAppend()
    ensures Parse("foo.bar[]") == Ok([Key("foo"), Key("bar"), Append])
  {
    RelativeParsesAs("foo.bar[]", [DotKey("foo"), DotKey("bar"), BracketAppend],
      [Key("foo"), Key("bar"), Append]);
  }

  lemma ParseFirstFoo()
    ensures Parse("$[0].foo") == Ok([Index(0), Key("foo")])
  {
    RootedParsesAs("$[0].foo", [BracketIndex("0"), DotKey("foo")], [Index(0), Key("foo")]);
  }

  lemma ParseSecondFoo()
    ensures Parse("$[1].foo") == Ok([Index(1), Key("foo")])
  {
    RootedParsesAs("$[1].foo", [BracketIndex("1"), DotKey("foo")], [Index(1), Key("foo")]);
  }

  lemma ParseFirst()
    ensures Parse("$[0]") == Ok([Index(0)])
  {
    RootedParsesAs("$[0]", [BracketIndex("0")], [Index(0)]);
  }

  lemma ParseFooAppend()
    ensures Parse("$.foo[]") == Ok([Key("foo"), Append])
  {
    RootedParsesAs("$.foo[]", [DotKey("foo"), BracketAppend], [Key("foo"), Append]);
  }

  lemma ParseKittenName()
    ensures Parse("$.kitten.name") == Ok([Key("kitten"), Key("name")])
  {
    RootedParsesAs("$.kitten.name", [DotKey("kitten"), DotKey("name")], [Key("kitten"), Key("name")]);
  }

  lemma ParseFirstNameFirst()
    ensures Parse("$[0].name.first") == Ok([Index(0), Key("name"), Key("first")])
  {
    ThreeTokens(BracketIndex("0"), DotKey("name"), DotKey("first"));
    FirstNameFirstText();
    assert DigitsValue("0") == 0;
    RootedParsesAs("$[0].name.first", [BracketIndex("0"), DotKey("name"), DotKey("first")],
      [Index(0), Key("name"), Key("first")]);
  }

  lemma FirstNameFirstText()
    ensures "$" + (Text(BracketIndex("0")) + (Text(DotKey("name")) + Text(DotKey("first")))) == "$[0].name.first"
    ensures ValidToken(BracketIndex("0")) && ValidToken(DotKey("name")) && ValidToken(DotKey("first"))
  {
    assert Text(BracketIndex("0")) == "[0]";
    assert Text(DotKey("name")) == ".name";
    assert Text(DotKey("first")) == ".first";
  }

  lemma ParseBC()
    ensures Parse("b.c") == Ok([Key("b"), Key("c")])
  {
    RelativeParsesAs("b.c", [DotKey("b"), DotKey("c")], [Key("b"), Key("c")]);
  }

  lemma ParseBD()
    ensures Parse("b.d") == Ok([Key("b"), Key("d")])
  {
    RelativeParsesAs("b.d", [DotKey("b"), DotKey("d")], [Key("b"), Key("d")]);
  }

  // The two deep paths of the nested-array test, each read in three pieces.

  /** A path without `$` whose text falls into three token runs reads as
      the three runs' segments in order. */
  lemma RelativeParsesInPieces(path: string, a: seq<Token>, b: seq<Token>, c: seq<Token>,
                               sa: seq<Segment>, sb: seq<Segment>, sc: seq<Segment>)
    requires path != [] && path[0] != '$'
    requires "." + path == Render(a) + Render(b) + Render(c)
    requires ValidTokens(a) && ValidTokens(b) && ValidTokens(c)
    requires Segments(a) == sa && Segments(b) == sb && Segments(c) == sc
    ensures Parse(path) == Ok(sa + sb + sc)
  {
    var ts := a + b + c;
    RenderConcat(a + b, c);
    RenderConcat(a, b);
    SegmentsConcat(a + b, c);
    SegmentsConcat(a, b);
    ValidConcat(a, b);
    ValidConcat(a + b, c);
    RelativeParsesAs(path, ts, sa + sb + sc);
  }

  lemma FourthText()
    ensures "." + "first.second[0].third[0].fourth[0]" == ".first.second[0]" + ".third[0]" + ".fourth[0]"
  {
  }

  /** Three tokens spell their texts in order and read as their segments. */
  lemma ThreeTokens(t0: Token, t1: Token, t2: Token)
    ensures Render([t0, t1, t2]) == Text(t0) + (Text(t1) + Text(t2))
    ensures ValidToken(t0) && ValidToken(t1) && ValidToken(t2) ==> ValidTokens([t0, t1, t2])
    ensures Segments([t0, t1, t2]) == [SegmentOf(t0), SegmentOf(t1), SegmentOf(t2)]
  {
    TwoTokens(t1, t2);
    assert [t0, t1, t2][1..] == [t1, t2];
    RenderCons(t0, [t1, t2]);
    assert Render([t1, t2]) == Text(t1) + Text(t2);
  }

  /** Two tokens spell their texts in order and read as their segments. */
  lemma TwoTokens(t0: Token, t1: Token)
    ensures Render([t0, t1]) == Text(t0) + Text(t1)
    ensures ValidToken(t0) && ValidToken(t1) ==> ValidTokens([t0, t1])
    ensures Segments([t0, t1]) == [SegmentOf(t0), SegmentOf(t1)]
  {
    assert [t0, t1][1..] == [t1] && [t1][1..] == [];
    RenderCons(t0, [t1]);
    RenderCons(t1, []);
    assert Text(t1) + [] == Text(t1);
  }

  lemma FourthHead()
    ensures Render([DotKey("first"), DotKey("second"), BracketIndex("0")]) == ".first.second[0]"
    ensures ValidTokens([DotKey("first"), DotKey("second"), BracketIndex("0")])
    ensures Segments([DotKey("first"), DotKey("second"), BracketIndex("0")]) == [Key("first"), Key("second"), Index(0)]
  {
    ThreeTokens(DotKey("first"), DotKey("second"), BracketIndex("0"));
    FourthHeadText();
    FourthHeadValid();
    assert DigitsValue("0") == 0;
  }

  lemma FourthHeadValid()
    ensures ValidToken(DotKey("first")) && ValidToken(DotKey("second")) && ValidToken(BracketIndex("0"))
  {
  }

  lemma FourthHeadText()
    ensures Text(DotKey("first")) + (Text(DotKey("second")) + Text(BracketIndex("0"))) == ".first.second[0]"
  {
    assert Text(DotKey("first")) == ".first";
    assert Text(DotKey("second")) == ".second";
    assert Text(BracketIndex("0")) == "[0]";
  }

  lemma ThirdLevel()
    ensures Render([DotKey("third"), BracketIndex("0")]) == ".third[0]"
    ensures ValidTokens([DotKey("third"), BracketIndex("0")])
    ensures Segments([DotKey("third"), BracketIndex("0")]) == [Key("third"), Index(0)]
  {
    TwoTokens(DotKey("third"), BracketIndex("0"));
    assert ".third" + "[0]" == ".third[0]";
    assert DigitsValue("0") == 0;
  }

  lemma FourthLevel()
    ensures Render([DotKey("fourth"), BracketIndex("0")]) == ".fourth[0]"
    ensures ValidTokens([DotKey("fourth"), BracketIndex("0")])
    ensures Segments([DotKey("fourth"), BracketIndex("0")]) == [Key("fourth"), Index(0)]
  {
    TwoTokens(DotKey("fourth"), BracketIndex("0"));
    assert ".fourth" + "[0]" == ".fourth[0]";
    assert DigitsValue("0") == 0;
  }

  lemma ParseFourth()
    ensures Parse("first.second[0].third[0].fourth[0]") ==
      Ok([Key("first"), Key("second"), Index(0)] + [Key("third"), Index(0)] + [Key("fourth"), Index(0)])
  {
    FourthText();
    FourthHead();
    ThirdLevel();
    FourthLevel();
    RelativeParsesInPieces("first.second[0].third[0].fourth[0]",
      [DotKey("first"), DotKey("second"), BracketIndex("0")],
      [DotKey("third"), BracketIndex("0")], [DotKey("fourth"), BracketIndex("0")],
      [Key("first"), Key("second"), Index(0)], [Key("third"), Index(0)], [Key("fourth"), Index(0)]);
  }

  lemma SeventhText()
    ensures "." + "first.fifth[0].sixth[1].seventh[2]" == ".first.fifth[0]" + ".sixth[1]" + ".seventh[2]"
  {
  }

  lemma SeventhHead()
    ensures Render([DotKey("first"), DotKey("fifth"), BracketIndex("0")]) == ".first.fifth[0]"
    ensures ValidTokens([DotKey("first"), DotKey("fifth"), BracketIndex("0")])
    ensures Segments([DotKey("first"), DotKey("fifth"), BracketIndex("0")]) == [Key("first"), Key("fifth"), Index(0)]
  {
    ThreeTokens(DotKey("first"), DotKey("fifth"), BracketIndex("0"));
    SeventhHeadText();
    SeventhHeadValid();
    assert DigitsValue("0") == 0;
  }

  lemma SeventhHeadValid()
    ensures ValidToken(DotKey("first")) && ValidToken(DotKey("fifth")) && ValidToken(BracketIndex("0"))
  {
  }

  lemma SeventhHeadText()
    ensures Text(DotKey("first")) + (Text(DotKey("fifth")) + Text(BracketIndex("0"))) == ".first.fifth[0]"
  {
    assert Text(DotKey("first")) == ".first";
    assert Text(DotKey("fifth")) == ".fifth";
    assert Text(BracketIndex("0")) == "[0]";
  }

  lemma SixthLevel()
    ensures Render([DotKey("sixth"), BracketIndex("1")]) == ".sixth[1]"
    ensures ValidTokens([DotKey("sixth"), BracketIndex("1")])
    ensures Segments([DotKey("sixth"), BracketIndex("1")]) == [Key("sixth"), Index(1)]
  {
    TwoTokens(DotKey("sixth"), BracketIndex("1"));
    assert ".sixth" + "[1]" == ".sixth[1]";
    assert DigitsValue("1") == 1;
  }

  lemma SeventhLevel()
    ensures Render([DotKey("seventh"), BracketIndex("2")]) == ".seventh[2]"
    ensures ValidTokens([DotKey("seventh"), BracketIndex("2")])
    ensures Segments([DotKey("seventh"), BracketIndex("2")]) == [Key("seventh"), Index(2)]
  {
    TwoTokens(DotKey("seventh"), BracketIndex("2"));
    assert ".seventh" + "[2]" == ".seventh[2]";
    assert DigitsValue("2") == 2;
  }

  lemma ParseSeventh()
    ensures Parse("first.fifth[0].sixth[1].seventh[2]") ==
      Ok([Key("first"), Key("fifth"), Index(0)] + [Key("sixth"), Index(1)] + [Key("seventh"), Index(2)])
  {
    SeventhText();
    SeventhHead();
    SixthLevel();
    SeventhLevel();
    RelativeParsesInPieces("first.fifth[0].sixth[1].seventh[2]",
      [DotKey("first"), DotKey("fifth"), BracketIndex("0")],
      [DotKey("sixth"), BracketIndex("1")], [DotKey("seventh"), BracketIndex("2")],
      [Key("first"), Key("fifth"), Index(0)], [Key("sixth"), Index(1)], [Key("seventh"), Index(2)]);
  }
}
