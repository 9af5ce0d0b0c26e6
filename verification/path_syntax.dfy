/** The path language: an optional leading `$`, dot keys `.name`, quoted
    bracket keys `['name']`, indices `[N]` and the append marker `[]`.
    A path is first cut into tokens that keep their spelling (so the
    parent/leaf split can hand back substrings of the path), then the tokens
    are read as segments. */
module PathSyntax {
  import opened Results

  /** One step of a parsed path. */
  datatype Segment = Key(name: string) | Index(i: nat) | Append

  /** How a path can be wrong. `SyntaxError` carries the offset in the
      (prefixed) path text where reading stopped. */
  datatype PathError =
    | SyntaxError(offset: nat)
    | NotFound
    | TypeMismatch
    | RootPath
    | MisplacedAppend

  /** A token and the text it was read from. */
  datatype Token =
    | DotKey(name: string)
    | BracketKey(name: string)
    | BracketIndex(digits: string)
    | BracketAppend

  // ---------------------------------------------------------------------
  // Characters
  // ---------------------------------------------------------------------

  datatype CharClass = NameChars | QuotedChars | Digits

  /** Dot keys stop at a dot or a bracket; quoted keys stop at the quote. */
  predicate InClass(c: char, cls: CharClass) {
    match cls
    case NameChars => c != '.' && c != '[' && c != ']'
    case QuotedChars => c != '\''
    case Digits => '0' <= c <= '9'
  }

  predicate AllIn(s: string, cls: CharClass) {
    forall i :: 0 <= i < |s| ==> InClass(s[i], cls)
  }

  /** Length of the longest prefix of `s` made of `cls` characters. */
  function Span(s: string, cls: CharClass): (n: nat)
    ensures n <= |s|
  {
    if s == [] || !InClass(s[0], cls) then 0 else 1 + Span(s[1..], cls)
  }

  /** The span is as long as it can be: all of it is in `cls`, and the
      character after it (if any) is not. */
  lemma {:induction false} SpanMaximal(s: string, cls: CharClass)
    ensures AllIn(s[..Span(s, cls)], cls)
    ensures Span(s, cls) < |s| ==> !InClass(s[Span(s, cls)], cls)
  {
    if s != [] && InClass(s[0], cls) {
      SpanMaximal(s[1..], cls);
      var n := Span(s, cls);
      forall i | 0 <= i < n ensures InClass(s[..n][i], cls) {
        if i > 0 { assert s[..n][i] == s[1..][..n - 1][i - 1]; }
      }
    }
  }

  /** A run of `cls` characters followed by a character outside `cls` (or by
      nothing) is spanned exactly. */
  lemma {:induction false} SpanExact(a: string, b: string, cls: CharClass)
    requires AllIn(a, cls)
    requires b == [] || !InClass(b[0], cls)
    ensures Span(a + b, cls) == |a|
  {
    if a != [] {
      assert (a + b)[1..] == a[1..] + b;
      SpanExact(a[1..], b, cls);
    } else {
      assert a + b == b;
    }
  }

  // ---------------------------------------------------------------------
  // Decimal digits
  // ---------------------------------------------------------------------

  function DigitValue(c: char): nat {
    if '0' <= c <= '9' then c as nat - '0' as nat else 0
  }

  /** The number a digit string spells, read most significant digit first. */
  function DigitsValue(d: string): nat {
    if d == [] then 0 else DigitsValue(d[..|d| - 1]) * 10 + DigitValue(d[|d| - 1])
  }

  /** The decimal spelling of `n`, without leading zeros. */
  function NatDigits(n: nat): (d: string)
    ensures d != [] && AllIn(d, Digits)
    ensures DigitsValue(d) == n
  {
    var last := ('0' as nat + n % 10) as char;
    var d := (if n < 10 then [] else NatDigits(n / 10)) + [last];
    assert d[..|d| - 1] == if n < 10 then [] else NatDigits(n / 10);
    d
  }

  // ---------------------------------------------------------------------
  // Tokens
  // ---------------------------------------------------------------------

  function Text(t: Token): string {
    match t
    case DotKey(name) => "." + name
    case BracketKey(name) => "['" + name + "']"
    case BracketIndex(digits) => "[" + digits + "]"
    case BracketAppend => "[]"
  }

  /** The path text a token sequence was read from, without the `$`. */
  function Render(ts: seq<Token>): string {
    if ts == [] then [] else Text(ts[0]) + Render(ts[1..])
  }

  lemma {:induction false} RenderConcat(ts: seq<Token>, us: seq<Token>)
    ensures Render(ts + us) == Render(ts) + Render(us)
  {
    if ts == [] {
      assert ts + us == us;
    } else {
      assert (ts + us)[1..] == ts[1..] + us;
      RenderConcat(ts[1..], us);
    }
  }

  /** The tokens the reader can produce: non-empty names without their
      terminators, non-empty digit strings. */
  predicate ValidToken(t: Token) {
    match t
    case DotKey(name) => name != [] && AllIn(name, NameChars)
    case BracketKey(name) => name != [] && AllIn(name, QuotedChars)
    case BracketIndex(digits) => digits != [] && AllIn(digits, Digits)
    case BracketAppend => true
  }

  predicate ValidTokens(ts: seq<Token>) {
    forall i :: 0 <= i < |ts| ==> ValidToken(ts[i])
  }

  /** Reads the one token that `s` opens with and says how many characters it
      took; `at` is the offset of `s` in the whole path, used in error
      reports. */
  function ReadToken(s: string, at: nat): (r: Result<(Token, nat), PathError>)
    ensures r.Ok? ==> 0 < r.value.1 <= |s|
    ensures r.Err? ==> r.error.SyntaxError? && at <= r.error.offset <= at + |s|
  {
    if s == [] then Err(SyntaxError(at))
    else if s[0] == '.' then
      var n := Span(s[1..], NameChars);
      if n == 0 then Err(SyntaxError(at + 1))
      else
        Ok((DotKey(s[1..][..n]), n + 1))
    else if s[0] == '[' && |s| >= 2 && s[1] == ']' then
      Ok((BracketAppend, 2))
    else if s[0] == '[' && |s| >= 2 && s[1] == '\'' then
      var n := Span(s[2..], QuotedChars);
      if n == 0 || |s| < n + 4 || s[n + 3] != ']' then Err(SyntaxError(at))
      else
        Ok((BracketKey(s[2..][..n]), n + 4))
    else if s[0] == '[' then
      var n := Span(s[1..], Digits);
      if n == 0 || |s| < n + 2 || s[n + 1] != ']' then Err(SyntaxError(at))
      else
        Ok((BracketIndex(s[1..][..n]), n + 2))
    else Err(SyntaxError(at))
  }

  /** A token that was read is valid and is spelled by the characters it
      took. */
  lemma ReadTokenSound(s: string, at: nat)
    requires ReadToken(s, at).Ok?
    ensures var (t, len) := ReadToken(s, at).value;
      s[..len] == Text(t) && ValidToken(t)
  {
    var (t, len) := ReadToken(s, at).value;
    if s[0] == '.' {
      SpanMaximal(s[1..], NameChars);
      assert s[..len] == "." + s[1..][..len - 1];
    } else if s[1] == ']' {
      assert s[..2] == "[]";
    } else if s[1] == '\'' {
      SpanMaximal(s[2..], QuotedChars);
      assert s[..len] == "['" + s[2..][..len - 4] + "']";
    } else {
      SpanMaximal(s[1..], Digits);
      assert s[..len] == "[" + s[1..][..len - 2] + "]";
    }
  }

  /** Reads the text after the `$` into tokens, left to right. A failure is
      a syntax error reported at an offset inside the text being read. */
  function Tokenize(s: string, at: nat): (r: Result<seq<Token>, PathError>)
    ensures r.Err? ==> r.error.SyntaxError? && at <= r.error.offset <= at + |s|
    decreases |s|
  {
    if s == [] then Ok([])
    else
      match ReadToken(s, at)
      case Err(e) => Err(e)
      case Ok(read) =>
        match Tokenize(s[read.1..], at + read.1)
        case Err(e) => Err(e)
        case Ok(rest) => Ok([read.0] + rest)
  }

  lemma RenderCons(t: Token, rest: seq<Token>)
    ensures Render([t] + rest) == Text(t) + Render(rest)
  {
    assert ([t] + rest)[0] == t && ([t] + rest)[1..] == rest;
  }

  lemma ValidCons(t: Token, rest: seq<Token>)
    ensures ValidTokens([t] + rest) <==> ValidToken(t) && ValidTokens(rest)
  {
    var ts := [t] + rest;
    assert ts[0] == t;
    assert forall i :: 0 <= i < |rest| ==> ts[i + 1] == rest[i];
    if ValidToken(t) && ValidTokens(rest) {
      forall i | 0 <= i < |ts| ensures ValidToken(ts[i]) {
        if i > 0 { assert ts[i] == rest[i - 1]; }
      }
    }
  }

  /** One step of the reader: a non-empty accepted text is a valid token,
      spelled by the text's first `len` characters, followed by the tokens
      `rest` of what remains, `tail`, which is read from offset `next`. */
  lemma TokenizeStep(s: string, at: nat) returns (t: Token, len: nat, tail: string, next: nat, rest: seq<Token>)
    requires s != [] && Tokenize(s, at).Ok?
    ensures 0 < len <= |s| && s[..len] == Text(t) && ValidToken(t)
    ensures tail == s[len..] && next == at + len && |tail| < |s|
    ensures Tokenize(tail, next) == Ok(rest)
    ensures Tokenize(s, at) == Ok([t] + rest)
  {
    t, len := ReadToken(s, at).value.0, ReadToken(s, at).value.1;
    tail, next := s[len..], at + len;
    rest := Tokenize(tail, next).value;
    ReadTokenSound(s, at);
  }

  /** Whatever the reader accepts it reads into valid tokens that spell the
      input back exactly. */
  lemma TokenizeSound(s: string, at: nat)
    requires Tokenize(s, at).Ok?
    ensures ValidTokens(Tokenize(s, at).value)
    ensures Render(Tokenize(s, at).value) == s
  {
    TokensSpell(s, at, Tokenize(s, at).value);
  }

  lemma {:induction false} TokensSpell(s: string, at: nat, ts: seq<Token>)
    requires Tokenize(s, at) == Ok(ts)
    ensures ValidTokens(ts) && Render(ts) == s
    decreases |s|, 1
  {
    if s != [] {
      TokensSpellStep(s, at, ts);
    }
  }

  lemma {:induction false} TokensSpellStep(s: string, at: nat, ts: seq<Token>)
    requires s != [] && Tokenize(s, at) == Ok(ts)
    ensures ValidTokens(ts) && Render(ts) == s
    decreases |s|, 0
  {
    var t, len, tail, next, rest := TokenizeStep(s, at);
    TokensSpell(tail, next, rest);
    SpellCons(s, len, t, rest);
  }

  /** A valid token spelling the start of `s`, followed by valid tokens
      spelling the rest, spells `s`. */
  lemma SpellCons(s: string, len: nat, t: Token, rest: seq<Token>)
    requires len <= |s| && s[..len] == Text(t) && ValidToken(t)
    requires ValidTokens(rest) && Render(rest) == s[len..]
    ensures ValidTokens([t] + rest) && Render([t] + rest) == s
  {
    RenderCons(t, rest);
    ValidCons(t, rest);
    TakeDrop(s, len);
  }

  lemma TakeDrop<T>(s: seq<T>, n: nat)
    requires n <= |s|
    ensures s == s[..n] + s[n..]
  {
  }

  /** Every token's text opens with a dot or a bracket. */
  lemma RenderStart(ts: seq<Token>)
    requires ts != []
    ensures Render(ts) != [] && (Render(ts)[0] == '.' || Render(ts)[0] == '[')
  {
  }

  /** A token may be followed by nothing or by the start of another token. */
  predicate TokenBoundary(r: string) {
    r == [] || r[0] == '.' || r[0] == '['
  }

  lemma ReadDotKey(name: string, r: string, at: nat)
    requires ValidToken(DotKey(name)) && TokenBoundary(r)
    ensures ReadToken(Text(DotKey(name)) + r, at) == Ok((DotKey(name), |name| + 1))
  {
    var s := Text(DotKey(name)) + r;
    assert s[0] == '.';
    assert s[1..] == name + r;
    SpanExact(name, r, NameChars);
    assert s[1..][..|name|] == name;
  }

  lemma ReadBracketKey(name: string, r: string, at: nat)
    requires ValidToken(BracketKey(name)) && TokenBoundary(r)
    ensures ReadToken(Text(BracketKey(name)) + r, at) == Ok((BracketKey(name), |name| + 4))
  {
    var s := Text(BracketKey(name)) + r;
    assert s[0] == '[' && s[1] == '\'';
    assert s[2..] == name + ("']" + r);
    SpanExact(name, "']" + r, QuotedChars);
    assert s[2..][..|name|] == name;
  }

  lemma ReadBracketIndex(digits: string, r: string, at: nat)
    requires ValidToken(BracketIndex(digits)) && TokenBoundary(r)
    ensures ReadToken(Text(BracketIndex(digits)) + r, at) == Ok((BracketIndex(digits), |digits| + 2))
  {
    var s := Text(BracketIndex(digits)) + r;
    assert s[1..] == digits + ("]" + r);
    SpanExact(digits, "]" + r, Digits);
    assert s[1] == digits[0];
    assert s[1..][..|digits|] == digits;
  }

  /** A valid token is read back from its own text, whatever follows it as
      long as that opens a new token. */
  lemma ReadTokenText(t: Token, r: string, at: nat)
    requires ValidToken(t) && TokenBoundary(r)
    ensures ReadToken(Text(t) + r, at) == Ok((t, |Text(t)|))
  {
    match t
    case DotKey(name) => ReadDotKey(name, r, at);
    case BracketKey(name) => ReadBracketKey(name, r, at);
    case BracketIndex(digits) => ReadBracketIndex(digits, r, at);
    case BracketAppend =>
  }

  /** Valid tokens are read back from their own text: the reader and `Render`
      are inverse on valid token sequences. */
  lemma {:induction false} TokenizeRender(ts: seq<Token>, at: nat)
    requires ValidTokens(ts)
    ensures Tokenize(Render(ts), at) == Ok(ts)
    decreases |ts|
  {
    if ts != [] {
      var t, rest := ts[0], ts[1..];
      var s, r := Render(ts), Render(rest);
      assert ts == [t] + rest;
      RenderCons(t, rest);
      ValidCons(t, rest);
      if rest != [] { RenderStart(rest); }
      ReadTokenText(t, r, at);
      assert s[|Text(t)|..] == r;
      TokenizeRender(rest, at + |Text(t)|);
    }
  }

  // ---------------------------------------------------------------------
  // Paths
  // ---------------------------------------------------------------------

  /** Paths without a leading `$` are read as relative to the root: `foo`
      means `$.foo`; the empty path is the root. */
  function Normalize(path: string): (p: string)
    ensures p != [] && p[0] == '$'
    ensures path != [] && path[0] == '$' ==> p == path
  {
    if path == [] then "$"
    else if path[0] == '$' then path
    else "$." + path
  }

  function SegmentOf(t: Token): Segment {
    match t
    case DotKey(name) => Key(name)
    case BracketKey(name) => Key(name)
    case BracketIndex(digits) => Index(DigitsValue(digits))
    case BracketAppend => Append
  }

  function Segments(ts: seq<Token>): (segs: seq<Segment>)
    ensures |segs| == |ts|
    ensures forall i :: 0 <= i < |ts| ==> segs[i] == SegmentOf(ts[i])
  {
    if ts == [] then [] else [SegmentOf(ts[0])] + Segments(ts[1..])
  }

  /** The segments a path names; `$` alone names the root (no segment). A
      path fails to parse only on a syntax error, reported at an offset of
      the path after the `$`. */
  function Parse(path: string): (r: Result<seq<Segment>, PathError>)
    ensures r.Err? ==> r.error.SyntaxError? && 1 <= r.error.offset <= |Normalize(path)|
  {
    var p := Normalize(path);
    match Tokenize(p[1..], 1)
    case Err(e) => Err(e)
    case Ok(ts) => Ok(Segments(ts))
  }

  // ---------------------------------------------------------------------
  // Writing segments back as a path
  // ---------------------------------------------------------------------

  /** A key that can be written after a dot. */
  predicate IsDotName(k: string) {
    k != [] && AllIn(k, NameChars)
  }

  /** Keys the path language can spell: non-empty, and free of the quote that
      would end a bracketed key. */
  predicate Spellable(segs: seq<Segment>) {
    forall i :: 0 <= i < |segs| && segs[i].Key? ==>
      segs[i].name != [] && AllIn(segs[i].name, QuotedChars)
  }

  /** Dot form where the key allows it, quoted bracket form otherwise. */
  function CanonicalToken(seg: Segment): Token {
    match seg
    case Key(k) => if IsDotName(k) then DotKey(k) else BracketKey(k)
    case Index(i) => BracketIndex(NatDigits(i))
    case Append => BracketAppend
  }

  function CanonicalTokens(segs: seq<Segment>): (ts: seq<Token>)
    ensures |ts| == |segs|
    ensures forall i :: 0 <= i < |segs| ==> ts[i] == CanonicalToken(segs[i])
  {
    if segs == [] then [] else [CanonicalToken(segs[0])] + CanonicalTokens(segs[1..])
  }

  /** The path text that names `segs`, starting with `$`. */
  function PathOf(segs: seq<Segment>): string {
    "$" + Render(CanonicalTokens(segs))
  }

  /** Every spellable segment sequence is read back from its own path. */
  lemma ParsePathOf(segs: seq<Segment>)
    requires Spellable(segs)
    ensures Parse(PathOf(segs)) == Ok(segs)
  {
    var ts := CanonicalTokens(segs);
    assert ValidTokens(ts) by {
      forall i | 0 <= i < |ts| ensures ValidToken(ts[i]) {
        assert ts[i] == CanonicalToken(segs[i]);
      }
    }
    var p := PathOf(segs);
    assert Normalize(p) == p && p[1..] == Render(ts);
    TokenizeRender(ts, 1);
    forall i | 0 <= i < |segs| ensures Segments(ts)[i] == segs[i] {
      assert SegmentOf(CanonicalToken(segs[i])) == segs[i];
    }
    assert Segments(ts) == segs;
    assert Tokenize(p[1..], 1) == Ok(ts);
  }

  // ---------------------------------------------------------------------
  // Parent and leaf
  // ---------------------------------------------------------------------

  predicate IsKeyToken(t: Token) {
    t.DotKey? || t.BracketKey?
  }

  /** Position of the last key token. */
  function LastKey(ts: seq<Token>): (r: Option<nat>)
    ensures r.Some? ==> r.value < |ts| && IsKeyToken(ts[r.value])
    ensures r.Some? ==> forall i :: r.value < i < |ts| ==> !IsKeyToken(ts[i])
    ensures r.None? ==> forall i :: 0 <= i < |ts| ==> !IsKeyToken(ts[i])
  {
    if ts == [] then None
    else if IsKeyToken(ts[|ts| - 1]) then Some(|ts| - 1)
    else LastKey(ts[..|ts| - 1])
  }

  /** How a key token is written as the first part of a leaf: a dot key
      loses its dot, a bracketed key stays bracketed. */
  function LeafHead(t: Token): string {
    match t
    case DotKey(name) => name
    case BracketKey(name) => "['" + name + "']"
    case _ => Text(t)
  }

  /** Splits a path into the container that holds the addressed slot and the
      leaf text that addresses the slot inside it. The leaf is the last key
      together with any brackets after it, so a trailing index travels with
      its key; a path with no key at all (`$`, `$[0]`) is all leaf, with an
      empty parent. The split fails exactly when the path does not parse,
      and with the same error. */
  function ToParentAndLeaf(path: string): (r: Result<(string, string), PathError>)
    ensures r.Ok? <==> Parse(path).Ok?
    ensures r.Err? ==> r.error == Parse(path).error
    ensures r.Ok? && r.value.0 != "" ==> r.value.0[0] == '$'
  {
    var p := Normalize(path);
    match Tokenize(p[1..], 1)
    case Err(e) => Err(e)
    case Ok(ts) =>
      match LastKey(ts)
      case None => Ok(("", p))
      case Some(j) => Ok(("$" + Render(ts[..j]), LeafHead(ts[j]) + Render(ts[j + 1..])))
  }

  /** The segments a leaf text names: a leaf that opens with a bracket follows
      `$` directly, any other leaf follows `$.`. */
  function ParseLeaf(leaf: string): Result<seq<Segment>, PathError> {
    match Tokenize(LeafPath(leaf)[1..], 1)
    case Err(e) => Err(e)
    case Ok(ts) => Ok(Segments(ts))
  }

  /** Parent and leaf put back together give the path again: directly when
      the leaf is bracketed or the parent is empty, joined by the dot that
      separated them otherwise. */
  lemma ParentAndLeafReassemble(path: string)
    requires ToParentAndLeaf(path).Ok?
    ensures var (parent, leaf) := ToParentAndLeaf(path).value;
      && leaf != []
      && if parent == "" || leaf[0] == '[' then parent + leaf == Normalize(path)
         else parent + "." + leaf == Normalize(path)
  {
    var p := Normalize(path);
    var ts := Tokenize(p[1..], 1).value;
    TokenizeSound(p[1..], 1);
    assert p == "$" + Render(ts);
    match LastKey(ts)
    case None =>
    case Some(j) => ReassembleAtKey(ts, j);
  }

  lemma ReassembleAtKey(ts: seq<Token>, j: nat)
    requires j < |ts| && IsKeyToken(ts[j]) && ValidToken(ts[j])
    ensures var parent, leaf := "$" + Render(ts[..j]), LeafHead(ts[j]) + Render(ts[j + 1..]);
      && leaf != []
      && if leaf[0] == '[' then parent + leaf == "$" + Render(ts)
         else parent + "." + leaf == "$" + Render(ts)
  {
    var before, after := Render(ts[..j]), Render(ts[j + 1..]);
    RenderAround(ts, j);
    KeyTextAsLeaf(ts[j], after);
    Join(before, Text(ts[j]) + after, LeafHead(ts[j]) + after);
  }

  lemma Join(before: string, rest: string, leaf: string)
    requires leaf != []
    requires if leaf[0] == '[' then rest == leaf else rest == "." + leaf
    ensures if leaf[0] == '[' then ("$" + before) + leaf == "$" + (before + rest)
      else ("$" + before) + "." + leaf == "$" + (before + rest)
  {
  }

  lemma RenderAround(ts: seq<Token>, j: nat)
    requires j < |ts|
    ensures Render(ts) == Render(ts[..j]) + (Text(ts[j]) + Render(ts[j + 1..]))
  {
    Around(ts, j);
    RenderConcat(ts[..j], [ts[j]] + ts[j + 1..]);
    RenderCons(ts[j], ts[j + 1..]);
  }

  lemma Around<T>(s: seq<T>, j: nat)
    requires j < |s|
    ensures s == s[..j] + ([s[j]] + s[j + 1..])
  {
  }

  /** A key token's text is its leaf head, behind a dot for a dot key. */
  lemma KeyTextAsLeaf(t: Token, r: string)
    requires IsKeyToken(t) && ValidToken(t)
    ensures var leaf := LeafHead(t) + r;
      && leaf != []
      && if leaf[0] == '[' then Text(t) + r == leaf else Text(t) + r == "." + leaf
  {
    match t
    case DotKey(name) => assert (name + r)[0] == name[0];
    case BracketKey(name) =>
  }

  /** The parent names the segments before the last key, the leaf names that
      key and the indices after it; together they are the path's segments. A
      path without keys has an empty parent and is its own leaf. */
  lemma ParentAndLeafSegments(path: string)
    requires Parse(path).Ok?
    ensures ToParentAndLeaf(path).Ok?
    ensures var (parent, leaf) := ToParentAndLeaf(path).value;
      var segs := Parse(path).value;
      if parent == "" then
        leaf == Normalize(path) && forall i :: 0 <= i < |segs| ==> !segs[i].Key?
      else
        && Parse(parent).Ok? && ParseLeaf(leaf).Ok?
        && Parse(parent).value + ParseLeaf(leaf).value == segs
        && ParseLeaf(leaf).value != [] && ParseLeaf(leaf).value[0].Key?
        && forall i :: 0 < i < |ParseLeaf(leaf).value| ==> !ParseLeaf(leaf).value[i].Key?
  {
    var p := Normalize(path);
    var ts := Tokenize(p[1..], 1).value;
    TokenizeSound(p[1..], 1);
    assert Parse(path) == Ok(Segments(ts));
    match LastKey(ts)
    case None =>
      forall i | 0 <= i < |ts| ensures !Segments(ts)[i].Key? {
        assert !IsKeyToken(ts[i]);
      }
    case Some(j) =>
      SplitTokensAt(ts, j);
  }

  /** The split of valid tokens at their last key, in segments. */
  lemma SplitTokensAt(ts: seq<Token>, j: nat)
    requires ValidTokens(ts) && LastKey(ts) == Some(j)
    ensures var parent, leaf := "$" + Render(ts[..j]), LeafHead(ts[j]) + Render(ts[j + 1..]);
      && Parse(parent).Ok? && ParseLeaf(leaf).Ok?
      && Parse(parent).value + ParseLeaf(leaf).value == Segments(ts)
      && ParseLeaf(leaf).value != [] && ParseLeaf(leaf).value[0].Key?
      && forall i :: 0 < i < |ParseLeaf(leaf).value| ==> !ParseLeaf(leaf).value[i].Key?
  {
    SplitAtLastKey(ts, j);
    SegmentsAtLastKey(ts, j);
  }

  /** Cutting valid tokens at the last key: the part before reads back as the
      parent path, the rest as the leaf. */
  lemma SplitAtLastKey(ts: seq<Token>, j: nat)
    requires ValidTokens(ts) && j < |ts| && IsKeyToken(ts[j])
    ensures Parse("$" + Render(ts[..j])) == Ok(Segments(ts[..j]))
    ensures ParseLeaf(LeafHead(ts[j]) + Render(ts[j + 1..])) == Ok(Segments(ts[j..]))
  {
    assert ValidTokens(ts[..j]) && ValidTokens(ts[j + 1..]) by {
      assert forall i :: 0 <= i < j ==> ts[..j][i] == ts[i];
      var after := ts[j + 1..];
      forall i | 0 <= i < |after| ensures ValidToken(after[i]) {
        assert after[i] == ts[j + 1 + i];
      }
    }
    ParentTokens(ts[..j]);
    LeafTokens(ts[j], ts[j + 1..]);
    assert ts[j..] == [ts[j]] + ts[j + 1..];
  }

  /** The segments of the parent and of the leaf make up the path's, and only
      the first of the leaf's is a key. */
  lemma SegmentsAtLastKey(ts: seq<Token>, j: nat)
    requires j < |ts| && IsKeyToken(ts[j])
    requires forall i :: j < i < |ts| ==> !IsKeyToken(ts[i])
    ensures Segments(ts) == Segments(ts[..j]) + Segments(ts[j..])
    ensures Segments(ts[j..])[0].Key?
    ensures forall i :: 0 < i < |ts| - j ==> !Segments(ts[j..])[i].Key?
  {
    SegmentsConcat(ts[..j], ts[j..]);
    TakeDrop(ts, j);
    forall i | 0 <= i < |ts| - j ensures Segments(ts[j..])[i] == SegmentOf(ts[j + i]) {
      assert ts[j..][i] == ts[j + i];
    }
  }

  lemma SegmentsConcat(a: seq<Token>, b: seq<Token>)
    ensures Segments(a + b) == Segments(a) + Segments(b)
  {
    forall i | 0 <= i < |a| + |b| ensures Segments(a + b)[i] == (Segments(a) + Segments(b))[i] {
      if i < |a| {
        assert (a + b)[i] == a[i];
      } else {
        assert (a + b)[i] == b[i - |a|];
      }
    }
  }

  lemma ParentTokens(ts: seq<Token>)
    requires ValidTokens(ts)
    ensures Parse("$" + Render(ts)) == Ok(Segments(ts))
  {
    var parent := "$" + Render(ts);
    assert Normalize(parent) == parent && parent[1..] == Render(ts);
    TokenizeRender(ts, 1);
  }

  lemma LeafTokens(t: Token, trailing: seq<Token>)
    requires IsKeyToken(t) && ValidToken(t) && ValidTokens(trailing)
    ensures ParseLeaf(LeafHead(t) + Render(trailing)) == Ok(Segments([t] + trailing))
  {
    ValidCons(t, trailing);
    LeafText(t, trailing);
    TokenizeRender([t] + trailing, 1);
  }

  /** Where the leaf text is read from: after `$` when it opens with a
      bracket, after `$.` otherwise. */
  function LeafPath(leaf: string): string {
    if leaf != [] && leaf[0] == '[' then "$" + leaf else "$." + leaf
  }

  /** The text after `$` (or `$.`) that a leaf stands for is the key token
      followed by its trailing brackets. */
  lemma LeafText(t: Token, trailing: seq<Token>)
    requires IsKeyToken(t) && ValidToken(t)
    ensures LeafPath(LeafHead(t) + Render(trailing))[1..] == Render([t] + trailing)
  {
    RenderCons(t, trailing);
    var r := Render(trailing);
    match t
    case DotKey(name) => LeafTextDot(name, r);
    case BracketKey(name) =>
      var leaf := "['" + name + "']" + r;
      assert leaf[0] == '[';
      assert LeafPath(leaf) == "$" + leaf;
  }

  lemma LeafTextDot(name: string, r: string)
    requires ValidToken(DotKey(name))
    ensures LeafPath(name + r)[1..] == "." + name + r
  {
    var leaf := name + r;
    assert leaf[0] == name[0];
    assert LeafPath(leaf) == "$." + leaf;
  }
}
