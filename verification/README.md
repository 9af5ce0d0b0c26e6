# Karate `Json` path engine, modelled in Dafny

This project models the JSON path engine behind `com.intuit.karate.Json`:
how a path such as `$.foo['bar'][0]` is read, how it splits into a parent
path and a leaf (`toParentAndLeaf`), and what `pathExists`, `get`,
`get` with a default, `set` and `remove` do to a document tree. The
behaviour follows the assertions of `JsonTest.java` one by one.

The modules:

- `Values` holds the value tree. Objects are ordered entry lists (the
  original keeps insertion order), and arrays are sequences. The module
  also has the object and array edits the engine is built from:
  - `Put`: add or overwrite a key in place;
  - `Delete`: delete a key;
  - `SetAt`: overwrite an index, or pad with nulls up to it;
  - `RemoveAt`: delete an index and shift later elements down.
- `PathSyntax` holds the path language: an optional `$`, dot keys, quoted
  bracket keys, indices and the append marker `[]`.
  - A path is cut into tokens that keep their spelling. The tokens are then
    read as segments.
  - `ToParentAndLeaf` splits the token list just before the last key token.
  - `Render` is the reader's inverse: it spells tokens back as path text.
- `PathOps` works on segment lists: reading (`GetIn`), writing (`SetIn`) and
  deleting (`RemoveIn`), with the general laws they obey.
- `JsonPath` holds the same operations addressed by path text.
- `JsonDoc` holds the class `Json`. Its one mutable field is `root`.
  - `Set` and `Remove` replace the root and return the document itself, so
    calls chain.
  - The reads are functions of the root.
- `ScenarioPaths`, `Scenarios` and `Sessions` are the unit tests'
  concrete paths, calls and call sequences, each stated as a lemma or a
  method.

Design choices the tests leave open:

- A path without `$` is read after `$.`, and the empty path is the root.
- `set` and `remove` at the root itself fail with `RootPath`.
- The append marker is accepted only as the last step of a write.
- `remove` of an object key that is not there succeeds and changes nothing, as a key delete is meant to be idempotent. A missing step above the leaf, or an index past the end, fails with `NotFound`.
- A path with no key token, such as `$[0]`, splits as `("", "$[0]")`.
- Failures are values of `PathError` rather than exceptions.

## Model

Every source cell is in `karate-core/src/test/java/com/intuit/karate/JsonTest.java`.

| member | source | states |
|---|---|---|
| ScenarioPaths.SplitTable | karate-core/src/test/java/com/intuit/karate/JsonTest.java:28-38 | all eleven rows of the parent/leaf table give exactly the pairs the test expects |
| ScenarioPaths.SplitRoot | karate-core/src/test/java/com/intuit/karate/JsonTest.java:28 | `$` splits into an empty parent and the leaf `$` |
| ScenarioPaths.SplitFoo | karate-core/src/test/java/com/intuit/karate/JsonTest.java:29 | `$.foo` splits into `$` and `foo` |
| ScenarioPaths.SplitQuotedFoo | karate-core/src/test/java/com/intuit/karate/JsonTest.java:30 | `$['foo']` splits into `$` and the bracketed leaf `['foo']` |
| ScenarioPaths.SplitFooBar | karate-core/src/test/java/com/intuit/karate/JsonTest.java:31 | `$.foo.bar` splits into `$.foo` and `bar` |
| ScenarioPaths.SplitFooQuotedBar | karate-core/src/test/java/com/intuit/karate/JsonTest.java:32 | `$.foo['bar']` splits into `$.foo` and `['bar']` |
| ScenarioPaths.SplitFooBarIndex | karate-core/src/test/java/com/intuit/karate/JsonTest.java:33 | a trailing index travels with its key: `$.foo.bar[0]` gives `$.foo` and `bar[0]` |
| ScenarioPaths.SplitFooQuotedBarIndex | karate-core/src/test/java/com/intuit/karate/JsonTest.java:34 | `$.foo['bar'][0]` gives `$.foo` and `['bar'][0]` |
| ScenarioPaths.SplitIndexedBarIndex | karate-core/src/test/java/com/intuit/karate/JsonTest.java:35 | an index before the last key stays in the parent: `$.foo[2].bar[0]` gives `$.foo[2]` and `bar[0]` |
| ScenarioPaths.SplitIndexedQuotedBarIndex | karate-core/src/test/java/com/intuit/karate/JsonTest.java:36 | `$.foo[2]['bar'][0]` gives `$.foo[2]` and `['bar'][0]` |
| ScenarioPaths.SplitIndexedBar | karate-core/src/test/java/com/intuit/karate/JsonTest.java:37 | `$.foo[2].bar` gives `$.foo[2]` and `bar` |
| ScenarioPaths.SplitIndexedQuotedBar | karate-core/src/test/java/com/intuit/karate/JsonTest.java:38 | `$.foo[2]['bar']` gives `$.foo[2]` and `['bar']` |
| ScenarioPaths.SplitBareIndex | karate-core/src/test/java/com/intuit/karate/JsonTest.java:80 | a path without a key has no parent: `$[0]` gives `""` and `$[0]` |
| ScenarioPaths.ParseRoot | karate-core/src/test/java/com/intuit/karate/JsonTest.java:45 | `$` names the root (no segment) |
| ScenarioPaths.ParseRootFoo | karate-core/src/test/java/com/intuit/karate/JsonTest.java:46 | `$.foo` reads as the one key `foo` |
| ScenarioPaths.ParseFoo | karate-core/src/test/java/com/intuit/karate/JsonTest.java:47 | the bare `foo` reads as the same key as `$.foo` |
| ScenarioPaths.ParseBar | karate-core/src/test/java/com/intuit/karate/JsonTest.java:51 | `bar` reads as the key `bar` |
| ScenarioPaths.ParseBarBaz | karate-core/src/test/java/com/intuit/karate/JsonTest.java:50 | `bar.baz` reads as the keys `bar`, `baz` |
| ScenarioPaths.ParseFooBar | karate-core/src/test/java/com/intuit/karate/JsonTest.java:60 | `foo.bar` reads as the keys `foo`, `bar` |
| ScenarioPaths.ParseFooBarFirst | karate-core/src/test/java/com/intuit/karate/JsonTest.java:62 | `foo.bar[0]` reads as `foo`, `bar`, index 0 |
| ScenarioPaths.ParseFooBarSecond | karate-core/src/test/java/com/intuit/karate/JsonTest.java:68 | `foo.bar[1]` reads as `foo`, `bar`, index 1 |
| ScenarioPaths.ParseFooBarAppend | karate-core/src/test/java/com/intuit/karate/JsonTest.java:64 | `foo.bar[]` reads as `foo`, `bar`, append |
| ScenarioPaths.ParseFirstFoo | karate-core/src/test/java/com/intuit/karate/JsonTest.java:76 | `$[0].foo` reads as index 0, key `foo` |
| ScenarioPaths.ParseSecondFoo | karate-core/src/test/java/com/intuit/karate/JsonTest.java:78 | `$[1].foo` reads as index 1, key `foo` |
| ScenarioPaths.ParseFirst | karate-core/src/test/java/com/intuit/karate/JsonTest.java:80 | `$[0]` reads as index 0 |
| ScenarioPaths.ParseFooAppend | karate-core/src/test/java/com/intuit/karate/JsonTest.java:82 | `$.foo[]` reads as key `foo`, append |
| ScenarioPaths.ParseKittenName | karate-core/src/test/java/com/intuit/karate/JsonTest.java:89 | `$.kitten.name` reads as two keys |
| ScenarioPaths.ParseFirstNameFirst | karate-core/src/test/java/com/intuit/karate/JsonTest.java:96 | `$[0].name.first` reads as index 0 then two keys |
| ScenarioPaths.ParseFourth | karate-core/src/test/java/com/intuit/karate/JsonTest.java:103 | the three-level path reads as its seven segments in order |
| ScenarioPaths.ParseSeventh | karate-core/src/test/java/com/intuit/karate/JsonTest.java:105 | the second three-level path reads as its seven segments in order |
| ScenarioPaths.ParseBC | karate-core/src/test/java/com/intuit/karate/JsonTest.java:112 | `b.c` reads as the keys `b`, `c` |
| ScenarioPaths.ParseBD | karate-core/src/test/java/com/intuit/karate/JsonTest.java:114-115 | `b.d` reads as the keys `b`, `d` |
| Scenarios.EmptyObjectPaths | karate-core/src/test/java/com/intuit/karate/JsonTest.java:43-46 | on an empty object the root exists and `$.foo` does not |
| Scenarios.WriteFoo | karate-core/src/test/java/com/intuit/karate/JsonTest.java:47-48 | writing the bare key `foo` into `{}` gives `{foo: 'bar'}` |
| Scenarios.AfterWriteFoo | karate-core/src/test/java/com/intuit/karate/JsonTest.java:49-51 | after that write `$.foo` exists; `bar` and `bar.baz` (through a missing key) do not |
| Scenarios.WriteBarBaz | karate-core/src/test/java/com/intuit/karate/JsonTest.java:52-53 | writing `bar.baz` creates the missing object `bar` after `foo` |
| Scenarios.RemoveFoo | karate-core/src/test/java/com/intuit/karate/JsonTest.java:54-55 | deleting `foo` leaves only `bar` and its subtree |
| Scenarios.RemoveBarBaz | karate-core/src/test/java/com/intuit/karate/JsonTest.java:56-57 | deleting the only key of a nested object leaves that object empty, not missing |
| Scenarios.RemoveBar | karate-core/src/test/java/com/intuit/karate/JsonTest.java:58-59 | deleting `bar` returns the document to `{}` |
| Scenarios.WriteFooBar | karate-core/src/test/java/com/intuit/karate/JsonTest.java:60-61 | writing `foo.bar` into `{}` creates `foo` and stores the array under `bar` |
| Scenarios.WriteFirstItem | karate-core/src/test/java/com/intuit/karate/JsonTest.java:62-63 | writing index 0 overwrites the first element; the length stays 2 |
| Scenarios.AppendItem | karate-core/src/test/java/com/intuit/karate/JsonTest.java:64-65 | the append marker puts 8 after the last element |
| Scenarios.RemoveFirstItem | karate-core/src/test/java/com/intuit/karate/JsonTest.java:66-67 | deleting index 0 shifts the later elements down |
| Scenarios.RemoveSecondItem | karate-core/src/test/java/com/intuit/karate/JsonTest.java:68-69 | deleting the last index shortens the array by one |
| Scenarios.RemoveArray | karate-core/src/test/java/com/intuit/karate/JsonTest.java:70-71 | deleting the key that holds the array removes the whole array |
| Scenarios.RemoveLastKey | karate-core/src/test/java/com/intuit/karate/JsonTest.java:72-73 | deleting `foo` returns the document to `{}` |
| Scenarios.WriteIntoFirst | karate-core/src/test/java/com/intuit/karate/JsonTest.java:74-77 | writing `$[0].foo` into `[]` creates the first element as an object |
| Scenarios.WriteIntoSecond | karate-core/src/test/java/com/intuit/karate/JsonTest.java:78-79 | writing `$[1].foo` adds a second element and keeps the first |
| Scenarios.RemoveFirst | karate-core/src/test/java/com/intuit/karate/JsonTest.java:80-81 | deleting `$[0]` of the root array shifts the second element down |
| Scenarios.AppendIntoMissing | karate-core/src/test/java/com/intuit/karate/JsonTest.java:82-83 | appending under a missing key creates the array with the value as its only element |
| Scenarios.WriteKittenName | karate-core/src/test/java/com/intuit/karate/JsonTest.java:88-90 | a stored null in the way is replaced by an object; the sibling key is kept |
| Scenarios.WriteFirstName | karate-core/src/test/java/com/intuit/karate/JsonTest.java:95-97 | writing through index 0 of `[]` creates an object, and the key after it creates a nested object |
| Scenarios.WriteFourth | karate-core/src/test/java/com/intuit/karate/JsonTest.java:102-104 | a write three arrays deep into `{}` creates every object and array on the way |
| Scenarios.WriteSeventh | karate-core/src/test/java/com/intuit/karate/JsonTest.java:105-106 | a second deep write adds `fifth` beside `second` and pads the new arrays with nulls up to indices 1 and 2 |
| Scenarios.ReadNested | karate-core/src/test/java/com/intuit/karate/JsonTest.java:111-115 | `b.c` reads as 2; the missing `b.d` gives back the default, null or 3 |
| Scenarios.SetNull | karate-core/src/test/java/com/intuit/karate/JsonTest.java:88-90 | a null in the way of a write is treated as the fresh container the next step needs |
| Scenarios.SetKeyIntoNull | karate-core/src/test/java/com/intuit/karate/JsonTest.java:52-53 | a missing slot followed by a key becomes an object holding just that key |
| Scenarios.SetIndexIntoNull | karate-core/src/test/java/com/intuit/karate/JsonTest.java:95-97 | a missing slot followed by an index becomes an array padded with nulls up to the index |
| Scenarios.SetNewKey | karate-core/src/test/java/com/intuit/karate/JsonTest.java:52-53 | a write under a key the object lacks appends that key after the others |
| Scenarios.SetOldKey | karate-core/src/test/java/com/intuit/karate/JsonTest.java:105-106 | a write under a present key rewrites that key's value in place |
| Scenarios.SetOldIndex | karate-core/src/test/java/com/intuit/karate/JsonTest.java:62-63 | a write at an index inside the array rewrites that element only |
| Scenarios.SetNewIndex | karate-core/src/test/java/com/intuit/karate/JsonTest.java:105-106 | a write past the end keeps the elements and pads with nulls up to the index |
| Scenarios.RemoveUnderKey | karate-core/src/test/java/com/intuit/karate/JsonTest.java:56-57 | a delete below a key rewrites only that key's value |
| Sessions.KeySession | karate-core/src/test/java/com/intuit/karate/JsonTest.java:43-59 | one document through two writes and three deletes shows exactly the expected tree after each call, ending at `{}` |
| Sessions.ArraySession | karate-core/src/test/java/com/intuit/karate/JsonTest.java:60-73 | the array part of the test, call by call, back to `{}` |
| Sessions.RootArraySession | karate-core/src/test/java/com/intuit/karate/JsonTest.java:74-81 | the root-array part of the test, call by call |
| Sessions.ChainedAppend | karate-core/src/test/java/com/intuit/karate/JsonTest.java:82-83 | a write chained on a newly created object hands back a newly created document, whose root is `{foo: ['a']}` |
| Sessions.NestedObjectSession | karate-core/src/test/java/com/intuit/karate/JsonTest.java:88-90 | the document after writing through a stored null |
| Sessions.NestedArraySession | karate-core/src/test/java/com/intuit/karate/JsonTest.java:95-97 | the document after writing through index 0 of an empty array |
| Sessions.DeepSession | karate-core/src/test/java/com/intuit/karate/JsonTest.java:102-106 | the document after each of the two deep writes |
| JsonDoc.Json.Object | karate-core/src/test/java/com/intuit/karate/JsonTest.java:43-44 | a new document is the empty object |
| JsonDoc.Json.Array | karate-core/src/test/java/com/intuit/karate/JsonTest.java:74-75 | a document can start as the empty array |
| JsonDoc.Json.Of | karate-core/src/test/java/com/intuit/karate/JsonTest.java:88 | a document can start from an already-built tree |
| JsonDoc.Json.Set | karate-core/src/test/java/com/intuit/karate/JsonTest.java:47-83 | succeeds exactly when the path-level write does. On success it returns the document itself and the root becomes the written tree. The path then reads as the value written, unless the path ends in `[]`. On failure the root is unchanged. Keys stay distinct. |
| JsonDoc.Json.Remove | karate-core/src/test/java/com/intuit/karate/JsonTest.java:54-81 | succeeds exactly when the path-level delete does: always when the path named something below the root, and also for a key leaf that names nothing, in which case the root is unchanged. A successful delete of an index leaf had something to delete. On success it returns the document and the root becomes the tree without the leaf. On failure the root is unchanged. Keys stay distinct. |
| JsonDoc.Json.Get | karate-core/src/test/java/com/intuit/karate/JsonTest.java:43-51 | the root path reads as the whole document; a path that reads has parsed |
| JsonDoc.Json.PathExists | karate-core/src/test/java/com/intuit/karate/JsonTest.java:43-51 | the root always exists; a path exists exactly when it reads |
| JsonDoc.Json.GetOr | karate-core/src/test/java/com/intuit/karate/JsonTest.java:111-115 | the stored value when the path exists, the default otherwise |
| JsonPath.Get | karate-core/src/test/java/com/intuit/karate/JsonTest.java:43-51 | the root path reads as the whole document; a failed read is a syntax error, a missing slot, a value of the wrong kind or an append marker |
| JsonPath.PathExists | karate-core/src/test/java/com/intuit/karate/JsonTest.java:43-51 | the root always exists; a path that does not parse names nothing |
| JsonPath.Set | karate-core/src/test/java/com/intuit/karate/JsonTest.java:47-106 | the root itself cannot be written; a successful write leaves an object or an array at the root |
| JsonPath.Remove | karate-core/src/test/java/com/intuit/karate/JsonTest.java:54-81 | the root itself cannot be deleted; a successful delete keeps the kind of the root |
| JsonPath.RootAndRelative | karate-core/src/test/java/com/intuit/karate/JsonTest.java:45-49 | the root always exists; a path without `$` reads as the same path after `$.` |
| JsonPath.GetOr | karate-core/src/test/java/com/intuit/karate/JsonTest.java:114-115 | the stored value when the path exists, the default otherwise |
| JsonPath.ParseBareKey | karate-core/src/test/java/com/intuit/karate/JsonTest.java:47 | a bare name is the single key it spells |
| JsonPath.SetBareKey | karate-core/src/test/java/com/intuit/karate/JsonTest.java:47-53 | writing a bare key into an object adds or overwrites that one key |
| JsonPath.SetThenGet | karate-core/src/test/java/com/intuit/karate/JsonTest.java:47-49 | after a write (no append marker) the path exists and reads as the value written |
| JsonPath.SetFailures | karate-core/src/test/java/com/intuit/karate/JsonTest.java:52-53 | a write of a parsed path fails only on a type mismatch, a misplaced append marker or the root, never for a missing slot |
| JsonPath.SetThroughParent | karate-core/src/test/java/com/intuit/karate/JsonTest.java:52-53 | after a write, the parent path of the split holds an object: what writing the leaf into the old parent (null when missing) gives |
| JsonPath.SplitSegments | karate-core/src/test/java/com/intuit/karate/JsonTest.java:28-38 | parent segments followed by leaf segments are the path's segments, and the leaf starts with a key |
| JsonPath.SetSplit | karate-core/src/test/java/com/intuit/karate/JsonTest.java:52-53 | a write cut before a key step only walks the part above the cut, and makes the slot at the cut an object |
| JsonPath.KeyFirstGivesObject | karate-core/src/test/java/com/intuit/karate/JsonTest.java:88-90 | a write whose first step is a key always leaves an object there |
| JsonPath.RemoveDefined | karate-core/src/test/java/com/intuit/karate/JsonTest.java:54-81 | a delete below the root succeeds exactly when the steps above the leaf exist and the leaf is a key of the object there or an index inside the array there; so whatever the path names can be deleted, a successful index delete had something to delete, and a successful delete of a key that names nothing leaves the document unchanged |
| JsonPath.RemoveAfterSet | karate-core/src/test/java/com/intuit/karate/JsonTest.java:47-55 | a key leaf that was written and then deleted no longer exists |
| JsonPath.RemoveKeyTwice | karate-core/src/test/java/com/intuit/karate/JsonTest.java:54-59 | deleting a key leaf twice is deleting it once |
| JsonPath.RemoveThroughParent | karate-core/src/test/java/com/intuit/karate/JsonTest.java:56-57 | after a delete the parent still exists and holds what deleting the leaf inside it gives |
| PathSyntax.Normalize | karate-core/src/test/java/com/intuit/karate/JsonTest.java:47-49 | every path is read from a text that starts with `$`; a path that already starts with `$` is kept as is |
| PathSyntax.ReadToken | karate-core/src/test/java/com/intuit/karate/JsonTest.java:28-38 | a token takes at least one character and no more than there are; a failure is a syntax error at an offset inside the text being read |
| PathSyntax.Tokenize | karate-core/src/test/java/com/intuit/karate/JsonTest.java:28-38 | a failure is a syntax error at an offset inside the text being read |
| PathSyntax.Parse | karate-core/src/test/java/com/intuit/karate/JsonTest.java:43-115 | a path fails to parse only on a syntax error, reported at an offset inside the path after `$` |
| PathSyntax.ReadTokenSound | karate-core/src/test/java/com/intuit/karate/JsonTest.java:28-38 | a token the reader accepts is valid and spelled by the characters it consumed |
| PathSyntax.TokenizeSound | karate-core/src/test/java/com/intuit/karate/JsonTest.java:28-38 | accepted path text is exactly the spelling of the valid tokens read from it |
| PathSyntax.TokenizeRender | karate-core/src/test/java/com/intuit/karate/JsonTest.java:28-38 | valid tokens are read back from their own spelling (reader and renderer are inverse) |
| PathSyntax.ParsePathOf | karate-core/src/test/java/com/intuit/karate/JsonTest.java:45-83 | every segment list with spellable keys is read back from its canonical path |
| PathSyntax.NatDigits | karate-core/src/test/java/com/intuit/karate/JsonTest.java:62-69 | the decimal spelling of an index is digits only and reads back as that index |
| PathSyntax.LastKey | karate-core/src/test/java/com/intuit/karate/JsonTest.java:33-37 | the split point is a key token, and no key token follows it |
| PathSyntax.ToParentAndLeaf | karate-core/src/test/java/com/intuit/karate/JsonTest.java:28-38 | the split succeeds exactly when the path parses, fails with the parse error otherwise, and a non-empty parent starts with `$` |
| PathSyntax.ParentAndLeafReassemble | karate-core/src/test/java/com/intuit/karate/JsonTest.java:28-38 | parent and leaf rejoin to the path: directly for a bracketed leaf or an empty parent, with a dot otherwise |
| PathSyntax.ParentAndLeafSegments | karate-core/src/test/java/com/intuit/karate/JsonTest.java:28-38 | the parent names the segments before the last key; the leaf names that key and the indices after it |
| PathOps.Child | karate-core/src/test/java/com/intuit/karate/JsonTest.java:45-51 | a step finds a child exactly when the key is present or the index is in range |
| PathOps.GetIn | karate-core/src/test/java/com/intuit/karate/JsonTest.java:43-51 | no read passes an append marker; a read fails only on a missing slot, a value of the wrong kind or an append marker |
| PathOps.GetInLast | karate-core/src/test/java/com/intuit/karate/JsonTest.java:50 | a read is the read of the container followed by the last step inside it |
| PathOps.SetIn | karate-core/src/test/java/com/intuit/karate/JsonTest.java:47-106 | a write below a node passes only through a null or a container of the kind its first step needs, and leaves such a container there |
| PathOps.RemoveIn | karate-core/src/test/java/com/intuit/karate/JsonTest.java:54-81 | a delete passes only through containers of the kind its first step needs and leaves the same kind; it fails only on a missing slot, a value of the wrong kind or an append marker |
| PathOps.GetInConcat | karate-core/src/test/java/com/intuit/karate/JsonTest.java:50 | reading a path is reading its first part, then the rest inside the result; a failure on the way is the result |
| PathOps.SetErrors | karate-core/src/test/java/com/intuit/karate/JsonTest.java:52-53 | a write fails only on a value of the wrong kind in the way, or an append marker before the end |
| PathOps.SetIntoNull | karate-core/src/test/java/com/intuit/karate/JsonTest.java:102-104 | writing into nothing always succeeds: every level is created |
| PathOps.SetLeavesContainers | karate-core/src/test/java/com/intuit/karate/JsonTest.java:95-97 | after a write, each prefix of the path holds an object before a key and an array before an index |
| PathOps.SetBelow | karate-core/src/test/java/com/intuit/karate/JsonTest.java:52-53 | a write through `a` then `b` leaves at `a` what writing `b` into the old slot at `a` gives |
| PathOps.GetAfterSet | karate-core/src/test/java/com/intuit/karate/JsonTest.java:47-49 | after a write the same path reads as the value written |
| PathOps.AppendPushes | karate-core/src/test/java/com/intuit/karate/JsonTest.java:64-65 | an append leaves the existing elements in order followed by the value; a missing array is created |
| PathOps.AppendTwice | karate-core/src/test/java/com/intuit/karate/JsonTest.java:82-83 | two appends leave both values after the existing elements, in call order |
| PathOps.SetRepeatable | karate-core/src/test/java/com/intuit/karate/JsonTest.java:64-65 | a write that succeeded can be made again at the same path |
| PathOps.SetAtIndex | karate-core/src/test/java/com/intuit/karate/JsonTest.java:62-63 | an in-range index is overwritten with the length unchanged; an index past the end pads with nulls to length index+1; other elements are kept |
| PathOps.SetAtKey | karate-core/src/test/java/com/intuit/karate/JsonTest.java:47-53 | a key write makes the key read as the value; every other key reads as before; a new key goes last |
| PathOps.SetAppendLast | karate-core/src/test/java/com/intuit/karate/JsonTest.java:64 | a write that succeeds has its append marker, if any, at the end |
| PathOps.SetFrame | karate-core/src/test/java/com/intuit/karate/JsonTest.java:52-53 | a write leaves everything at a diverging path as it was |
| PathOps.SetKeepsSibling | karate-core/src/test/java/com/intuit/karate/JsonTest.java:78-79 | a write keeps every other existing child of the container it goes through |
| PathOps.DropLeaf | karate-core/src/test/java/com/intuit/karate/JsonTest.java:54-69 | succeeds exactly on a key of an object or an index inside an array; a key is removed with its subtree and no longer reads, and a key that was not there leaves the object as it was; deleting an index shifts later elements; any other failure is the lookup's error |
| PathOps.Replace | karate-core/src/test/java/com/intuit/karate/JsonTest.java:56-57 | putting a child back makes that slot read as the new child |
| PathOps.ReplaceKeepsSibling | karate-core/src/test/java/com/intuit/karate/JsonTest.java:56-57 | putting a child back keeps every other slot |
| PathOps.RemoveDefined | karate-core/src/test/java/com/intuit/karate/JsonTest.java:54-81 | a delete succeeds exactly when the steps above the leaf read and the leaf is a key of the object there or an index inside the array there; it fails with the error of the missing or mistyped step; whatever reads can be deleted, and a successful index delete had something to delete |
| PathOps.RemoveAtLast | karate-core/src/test/java/com/intuit/karate/JsonTest.java:54-81 | a delete succeeds or fails exactly as deleting the leaf inside the container the steps above it read |
| PathOps.RemoveMissing | karate-core/src/test/java/com/intuit/karate/JsonTest.java:54-59 | a delete that succeeds although the path reads nothing had a key leaf and leaves the tree as it was |
| PathOps.RemoveAbsentKey | karate-core/src/test/java/com/intuit/karate/JsonTest.java:54-59 | deleting a key the object at the parent does not hold leaves the tree as it was |
| PathOps.RemoveKeyGone | karate-core/src/test/java/com/intuit/karate/JsonTest.java:54-59 | after deleting a key leaf, the parent is an object without that key and the path reads as `NotFound` |
| PathOps.RemoveAfterSet | karate-core/src/test/java/com/intuit/karate/JsonTest.java:47-55 | a key that was written and then deleted no longer reads |
| PathOps.RemoveKeyTwice | karate-core/src/test/java/com/intuit/karate/JsonTest.java:54-59 | deleting a key leaf twice is deleting it once |
| PathOps.RemoveBelow | karate-core/src/test/java/com/intuit/karate/JsonTest.java:56-57 | a delete through `a` then `b` leaves at `a` what deleting `b` inside the old slot gives |
| PathOps.RemoveAtParent | karate-core/src/test/java/com/intuit/karate/JsonTest.java:66-69 | a delete changes only the leaf's container, which loses exactly the leaf |
| PathOps.RemoveFrame | karate-core/src/test/java/com/intuit/karate/JsonTest.java:54-55 | a delete leaves everything at a path that parts from it above the leaf as it was |
| PathOps.SetPreservesWellFormed | karate-core/src/test/java/com/intuit/karate/JsonTest.java:47-53 | a write keeps every object free of duplicate keys |
| PathOps.RemovePreservesWellFormed | karate-core/src/test/java/com/intuit/karate/JsonTest.java:54-59 | a delete keeps every object free of duplicate keys |
| PathOps.RemoveUndoesSet | karate-core/src/test/java/com/intuit/karate/JsonTest.java:47-59 | adding a new key below existing containers and deleting it again gives back the original tree |
| Values.Lookup | karate-core/src/test/java/com/intuit/karate/JsonTest.java:111-115 | a key reads as a value exactly when it is present, and that value is stored under it |
| Values.Put | karate-core/src/test/java/com/intuit/karate/JsonTest.java:47-53 | the key reads as the new value; other keys read as before; an existing key keeps its place and a new key goes last |
| Values.PutKeepsDistinct | karate-core/src/test/java/com/intuit/karate/JsonTest.java:47-53 | writing a key never duplicates a key |
| Values.Delete | karate-core/src/test/java/com/intuit/karate/JsonTest.java:54-55 | the entries kept are exactly those under other keys; deleting an absent key changes nothing |
| Values.LookupDelete | karate-core/src/test/java/com/intuit/karate/JsonTest.java:54-55 | after a delete the key is gone and every other key reads as before |
| Values.DeleteOne | karate-core/src/test/java/com/intuit/karate/JsonTest.java:54-59 | with distinct keys, deleting a present key cuts out exactly its one entry |
| Values.DeleteKeepsDistinct | karate-core/src/test/java/com/intuit/karate/JsonTest.java:54-59 | deleting a key never duplicates a key |
| Values.Nulls | karate-core/src/test/java/com/intuit/karate/JsonTest.java:105-106 | the padding is exactly `n` nulls |
| Values.SetAt | karate-core/src/test/java/com/intuit/karate/JsonTest.java:62-63 | an in-range index is overwritten with the length unchanged; past the end the array is padded with nulls to length index+1; other elements are kept |
| Values.RemoveAt | karate-core/src/test/java/com/intuit/karate/JsonTest.java:66-69 | the array loses one element; earlier elements stay and later ones move down by one |

## Left out

- `com/intuit/karate/Json.java` and its JSON-path library are not part of this model. The model follows what the unit tests require of them.
- Lenient JSON text parsing is not modelled, so documents and written values are already-built trees. This covers:
  - `Json.of` and `Json.parse` on text;
  - turning the string `"[1, 2]"` into an array inside `set`. The tests at lines 60-61 and 76-79 are modelled as writes of the array `[1, 2]`.
- The structural comparison behind the tests' `match` helper is replaced by equality of trees.
- `getJson` is not modelled. It returns a live view onto a subtree, which would need aliasing; `get` returning the subtree is what the model keeps. `isArray`, `asList` and `asMap` are not modelled either.
- `getOptional` is not modelled. The one assertion that uses it reads the same value as `get`.
- Floating-point and other non-integer numbers are not modelled, and neither are numbers of bounded width.
- Path syntax the tests do not use is not modelled: wildcards, filters, deep scan, negative indices, double-quoted bracket keys (`["name"]`) and escaped quotes.
- Exceptions become `PathError` results, and the exact error type and message of the original are not modelled.
- JsonDoc.Json.Set: states that the path reads as the value written only when the path has no append marker. After `[]` the value is the new last element; `PathOps.AppendPushes` states that.
- `DockerTarget`, `KarateTemplateResource` and `Frame` are not modelled. They are container shell plumbing, a template-engine adapter over stream I/O, and a value holder with only `toString`.
