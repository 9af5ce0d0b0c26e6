/** The JSON value tree the path engine reads and rewrites: objects keep their
    keys in insertion order (a linked hash map in the original), arrays are
    sequences, and the scalars are strings, integers, booleans and null. */
module Values {
  import opened Results

  datatype Value =
    | Null
    | Bool(b: bool)
    | Int(n: int)
    | Str(s: string)
    | Arr(items: seq<Value>)
    | Obj(entries: seq<Entry>)

  /** One key/value pair of an object. */
  datatype Entry = Entry(key: string, value: Value)

  // ---------------------------------------------------------------------
  // Objects: ordered entries addressed by key
  // ---------------------------------------------------------------------

  /** The keys of `es` in order. */
  function Keys(es: seq<Entry>): (ks: seq<string>)
    ensures |ks| == |es|
    ensures forall i :: 0 <= i < |es| ==> ks[i] == es[i].key
  {
    if es == [] then [] else [es[0].key] + Keys(es[1..])
  }

  /** Position of the first entry whose key is `k`. */
  function IndexOf(es: seq<Entry>, k: string): (r: Option<nat>)
    ensures r.Some? ==> r.value < |es| && es[r.value].key == k
    ensures r.Some? ==> forall j :: 0 <= j < r.value ==> es[j].key != k
    ensures r.None? <==> k !in Keys(es)
  {
    if es == [] then None
    else if es[0].key == k then Some(0)
    else match IndexOf(es[1..], k)
      case None => None
      case Some(i) => Some(i + 1)
  }

  /** The value stored under `k`, if any. */
  function Lookup(es: seq<Entry>, k: string): (r: Option<Value>)
    ensures r.Some? <==> k in Keys(es)
    ensures r.Some? ==> Entry(k, r.value) in es
  {
    match IndexOf(es, k)
    case None => None
    case Some(i) => Some(es[i].value)
  }

  /** Lookup reads the first entry or goes on with the rest. */
  lemma LookupFirst(es: seq<Entry>, k: string)
    requires es != []
    ensures Lookup(es, k) == if es[0].key == k then Some(es[0].value) else Lookup(es[1..], k)
  {
  }

  /** Two entry lists with the same keys in the same places find every key at
      the same position. */
  lemma {:induction false} IndexOfSameKeys(es: seq<Entry>, fs: seq<Entry>, k: string)
    requires Keys(es) == Keys(fs)
    ensures IndexOf(es, k) == IndexOf(fs, k)
  {
    if es != [] {
      assert Keys(es[1..]) == Keys(es)[1..] == Keys(fs)[1..] == Keys(fs[1..]);
      IndexOfSameKeys(es[1..], fs[1..], k);
    }
  }

  /** Writing a key: an existing key keeps its place and gets the new value,
      a new key goes at the end; no other key is touched. */
  function Put(es: seq<Entry>, k: string, v: Value): (r: seq<Entry>)
    ensures Lookup(r, k) == Some(v)
    ensures forall k' :: k' != k ==> Lookup(r, k') == Lookup(es, k')
    ensures Keys(r) == if k in Keys(es) then Keys(es) else Keys(es) + [k]
  {
    match IndexOf(es, k)
    case Some(i) =>
      var r := es[i := Entry(k, v)];
      assert Keys(r) == Keys(es);
      forall k' ensures IndexOf(r, k') == IndexOf(es, k') {
        IndexOfSameKeys(r, es, k');
      }
      r
    case None =>
      var r := es + [Entry(k, v)];
      assert Keys(r) == Keys(es) + [k];
      PutNewKey(es, k, v);
      r
  }

  /** Appending an entry for a new key does not move any other key. */
  lemma {:induction false} PutNewKey(es: seq<Entry>, k: string, v: Value)
    requires k !in Keys(es)
    ensures forall k' :: k' != k ==> IndexOf(es + [Entry(k, v)], k') == IndexOf(es, k')
  {
    if es != [] {
      assert Keys(es) == [es[0].key] + Keys(es[1..]);
      PutNewKey(es[1..], k, v);
      assert (es + [Entry(k, v)])[1..] == es[1..] + [Entry(k, v)];
    }
  }

  /** Deleting a key removes every entry under it and keeps the others in
      order; deleting an absent key changes nothing. */
  function Delete(es: seq<Entry>, k: string): (r: seq<Entry>)
    ensures forall e :: e in r <==> e in es && e.key != k
    ensures k !in Keys(es) ==> r == es
  {
    if es == [] then []
    else
      var rest := Delete(es[1..], k);
      assert Keys(es) == [es[0].key] + Keys(es[1..]);
      if es[0].key == k then rest else [es[0]] + rest
  }

  /** After deleting `k` the key is gone and every other key reads as before. */
  lemma {:induction false} LookupDelete(es: seq<Entry>, k: string, k': string)
    ensures Lookup(Delete(es, k), k') == if k' == k then None else Lookup(es, k')
  {
    var r := Delete(es, k);
    if k' == k {
      assert k !in Keys(r);
    } else if es != [] {
      LookupDelete(es[1..], k, k');
      LookupFirst(es, k');
      var rest := Delete(es[1..], k);
      if es[0].key != k {
        assert r == [es[0]] + rest && r[1..] == rest;
        LookupFirst(r, k');
      }
    }
  }

  /** No key occurs twice: what a map-backed object always satisfies. */
  predicate DistinctKeys(es: seq<Entry>) {
    forall i, j :: 0 <= i < j < |es| ==> es[i].key != es[j].key
  }

  lemma PutKeepsDistinct(es: seq<Entry>, k: string, v: Value)
    requires DistinctKeys(es)
    ensures DistinctKeys(Put(es, k, v))
  {
    var r := Put(es, k, v);
    assert Keys(r) == if k in Keys(es) then Keys(es) else Keys(es) + [k];
  }

  lemma {:induction false} DeleteKeepsDistinct(es: seq<Entry>, k: string)
    requires DistinctKeys(es)
    ensures DistinctKeys(Delete(es, k))
  {
    if es != [] {
      DeleteKeepsDistinct(es[1..], k);
      var rest := Delete(es[1..], k);
      if es[0].key != k {
        forall e | e in rest ensures e.key != es[0].key {
          assert e in es[1..];
        }
      }
    }
  }

  /** Behind the first entry of an object with distinct keys, the keys stay
      distinct and the first key does not recur. */
  lemma DistinctTail(es: seq<Entry>)
    requires DistinctKeys(es) && es != []
    ensures DistinctKeys(es[1..]) && es[0].key !in Keys(es[1..])
  {
    var tail := es[1..];
    forall a, b | 0 <= a < b < |tail| ensures tail[a].key != tail[b].key {
      assert tail[a] == es[a + 1] && tail[b] == es[b + 1];
    }
    forall j | 0 <= j < |tail| ensures Keys(tail)[j] != es[0].key {
      assert tail[j] == es[j + 1];
    }
  }

  /** On an object whose keys are distinct, deleting a present key removes
      exactly that one entry and shifts nothing else. */
  lemma {:induction false} DeleteOne(es: seq<Entry>, k: string, i: nat)
    requires DistinctKeys(es) && i < |es| && es[i].key == k
    ensures Delete(es, k) == es[..i] + es[i + 1..]
  {
    DistinctTail(es);
    if i == 0 {
      DeleteFirst(es, k);
      assert es[..0] + es[1..] == es[1..];
    } else {
      DeleteOne(es[1..], k, i - 1);
      DeleteBehindFirst(es, k, i);
    }
  }

  /** Deleting the first key of an object with distinct keys drops that entry. */
  lemma DeleteFirst(es: seq<Entry>, k: string)
    requires es != [] && es[0].key == k && k !in Keys(es[1..])
    ensures Delete(es, k) == es[1..]
  {
  }

  /** The step of `DeleteOne` past the first entry. */
  lemma DeleteBehindFirst(es: seq<Entry>, k: string, i: nat)
    requires 0 < i < |es| && es[0].key != k
    requires Delete(es[1..], k) == es[1..][..i - 1] + es[1..][i..]
    ensures Delete(es, k) == es[..i] + es[i + 1..]
  {
    assert Delete(es, k) == [es[0]] + Delete(es[1..], k);
    CutBehindFirst(es, i);
  }

  /** Cutting entry `i` out of the tail and putting the head back is cutting
      entry `i` out of the whole. */
  lemma CutBehindFirst<T>(s: seq<T>, i: nat)
    requires 0 < i < |s|
    ensures [s[0]] + (s[1..][..i - 1] + s[1..][i..]) == s[..i] + s[i + 1..]
  {
    assert s[1..][..i - 1] == s[1..i] && s[1..][i..] == s[i + 1..];
    assert [s[0]] + s[1..i] == s[..i];
  }

  // ---------------------------------------------------------------------
  // Arrays: index writes with null padding, and deletion with shifting
  // ---------------------------------------------------------------------

  /** `n` explicit nulls. */
  function Nulls(n: nat): (r: seq<Value>)
    ensures |r| == n
    ensures forall i :: 0 <= i < n ==> r[i] == Null
  {
    if n == 0 then [] else Nulls(n - 1) + [Null]
  }

  /** Writing index `i`: an in-range index is overwritten in place; an index at
      or past the end first pads the array with nulls up to `i`. */
  function SetAt(a: seq<Value>, i: nat, v: Value): (r: seq<Value>)
    ensures |r| == if i < |a| then |a| else i + 1
    ensures r[i] == v
    ensures forall j :: 0 <= j < |a| && j != i ==> r[j] == a[j]
    ensures forall j :: |a| <= j < i ==> r[j] == Null
  {
    if i < |a| then a[i := v] else a + Nulls(i - |a|) + [v]
  }

  /** Deleting index `i`: later elements move down by one. */
  function RemoveAt(a: seq<Value>, i: nat): (r: seq<Value>)
    requires i < |a|
    ensures |r| == |a| - 1
    ensures forall j :: 0 <= j < i ==> r[j] == a[j]
    ensures forall j :: i <= j < |r| ==> r[j] == a[j + 1]
  {
    a[..i] + a[i + 1..]
  }

  // ---------------------------------------------------------------------
  // Well-formed trees
  // ---------------------------------------------------------------------

  /** Every object in the tree has distinct keys. */
  ghost predicate WellFormed(v: Value)
    decreases v
  {
    match v
    case Obj(es) =>
      && DistinctKeys(es)
      && forall i :: 0 <= i < |es| ==> WellFormed(es[i].value)
    case Arr(items) => forall i :: 0 <= i < |items| ==> WellFormed(items[i])
    case _ => true
  }
}
