/**
 * Python dicts from a language code to a value, as the code uses them for
 * multilingual attributes (`{'de': 'Titel', 'en': 'Title'}`).
 *
 * A dict is an association list in insertion order: Python iterates a dict in
 * that order, and the builders of localised lists depend on it.
 */
module LangDict {
  import opened Wrappers

  /** A Python value that is not a dict: `None` or a string. */
  datatype Value = Null | Text(s: string)

  /** One `language: value` item of a dict. */
  datatype Entry = Entry(lang: string, value: Value)

  /** No language occurs twice. */
  predicate UniqueKeys(es: seq<Entry>) {
    forall i, j :: 0 <= i < j < |es| ==> es[i].lang != es[j].lang
  }

  /** A dict: items in insertion order, keys unique. */
  type Dict = es: seq<Entry> | UniqueKeys(es)

  /** The keys in iteration order (`list(d)`). */
  function Keys(d: seq<Entry>): seq<string> {
    seq(|d|, i requires 0 <= i < |d| => d[i].lang)
  }

  /** `d.get(k)`: the value stored under `k`, if any. */
  function Get(d: seq<Entry>, k: string): Option<Value> {
    if d == [] then None
    else if d[0].lang == k then Some(d[0].value)
    else Get(d[1..], k)
  }

  /** `d[k] = v` on a copy of `d`: a present key keeps its place, a new key goes last. */
  function Put(d: Dict, k: string, v: Value): Dict {
    if k in Keys(d) then
      seq(|d|, i requires 0 <= i < |d| => if d[i].lang == k then Entry(k, v) else d[i])
    else
      assert forall j :: 0 <= j < |d| ==> d[j].lang == Keys(d)[j];
      d + [Entry(k, v)]
  }

  /** `{**a, **b}`: the items of `b`, in `b`'s order, written into a copy of `a`. */
  function Union(a: Dict, b: Dict): Dict
    decreases |b|
  {
    if b == [] then a else Union(Put(a, b[0].lang, b[0].value), b[1..])
  }

  /** The keys of `kb` that are not in `ka`, in `kb`'s order. */
  function NewKeys(ka: seq<string>, kb: seq<string>): seq<string> {
    if kb == [] then []
    else (if kb[0] in ka then [] else [kb[0]]) + NewKeys(ka, kb[1..])
  }

  // ---------------------------------------------------------------------------
  // Lookup

  lemma {:induction false} GetSome(d: seq<Entry>, k: string)
    ensures Get(d, k).Some? <==> k in Keys(d)
  {
    if d != [] {
      GetSome(d[1..], k);
      assert Keys(d) == [d[0].lang] + Keys(d[1..]);
    }
  }

  lemma {:induction false} GetAt(d: Dict, i: nat)
    requires i < |d|
    ensures Get(d, d[i].lang) == Some(d[i].value)
  {
    if i > 0 {
      assert d[0].lang != d[i].lang;
      GetAt(d[1..], i - 1);
    }
  }

  /** `Get` agrees with the items: a key is found exactly where it is stored. */
  lemma GetFound(d: Dict, k: string)
    ensures Get(d, k).Some? <==> exists i :: 0 <= i < |d| && d[i].lang == k
    ensures forall i :: 0 <= i < |d| && d[i].lang == k ==> Get(d, k) == Some(d[i].value)
  {
    GetSome(d, k);
    forall i | 0 <= i < |d| && d[i].lang == k ensures Get(d, k) == Some(d[i].value) {
      GetAt(d, i);
    }
    if Get(d, k).Some? {
      assert k in Keys(d);
      var i :| 0 <= i < |d| && Keys(d)[i] == k;
      assert d[i].lang == k;
    }
  }

  /** Two dicts with the same items in the same order are equal. */
  lemma {:induction false} GetDetermines(a: Dict, b: Dict)
    requires Keys(a) == Keys(b)
    requires forall k :: Get(a, k) == Get(b, k)
    ensures a == b
  {
    assert |a| == |Keys(a)| == |b|;
    forall i | 0 <= i < |a| ensures a[i] == b[i] {
      assert a[i].lang == Keys(a)[i] == b[i].lang;
      GetAt(a, i);
      GetAt(b, i);
    }
  }

  // ---------------------------------------------------------------------------
  // Writing one item

  lemma {:induction false} GetAppend(d: seq<Entry>, e: Entry, k: string)
    ensures Get(d + [e], k) == if Get(d, k).Some? then Get(d, k) else if e.lang == k then Some(e.value) else None
  {
    if d != [] {
      assert (d + [e])[1..] == d[1..] + [e];
      GetAppend(d[1..], e, k);
    }
  }

  lemma PutGet(d: Dict, k: string, v: Value, k': string)
    ensures Get(Put(d, k, v), k') == if k' == k then Some(v) else Get(d, k')
  {
    var r := Put(d, k, v);
    GetSome(d, k);
    if k in Keys(d) {
      assert Keys(r) == Keys(d);
      GetSome(r, k');
      GetSome(d, k');
      if k' in Keys(d) {
        var j :| 0 <= j < |d| && Keys(d)[j] == k';
        GetAt(d, j);
        GetAt(r, j);
      }
    } else {
      GetAppend(d, Entry(k, v), k');
    }
  }

  lemma PutKeys(d: Dict, k: string, v: Value)
    ensures Keys(Put(d, k, v)) == Keys(d) + (if k in Keys(d) then [] else [k])
  {
  }

  // ---------------------------------------------------------------------------
  // `{**a, **b}`

  /** On a shared key the value of `b` wins; other keys keep the value of `a`. */
  lemma {:induction false} UnionGet(a: Dict, b: Dict, k: string)
    ensures Get(Union(a, b), k) == if k in Keys(b) then Get(b, k) else Get(a, k)
    decreases |b|
  {
    if b != [] {
      var a' := Put(a, b[0].lang, b[0].value);
      UnionGet(a', b[1..], k);
      PutGet(a, b[0].lang, b[0].value, k);
      assert Keys(b) == [b[0].lang] + Keys(b[1..]);
      if k != b[0].lang && k in Keys(b) {
        assert k in Keys(b[1..]);
      }
      if k == b[0].lang {
        assert k !in Keys(b[1..]) by {
          forall j | 0 <= j < |b| - 1 ensures Keys(b[1..])[j] != k {
            assert b[j + 1].lang != b[0].lang;
          }
        }
      }
    }
  }

  lemma {:induction false} NewKeysSkip(ka: seq<string>, k: string, kb: seq<string>)
    requires k !in kb
    ensures NewKeys(ka + [k], kb) == NewKeys(ka, kb)
  {
    if kb != [] {
      NewKeysSkip(ka, k, kb[1..]);
    }
  }

  lemma KeysCons(b: Dict)
    requires b != []
    ensures Keys(b) == [b[0].lang] + Keys(b[1..])
    ensures b[0].lang !in Keys(b[1..])
  {
    forall j | 0 <= j < |b| - 1 ensures Keys(b[1..])[j] != b[0].lang {
      assert b[j + 1].lang != b[0].lang;
    }
  }

  /** The merged keys are `a`'s keys in `a`'s order, then `b`'s other keys in `b`'s order. */
  lemma {:induction false} UnionKeys(a: Dict, b: Dict)
    ensures Keys(Union(a, b)) == Keys(a) + NewKeys(Keys(a), Keys(b))
    decreases |b|
  {
    if b == [] {
      assert Keys(b) == [];
    } else {
      var k, b' := b[0].lang, b[1..];
      var a' := Put(a, k, b[0].value);
      UnionKeys(a', b');
      PutKeys(a, k, b[0].value);
      KeysCons(b);
      UnionKeysStep(Keys(a), Keys(a'), k, Keys(b'), Keys(Union(a', b')));
    }
  }

  lemma UnionKeysStep(ka: seq<string>, ka': seq<string>, k: string, kb': seq<string>, ku: seq<string>)
    requires ka' == ka + (if k in ka then [] else [k])
    requires k !in ka ==> k !in kb'
    requires ku == ka' + NewKeys(ka', kb')
    ensures ku == ka + NewKeys(ka, [k] + kb')
  {
    var kb := [k] + kb';
    assert kb[0] == k && kb[1..] == kb';
    assert NewKeys(ka, kb) == (if k in ka then [] else [k]) + NewKeys(ka, kb');
    if k in ka {
      assert ka' == ka;
    } else {
      NewKeysSkip(ka, k, kb');
      assert ku == ka + [k] + NewKeys(ka, kb');
    }
  }

  lemma {:induction false} NewKeysMembers(ka: seq<string>, kb: seq<string>)
    ensures forall k :: k in NewKeys(ka, kb) <==> k in kb && k !in ka
  {
    if kb != [] {
      NewKeysMembers(ka, kb[1..]);
      assert kb == [kb[0]] + kb[1..];
    }
  }

  /** The merged key set is the union of both key sets. */
  lemma UnionKeySet(a: Dict, b: Dict)
    ensures forall k :: k in Keys(Union(a, b)) <==> k in Keys(a) || k in Keys(b)
  {
    UnionKeys(a, b);
    NewKeysMembers(Keys(a), Keys(b));
  }

  /** Writing items that `a` already holds leaves `a` as it is. */
  lemma {:induction false} UnionAbsorbed(a: Dict, b: Dict)
    requires forall i :: 0 <= i < |b| ==> Get(a, b[i].lang) == Some(b[i].value)
    ensures Union(a, b) == a
    decreases |b|
  {
    if b != [] {
      var k, v := b[0].lang, b[0].value;
      GetSome(a, k);
      var a' := Put(a, k, v);
      forall k' ensures Get(a', k') == Get(a, k') {
        PutGet(a, k, v, k');
      }
      PutKeys(a, k, v);
      GetDetermines(a', a);
      UnionAbsorbed(a, b[1..]);
    }
  }

  /** `{**{**a, **b}, **b} == {**a, **b}`. */
  lemma UnionIdempotent(a: Dict, b: Dict)
    ensures Union(Union(a, b), b) == Union(a, b)
  {
    forall i | 0 <= i < |b| ensures Get(Union(a, b), b[i].lang) == Some(b[i].value) {
      UnionGet(a, b, b[i].lang);
      assert b[i].lang == Keys(b)[i];
      GetAt(b, i);
    }
    UnionAbsorbed(Union(a, b), b);
  }

  /** `{**d, **d} == d`. */
  lemma UnionSelf(d: Dict)
    ensures Union(d, d) == d
  {
    forall i | 0 <= i < |d| ensures Get(d, d[i].lang) == Some(d[i].value) {
      GetAt(d, i);
    }
    UnionAbsorbed(d, d);
  }

  /** Merging is not commutative: on a shared key with two values, each side's own value wins. */
  lemma UnionNotCommutative(a: Dict, b: Dict, k: string)
    requires k in Keys(a) && k in Keys(b) && Get(a, k) != Get(b, k)
    ensures Get(Union(a, b), k) == Get(b, k)
    ensures Get(Union(b, a), k) == Get(a, k)
    ensures Union(a, b) != Union(b, a)
  {
    UnionGet(a, b, k);
    UnionGet(b, a, k);
  }
}
