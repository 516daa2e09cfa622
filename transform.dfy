/**
 * The entry points: translating the loaded records of one or several
 * geolinks, merging the gathered (document, office) pairs into unique lists,
 * and giving every office and document a new identifier.
 *
 * `load` itself is not called here: `run` receives the records it returned.
 * `uuid4()` is a function from the number of identifiers drawn so far to the
 * next identifier; distinct numbers give distinct identifiers.
 */
module Transform {
  import opened Wrappers
  import opened PyramidOereb
  import opened Exchange
  import opened Generators

  // ---------------------------------------------------------------------------
  // run

  /** `f` applied to every element in order, or the error of the first element it fails on. */
  function MapResult<A, B>(xs: seq<A>, f: A -> Result<B>): Result<seq<B>> {
    if xs == [] then Ok([])
    else
      var first := f(xs[0]);
      if first.Err? then Err(first.error)
      else
        var rest := MapResult(xs[1..], f);
        if rest.Err? then rest else Ok([first.value] + rest.value)
  }

  /** Element `i` is the first that `f` fails on. */
  predicate FirstFailure<A, B>(xs: seq<A>, f: A -> Result<B>, i: nat) {
    i < |xs| && f(xs[i]).Err? && forall j :: 0 <= j < i ==> f(xs[j]).Ok?
  }

  /** Exactly one result per element, in order; a failure is the failure of the first element that fails. */
  lemma {:induction false} MapResultPerElement<A, B>(xs: seq<A>, f: A -> Result<B>)
    ensures MapResult(xs, f).Ok? <==> forall i :: 0 <= i < |xs| ==> f(xs[i]).Ok?
    ensures MapResult(xs, f).Ok? ==> |MapResult(xs, f).value| == |xs|
    ensures MapResult(xs, f).Ok? ==> forall i :: 0 <= i < |xs| ==> MapResult(xs, f).value[i] == f(xs[i]).value
    ensures MapResult(xs, f).Err? ==> exists i: nat :: FirstFailure(xs, f, i) && f(xs[i]).error == MapResult(xs, f).error
  {
    if xs != [] {
      var tail := xs[1..];
      MapResultPerElement(tail, f);
      forall i | 1 <= i < |xs| ensures xs[i] == tail[i - 1] {
      }
      var r := MapResult(xs, f);
      if f(xs[0]).Err? {
        assert FirstFailure(xs, f, 0);
      } else if r.Err? {
        var i: nat :| FirstFailure(tail, f, i) && f(tail[i]).error == r.error;
        assert FirstFailure(xs, f, i + 1);
      } else {
        var ys := r.value;
        assert ys == [f(xs[0]).value] + MapResult(tail, f).value;
        forall i | 1 <= i < |xs| ensures ys[i] == f(xs[i]).value {
          assert ys[i] == MapResult(tail, f).value[i - 1];
        }
      }
    }
  }

  /** Mapping two lists one after the other is mapping their concatenation. */
  lemma {:induction false} MapResultAppend<A, B>(a: seq<A>, b: seq<A>, f: A -> Result<B>)
    ensures MapResult(a + b, f) ==
      if MapResult(a, f).Err? then MapResult(a, f)
      else if MapResult(b, f).Err? then MapResult(b, f)
      else Ok(MapResult(a, f).value + MapResult(b, f).value)
  {
    if a == [] {
      assert a + b == b;
      if MapResult(b, f).Ok? {
        assert [] + MapResult(b, f).value == MapResult(b, f).value;
      }
    } else {
      assert (a + b)[0] == a[0];
      assert (a + b)[1..] == a[1..] + b;
      MapResultAppend(a[1..], b, f);
      if MapResult(a, f).Ok? && MapResult(b, f).Ok? {
        var first := f(a[0]).value;
        var x, y := MapResult(a[1..], f).value, MapResult(b, f).value;
        assert [first] + (x + y) == ([first] + x) + y;
      }
    }
  }

  lemma MapResultSnoc<A, B>(xs: seq<A>, n: nat, f: A -> Result<B>)
    requires n < |xs|
    ensures MapResult(xs[..n + 1], f) ==
      if MapResult(xs[..n], f).Err? then MapResult(xs[..n], f)
      else if f(xs[n]).Err? then Err(f(xs[n]).error)
      else Ok(MapResult(xs[..n], f).value + [f(xs[n]).value])
  {
    assert xs[..n + 1] == xs[..n] + [xs[n]];
    var last := [xs[n]];
    assert last[1..] == [];
    if f(xs[n]).Ok? {
      assert MapResult(last, f) == Ok([f(xs[n]).value] + []);
      assert [f(xs[n]).value] + [] == [f(xs[n]).value];
    }
    MapResultAppend(xs[..n], last, f);
  }

  lemma MapResultPrefixFails<A, B>(xs: seq<A>, m: nat, f: A -> Result<B>)
    requires m <= |xs| && MapResult(xs[..m], f).Err?
    ensures MapResult(xs, f) == MapResult(xs[..m], f)
  {
    assert xs == xs[..m] + xs[m..];
    MapResultAppend(xs[..m], xs[m..], f);
  }

  /** `document_record_to_oerebkrmtrsfr` on record values. */
  function Translator(str: Stringify): DocumentValue -> Result<(DokumentValue, AmtValue)> {
    v => DokumentOf(v, str)
  }

  /** The pairs of `run` for records with these values, or the error of the first record that fails. */
  function Translated(vs: seq<DocumentValue>, str: Stringify): Result<seq<(DokumentValue, AmtValue)>> {
    MapResult(vs, Translator(str))
  }

  /** Exactly one pair per record, in order; a failure is the failure of the first record that fails. */
  lemma TranslatedPerRecord(vs: seq<DocumentValue>, str: Stringify)
    ensures Translated(vs, str).Ok? <==> forall i :: 0 <= i < |vs| ==> DokumentOf(vs[i], str).Ok?
    ensures Translated(vs, str).Ok? ==> |Translated(vs, str).value| == |vs|
    ensures Translated(vs, str).Ok? ==>
      forall i :: 0 <= i < |vs| ==> Translated(vs, str).value[i] == DokumentOf(vs[i], str).value
    ensures Translated(vs, str).Err? ==>
      exists i :: 0 <= i < |vs| && DokumentOf(vs[i], str).Err? && DokumentOf(vs[i], str).error == Translated(vs, str).error &&
        forall j :: 0 <= j < i ==> DokumentOf(vs[j], str).Ok?
  {
    MapResultPerElement(vs, Translator(str));
  }

  /** `run`: one translated (document, office) pair per loaded record. */
  method Run(records: seq<DocumentRecord>, str: Stringify) returns (r: Result<seq<(Dokument, Amt)>>)
    ensures r.Ok? <==> Translated(old(Values(records)), str).Ok?
    ensures r.Err? ==> r.error == Translated(old(Values(records)), str).error
    ensures r.Ok? ==> PairValues(r.value) == Translated(old(Values(records)), str).value
    ensures r.Ok? ==> forall i :: 0 <= i < |r.value| ==> fresh(r.value[i].0) && fresh(r.value[i].1)
  {
    ghost var vs := Values(records);
    ghost var f := Translator(str);
    var pairs: seq<(Dokument, Amt)> := [];
    for n := 0 to |records|
      invariant MapResult(vs[..n], f) == Ok(PairValues(pairs))
      invariant forall i :: 0 <= i < |pairs| ==> fresh(pairs[i].0) && fresh(pairs[i].1)
    {
      var p := DocumentRecordToExchange(records[n], str);
      MapResultSnoc(vs, n, f);
      assert f(vs[n]) == DokumentOf(vs[n], str);
      if p.Err? {
        MapResultPrefixFails(vs, n + 1, f);
        return Err(p.error);
      }
      PairValuesAppend(pairs, [p.value]);
      assert PairValues([p.value]) == [f(vs[n]).value];
      pairs := pairs + [p.value];
    }
    assert vs[..|records|] == vs;
    r := Ok(pairs);
  }

  // ---------------------------------------------------------------------------
  // run_batch

  function Flatten<T>(xss: seq<seq<T>>): seq<T> {
    if xss == [] then [] else Flatten(xss[..|xss| - 1]) + xss[|xss| - 1]
  }

  /** `MapResult` on every list, the results one after the other, or the first error. */
  function MapBatches<A, B>(xss: seq<seq<A>>, f: A -> Result<B>): Result<seq<B>> {
    if xss == [] then Ok([])
    else
      var init := MapBatches(xss[..|xss| - 1], f);
      var last := MapResult(xss[|xss| - 1], f);
      if init.Err? then init
      else if last.Err? then last
      else Ok(init.value + last.value)
  }

  /** Mapping list after list is mapping the concatenation of the lists. */
  lemma {:induction false} MapBatchesFlatten<A, B>(xss: seq<seq<A>>, f: A -> Result<B>)
    ensures MapBatches(xss, f) == MapResult(Flatten(xss), f)
  {
    if xss != [] {
      var init := xss[..|xss| - 1];
      MapBatchesFlatten(init, f);
      MapResultAppend(Flatten(init), xss[|xss| - 1], f);
    }
  }

  lemma {:induction false} MapBatchesFails<A, B>(xss: seq<seq<A>>, f: A -> Result<B>, m: nat)
    requires m <= |xss| && MapBatches(xss[..m], f).Err?
    ensures MapBatches(xss, f) == MapBatches(xss[..m], f)
    decreases |xss| - m
  {
    if m < |xss| {
      assert xss[..m + 1][..m] == xss[..m];
      MapBatchesFails(xss, f, m + 1);
    } else {
      assert xss[..m] == xss;
    }
  }

  lemma MapBatchesSnoc<A, B>(xss: seq<seq<A>>, n: nat, f: A -> Result<B>)
    requires n < |xss|
    ensures MapBatches(xss[..n + 1], f) ==
      if MapBatches(xss[..n], f).Err? then MapBatches(xss[..n], f)
      else if MapResult(xss[n], f).Err? then MapResult(xss[n], f)
      else Ok(MapBatches(xss[..n], f).value + MapResult(xss[n], f).value)
  {
    assert xss[..n + 1][..n] == xss[..n];
    assert xss[..n + 1][n] == xss[n];
  }

  /** The result of `run_batch`: the `run` results one after the other, or the first error. */
  function TranslatedBatches(vss: seq<seq<DocumentValue>>, str: Stringify): Result<seq<(DokumentValue, AmtValue)>> {
    MapBatches(vss, Translator(str))
  }

  /** The result of `run_batch` is the result of `run` on all records of all geolinks in order. */
  lemma TranslatedBatchesFlatten(vss: seq<seq<DocumentValue>>, str: Stringify)
    ensures TranslatedBatches(vss, str) == Translated(Flatten(vss), str)
  {
    MapBatchesFlatten(vss, Translator(str));
  }

  /** The current values of the records of every geolink. */
  ghost function BatchValues(batches: seq<seq<DocumentRecord>>): (vss: seq<seq<DocumentValue>>)
    reads set b, r | b in batches && r in b :: r
    reads set b, r | b in batches && r in b :: r.documentType
    reads set b, r | b in batches && r in b :: r.lawStatus
    reads set b, r | b in batches && r in b :: r.responsibleOffice
    ensures |vss| == |batches| && forall k :: 0 <= k < |batches| ==> vss[k] == Values(batches[k])
  {
    seq(|batches|, k requires 0 <= k < |batches|
      reads set b, r | b in batches && r in b :: r
      reads set b, r | b in batches && r in b :: r.documentType
      reads set b, r | b in batches && r in b :: r.lawStatus
      reads set b, r | b in batches && r in b :: r.responsibleOffice
      => Values(batches[k]))
  }

  /** `run_batch`: the pairs of every geolink's records, geolink after geolink. */
  method RunBatch(batches: seq<seq<DocumentRecord>>, str: Stringify) returns (r: Result<seq<(Dokument, Amt)>>)
    ensures r.Ok? <==> TranslatedBatches(old(BatchValues(batches)), str).Ok?
    ensures r.Err? ==> r.error == TranslatedBatches(old(BatchValues(batches)), str).error
    ensures r.Ok? ==> PairValues(r.value) == TranslatedBatches(old(BatchValues(batches)), str).value
    ensures r.Ok? ==> forall i :: 0 <= i < |r.value| ==> fresh(r.value[i].0) && fresh(r.value[i].1)
  {
    ghost var vss := BatchValues(batches);
    ghost var f := Translator(str);
    var gathered: seq<(Dokument, Amt)> := [];
    for n := 0 to |batches|
      invariant MapBatches(vss[..n], f) == Ok(PairValues(gathered))
      invariant forall i :: 0 <= i < |gathered| ==> fresh(gathered[i].0) && fresh(gathered[i].1)
    {
      var run := Run(batches[n], str);
      MapBatchesSnoc(vss, n, f);
      if run.Err? {
        MapBatchesFails(vss, f, n + 1);
        return Err(run.error);
      }
      PairValuesAppend(gathered, run.value);
      gathered := gathered + run.value;
    }
    assert vss[..|batches|] == vss;
    r := Ok(gathered);
  }

  // ---------------------------------------------------------------------------
  // unify_gathered

  /** The positions where a key occurs for the first time, in increasing order. */
  function FirstIndices<K(==)>(ks: seq<K>): (r: seq<nat>)
    ensures forall j :: 0 <= j < |r| ==> r[j] < |ks|
  {
    if ks == [] then []
    else
      var n := |ks| - 1;
      FirstIndices(ks[..n]) + (if ks[n] in ks[..n] then [] else [n])
  }

  /** The elements at the given positions. */
  function Pick<T>(xs: seq<T>, positions: seq<nat>): (r: seq<T>)
    requires forall j :: 0 <= j < |positions| ==> positions[j] < |xs|
    ensures |r| == |positions| && forall j :: 0 <= j < |positions| ==> r[j] == xs[positions[j]]
  {
    seq(|positions|, j requires 0 <= j < |positions| => xs[positions[j]])
  }

  /** The kept positions are increasing: the output is in first-seen order. */
  lemma {:induction false} FirstIndicesIncreasing<K>(ks: seq<K>)
    ensures var r := FirstIndices(ks);
      (forall j, j' :: 0 <= j < j' < |r| ==> r[j] < r[j']) && |r| <= |ks|
  {
    if ks != [] {
      FirstIndicesIncreasing(ks[..|ks| - 1]);
    }
  }

  /** A position is kept exactly when its key does not occur before it. */
  lemma FirstIndicesFirst<K>(ks: seq<K>)
    ensures var r := FirstIndices(ks);
      (forall j :: 0 <= j < |r| ==> ks[r[j]] !in ks[..r[j]]) &&
      (forall i :: 0 <= i < |ks| && ks[i] !in ks[..i] ==> i in r)
  {
    FirstIndicesKeptFirst(ks);
    FirstIndicesAllFirst(ks);
  }

  lemma {:induction false} FirstIndicesKeptFirst<K>(ks: seq<K>)
    ensures forall j :: 0 <= j < |FirstIndices(ks)| ==> ks[FirstIndices(ks)[j]] !in ks[..FirstIndices(ks)[j]]
  {
    if ks != [] {
      var n := |ks| - 1;
      var p := ks[..n];
      FirstIndicesKeptFirst(p);
      var rp := FirstIndices(p);
      var r := FirstIndices(ks);
      assert r == rp + (if ks[n] in p then [] else [n]);
      forall j | 0 <= j < |r| ensures ks[r[j]] !in ks[..r[j]] {
        if j < |rp| {
          var i := rp[j];
          assert r[j] == i && i < n;
          assert p[i] !in p[..i];
          assert ks[..i] == p[..i] && ks[i] == p[i];
        } else {
          assert ks[n] !in p && r[j] == n;
        }
      }
    }
  }

  lemma {:induction false} FirstIndicesAllFirst<K>(ks: seq<K>)
    ensures var r := FirstIndices(ks);
      forall i :: 0 <= i < |ks| && ks[i] !in ks[..i] ==> i in r
  {
    if ks != [] {
      var n := |ks| - 1;
      var p := ks[..n];
      FirstIndicesAllFirst(p);
      var rp := FirstIndices(p);
      var tail := if ks[n] in p then [] else [n];
      var r := FirstIndices(ks);
      assert r == rp + tail;
      forall i | 0 <= i < |ks| && ks[i] !in ks[..i] ensures i in r {
        if i < n {
          assert ks[..i] == p[..i] && ks[i] == p[i];
          assert i in rp;
        } else {
          assert ks[..i] == p;
          assert r[|rp|] == n;
        }
      }
    }
  }

  /** Every key of the input is the key of a kept position. */
  lemma {:induction false} FirstIndicesCover<K>(ks: seq<K>)
    ensures forall x :: x in ks <==> x in Pick(ks, FirstIndices(ks))
  {
    if ks != [] {
      var n := |ks| - 1;
      var p := ks[..n];
      FirstIndicesCover(p);
      var rp := FirstIndices(p);
      assert Pick(ks, rp) == Pick(p, rp);
      assert ks == p + [ks[n]];
      if ks[n] !in p {
        assert FirstIndices(ks) == rp + [n];
        assert Pick(ks, FirstIndices(ks)) == Pick(ks, rp) + [ks[n]];
      } else {
        assert FirstIndices(ks) == rp;
      }
    }
  }

  /** The keys at the kept positions are pairwise distinct. */
  lemma FirstIndicesDistinct<K>(ks: seq<K>)
    ensures var r := FirstIndices(ks);
      forall j, j' :: 0 <= j < j' < |r| ==> ks[r[j]] != ks[r[j']]
  {
    FirstIndicesIncreasing(ks);
    FirstIndicesFirst(ks);
    var r := FirstIndices(ks);
    forall j, j' | 0 <= j < j' < |r| ensures ks[r[j]] != ks[r[j']] {
      assert ks[r[j]] == ks[..r[j']][r[j]];
    }
  }

  /** One more pair: its key is kept, and its element appended, exactly when the key is new. */
  lemma DedupStep<K, T>(ks: seq<K>, xs: seq<T>, n: nat)
    requires |ks| == |xs| && n < |ks|
    ensures var before := FirstIndices(ks[..n]);
      var seen := Pick(ks[..n], before);
      var isNew := ks[n] !in seen;
      Pick(ks[..n + 1], FirstIndices(ks[..n + 1])) == seen + (if isNew then [ks[n]] else []) &&
      Pick(xs[..n + 1], FirstIndices(ks[..n + 1])) == Pick(xs[..n], before) + (if isNew then [xs[n]] else [])
  {
    FirstIndicesCover(ks[..n]);
    assert ks[..n + 1][..n] == ks[..n];
  }

  /** Two pairs sharing one office, with two different documents, leave one office and two documents. */
  lemma SharedOfficeKept<K>(office: K, tid1: K, tid2: K)
    requires tid1 != tid2
    ensures FirstIndices([office, office]) == [0]
    ensures FirstIndices([tid1, tid2]) == [0, 1]
  {
    assert [office][..0] == [] && [tid1][..0] == [];
    assert FirstIndices([office]) == [0] && FirstIndices([tid1]) == [0];
    assert [office, office][..1] == [office];
    assert [tid1, tid2][..1] == [tid1];
  }

  function Aemter(gathered: seq<(Dokument, Amt)>): (r: seq<Amt>)
    ensures |r| == |gathered| && forall i :: 0 <= i < |gathered| ==> r[i] == gathered[i].1
  {
    seq(|gathered|, i requires 0 <= i < |gathered| => gathered[i].1)
  }

  function Dokumente(gathered: seq<(Dokument, Amt)>): (r: seq<Dokument>)
    ensures |r| == |gathered| && forall i :: 0 <= i < |gathered| ==> r[i] == gathered[i].0
  {
    seq(|gathered|, i requires 0 <= i < |gathered| => gathered[i].0)
  }

  /** `str(amt)` of every office. */
  function OfficeKeys(aemter: seq<Amt>, str: Stringify): (ks: seq<string>)
    reads aemter
    ensures |ks| == |aemter| && forall i :: 0 <= i < |aemter| ==> ks[i] == str.amt(aemter[i].Value())
  {
    seq(|aemter|, i requires 0 <= i < |aemter| reads aemter => str.amt(aemter[i].Value()))
  }

  /** The `TID` of every document. */
  function Tids(dokumente: seq<Dokument>): (ts: seq<Option<string>>)
    reads dokumente
    ensures |ts| == |dokumente| && forall i :: 0 <= i < |dokumente| ==> ts[i] == dokumente[i].tid
  {
    seq(|dokumente|, i requires 0 <= i < |dokumente| reads dokumente => dokumente[i].tid)
  }

  /** The `ZustaendigeStelle.REF` of every document. */
  function Refs(dokumente: seq<Dokument>): (rs: seq<string>)
    reads dokumente
    ensures |rs| == |dokumente| && forall i :: 0 <= i < |dokumente| ==> rs[i] == dokumente[i].ref
  {
    seq(|dokumente|, i requires 0 <= i < |dokumente| reads dokumente => dokumente[i].ref)
  }

  /**
   * `unify_gathered`: the offices at the first pair with each office key and
   * the documents at the first pair with each document `TID`, in first-seen
   * order.
   */
  method UnifyGathered(gathered: seq<(Dokument, Amt)>, str: Stringify)
    returns (dokumente: seq<Dokument>, aemter: seq<Amt>)
    ensures aemter == Pick(Aemter(gathered), FirstIndices(OfficeKeys(Aemter(gathered), str)))
    ensures dokumente == Pick(Dokumente(gathered), FirstIndices(Tids(Dokumente(gathered))))
  {
    ghost var keys, tids := OfficeKeys(Aemter(gathered), str), Tids(Dokumente(gathered));
    var amtKeys: seq<string> := [];
    var dokumentTids: seq<Option<string>> := [];
    dokumente, aemter := [], [];
    for n := 0 to |gathered|
      invariant amtKeys == Pick(keys[..n], FirstIndices(keys[..n]))
      invariant aemter == Pick(Aemter(gathered)[..n], FirstIndices(keys[..n]))
      invariant dokumentTids == Pick(tids[..n], FirstIndices(tids[..n]))
      invariant dokumente == Pick(Dokumente(gathered)[..n], FirstIndices(tids[..n]))
    {
      var (dokument, amt) := gathered[n];
      DedupStep(keys, Aemter(gathered), n);
      DedupStep(tids, Dokumente(gathered), n);
      var key := str.amt(amt.Value());
      if key !in amtKeys {
        amtKeys := amtKeys + [key];
        aemter := aemter + [amt];
      }
      if dokument.tid !in dokumentTids {
        dokumentTids := dokumentTids + [dokument.tid];
        dokumente := dokumente + [dokument];
      }
    }
    assert keys[..|gathered|] == keys && tids[..|gathered|] == tids;
    assert Aemter(gathered)[..|gathered|] == Aemter(gathered);
    assert Dokumente(gathered)[..|gathered|] == Dokumente(gathered);
  }

  // ---------------------------------------------------------------------------
  // assign_uuids

  /** No element occurs twice. */
  predicate Distinct<T(==)>(xs: seq<T>) {
    forall j, j' :: 0 <= j < j' < |xs| ==> xs[j] != xs[j']
  }

  /** The positions among the first `n` whose element is `key`, in order. */
  function Matching<K(==)>(xs: seq<K>, key: K, n: nat): (ps: seq<nat>)
    requires n <= |xs|
    ensures forall k :: 0 <= k < |ps| ==> ps[k] < n
  {
    if n == 0 then [] else Matching(xs, key, n - 1) + (if xs[n - 1] == key then [n - 1] else [])
  }

  /** Every matching position holds `key`. */
  lemma {:induction false} MatchingSound<K>(xs: seq<K>, key: K, n: nat)
    requires n <= |xs|
    ensures forall k :: 0 <= k < |Matching(xs, key, n)| ==> xs[Matching(xs, key, n)[k]] == key
  {
    if n > 0 {
      MatchingSound(xs, key, n - 1);
    }
  }

  /** The matching positions are increasing. */
  lemma {:induction false} MatchingIncreasing<K>(xs: seq<K>, key: K, n: nat)
    requires n <= |xs|
    ensures forall k, k' :: 0 <= k < k' < |Matching(xs, key, n)| ==> Matching(xs, key, n)[k] < Matching(xs, key, n)[k']
  {
    if n > 0 {
      MatchingIncreasing(xs, key, n - 1);
    }
  }

  /** Every position below `n` holding `key` is a matching position. */
  lemma {:induction false} MatchingComplete<K>(xs: seq<K>, key: K, n: nat)
    requires n <= |xs|
    ensures forall j :: 0 <= j < n && xs[j] == key ==> j in Matching(xs, key, n)
  {
    if n > 0 {
      MatchingComplete(xs, key, n - 1);
    }
  }

  lemma {:induction false} MatchingGrows<K>(xs: seq<K>, key: K, n: nat, n': nat)
    requires n <= n' <= |xs|
    ensures |Matching(xs, key, n)| <= |Matching(xs, key, n')|
    decreases n'
  {
    if n < n' {
      MatchingGrows(xs, key, n, n' - 1);
    }
  }

  /** Two sequences holding `key` at the same positions have the same matching positions. */
  lemma {:induction false} MatchingSame<K>(xs: seq<K>, ys: seq<K>, key: K, n: nat)
    requires n <= |xs| == |ys|
    requires forall j :: 0 <= j < |xs| ==> (xs[j] == key <==> ys[j] == key)
    ensures Matching(xs, key, n) == Matching(ys, key, n)
  {
    if n > 0 {
      MatchingSame(xs, ys, key, n - 1);
    }
  }

  /** The documents the first `i` offices take, in the order `assign_uuids` returns them. */
  function Order<K(==)>(ks: seq<K>, rs: seq<K>, i: nat): (o: seq<nat>)
    requires i <= |ks|
    ensures forall k :: 0 <= k < |o| ==> o[k] < |rs|
  {
    if i == 0 then [] else Order(ks, rs, i - 1) + Matching(rs, ks[i - 1], |rs|)
  }

  /** The first `m` offices take only documents whose REF is the key of one of them. */
  lemma {:induction false} OrderSound<K>(ks: seq<K>, rs: seq<K>, m: nat)
    requires m <= |ks|
    ensures forall k :: 0 <= k < |Order(ks, rs, m)| ==> rs[Order(ks, rs, m)[k]] in ks[..m]
  {
    if m > 0 {
      OrderSound(ks, rs, m - 1);
      MatchingSound(rs, ks[m - 1], |rs|);
      var o, before, c := Order(ks, rs, m), Order(ks, rs, m - 1), Matching(rs, ks[m - 1], |rs|);
      assert ks[..m] == ks[..m - 1] + [ks[m - 1]];
      forall k | 0 <= k < |o| ensures rs[o[k]] in ks[..m] {
        if k < |before| {
          assert o[k] == before[k];
        } else {
          assert o[k] == c[k - |before|];
        }
      }
    }
  }

  /** The first `m` offices take every document whose REF is the key of one of them. */
  lemma {:induction false} OrderComplete<K>(ks: seq<K>, rs: seq<K>, m: nat)
    requires m <= |ks|
    ensures forall j :: 0 <= j < |rs| && rs[j] in ks[..m] ==> j in Order(ks, rs, m)
  {
    if m > 0 {
      OrderComplete(ks, rs, m - 1);
      MatchingComplete(rs, ks[m - 1], |rs|);
      assert ks[..m] == ks[..m - 1] + [ks[m - 1]];
    }
  }

  /** The position of an office key; with distinct keys it is the only one. */
  ghost function Office<K>(ks: seq<K>, x: K): (i: nat)
    requires x in ks
    ensures i < |ks| && ks[i] == x
  {
    var i :| 0 <= i < |ks| && ks[i] == x; i
  }

  lemma OfficeOf<K>(ks: seq<K>, i: nat)
    requires Distinct(ks) && i < |ks|
    ensures Office(ks, ks[i]) == i
  {
  }

  /** The positions are ordered by the office whose key their REF is, then by position. */
  ghost predicate ByOfficeThenPosition<K>(ks: seq<K>, rs: seq<K>, o: seq<nat>)
    requires forall k :: 0 <= k < |o| ==> o[k] < |rs|
  {
    forall k, k' :: 0 <= k < k' < |o| && rs[o[k]] in ks && rs[o[k']] in ks ==>
      Office(ks, rs[o[k]]) < Office(ks, rs[o[k']]) ||
      (Office(ks, rs[o[k]]) == Office(ks, rs[o[k']]) && o[k] < o[k'])
  }

  /** With distinct office keys, documents are returned by office, then by position. */
  lemma {:induction false} OrderSorted<K>(ks: seq<K>, rs: seq<K>, m: nat)
    requires Distinct(ks) && m <= |ks|
    ensures ByOfficeThenPosition(ks, rs, Order(ks, rs, m))
  {
    if m > 0 {
      OfficeOf(ks, m - 1);
      var o, before, c := Order(ks, rs, m), Order(ks, rs, m - 1), Matching(rs, ks[m - 1], |rs|);
      forall k, k' | 0 <= k < k' < |o| && rs[o[k]] in ks && rs[o[k']] in ks
        ensures Office(ks, rs[o[k]]) < Office(ks, rs[o[k']]) ||
          (Office(ks, rs[o[k]]) == Office(ks, rs[o[k']]) && o[k] < o[k'])
      {
        if k' < |before| {
          OrderSorted(ks, rs, m - 1);
          assert o[k] == before[k] && o[k'] == before[k'];
        } else if k < |before| {
          OrderSound(ks, rs, m - 1);
          MatchingSound(rs, ks[m - 1], |rs|);
          assert o[k] == before[k] && o[k'] == c[k' - |before|];
          var i0 :| 0 <= i0 < m - 1 && ks[..m - 1][i0] == rs[o[k]];
          OfficeOf(ks, i0);
        } else {
          MatchingIncreasing(rs, ks[m - 1], |rs|);
          MatchingSound(rs, ks[m - 1], |rs|);
          assert o[k] == c[k - |before|] && o[k'] == c[k' - |before|];
        }
      }
    }
  }

  /** With distinct office keys, no document is taken twice. */
  lemma OrderDistinct<K>(ks: seq<K>, rs: seq<K>, m: nat)
    requires Distinct(ks) && m <= |ks|
    ensures Distinct(Order(ks, rs, m))
  {
    var o := Order(ks, rs, m);
    OrderSound(ks, rs, m);
    OrderSorted(ks, rs, m);
    forall k, k' | 0 <= k < k' < |o| ensures o[k] != o[k'] {
      assert rs[o[k]] in ks[..m] && rs[o[k']] in ks[..m];
      assert rs[o[k]] in ks && rs[o[k']] in ks;
    }
  }

  /**
   * With distinct office keys, the documents `assign_uuids` returns are
   * each matched document exactly once and nothing else, ordered by the
   * office that takes it, then by position.
   */
  lemma ReturnedDocuments<K>(ks: seq<K>, rs: seq<K>)
    requires Distinct(ks)
    ensures forall j :: j in Order(ks, rs, |ks|) <==> 0 <= j < |rs| && rs[j] in ks
    ensures Distinct(Order(ks, rs, |ks|))
    ensures ByOfficeThenPosition(ks, rs, Order(ks, rs, |ks|))
  {
    var o := Order(ks, rs, |ks|);
    OrderSound(ks, rs, |ks|);
    OrderComplete(ks, rs, |ks|);
    OrderDistinct(ks, rs, |ks|);
    OrderSorted(ks, rs, |ks|);
    assert ks[..|ks|] == ks;
    forall j | j in o ensures 0 <= j < |rs| && rs[j] in ks {
      var k :| 0 <= k < |o| && o[k] == j;
    }
  }

  /** How many identifiers have been drawn when office `i` draws its own. */
  function AmtSlot<K(==)>(ks: seq<K>, rs: seq<K>, i: nat): nat
    requires i <= |ks|
  {
    i + |Order(ks, rs, i)|
  }

  /** How many identifiers have been drawn when document `j`, taken by office `i`, draws its `TID`. */
  function DocSlot<K(==)>(ks: seq<K>, rs: seq<K>, i: nat, j: nat): nat
    requires i < |ks| && j <= |rs|
  {
    AmtSlot(ks, rs, i) + 1 + |Matching(rs, ks[i], j)|
  }

  lemma {:induction false} AmtSlotGrows<K>(ks: seq<K>, rs: seq<K>, i: nat, i': nat)
    requires i <= i' <= |ks|
    ensures AmtSlot(ks, rs, i) + (i' - i) <= AmtSlot(ks, rs, i')
    decreases i'
  {
    if i < i' {
      AmtSlotGrows(ks, rs, i, i' - 1);
    }
  }

  /** One more position holding `key` below `j'` than below `j`, when `j` holds `key`. */
  lemma MatchingCountGrows<K>(xs: seq<K>, key: K, j: nat, j': nat)
    requires j < j' <= |xs| && xs[j] == key
    ensures |Matching(xs, key, j)| < |Matching(xs, key, j')|
  {
    assert Matching(xs, key, j + 1) == Matching(xs, key, j) + [j];
    MatchingGrows(xs, key, j + 1, j');
  }

  /** A document draws its `TID` after its office's identifier and before the next office's. */
  lemma DocSlotBand<K>(ks: seq<K>, rs: seq<K>, i: nat, j: nat)
    requires i < |ks| && j < |rs| && rs[j] == ks[i]
    ensures AmtSlot(ks, rs, i) < DocSlot(ks, rs, i, j) < AmtSlot(ks, rs, i + 1)
  {
    MatchingCountGrows(rs, ks[i], j, |rs|);
  }

  /** Two different documents taken by offices draw different counts. */
  lemma DocSlotsDiffer<K>(ks: seq<K>, rs: seq<K>, i: nat, j: nat, i': nat, j': nat)
    requires i < |ks| && j < |rs| && rs[j] == ks[i]
    requires i' < |ks| && j < j' < |rs| && rs[j'] == ks[i']
    ensures DocSlot(ks, rs, i, j) != DocSlot(ks, rs, i', j')
  {
    if i == i' {
      MatchingCountGrows(rs, ks[i], j, j');
    } else if i < i' {
      DocSlotBand(ks, rs, i, j);
      DocSlotBand(ks, rs, i', j');
      AmtSlotGrows(ks, rs, i + 1, i');
    } else {
      DocSlotBand(ks, rs, i, j);
      DocSlotBand(ks, rs, i', j');
      AmtSlotGrows(ks, rs, i' + 1, i);
    }
  }

  /**
   * The counts at which the offices and the taken documents draw their
   * identifiers are pairwise different, so with distinct uuids all new
   * `TID`s are pairwise distinct.
   */
  lemma SlotsDistinct<K>(ks: seq<K>, rs: seq<K>)
    ensures forall i, i' :: 0 <= i < i' < |ks| ==> AmtSlot(ks, rs, i) < AmtSlot(ks, rs, i')
    ensures forall i, j, i', j' ::
      (0 <= i < |ks| && 0 <= j < |rs| && rs[j] == ks[i] && 0 <= i' < |ks| && 0 <= j' < |rs| && rs[j'] == ks[i'] && j < j') ==>
      DocSlot(ks, rs, i, j) != DocSlot(ks, rs, i', j')
    ensures forall i, i', j :: 0 <= i < |ks| && 0 <= i' < |ks| && 0 <= j < |rs| && rs[j] == ks[i'] ==>
      AmtSlot(ks, rs, i) != DocSlot(ks, rs, i', j)
  {
    forall i, i' | 0 <= i < i' < |ks| ensures AmtSlot(ks, rs, i) < AmtSlot(ks, rs, i') {
      AmtSlotGrows(ks, rs, i, i');
    }
    forall i, j, i', j' | 0 <= i < |ks| && 0 <= j < |rs| && rs[j] == ks[i] &&
      0 <= i' < |ks| && 0 <= j' < |rs| && rs[j'] == ks[i'] && j < j'
      ensures DocSlot(ks, rs, i, j) != DocSlot(ks, rs, i', j')
    {
      DocSlotsDiffer(ks, rs, i, j, i', j');
    }
    forall i, i', j | 0 <= i < |ks| && 0 <= i' < |ks| && 0 <= j < |rs| && rs[j] == ks[i']
      ensures AmtSlot(ks, rs, i) != DocSlot(ks, rs, i', j)
    {
      DocSlotBand(ks, rs, i', j);
      if i <= i' {
        AmtSlotGrows(ks, rs, i, i');
      } else {
        AmtSlotGrows(ks, rs, i' + 1, i);
      }
    }
  }

  /** The REFs `refs` once the first `i` offices are done: a taken document refers to its office's identifier. */
  predicate RefsAfter<K(==)>(ks: seq<K>, rs: seq<K>, uuid: nat -> K, i: nat, refs: seq<K>)
    requires i <= |ks| && |refs| == |rs|
  {
    (forall i', j :: 0 <= i' < i && 0 <= j < |rs| && rs[j] == ks[i'] ==> refs[j] == uuid(AmtSlot(ks, rs, i'))) &&
    (forall j :: 0 <= j < |rs| && rs[j] !in ks[..i] ==> refs[j] == rs[j])
  }

  /** The `TID`s `tids` once the first `i` offices are done: a taken document has the identifier of its slot. */
  predicate TidsAfter<K(==)>(ks: seq<K>, rs: seq<K>, ts: seq<Option<K>>, uuid: nat -> K, i: nat, tids: seq<Option<K>>)
    requires i <= |ks| && |tids| == |rs| == |ts|
  {
    (forall i', j :: 0 <= i' < i && 0 <= j < |rs| && rs[j] == ks[i'] ==> tids[j] == Some(uuid(DocSlot(ks, rs, i', j)))) &&
    (forall j :: 0 <= j < |rs| && rs[j] !in ks[..i] ==> tids[j] == ts[j])
  }

  /** The REFs with every occurrence of `key` among the first `n` replaced by `target`. */
  function Retarget<K(==)>(refs: seq<K>, key: K, target: K, n: nat): (r: seq<K>)
    requires n <= |refs|
    ensures |r| == |refs|
  {
    if n == 0 then refs
    else if refs[n - 1] == key then Retarget(refs, key, target, n - 1)[n - 1 := target]
    else Retarget(refs, key, target, n - 1)
  }

  /** The `TID`s with the `k`-th of the first `n` documents referring to `key` set to identifier `from + k`. */
  function Stamped<K(==)>(refs: seq<K>, tids: seq<Option<K>>, key: K, uuid: nat -> K, from: nat, n: nat)
    : (r: seq<Option<K>>)
    requires n <= |refs| == |tids|
    ensures |r| == |refs|
  {
    if n == 0 then tids
    else if refs[n - 1] == key then
      Stamped(refs, tids, key, uuid, from, n - 1)[n - 1 := Some(uuid(from + |Matching(refs, key, n - 1)|))]
    else Stamped(refs, tids, key, uuid, from, n - 1)
  }

  /** Position `k` after retargeting: `target` where the REF was `key` and `k < n`, else unchanged. */
  lemma {:induction false} RetargetAt<K>(refs: seq<K>, key: K, target: K, n: nat, k: nat)
    requires n <= |refs| && k < |refs|
    ensures Retarget(refs, key, target, n)[k] == if k < n && refs[k] == key then target else refs[k]
  {
    if n > 0 {
      RetargetAt(refs, key, target, n - 1, k);
    }
  }

  /** Position `k` after stamping: the identifier numbered by the matches before it, or unchanged. */
  lemma {:induction false} StampedAt<K>(refs: seq<K>, tids: seq<Option<K>>, key: K, uuid: nat -> K, from: nat, n: nat, k: nat)
    requires n <= |refs| == |tids| && k < |refs|
    ensures Stamped(refs, tids, key, uuid, from, n)[k] ==
      if k < n && refs[k] == key then Some(uuid(from + |Matching(refs, key, k)|)) else tids[k]
  {
    if n > 0 {
      StampedAt(refs, tids, key, uuid, from, n - 1, k);
    }
  }

  /** `after` is `refs` with every `key` replaced by `target`. */
  predicate AllRetargeted<K(==)>(refs: seq<K>, key: K, target: K, after: seq<K>) {
    |after| == |refs| &&
    forall k :: 0 <= k < |refs| ==> after[k] == if refs[k] == key then target else refs[k]
  }

  /**
   * `after` is `tids` with the `TID` of every document whose REF is `key`
   * set to the identifier numbered by the matches before it, counted from `from`.
   */
  predicate AllStamped<K(==)>(refs: seq<K>, tids: seq<Option<K>>, key: K, uuid: nat -> K, from: nat, after: seq<Option<K>>)
    requires |refs| == |tids|
  {
    |after| == |refs| &&
    forall k :: 0 <= k < |refs| ==>
      after[k] == if refs[k] == key then Some(uuid(from + |Matching(refs, key, k)|)) else tids[k]
  }

  lemma RetargetComplete<K>(refs: seq<K>, key: K, target: K, after: seq<K>)
    requires after == Retarget(refs, key, target, |refs|)
    ensures AllRetargeted(refs, key, target, after)
  {
    forall k | 0 <= k < |refs| {
      RetargetAt(refs, key, target, |refs|, k);
    }
  }

  lemma StampedComplete<K>(refs: seq<K>, tids: seq<Option<K>>, key: K, uuid: nat -> K, from: nat, after: seq<Option<K>>)
    requires |refs| == |tids| && after == Stamped(refs, tids, key, uuid, from, |refs|)
    ensures AllStamped(refs, tids, key, uuid, from, after)
  {
    forall k | 0 <= k < |refs| {
      StampedAt(refs, tids, key, uuid, from, |refs|, k);
    }
  }

  /** Before office `i` draws, the documents referring to its key are exactly those whose old REF is its key. */
  lemma StillMatching<K>(ks: seq<K>, rs: seq<K>, uuid: nat -> K, i: nat, refs: seq<K>)
    requires Distinct(ks) && i < |ks| && |refs| == |rs|
    requires forall n, i' :: 0 <= i' < |ks| ==> uuid(n) != ks[i']
    requires RefsAfter(ks, rs, uuid, i, refs)
    ensures forall j :: 0 <= j < |rs| ==> (refs[j] == ks[i] <==> rs[j] == ks[i])
  {
    forall j | 0 <= j < |rs| ensures refs[j] == ks[i] <==> rs[j] == ks[i] {
      if rs[j] in ks[..i] {
        var i' :| 0 <= i' < i && ks[..i][i'] == rs[j];
        assert rs[j] == ks[i'] && refs[j] == uuid(AmtSlot(ks, rs, i'));
      }
    }
  }

  /** Office `i` in `assign_uuids`: pointing the documents that refer to its key at its identifier gives the REFs after it. */
  lemma StepRefs<K>(ks: seq<K>, rs: seq<K>, uuid: nat -> K, i: nat, refs: seq<K>, slot: nat, after: seq<K>)
    requires Distinct(ks) && i < |ks| && |refs| == |rs|
    requires forall n, i' :: 0 <= i' < |ks| ==> uuid(n) != ks[i']
    requires RefsAfter(ks, rs, uuid, i, refs)
    requires slot == AmtSlot(ks, rs, i) && AllRetargeted(refs, ks[i], uuid(slot), after)
    ensures RefsAfter(ks, rs, uuid, i + 1, after)
  {
    StillMatching(ks, rs, uuid, i, refs);
    SliceSnoc(ks, i);
    forall i', j | 0 <= i' < i + 1 && 0 <= j < |rs| && rs[j] == ks[i']
      ensures after[j] == uuid(AmtSlot(ks, rs, i'))
    {
      if i' < i {
        assert ks[i'] != ks[i];
      }
    }
  }

  /** Office `i` in `assign_uuids`: numbering the documents that refer to its key gives the `TID`s after it. */
  lemma StepTids<K>(ks: seq<K>, rs: seq<K>, ts: seq<Option<K>>, uuid: nat -> K, i: nat,
    refs: seq<K>, tids: seq<Option<K>>, from: nat, after: seq<Option<K>>)
    requires Distinct(ks) && i < |ks| && |refs| == |rs| == |ts| == |tids|
    requires forall n, i' :: 0 <= i' < |ks| ==> uuid(n) != ks[i']
    requires RefsAfter(ks, rs, uuid, i, refs) && TidsAfter(ks, rs, ts, uuid, i, tids)
    requires from == AmtSlot(ks, rs, i) + 1 && AllStamped(refs, tids, ks[i], uuid, from, after)
    ensures TidsAfter(ks, rs, ts, uuid, i + 1, after)
  {
    StillMatching(ks, rs, uuid, i, refs);
    SliceSnoc(ks, i);
    forall i', j | 0 <= i' < i + 1 && 0 <= j < |rs| && rs[j] == ks[i']
      ensures after[j] == Some(uuid(DocSlot(ks, rs, i', j)))
    {
      if i' < i {
        assert ks[i'] != ks[i];
      } else {
        MatchingSame(refs, rs, ks[i], j);
      }
    }
  }

  lemma SliceSnoc<T>(xs: seq<T>, i: nat)
    requires i < |xs|
    ensures xs[..i + 1] == xs[..i] + [xs[i]]
  {
  }

  lemma PickAppend<T>(xs: seq<T>, a: seq<nat>, b: seq<nat>)
    requires forall j :: 0 <= j < |a| ==> a[j] < |xs|
    requires forall j :: 0 <= j < |b| ==> b[j] < |xs|
    ensures Pick(xs, a + b) == Pick(xs, a) + Pick(xs, b)
  {
  }

  lemma PickSnoc<T>(xs: seq<T>, ps: seq<nat>, p: nat)
    requires forall j :: 0 <= j < |ps| ==> ps[j] < |xs|
    requires p < |xs|
    ensures Pick(xs, ps + [p]) == Pick(xs, ps) + [xs[p]]
  {
  }

  /** How one more document changes the retargeted REFs, the stamped `TID`s and the matching positions. */
  lemma TakeStep<K>(refs: seq<K>, tids: seq<Option<K>>, key: K, target: K, uuid: nat -> K, from: nat, j: nat,
    rs: seq<K>, ts: seq<Option<K>>, ps: seq<nat>)
    requires j < |refs| == |tids|
    requires rs == Retarget(refs, key, target, j) && ts == Stamped(refs, tids, key, uuid, from, j)
    requires ps == Matching(refs, key, j)
    ensures rs[j] == refs[j]
    ensures refs[j] == key ==>
      Retarget(refs, key, target, j + 1) == rs[j := target] &&
      Stamped(refs, tids, key, uuid, from, j + 1) == ts[j := Some(uuid(from + |ps|))] &&
      Matching(refs, key, j + 1) == ps + [j]
    ensures refs[j] != key ==>
      Retarget(refs, key, target, j + 1) == rs &&
      Stamped(refs, tids, key, uuid, from, j + 1) == ts &&
      Matching(refs, key, j + 1) == ps
  {
    RetargetAt(refs, key, target, j, j);
  }

  /**
   * The test and the update for one document of the inner loop: if its REF
   * is `key`, its REF becomes `target` and its `TID` becomes `id`. `rs` and
   * `ts` are the documents' REFs and `TID`s before.
   */
  method Consider(dokumente: seq<Dokument>, j: nat, key: string, target: string, id: string,
    ghost rs: seq<string>, ghost ts: seq<Option<string>>) returns (took: bool)
    requires Distinct(dokumente) && j < |dokumente| == |rs| == |ts|
    requires forall k :: 0 <= k < |dokumente| ==> dokumente[k].ref == rs[k] && dokumente[k].tid == ts[k]
    modifies dokumente[j]
    ensures took == (rs[j] == key)
    ensures forall k :: 0 <= k < |dokumente| ==>
      dokumente[k].ref == (if took then rs[j := target] else rs)[k] &&
      dokumente[k].tid == (if took then ts[j := Some(id)] else ts)[k]
  {
    var dokument := dokumente[j];
    took := dokument.ref == key;
    if took {
      dokument.ref := target;
      dokument.tid := Some(id);
    }
  }

  /**
   * The inner loop of `assign_uuids` after its first `j` documents, whose
   * REFs and `TID`s were `refs` and `tids`: those referring to `key` point
   * at `target`, carry the identifiers numbered from `drawn0`, and were
   * returned in order.
   */
  ghost predicate Taking(dokumente: seq<Dokument>, refs: seq<string>, tids: seq<Option<string>>, key: string,
    target: string, uuid: nat -> string, drawn0: nat, j: nat, taken: seq<Dokument>, drawn: nat)
    reads dokumente
  {
    j <= |dokumente| == |refs| == |tids| &&
    (forall k :: 0 <= k < |dokumente| ==>
      dokumente[k].ref == Retarget(refs, key, target, j)[k] &&
      dokumente[k].tid == Stamped(refs, tids, key, uuid, drawn0, j)[k]) &&
    taken == Pick(dokumente, Matching(refs, key, j)) && drawn == drawn0 + |taken|
  }

  /** One pass of the inner loop of `assign_uuids`, on document `j`. */
  method Visit(dokumente: seq<Dokument>, key: string, target: string, uuid: nat -> string, drawn0: nat,
    ghost refs: seq<string>, ghost tids: seq<Option<string>>, j: nat, taken: seq<Dokument>, drawn: nat)
    returns (taken': seq<Dokument>, drawn': nat)
    requires Distinct(dokumente) && j < |dokumente|
    requires Taking(dokumente, refs, tids, key, target, uuid, drawn0, j, taken, drawn)
    modifies dokumente
    ensures Taking(dokumente, refs, tids, key, target, uuid, drawn0, j + 1, taken', drawn')
  {
    ghost var rs, ts, ps := Retarget(refs, key, target, j), Stamped(refs, tids, key, uuid, drawn0, j), Matching(refs, key, j);
    TakeStep(refs, tids, key, target, uuid, drawn0, j, rs, ts, ps);
    var took := Consider(dokumente, j, key, target, uuid(drawn), rs, ts);
    taken', drawn' := taken, drawn;
    if took {
      PickSnoc(dokumente, ps, j);
      taken' := taken + [dokumente[j]];
      drawn' := drawn + 1;
    }
  }

  /**
   * The inner loop of `assign_uuids`: every document whose REF is `key` is
   * pointed at `newAmtUuid`, returned, and given the next identifier; the
   * other documents are left alone. (`str(amt)` is the same at every step,
   * since the office changes only after the loop.)
   */
  method TakeDocuments(dokumente: seq<Dokument>, key: string, newAmtUuid: string, uuid: nat -> string, drawn0: nat)
    returns (taken: seq<Dokument>, drawn: nat)
    requires Distinct(dokumente)
    modifies dokumente
    ensures AllRetargeted(old(Refs(dokumente)), key, newAmtUuid, Refs(dokumente))
    ensures AllStamped(old(Refs(dokumente)), old(Tids(dokumente)), key, uuid, drawn0, Tids(dokumente))
    ensures taken == Pick(dokumente, Matching(old(Refs(dokumente)), key, |dokumente|))
    ensures drawn == drawn0 + |taken|
  {
    ghost var refs, tids := Refs(dokumente), Tids(dokumente);
    taken, drawn := [], drawn0;
    for j := 0 to |dokumente|
      invariant Taking(dokumente, refs, tids, key, newAmtUuid, uuid, drawn0, j, taken, drawn)
    {
      taken, drawn := Visit(dokumente, key, newAmtUuid, uuid, drawn0, refs, tids, j, taken, drawn);
    }
    assert Refs(dokumente) == Retarget(refs, key, newAmtUuid, |dokumente|);
    assert Tids(dokumente) == Stamped(refs, tids, key, uuid, drawn0, |dokumente|);
    RetargetComplete(refs, key, newAmtUuid, Refs(dokumente));
    StampedComplete(refs, tids, key, uuid, drawn0, Tids(dokumente));
  }

  /**
   * Office `i` in `assign_uuids`, on the documents' REFs and `TID`s: from the
   * state `RefsAfter` and `TidsAfter` describe for `i` (REFs `refs`, `TID`s
   * `tids`), pointing the documents that refer to the office's key at the
   * identifier of its slot and numbering them from the next one gives the
   * state for `i + 1`; the documents taken are those whose REF was the key
   * before the first office.
   */
  lemma StepOffice<K>(ks: seq<K>, rs: seq<K>, ts: seq<Option<K>>, uuid: nat -> K, i: nat, key: K, slot: nat,
    refs: seq<K>, tids: seq<Option<K>>, refs': seq<K>, tids': seq<Option<K>>)
    requires Distinct(ks) && i < |ks| && |refs| == |rs| == |ts| == |tids|
    requires forall n, i' :: 0 <= i' < |ks| ==> uuid(n) != ks[i']
    requires key == ks[i] && slot == AmtSlot(ks, rs, i)
    requires RefsAfter(ks, rs, uuid, i, refs) && TidsAfter(ks, rs, ts, uuid, i, tids)
    requires AllRetargeted(refs, key, uuid(slot), refs') && AllStamped(refs, tids, key, uuid, slot + 1, tids')
    ensures RefsAfter(ks, rs, uuid, i + 1, refs') && TidsAfter(ks, rs, ts, uuid, i + 1, tids')
    ensures Matching(refs, key, |refs|) == Matching(rs, ks[i], |rs|)
    ensures AmtSlot(ks, rs, i + 1) == slot + 1 + |Matching(rs, ks[i], |rs|)|
  {
    StillMatching(ks, rs, uuid, i, refs);
    MatchingSame(refs, rs, ks[i], |rs|);
    StepRefs(ks, rs, uuid, i, refs, slot, refs');
    StepTids(ks, rs, ts, uuid, i, refs, tids, slot + 1, tids');
  }

  /**
   * One office in `assign_uuids`: a new identifier is drawn, the documents
   * referring to the office's key are pointed at it, returned and numbered
   * from the next identifier, and the office gets the identifier as its `TID`.
   */
  method AssignOffice(dokumente: seq<Dokument>, amt: Amt, str: Stringify, uuid: nat -> string, drawn0: nat)
    returns (taken: seq<Dokument>, drawn: nat)
    requires Distinct(dokumente)
    modifies dokumente, amt
    ensures amt.tid == Some(uuid(drawn0))
    ensures AllRetargeted(old(Refs(dokumente)), old(str.amt(amt.Value())), uuid(drawn0), Refs(dokumente))
    ensures AllStamped(old(Refs(dokumente)), old(Tids(dokumente)), old(str.amt(amt.Value())), uuid, drawn0 + 1, Tids(dokumente))
    ensures taken == Pick(dokumente, Matching(old(Refs(dokumente)), old(str.amt(amt.Value())), |dokumente|))
    ensures drawn == drawn0 + 1 + |taken|
  {
    var newAmtUuid := uuid(drawn0);
    var key := str.amt(amt.Value());
    taken, drawn := TakeDocuments(dokumente, key, newAmtUuid, uuid, drawn0 + 1);
    ghost var refs', tids' := Refs(dokumente), Tids(dokumente);
    amt.tid := Some(newAmtUuid);
    assert Refs(dokumente) == refs' && Tids(dokumente) == tids';
  }

  /**
   * The outer loop of `assign_uuids` after its first `i` offices, with `ks`
   * the office keys and `rs`, `ts` the documents' REFs and `TID`s before it:
   * those offices carry the identifiers of their slots and were returned,
   * the others still have their keys, and the documents are as `RefsAfter`
   * and `TidsAfter` say.
   */
  ghost predicate Assigning(dokumente: seq<Dokument>, aemter: seq<Amt>, str: Stringify, uuid: nat -> string,
    ks: seq<string>, rs: seq<string>, ts: seq<Option<string>>, i: nat,
    uuidDokumente: seq<Dokument>, uuidAemter: seq<Amt>, drawn: nat)
    reads dokumente, aemter
  {
    i <= |aemter| == |ks| && |rs| == |ts| == |dokumente| &&
    drawn == AmtSlot(ks, rs, i) && uuidAemter == aemter[..i] &&
    (forall i' :: 0 <= i' < i ==> aemter[i'].tid == Some(uuid(AmtSlot(ks, rs, i')))) &&
    (forall i' :: i <= i' < |aemter| ==> str.amt(aemter[i'].Value()) == ks[i']) &&
    uuidDokumente == Pick(dokumente, Order(ks, rs, i)) &&
    RefsAfter(ks, rs, uuid, i, Refs(dokumente)) && TidsAfter(ks, rs, ts, uuid, i, Tids(dokumente))
  }

  /** One pass of the outer loop of `assign_uuids`, on office `i`. */
  method AssignNext(dokumente: seq<Dokument>, aemter: seq<Amt>, str: Stringify, uuid: nat -> string,
    ghost ks: seq<string>, ghost rs: seq<string>, ghost ts: seq<Option<string>>, i: nat,
    uuidDokumente: seq<Dokument>, uuidAemter: seq<Amt>, drawn: nat)
    returns (uuidDokumente': seq<Dokument>, uuidAemter': seq<Amt>, drawn': nat)
    requires Distinct(dokumente) && Distinct(aemter) && Distinct(ks) && i < |aemter|
    requires forall n, i' :: 0 <= i' < |ks| ==> uuid(n) != ks[i']
    requires Assigning(dokumente, aemter, str, uuid, ks, rs, ts, i, uuidDokumente, uuidAemter, drawn)
    modifies dokumente, aemter
    ensures Assigning(dokumente, aemter, str, uuid, ks, rs, ts, i + 1, uuidDokumente', uuidAemter', drawn')
  {
    var amt := aemter[i];
    SliceSnoc(aemter, i);
    ghost var refs, tids, key := Refs(dokumente), Tids(dokumente), str.amt(amt.Value());
    var taken;
    taken, drawn' := AssignOffice(dokumente, amt, str, uuid, drawn);
    StepOffice(ks, rs, ts, uuid, i, key, drawn, refs, tids, Refs(dokumente), Tids(dokumente));
    forall i' | 0 <= i' < |aemter| && i' != i
      ensures aemter[i'].tid == old(aemter[i'].tid) && aemter[i'].Value() == old(aemter[i'].Value())
    {
      assert aemter[i'] != amt;
    }
    PickAppend(dokumente, Order(ks, rs, i), Matching(rs, ks[i], |rs|));
    uuidDokumente' := uuidDokumente + taken;
    uuidAemter' := uuidAemter + [amt];
  }

  /** Offices with distinct keys are distinct objects. */
  lemma OfficesApart(aemter: seq<Amt>, str: Stringify)
    requires Distinct(OfficeKeys(aemter, str))
    ensures Distinct(aemter)
  {
    forall i, i' | 0 <= i < i' < |aemter| ensures aemter[i] != aemter[i'] {
      assert OfficeKeys(aemter, str)[i] != OfficeKeys(aemter, str)[i'];
    }
  }

  /** The whole outer loop of `assign_uuids`. */
  method AssignAll(dokumente: seq<Dokument>, aemter: seq<Amt>, str: Stringify, uuid: nat -> string,
    ghost ks: seq<string>, ghost rs: seq<string>, ghost ts: seq<Option<string>>)
    returns (uuidDokumente: seq<Dokument>, uuidAemter: seq<Amt>, drawn: nat)
    requires Distinct(dokumente) && Distinct(aemter) && Distinct(ks)
    requires forall n, i' :: 0 <= i' < |ks| ==> uuid(n) != ks[i']
    requires Assigning(dokumente, aemter, str, uuid, ks, rs, ts, 0, [], [], 0)
    modifies dokumente, aemter
    ensures Assigning(dokumente, aemter, str, uuid, ks, rs, ts, |aemter|, uuidDokumente, uuidAemter, drawn)
  {
    uuidAemter, uuidDokumente, drawn := [], [], 0;
    for i := 0 to |aemter|
      invariant Assigning(dokumente, aemter, str, uuid, ks, rs, ts, i, uuidDokumente, uuidAemter, drawn)
    {
      uuidDokumente, uuidAemter, drawn := AssignNext(dokumente, aemter, str, uuid, ks, rs, ts, i, uuidDokumente, uuidAemter, drawn);
    }
  }

  /** Before the first office nothing is assigned. */
  lemma AssigningStart(dokumente: seq<Dokument>, aemter: seq<Amt>, str: Stringify, uuid: nat -> string)
    ensures Assigning(dokumente, aemter, str, uuid, OfficeKeys(aemter, str), Refs(dokumente), Tids(dokumente), 0, [], [], 0)
  {
    assert aemter[..0] == [];
  }

  /** What the state after the last office says about the offices and documents. */
  lemma AssigningDone(dokumente: seq<Dokument>, aemter: seq<Amt>, str: Stringify, uuid: nat -> string,
    ks: seq<string>, rs: seq<string>, ts: seq<Option<string>>,
    uuidDokumente: seq<Dokument>, uuidAemter: seq<Amt>, drawn: nat)
    requires Assigning(dokumente, aemter, str, uuid, ks, rs, ts, |aemter|, uuidDokumente, uuidAemter, drawn)
    ensures uuidAemter == aemter
    ensures forall i :: 0 <= i < |aemter| ==> aemter[i].tid == Some(uuid(AmtSlot(ks, rs, i)))
    ensures uuidDokumente == Pick(dokumente, Order(ks, rs, |aemter|))
    ensures forall i, j :: 0 <= i < |aemter| && 0 <= j < |dokumente| && rs[j] == ks[i] ==>
      Some(Refs(dokumente)[j]) == aemter[i].tid && Tids(dokumente)[j] == Some(uuid(DocSlot(ks, rs, i, j)))
    ensures forall j :: 0 <= j < |dokumente| && rs[j] !in ks ==> Refs(dokumente)[j] == rs[j] && Tids(dokumente)[j] == ts[j]
  {
    assert ks[..|ks|] == ks;
    assert aemter[..|aemter|] == aemter;
  }

  /**
   * `assign_uuids`. For each office in turn a new identifier is drawn; every
   * document still referring to the office's key is pointed at it, returned,
   * and given a new `TID`; then the office takes the identifier as its `TID`.
   * The offices' keys are pairwise distinct (`unify_gathered` keeps one office
   * per key), and no identifier equals an office key.
   */
  method AssignUuids(dokumente: seq<Dokument>, aemter: seq<Amt>, str: Stringify, uuid: nat -> string)
    returns (uuidDokumente: seq<Dokument>, uuidAemter: seq<Amt>)
    requires Distinct(dokumente) && Distinct(OfficeKeys(aemter, str))
    requires forall n, i :: 0 <= i < |aemter| ==> uuid(n) != str.amt(aemter[i].Value())
    modifies dokumente, aemter
    ensures uuidAemter == aemter
    ensures forall i :: 0 <= i < |aemter| ==>
      aemter[i].tid == Some(uuid(AmtSlot(old(OfficeKeys(aemter, str)), old(Refs(dokumente)), i)))
    ensures uuidDokumente == Pick(dokumente, Order(old(OfficeKeys(aemter, str)), old(Refs(dokumente)), |aemter|))
    ensures forall i, j :: 0 <= i < |aemter| && 0 <= j < |dokumente| && old(Refs(dokumente))[j] == old(OfficeKeys(aemter, str))[i] ==>
      Some(Refs(dokumente)[j]) == aemter[i].tid &&
      Tids(dokumente)[j] == Some(uuid(DocSlot(old(OfficeKeys(aemter, str)), old(Refs(dokumente)), i, j)))
    ensures forall j :: 0 <= j < |dokumente| && old(Refs(dokumente))[j] !in old(OfficeKeys(aemter, str)) ==>
      Refs(dokumente)[j] == old(Refs(dokumente))[j] && Tids(dokumente)[j] == old(Tids(dokumente))[j]
  {
    ghost var ks, rs, ts := OfficeKeys(aemter, str), Refs(dokumente), Tids(dokumente);
    OfficesApart(aemter, str);
    AssigningStart(dokumente, aemter, str, uuid);
    var drawn;
    uuidDokumente, uuidAemter, drawn := AssignAll(dokumente, aemter, str, uuid, ks, rs, ts);
    AssigningDone(dokumente, aemter, str, uuid, ks, rs, ts, uuidDokumente, uuidAemter, drawn);
  }
}
