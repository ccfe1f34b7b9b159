/** A list of entries used as a map: looked up from the front, updated in place, extended at the end. */
module OrderedMap {
  import opened Common

  datatype Entry<K, V> = Entry(key: K, value: V)

  function IndexOf<K(==), V>(entries: seq<Entry<K, V>>, key: K): (r: nat)
    ensures r <= |entries|
    ensures r < |entries| ==> entries[r].key == key
    ensures forall j :: 0 <= j < r ==> entries[j].key != key
  {
    if entries == [] || entries[0].key == key then 0 else 1 + IndexOf(entries[1..], key)
  }

  function Put<K(==), V>(entries: seq<Entry<K, V>>, e: Entry<K, V>): seq<Entry<K, V>> {
    var i := IndexOf(entries, e.key);
    if i < |entries| then entries[i := e] else entries + [e]
  }

  function PutAll<K(==), V>(entries: seq<Entry<K, V>>, puts: seq<Entry<K, V>>): seq<Entry<K, V>>
    decreases |puts|
  {
    if puts == [] then entries else Put(PutAll(entries, puts[..|puts| - 1]), puts[|puts| - 1])
  }

  lemma {:induction false} PutAllOneMore<K(!new), V>(puts: seq<Entry<K, V>>, e: Entry<K, V>)
    ensures PutAll<K, V>([], puts + [e]) == Put(PutAll<K, V>([], puts), e)
  {
    assert (puts + [e])[..|puts|] == puts;
  }

  function Value<K(==), V>(entries: seq<Entry<K, V>>, key: K): Option<V> {
    var i := IndexOf(entries, key);
    if i < |entries| then Some(entries[i].value) else None
  }

  predicate DistinctKeys<K(==), V>(entries: seq<Entry<K, V>>) {
    forall i, j :: 0 <= i < j < |entries| ==> entries[i].key != entries[j].key
  }

  /** The value of the last put under this key. */
  function LastPut<K(==), V>(puts: seq<Entry<K, V>>, key: K): Option<V>
    decreases |puts|
  {
    if puts == [] then None
    else if puts[|puts| - 1].key == key then Some(puts[|puts| - 1].value)
    else LastPut(puts[..|puts| - 1], key)
  }

  /** After any puts the set is a map: distinct keys, each with its last value. */
  lemma {:induction false} PutAllIsMap<K(!new), V>(puts: seq<Entry<K, V>>)
    ensures DistinctKeys(PutAll<K, V>([], puts))
    ensures forall k: K :: Value(PutAll<K, V>([], puts), k) == LastPut(puts, k)
    decreases |puts|
  {
    if puts != [] {
      var before, e := puts[..|puts| - 1], puts[|puts| - 1];
      PutAllIsMap(before);
      var es, es' := PutAll<K, V>([], before), PutAll<K, V>([], puts);
      PutIsMapUpdate(es, e);
      forall k: K ensures Value(es', k) == LastPut(puts, k) {
        assert Value(es, k) == LastPut(before, k);
      }
    }
  }

  /** When the key was first put, or the number of puts if it never was. */
  function FirstPut<K(==), V>(puts: seq<Entry<K, V>>, key: K): (r: nat)
    ensures r <= |puts|
    decreases |puts|
  {
    if puts == [] then 0
    else
      var r := FirstPut(puts[..|puts| - 1], key);
      if r < |puts| - 1 || puts[|puts| - 1].key == key then r else |puts|
  }

  lemma {:induction false} FirstPutIsFirst<K(!new), V>(puts: seq<Entry<K, V>>, key: K)
    ensures FirstPut(puts, key) < |puts| ==> puts[FirstPut(puts, key)].key == key
    ensures forall j :: 0 <= j < FirstPut(puts, key) ==> puts[j].key != key
    ensures LastPut(puts, key) == None <==> FirstPut(puts, key) == |puts|
    decreases |puts|
  {
    if puts != [] {
      FirstPutIsFirst(puts[..|puts| - 1], key);
    }
  }

  /** When each entry's key was first put. */
  function FirstPuts<K(==), V>(es: seq<Entry<K, V>>, puts: seq<Entry<K, V>>): (ps: seq<nat>)
    ensures |ps| == |es|
    decreases |es|
  {
    if es == [] then [] else FirstPuts(es[..|es| - 1], puts) + [FirstPut(puts, es[|es| - 1].key)]
  }

  /** Each number is below the next, and the last below the bound. */
  predicate Increasing(ps: seq<nat>, bound: nat)
    decreases |ps|
  {
    ps == [] || (ps[|ps| - 1] < bound && Increasing(ps[..|ps| - 1], ps[|ps| - 1]))
  }

  lemma {:induction false} IncreasingPairs(ps: seq<nat>, bound: nat)
    requires Increasing(ps, bound)
    ensures forall i :: 0 <= i < |ps| ==> ps[i] < bound
    ensures forall i, j :: 0 <= i < j < |ps| ==> ps[i] < ps[j]
    decreases |ps|
  {
    if ps != [] {
      IncreasingPairs(ps[..|ps| - 1], ps[|ps| - 1]);
    }
  }

  lemma {:induction false} IncreasingMore(ps: seq<nat>, bound: nat)
    requires Increasing(ps, bound)
    ensures Increasing(ps, bound + 1) && Increasing(ps + [bound], bound + 1)
  {
    assert (ps + [bound])[..|ps|] == ps;
  }

  /** The entries' keys have been put, and are listed in the order in which they were first put. */
  ghost predicate InFirstPutOrder<K(!new), V>(es: seq<Entry<K, V>>, puts: seq<Entry<K, V>>) {
    Increasing(FirstPuts(es, puts), |puts|)
  }

  lemma {:induction false} FirstPutsOneMore<K(!new), V>(es: seq<Entry<K, V>>, last: Entry<K, V>, puts: seq<Entry<K, V>>)
    ensures FirstPuts(es + [last], puts) == FirstPuts(es, puts) + [FirstPut(puts, last.key)]
  {
    assert (es + [last])[..|es|] == es;
  }

  /** Keys already put keep their place when more is put. */
  lemma {:induction false} FirstPutsStable<K(!new), V>(
    es: seq<Entry<K, V>>, es': seq<Entry<K, V>>, puts: seq<Entry<K, V>>, e: Entry<K, V>)
    requires |es'| == |es| && forall i :: 0 <= i < |es| ==> es'[i].key == es[i].key
    requires Increasing(FirstPuts(es, puts), |puts|)
    ensures FirstPuts(es', puts + [e]) == FirstPuts(es, puts)
    decreases |es|
  {
    if es != [] {
      var n := |es| - 1;
      var ps, last := FirstPuts(es[..n], puts), FirstPut(puts, es[n].key);
      assert FirstPuts(es, puts) == ps + [last];
      IncreasingSplit(ps, last, |puts|);
      FirstPutsStable(es[..n], es'[..n], puts, e);
      FirstPutOneMore(puts, e, es'[n].key);
    }
  }

  lemma {:induction false} IncreasingSplit(ps: seq<nat>, last: nat, bound: nat)
    requires Increasing(ps + [last], bound)
    ensures last < bound && Increasing(ps, bound)
  {
    assert (ps + [last])[..|ps|] == ps;
  }

  lemma {:induction false} FirstPutOneMore<K(!new), V>(puts: seq<Entry<K, V>>, e: Entry<K, V>, key: K)
    ensures FirstPut(puts + [e], key) ==
      if FirstPut(puts, key) < |puts| || e.key == key then FirstPut(puts, key) else |puts| + 1
  {
    assert (puts + [e])[..|puts|] == puts;
  }

  lemma {:induction false} PutKeys<K(!new), V>(es: seq<Entry<K, V>>, e: Entry<K, V>)
    ensures |es| <= |Put(es, e)| <= |es| + 1
    ensures forall i :: 0 <= i < |es| ==> Put(es, e)[i].key == es[i].key
    ensures |Put(es, e)| > |es| ==> Put(es, e)[|es|] == e && Value(es, e.key) == None
  {
  }

  /** A put under a new key adds the latest place. */
  lemma {:induction false} FirstPutsAfterPut<K(!new), V>(
    es: seq<Entry<K, V>>, es': seq<Entry<K, V>>, puts: seq<Entry<K, V>>, e: Entry<K, V>)
    requires Increasing(FirstPuts(es, puts), |puts|)
    requires |es'| == |es| && forall i :: 0 <= i < |es| ==> es'[i].key == es[i].key
    requires FirstPut(puts, e.key) == |puts|
    ensures FirstPuts(es' + [e], puts + [e]) == FirstPuts(es, puts) + [|puts|]
  {
    FirstPutsStable(es, es', puts, e);
    FirstPutsOneMore(es', e, puts + [e]);
    FirstPutOneMore(puts, e, e.key);
  }

  /** And it is insertion-ordered. */
  lemma {:induction false} PutAllKeepsOrder<K(!new), V>(puts: seq<Entry<K, V>>)
    ensures InFirstPutOrder(PutAll<K, V>([], puts), puts)
    decreases |puts|
  {
    if puts != [] {
      var before, e := puts[..|puts| - 1], puts[|puts| - 1];
      PutAllKeepsOrder(before);
      PutAllIsMap(before);
      OnePutKeepsOrder(PutAll<K, V>([], before), before, e);
      assert puts == before + [e];
    }
  }

  lemma {:induction false} OnePutKeepsOrder<K(!new), V>(es: seq<Entry<K, V>>, puts: seq<Entry<K, V>>, e: Entry<K, V>)
    requires InFirstPutOrder(es, puts) && Value(es, e.key) == LastPut(puts, e.key)
    ensures InFirstPutOrder(Put(es, e), puts + [e])
  {
    var es' := Put(es, e);
    PutKeys(es, e);
    FirstPutIsFirst(puts, e.key);
    IncreasingMore(FirstPuts(es, puts), |puts|);
    if |es'| == |es| {
      FirstPutsStable(es, es', puts, e);
    } else {
      FirstPutsAfterPut(es, es'[..|es|], puts, e);
      assert es' == es'[..|es|] + [e];
    }
  }

  /** One put changes the value of its own key only, and moves nothing. */
  lemma {:induction false} PutIsMapUpdate<K(!new), V>(entries: seq<Entry<K, V>>, e: Entry<K, V>)
    requires DistinctKeys(entries)
    ensures DistinctKeys(Put(entries, e))
    ensures forall k: K :: Value(Put(entries, e), k) == if k == e.key then Some(e.value) else Value(entries, k)
    ensures forall i :: 0 <= i < |entries| ==> Put(entries, e)[i].key == entries[i].key
    ensures |entries| <= |Put(entries, e)|
  {
    var es' := Put(entries, e);
    forall k: K ensures Value(es', k) == if k == e.key then Some(e.value) else Value(entries, k) {
      SamePosition(entries, es', k, e);
    }
  }

  lemma {:induction false} SamePosition<K(!new), V>(
    entries: seq<Entry<K, V>>, es': seq<Entry<K, V>>, k: K, e: Entry<K, V>)
    requires es' == Put(entries, e)
    ensures Value(es', k) == if k == e.key then Some(e.value) else Value(entries, k)
  {
    var i, j := IndexOf(entries, k), IndexOf(es', k);
    assert es'[IndexOf(entries, e.key)] == e;
    assert i < |entries| ==> es'[i].key == k;
    assert j < |entries| ==> entries[j].key == k;
  }
}
