/**
 * The injector's registry: a JavaScript object used as a name -> value
 * dictionary. `names` is the order `Object.keys` reports (first insertion
 * order: overwriting a key keeps its place), `values` the contents.
 */
module Registry {
  import opened Wrappers
  import opened JsValues

  datatype Dict = Dict(names: seq<string>, values: map<string, Value>) {
    ghost predicate Valid() {
      && (forall i, j :: 0 <= i < j < |names| ==> names[i] != names[j])
      && (forall k :: k in values <==> k in names)
    }
  }

  /** `{}`. */
  const Empty := Dict([], map[])

  /** `obj[k] = v`: a new key goes to the end of the key order, an existing one keeps its place. */
  function Put(d: Dict, k: string, v: Value): (r: Dict)
    ensures d.Valid() ==> r.Valid()
    ensures r.values == d.values[k := v]
    ensures k in d.values ==> r.names == d.names
    ensures k !in d.values ==> r.names == d.names + [k]
  {
    if k in d.values then Dict(d.names, d.values[k := v])
    else Dict(d.names + [k], d.values[k := v])
  }

  /** The registry writes a sequence of `obj[k] = v` assignments performs, in order. */
  function PutAll(d: Dict, writes: seq<(string, Value)>): (r: Dict)
    ensures d.Valid() ==> r.Valid()
    decreases |writes|
  {
    if writes == [] then d
    else
      var last := writes[|writes| - 1];
      Put(PutAll(d, writes[..|writes| - 1]), last.0, last.1)
  }

  /** One more write of a batch. */
  lemma PutAllStep(d: Dict, writes: seq<(string, Value)>, i: nat)
    requires i < |writes|
    ensures PutAll(d, writes[..i + 1]) == Put(PutAll(d, writes[..i]), writes[i].0, writes[i].1)
  {
    assert writes[..i + 1][..i] == writes[..i];
  }

  /** A batch with one more write at the end. */
  lemma PutAllSnoc(d: Dict, writes: seq<(string, Value)>, k: string, v: Value)
    ensures PutAll(d, writes + [(k, v)]) == Put(PutAll(d, writes), k, v)
  {
    assert (writes + [(k, v)])[..|writes|] == writes;
  }

  /** The value last written under `k`, if any write names `k`. */
  function LastWrite(writes: seq<(string, Value)>, k: string): (r: Option<Value>)
    ensures r.None? <==> forall i :: 0 <= i < |writes| ==> writes[i].0 != k
    ensures r.Some? ==>
      exists i :: 0 <= i < |writes| && writes[i] == (k, r.value) && forall j :: i < j < |writes| ==> writes[j].0 != k
    decreases |writes|
  {
    if writes == [] then None
    else if writes[|writes| - 1].0 == k then Some(writes[|writes| - 1].1)
    else LastWrite(writes[..|writes| - 1], k)
  }

  /** Last write wins: after a batch of writes, a key holds the last value written
      to it, and a key the batch never names keeps its old value. */
  lemma {:induction false} LastWriteWins(d: Dict, writes: seq<(string, Value)>, k: string)
    ensures var r := PutAll(d, writes);
      && (k in r.values <==> k in d.values || LastWrite(writes, k).Some?)
      && (LastWrite(writes, k).Some? ==> r.values[k] == LastWrite(writes, k).value)
      && (LastWrite(writes, k).None? && k in d.values ==> r.values[k] == d.values[k])
    decreases |writes|
  {
    if writes != [] {
      LastWriteWins(d, writes[..|writes| - 1], k);
    }
  }

  /** Writes never reorder or drop existing keys: the old key order is a prefix of the new one. */
  lemma {:induction false} PutAllExtendsOrder(d: Dict, writes: seq<(string, Value)>)
    ensures |d.names| <= |PutAll(d, writes).names|
    ensures PutAll(d, writes).names[..|d.names|] == d.names
    decreases |writes|
  {
    if writes != [] {
      PutAllExtendsOrder(d, writes[..|writes| - 1]);
      var mid := PutAll(d, writes[..|writes| - 1]);
      var last := writes[|writes| - 1];
      assert Put(mid, last.0, last.1).names[..|mid.names|] == mid.names;
    }
  }
}
