/** A Python `dict` with string keys. Python dicts remember insertion order, so a
    dict is its list of entries in that order. */
module Dict {
  import opened Wrappers

  type Dict<V> = seq<(string, V)>

  predicate HasKey<V>(d: Dict<V>, k: string)
  {
    exists i :: 0 <= i < |d| && d[i].0 == k
  }

  /** No key is entered twice, as in every dict Python builds. */
  predicate DistinctKeys<V>(d: Dict<V>)
  {
    forall i, j :: 0 <= i < j < |d| ==> d[i].0 != d[j].0
  }

  /** `d.get(k)`; subscripting `d[k]` raises `KeyError` where this is `None`. */
  function Get<V>(d: Dict<V>, k: string): (r: Option<V>)
    ensures r.Some? <==> HasKey(d, k)
    ensures r.Some? ==> exists i :: 0 <= i < |d| && d[i] == (k, r.value)
  {
    if d == [] then None
    else if d[0].0 == k then Some(d[0].1)
    else
      var r := Get(d[1..], k);
      assert forall i :: 1 <= i < |d| ==> d[1..][i - 1] == d[i];
      r
  }

  /** The statement `d[k] = v`: an existing key keeps its place and gets the new
      value, a new key is added at the end. */
  function Assign<V>(d: Dict<V>, k: string, v: V): (r: Dict<V>)
    ensures HasKey(r, k)
    ensures |r| == if HasKey(d, k) then |d| else |d| + 1
  {
    if d == [] then
      var r := [(k, v)];
      assert r[0].0 == k;
      r
    else if d[0].0 == k then
      var r := [(k, v)] + d[1..];
      assert r[0].0 == k;
      r
    else
      var rest := Assign(d[1..], k, v);
      var i :| 0 <= i < |rest| && rest[i].0 == k;
      assert ([d[0]] + rest)[i + 1].0 == k;
      HasKeyUnfold(d, k);
      [d[0]] + rest
  }

  /** The statements `d[k] = v` for each entry `(k, v)` of `e`, in order. */
  function AssignAll<V>(d: Dict<V>, e: Dict<V>): Dict<V>
    decreases |e|
  {
    if e == [] then d else AssignAll(Assign(d, e[0].0, e[0].1), e[1..])
  }

  /** A key is in a non-empty dict when it is the first key or in the rest. */
  lemma HasKeyUnfold<V>(d: Dict<V>, k: string)
    requires d != []
    ensures HasKey(d, k) <==> d[0].0 == k || HasKey(d[1..], k)
  {
    if HasKey(d[1..], k) {
      var i :| 0 <= i < |d[1..]| && d[1..][i].0 == k;
      assert d[i + 1].0 == k;
    }
    if HasKey(d, k) && d[0].0 != k {
      var i :| 0 <= i < |d| && d[i].0 == k;
      assert d[1..][i - 1].0 == k;
    }
  }

  /** Assigning to a key that is not in the dict appends one entry. */
  lemma {:induction false} AssignNewKey<V>(d: Dict<V>, k: string, v: V)
    requires !HasKey(d, k)
    ensures Assign(d, k, v) == d + [(k, v)]
  {
    if d != [] {
      HasKeyUnfold(d, k);
      AssignNewKey(d[1..], k, v);
      assert d == [d[0]] + d[1..];
    }
  }

  /** Assigning to a key that is already in the dict changes no length and no order. */
  lemma {:induction false} AssignExistingKey<V>(d: Dict<V>, k: string, v: V)
    requires HasKey(d, k)
    ensures |Assign(d, k, v)| == |d|
    ensures forall i :: 0 <= i < |d| ==> Assign(d, k, v)[i].0 == d[i].0
  {
    HasKeyUnfold(d, k);
    if d[0].0 != k {
      AssignExistingKey(d[1..], k, v);
    }
  }

  /** After `d[k] = v`, `d[k]` is `v` and every other key reads as before. */
  lemma {:induction false} GetAfterAssign<V>(d: Dict<V>, k: string, v: V, key: string)
    ensures Get(Assign(d, k, v), key) == if key == k then Some(v) else Get(d, key)
  {
    if d != [] && d[0].0 != k {
      GetAfterAssign(d[1..], k, v, key);
    }
  }

  /** In a dict without repeated keys, each key reads its own entry. */
  lemma {:induction false} GetAt<V>(d: Dict<V>, i: nat)
    requires DistinctKeys(d) && i < |d|
    ensures Get(d, d[i].0) == Some(d[i].1)
  {
    if i > 0 {
      assert d[1..][i - 1] == d[i];
      GetAt(d[1..], i - 1);
    }
  }

  /** Assigning entries whose keys are all new appends them in order. */
  lemma {:induction false} AssignAllNewKeys<V>(d: Dict<V>, e: Dict<V>)
    requires DistinctKeys(e)
    requires forall i :: 0 <= i < |e| ==> !HasKey(d, e[i].0)
    ensures AssignAll(d, e) == d + e
    decreases |e|
  {
    if e != [] {
      AssignNewKey(d, e[0].0, e[0].1);
      var d' := d + [e[0]];
      forall i | 0 <= i < |e[1..]|
        ensures !HasKey(d', e[1..][i].0)
      {
        assert e[1..][i] == e[i + 1];
        assert e[i + 1].0 != e[0].0;
      }
      AssignAllNewKeys(d', e[1..]);
      assert d' + e[1..] == d + e;
    }
  }

  /** Assigning entries whose keys are all present keeps the dict's keys in place. */
  lemma {:induction false} AssignAllExistingKeys<V>(d: Dict<V>, e: Dict<V>)
    requires forall i :: 0 <= i < |e| ==> HasKey(d, e[i].0)
    ensures |AssignAll(d, e)| == |d|
    ensures forall i :: 0 <= i < |d| ==> AssignAll(d, e)[i].0 == d[i].0
    decreases |e|
  {
    if e != [] {
      var d' := Assign(d, e[0].0, e[0].1);
      AssignExistingKey(d, e[0].0, e[0].1);
      forall i | 0 <= i < |e[1..]|
        ensures HasKey(d', e[1..][i].0)
      {
        assert e[1..][i] == e[i + 1];
        var j :| 0 <= j < |d| && d[j].0 == e[i + 1].0;
        assert d'[j].0 == e[i + 1].0;
      }
      AssignAllExistingKeys(d', e[1..]);
    }
  }

  /** After assigning the entries of `e`, each of its keys reads its value there
      and every other key reads as before. */
  lemma {:induction false} GetAfterAssignAll<V>(d: Dict<V>, e: Dict<V>, key: string)
    requires DistinctKeys(e)
    ensures Get(AssignAll(d, e), key) == if HasKey(e, key) then Get(e, key) else Get(d, key)
    decreases |e|
  {
    if e != [] {
      var d' := Assign(d, e[0].0, e[0].1);
      GetAfterAssign(d, e[0].0, e[0].1, key);
      GetAfterAssignAll(d', e[1..], key);
      HasKeyUnfold(e, key);
      if key == e[0].0 {
        forall j | 0 <= j < |e[1..]|
          ensures e[1..][j].0 != key
        {
          assert e[1..][j] == e[j + 1];
        }
      }
    }
  }

  /** One dict built by the same loop body for two objects in turn: when both
      assign the same keys in the same order, the second object's assignments
      overwrite every value and keep the key order, so the dict is exactly the
      second object's, as if the first had never been read. */
  lemma OverwriteLeavesLast<V>(e1: Dict<V>, e2: Dict<V>)
    requires DistinctKeys(e2)
    requires |e1| == |e2| && forall i :: 0 <= i < |e1| ==> e1[i].0 == e2[i].0
    ensures AssignAll(AssignAll([], e1), e2) == e2
  {
    var none: Dict<V> := [];
    AssignAllNewKeys(none, e1);
    assert none + e1 == e1;
    forall i | 0 <= i < |e2|
      ensures HasKey(e1, e2[i].0)
    {
      assert e1[i].0 == e2[i].0;
    }
    var r := AssignAll(e1, e2);
    AssignAllExistingKeys(e1, e2);
    forall i | 0 <= i < |e2|
      ensures r[i] == e2[i]
    {
      GetAt(e2, i);
      assert HasKey(e2, e2[i].0);
      GetAfterAssignAll(e1, e2, e2[i].0);
      assert r[i].0 == e2[i].0;
      GetAt(r, i);
    }
  }
}
