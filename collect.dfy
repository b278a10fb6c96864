/** The two loop shapes `get_specs` builds its groups with, over the objects a WMI
    query returned. An exception inside the loop leaves the loop, and the group
    becomes `None`. */
module Collect {
  import opened Wrappers

  /** A group dict that is rebuilt key by key for every object: it is `{}` while no
      object has been taken, and afterwards holds the keys of the last one. */
  datatype Slot<+T> = Empty | Holds(item: T)

  // ---- "build a dict per object and append it to a list" ------------------------

  /** The list `[entry(a) for a in items]`, or `None` when some entry raises. */
  function Collected<A, B>(items: seq<A>, entry: A -> Option<B>): (r: Option<seq<B>>)
    ensures r.None? <==> exists i :: 0 <= i < |items| && entry(items[i]).None?
    ensures r.Some? ==> |r.value| == |items|
    ensures r.Some? ==> forall i :: 0 <= i < |items| ==> entry(items[i]) == Some(r.value[i])
  {
    if items == [] then Some([])
    else
      var init := items[..|items| - 1];
      assert forall i :: 0 <= i < |init| ==> init[i] == items[i];
      match Collected(init, entry)
      case None => None
      case Some(xs) =>
        match entry(items[|items| - 1])
        case None => None
        case Some(b) => Some(xs + [b])
  }

  /** The loop `xs = []; for a in items: xs.append(entry(a))`. */
  method CollectAll<A, B>(items: seq<A>, entry: A -> Option<B>) returns (r: Option<seq<B>>)
    ensures r == Collected(items, entry)
  {
    var xs: seq<B> := [];
    var i := 0;
    while i < |items|
      invariant 0 <= i <= |items|
      invariant Collected(items[..i], entry) == Some(xs)
    {
      var e := entry(items[i]);
      if e.None? {
        assert Collected(items[..i + 1], entry).None? by {
          assert items[..i + 1][i] == items[i];
        }
        assert Collected(items, entry).None? by {
          var w :| 0 <= w < i + 1 && entry(items[..i + 1][w]).None?;
          assert items[..i + 1][w] == items[w];
        }
        return None;
      }
      assert items[..i + 1][..i] == items[..i];
      xs := xs + [e.value];
      i := i + 1;
    }
    assert items[..i] == items;
    return Some(xs);
  }

  // ---- "overwrite one dict's keys for every object" ------------------------------

  /** The index of the last item `keep` accepts, or -1 when it accepts none. */
  function LastIndex<A>(items: seq<A>, keep: A -> bool): (k: int)
    ensures -1 <= k < |items|
    ensures k >= 0 ==> keep(items[k])
    ensures forall j :: k < j < |items| ==> !keep(items[j])
  {
    if items == [] then -1
    else if keep(items[|items| - 1]) then |items| - 1
    else LastIndex(items[..|items| - 1], keep)
  }

  /** The group dict after `for a in items: if keep(a): <assign entry(a)'s keys>`:
      `None` when the entry of some accepted item raises; otherwise the entry of
      the last accepted item (the last one wins), or `{}` when none is accepted. */
  function LastKept<A, B>(items: seq<A>, keep: A -> bool, entry: A -> Option<B>): (r: Option<Slot<B>>)
    ensures r.None? <==> exists i :: 0 <= i < |items| && keep(items[i]) && entry(items[i]).None?
    ensures r.Some? ==> r.value == (var k := LastIndex(items, keep);
                                    if k < 0 then Empty else Holds(entry(items[k]).value))
  {
    if items == [] then Some(Empty)
    else
      var init := items[..|items| - 1];
      var last := items[|items| - 1];
      assert forall i :: 0 <= i < |init| ==> init[i] == items[i];
      match LastKept(init, keep, entry)
      case None => None
      case Some(slot) =>
        if !keep(last) then Some(slot)
        else match entry(last)
          case None => None
          case Some(b) => Some(Holds(b))
  }

  /** The loop that overwrites the group dict's keys for each accepted item. */
  method KeepLast<A, B>(items: seq<A>, keep: A -> bool, entry: A -> Option<B>) returns (r: Option<Slot<B>>)
    ensures r == LastKept(items, keep, entry)
  {
    var slot: Slot<B> := Empty;
    var i := 0;
    while i < |items|
      invariant 0 <= i <= |items|
      invariant LastKept(items[..i], keep, entry) == Some(slot)
    {
      assert items[..i + 1][..i] == items[..i];
      if keep(items[i]) {
        var e := entry(items[i]);
        if e.None? {
          assert items[..i + 1][i] == items[i];
          assert LastKept(items, keep, entry).None? by {
            var w :| 0 <= w < i + 1 && keep(items[..i + 1][w]) && entry(items[..i + 1][w]).None?;
            assert items[..i + 1][w] == items[w];
          }
          return None;
        }
        slot := Holds(e.value);
      }
      i := i + 1;
    }
    assert items[..i] == items;
    return Some(slot);
  }

  /** Keeping every item and keeping the last one gives the last element of the
      collected list, and fails exactly when collecting fails. */
  lemma LastOfCollected<A, B>(items: seq<A>, keep: A -> bool, entry: A -> Option<B>)
    requires forall a :: keep(a)
    ensures LastKept(items, keep, entry) ==
              match Collected(items, entry)
              case None => None
              case Some(xs) => Some(LastOf(xs))
  {
    var r := LastKept(items, keep, entry);
    var c := Collected(items, entry);
    assert r.None? <==> c.None?;
    if c.Some? && items != [] {
      assert keep(items[|items| - 1]);
      assert LastIndex(items, keep) == |items| - 1;
    }
  }

  /** Accepts every item: the loops that have no `if`. */
  predicate Always<A>(a: A)
  {
    true
  }

  /** The last element of a list as a group dict, `{}` for the empty list. */
  function LastOf<T>(xs: seq<T>): Slot<T>
  {
    if xs == [] then Empty else Holds(xs[|xs| - 1])
  }

  /** A WMI query whose call raised gives `None`; otherwise its objects are collected. */
  function QueryAll<A, B>(q: Option<seq<A>>, entry: A -> Option<B>): (r: Option<seq<B>>)
    ensures r.None? <==> q.None? || exists a :: a in q.value && entry(a).None?
  {
    match q
    case None => None
    case Some(items) =>
      assert (exists a :: a in items && entry(a).None?) <==>
             (exists i :: 0 <= i < |items| && entry(items[i]).None?) by {
        if exists a :: a in items && entry(a).None? {
          var a :| a in items && entry(a).None?;
          var i :| 0 <= i < |items| && items[i] == a;
        }
      }
      Collected(items, entry)
  }

  function QueryLast<A, B>(q: Option<seq<A>>, keep: A -> bool, entry: A -> Option<B>): (r: Option<Slot<B>>)
    ensures r.None? <==> q.None? || exists a :: a in q.value && keep(a) && entry(a).None?
  {
    match q
    case None => None
    case Some(items) =>
      assert (exists a :: a in items && keep(a) && entry(a).None?) <==>
             (exists i :: 0 <= i < |items| && keep(items[i]) && entry(items[i]).None?) by {
        if exists a :: a in items && keep(a) && entry(a).None? {
          var a :| a in items && keep(a) && entry(a).None?;
          var i :| 0 <= i < |items| && items[i] == a;
        }
      }
      LastKept(items, keep, entry)
  }
}
