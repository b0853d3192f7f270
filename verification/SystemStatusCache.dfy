/** The cache of gps/core/SystemStatusOsObserver.cpp: what it holds after data items have come in, and which of them
    count as updated. */
module SystemStatusCache {
  import opened Wrappers

  datatype DataItemId = DataItem(number: int)

  /** The cached items, each with its value as a string. */
  type Cache = map<DataItemId, string>

  /** A data item as it comes in, with the answers of the foreign code: does SystemStatus handle it, and can an
      item of its kind be created for the cache? */
  datatype Incoming = Incoming(id: DataItemId, value: string, handled: bool, creatable: bool)

  /** What updateCache reports: the item is new to the cache, or copying it changed what was there. */
  predicate IsUpdate(cache: Cache, d: Incoming) {
    d.handled && if d.id in cache then cache[d.id] != d.value else d.creatable
  }

  function CacheWith(cache: Cache, d: Incoming): Cache {
    if d.handled && (d.id in cache || d.creatable) then cache[d.id := d.value] else cache
  }

  function CacheAfter(cache: Cache, v: seq<Incoming>): Cache
    decreases v
  {
    if v == [] then cache else CacheAfter(CacheWith(cache, v[0]), v[1..])
  }

  function UpdatedIds(cache: Cache, v: seq<Incoming>): set<DataItemId>
    decreases v
  {
    if v == [] then {}
    else (if IsUpdate(cache, v[0]) then {v[0].id} else {}) + UpdatedIds(CacheWith(cache, v[0]), v[1..])
  }

  lemma {:induction false} UpdatedAreCached(cache: Cache, v: seq<Incoming>)
    ensures cache.Keys <= CacheAfter(cache, v).Keys && UpdatedIds(cache, v) <= CacheAfter(cache, v).Keys
    decreases |v|
  {
    if v != [] {
      UpdatedAreCached(CacheWith(cache, v[0]), v[1..]);
    }
  }

  // ---------- What is cached ----------

  /** The value of the last item of a batch that SystemStatus handles under an identifier. */
  function LastHandled(v: seq<Incoming>, i: DataItemId): Option<string> {
    if v == [] then None
    else
      var d := v[|v| - 1];
      if d.id == i && d.handled then Some(d.value) else LastHandled(v[..|v| - 1], i)
  }

  /** Does a batch bring an item that the cache can hold from then on? */
  predicate Holdable(v: seq<Incoming>, i: DataItemId) {
    exists k :: 0 <= k < |v| && v[k].id == i && v[k].handled && v[k].creatable
  }

  lemma {:induction false} CacheAppend(cache: Cache, v: seq<Incoming>, d: Incoming)
    ensures CacheAfter(cache, v + [d]) == CacheWith(CacheAfter(cache, v), d)
    ensures UpdatedIds(cache, v + [d]) ==
      UpdatedIds(cache, v) + if IsUpdate(CacheAfter(cache, v), d) then {d.id} else {}
    decreases |v|
  {
    if v == [] {
      assert [d][1..] == [];
    } else {
      assert (v + [d])[1..] == v[1..] + [d];
      CacheAppend(CacheWith(cache, v[0]), v[1..], d);
    }
  }

  /** After a batch exactly those items are cached that were before or could be created, each with the value that
      came last. */
  lemma {:induction false} CacheHoldsLast(cache: Cache, v: seq<Incoming>, i: DataItemId)
    ensures i in CacheAfter(cache, v) <==> i in cache || Holdable(v, i)
    ensures i in CacheAfter(cache, v) ==>
      match LastHandled(v, i)
      case Some(value) => CacheAfter(cache, v)[i] == value
      case None => i in cache && CacheAfter(cache, v)[i] == cache[i]
    decreases |v|
  {
    if v != [] {
      var before, d := v[..|v| - 1], v[|v| - 1];
      assert v == before + [d];
      CacheHoldsLast(cache, before, i);
      CacheAppend(cache, before, d);
      HoldableAppend(before, d, i);
      hide CacheAfter, Holdable, UpdatedIds;
    }
  }

  lemma HoldableAppend(v: seq<Incoming>, d: Incoming, i: DataItemId)
    ensures Holdable(v + [d], i) <==> Holdable(v, i) || (d.id == i && d.handled && d.creatable)
  {
    if Holdable(v, i) {
      var k :| 0 <= k < |v| && v[k].id == i && v[k].handled && v[k].creatable;
      assert (v + [d])[k] == v[k];
    }
    assert (v + [d])[|v|] == d;
  }

  // ---------- What counts as updated ----------

  /** Is the item new to the cache, or its value another one, after the batch? */
  predicate Changed(cache: Cache, after: Cache, i: DataItemId) {
    i in after && (i !in cache || cache[i] != after[i])
  }

  /** Does the `k`-th item of a batch change what is cached under an identifier? */
  predicate ChangedBy(cache: Cache, v: seq<Incoming>, k: nat, i: DataItemId) {
    k < |v| && Changed(CacheAfter(cache, v[..k]), CacheAfter(cache, v[..k + 1]), i)
  }

  /** An item counts as updated exactly if it is changed at some point of the batch. */
  lemma {:induction false} UpdatedIffEverChanged(cache: Cache, v: seq<Incoming>, i: DataItemId)
    ensures i in UpdatedIds(cache, v) <==> exists k: nat :: ChangedBy(cache, v, k, i)
    decreases |v|
  {
    if v != [] {
      var before, d := v[..|v| - 1], v[|v| - 1];
      assert v == before + [d] && v[..|v|] == v;
      UpdatedIffEverChanged(cache, before, i);
      CacheAppend(cache, before, d);
      hide CacheAfter, UpdatedIds;
      forall k: nat | k < |before| ensures ChangedBy(cache, before, k, i) <==> ChangedBy(cache, v, k, i) {
        assert before[..k] == v[..k] && before[..k + 1] == v[..k + 1];
      }
      assert ChangedBy(cache, v, |before|, i) <==> IsUpdate(CacheAfter(cache, before), d) && d.id == i;
    }
  }

  /** Does a batch bring every item at most once? */
  predicate EachOnce(v: seq<Incoming>) {
    forall j, k :: 0 <= j < k < |v| ==> v[j].id != v[k].id
  }

  /** Of a batch that brings every item at most once, exactly those count as updated whose value is new or
      changed. */
  lemma {:induction false} UpdatedExactly(cache: Cache, v: seq<Incoming>, i: DataItemId)
    requires EachOnce(v)
    ensures i in UpdatedIds(cache, v) <==> Changed(cache, CacheAfter(cache, v), i)
    decreases |v|
  {
    if v != [] {
      var before, d := v[..|v| - 1], v[|v| - 1];
      assert v == before + [d];
      assert forall j :: 0 <= j < |before| ==> before[j] == v[j];
      UpdatedExactly(cache, before, i);
      CacheAppend(cache, before, d);
      Untouched(cache, before, d.id);
      hide CacheAfter, UpdatedIds;
    }
  }

  /** A batch leaves alone what it does not bring. */
  lemma {:induction false} Untouched(cache: Cache, v: seq<Incoming>, i: DataItemId)
    requires forall k :: 0 <= k < |v| ==> v[k].id != i
    ensures i in CacheAfter(cache, v) <==> i in cache
    ensures i in cache ==> CacheAfter(cache, v)[i] == cache[i]
    ensures i !in UpdatedIds(cache, v)
    decreases |v|
  {
    if v != [] {
      assert forall k :: 0 <= k < |v[1..]| ==> v[1..][k] == v[k + 1];
      Untouched(CacheWith(cache, v[0]), v[1..], i);
    }
  }

  /** Brought twice, an item counts as updated though its value is what it was. */
  lemma BackAgainIsUpdated(i: DataItemId)
    ensures var v := [Incoming(i, "b", true, true), Incoming(i, "a", true, true)];
      CacheAfter(map[i := "a"], v) == map[i := "a"] && i in UpdatedIds(map[i := "a"], v)
  {
    var first, second := Incoming(i, "b", true, true), Incoming(i, "a", true, true);
    assert [first, second] == [first] + [second];
    assert [first][1..] == [];
    CacheAppend(map[i := "a"], [first], second);
    assert "a" != "b" by {
      assert "a"[0] != "b"[0];
    }
    assert CacheAfter(map[i := "a"], [first]) == map[i := "b"];
  }

  // ---------- What is sent ----------

  /** The cached ones among some items, with their values. */
  function Cached(cache: Cache, items: set<DataItemId>): map<DataItemId, string> {
    map i | i in items && i in cache :: cache[i]
  }
}
