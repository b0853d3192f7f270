/** gps/utils/LocUnorderedSetMap.h: a map from keys to sets of values whose entries vanish when emptied. */
module LocUnorderedSetMap {

  // ---------- What each operation makes of the map ----------

  function ValSet<K, V>(m: map<K, set<V>>, key: K): set<V> {
    if key in m then m[key] else {}
  }

  predicate Related<K, V>(m: map<K, set<V>>, key: K, val: V) {
    key in m && val in m[key]
  }

  predicate NoEmptyEntry<K, V>(m: map<K, set<V>>) {
    forall key :: key in m ==> m[key] != {}
  }

  function Added<K, V>(m: map<K, set<V>>, keys: set<K>, newVals: set<V>): map<K, set<V>> {
    if newVals == {} then m
    else map key | key in m.Keys + keys :: if key in keys then ValSet(m, key) + newVals else m[key]
  }

  function NewKeys<K, V>(m: map<K, set<V>>, keys: set<K>, newVals: set<V>): set<K> {
    if newVals == {} then {} else keys - m.Keys
  }

  function GoneKeys<K, V>(m: map<K, set<V>>, keys: set<K>, rVals: set<V>): set<K> {
    set key | key in keys && key in m && m[key] <= rVals
  }

  function Trimmed<K, V>(m: map<K, set<V>>, keys: set<K>, rVals: set<V>): map<K, set<V>> {
    map key | key in m.Keys - GoneKeys(m, keys, rVals) :: if key in keys then m[key] - rVals else m[key]
  }

  function GoneVals<K(!new), V>(m: map<K, set<V>>, keys: set<K>, rVals: set<V>): set<V> {
    set val | val in rVals && exists key :: key in keys && Related(m, key, val)
  }

  /** What update leaves in the map: new values take the place of an entry, and no values take it away. */
  function Updated<K, V>(m: map<K, set<V>>, key: K, newVals: set<V>): map<K, set<V>> {
    if newVals == {} then m - {key} else m[key := newVals]
  }

  // ---------- The same, entry by entry ----------

  lemma RelatedAfter<K(!new), V(!new)>(m: map<K, set<V>>, keys: set<K>, vals: set<V>, key: K, val: V)
    ensures Related(Added(m, keys, vals), key, val) <==> Related(m, key, val) || (key in keys && val in vals)
    ensures Related(Trimmed(m, keys, vals), key, val) <==> Related(m, key, val) && !(key in keys && val in vals)
  {
  }

  lemma NoEmptyAfter<K(!new), V(!new)>(m: map<K, set<V>>, keys: set<K>, vals: set<V>)
    requires NoEmptyEntry(m)
    ensures NoEmptyEntry(Added(m, keys, vals)) && NoEmptyEntry(Trimmed(m, keys, vals))
  {
    forall key | key in Trimmed(m, keys, vals) ensures Trimmed(m, keys, vals)[key] != {} {
      EmptyIffWithin(m[key], vals);
    }
  }

  /** Nor does update, which leaves under the key exactly the new values. */
  lemma UpdatedHolds<K(!new), V(!new)>(m: map<K, set<V>>, key: K, newVals: set<V>, k: K, v: V)
    ensures Related(Updated(m, key, newVals), k, v) <==> if k == key then v in newVals else Related(m, k, v)
    ensures NoEmptyEntry(m) ==> NoEmptyEntry(Updated(m, key, newVals))
  {
  }

  lemma EmptyIffWithin<V>(s: set<V>, vals: set<V>)
    ensures s - vals == {} <==> s <= vals
  {
    if s - vals == {} {
      assert forall v :: v in s ==> v in vals || v in s - vals;
    }
  }

  lemma KeysAfter<K, V>(m: map<K, set<V>>, keys: set<K>, vals: set<V>)
    ensures Added(m, keys, vals).Keys == m.Keys + NewKeys(m, keys, vals)
    ensures Trimmed(m, keys, vals).Keys == m.Keys - GoneKeys(m, keys, vals)
  {
  }

  // ---------- The code ----------

  /** trimSet, with the caller's set of removed values as in- and out-parameter. */
  method TrimSet<T(==)>(fromSet: set<T>, rVals: set<T>, goneVals: set<T>) returns (trimmed: set<T>, gone: set<T>)
    ensures trimmed == fromSet - rVals && gone == goneVals + (fromSet * rVals)
  {
    trimmed, gone := fromSet, goneVals;
    var rest := rVals;
    while rest != {}
      invariant rest <= rVals
      invariant trimmed == fromSet - (rVals - rest)
      invariant gone == goneVals + (fromSet * (rVals - rest))
      decreases rest
    {
      var val :| val in rest;
      if val in trimmed {
        trimmed := trimmed - {val};
        gone := gone + {val};
      }
      rest := rest - {val};
    }
  }

  /** removeAndReturnInterset: both sets lose what they share. */
  method RemoveAndReturnInterset<T(==)>(s1: set<T>, s2: set<T>) returns (common: set<T>, left1: set<T>, left2: set<T>)
    ensures common == s1 * s2 && left1 == s1 - s2 && left2 == s2 - s1
  {
    common, left1, left2 := {}, s1, s2;
    var rest := s2;
    while rest != {}
      invariant rest <= s2
      invariant common == s1 * (s2 - rest) && left1 == s1 - (s2 - rest) && left2 == s2 - common
      decreases rest
    {
      var b :| b in rest;
      if b in left1 {
        common := common + {b};
        left1 := left1 - {b};
        left2 := left2 - {b};
      }
      rest := rest - {b};
    }
  }

  /** How far a loop over a set has come. */
  predicate Split<T>(all: set<T>, done: set<T>, rest: set<T>) {
    done + rest == all && done !! rest
  }

  lemma SplitStep<T>(all: set<T>, done: set<T>, rest: set<T>, item: T)
    requires Split(all, done, rest) && item in rest
    ensures Split(all, done + {item}, rest - {item}) && item !in done
  {
  }

  lemma SplitEnds<T>(all: set<T>)
    ensures Split(all, {}, all) && forall done {:trigger Split(all, done, {})} :: Split(all, done, {}) ==> done == all
  {
  }

  class LocUnorderedSetMap<K(==, !new), V(==, !new)> {
    var mMap: map<K, set<V>>

    constructor ()
      ensures mMap == map[]
    {
      mMap := map[];
    }

    method GetValSet(key: K) returns (vals: set<V>)
      ensures vals == ValSet(mMap, key)
    {
      vals := if key in mMap then mMap[key] else {};
    }

    method GetKeys() returns (keys: set<K>)
      ensures keys == mMap.Keys
    {
      keys := {};
      var rest := mMap.Keys;
      while rest != {}
        invariant rest <= mMap.Keys && keys == mMap.Keys - rest
        decreases rest
      {
        var key :| key in rest;
        keys := keys + {key};
        rest := rest - {key};
      }
    }

    method Remove(key: K) returns (removed: bool)
      modifies this
      ensures mMap == old(mMap) - {key} && removed == (key in old(mMap))
    {
      removed := key in mMap;
      mMap := mMap - {key};
    }

    /** trimOrRemove on one entry. */
    method TrimOrRemoveEntry(key: K, rVals: set<V>, goneVals: set<V>) returns (removeEntry: bool, gone: set<V>)
      requires key in mMap
      modifies this
      ensures removeEntry == (old(mMap)[key] <= rVals)
      ensures mMap == if removeEntry then old(mMap) - {key} else old(mMap)[key := old(mMap)[key] - rVals]
      ensures gone == goneVals + (old(mMap)[key] * rVals)
    {
      EmptyIffWithin(mMap[key], rVals);
      var trimmed;
      trimmed, gone := TrimSet(mMap[key], rVals, goneVals);
      mMap := mMap[key := trimmed];
      removeEntry := mMap[key] == {};
      if removeEntry {
        mMap := mMap - {key};
      }
    }

    /** trimOrRemove on many: the entries that became empty, and the values taken out anywhere. */
    method TrimOrRemove(keys: set<K>, rVals: set<V>) returns (goneKeys: set<K>, goneVals: set<V>)
      modifies this
      ensures mMap == Trimmed(old(mMap), keys, rVals)
      ensures goneKeys == GoneKeys(old(mMap), keys, rVals) && goneVals == GoneVals(old(mMap), keys, rVals)
    {
      goneKeys, goneVals := {}, {};
      SplitEnds(keys);
      assert Trimmed(mMap, {}, rVals) == mMap && GoneKeys(mMap, {}, rVals) == {} && GoneVals(mMap, {}, rVals) == {};
      hide Split, GoneKeys, Trimmed, GoneVals;
      ghost var done := {};
      var rest := keys;
      while rest != {}
        invariant Split(keys, done, rest)
        invariant mMap == Trimmed(old(mMap), done, rVals)
        invariant goneKeys == GoneKeys(old(mMap), done, rVals) && goneVals == GoneVals(old(mMap), done, rVals)
        decreases rest
      {
        var key :| key in rest;
        SplitStep(keys, done, rest, key);
        TrimOneMore(old(mMap), done, key, rVals);
        if key in mMap {
          var removeEntry;
          removeEntry, goneVals := TrimOrRemoveEntry(key, rVals, goneVals);
          if removeEntry {
            goneKeys := goneKeys + {key};
          }
        }
        done, rest := done + {key}, rest - {key};
      }
    }

    /** add to one entry. */
    method AddEntry(key: K, newVals: set<V>) returns (newEntryAdded: bool)
      modifies this
      ensures mMap == Added(old(mMap), {key}, newVals) && newEntryAdded == (key in NewKeys(old(mMap), {key}, newVals))
    {
      newEntryAdded := false;
      AddToOne(mMap, key, newVals);
      if newVals != {} {
        if key in mMap {
          mMap := mMap[key := mMap[key] + newVals];
        } else {
          assert ValSet(mMap, key) + newVals == newVals;
          mMap := mMap[key := newVals];
          newEntryAdded := true;
        }
      }
    }

    method Add(keys: set<K>, newVals: set<V>) returns (newKeys: set<K>)
      modifies this
      ensures mMap == Added(old(mMap), keys, newVals) && newKeys == NewKeys(old(mMap), keys, newVals)
    {
      newKeys := {};
      assert Added(mMap, {}, newVals) == mMap && NewKeys(mMap, {}, newVals) == {};
      SplitEnds(keys);
      hide *;
      ghost var done := {};
      var rest := keys;
      while rest != {}
        invariant Split(keys, done, rest)
        invariant mMap == Added(old(mMap), done, newVals) && newKeys == NewKeys(old(mMap), done, newVals)
        decreases rest
      {
        var key :| key in rest;
        SplitStep(keys, done, rest, key);
        AddOneMore(old(mMap), done, key, newVals);
        var newEntryAdded := AddEntry(key, newVals);
        if newEntryAdded {
          newKeys := newKeys + {key};
        }
        done, rest := done + {key}, rest - {key};
      }
    }

    /** update: `left` is what remains of the argument newVals. The result goneVals is what the entry had and
        keeps, not what it loses. */
    method Update(key: K, newVals: set<V>) returns (goneVals: set<V>, left: set<V>)
      modifies this
      ensures mMap == Updated(old(mMap), key, newVals)
      ensures left == newVals - ValSet(old(mMap), key)
      ensures goneVals == newVals * ValSet(old(mMap), key)
    {
      goneVals, left := {}, newVals;
      if newVals == {} {
        mMap := mMap - {key};
      } else {
        if key !in mMap {
          mMap := mMap[key := {}];
        }
        var curVals := mMap[key];
        mMap := mMap[key := newVals];
        goneVals, curVals, left := RemoveAndReturnInterset(curVals, newVals);
      }
    }
  }

  lemma TrimOneMore<K(!new), V(!new)>(m: map<K, set<V>>, done: set<K>, key: K, rVals: set<V>)
    requires key !in done
    ensures var t := Trimmed(m, done, rVals);
      && ValSet(t, key) == ValSet(m, key) && (key in t <==> key in m)
      && Trimmed(m, done + {key}, rVals) ==
         (if key !in m then t else if m[key] <= rVals then t - {key} else t[key := m[key] - rVals])
      && GoneKeys(m, done + {key}, rVals) ==
         GoneKeys(m, done, rVals) + (if key in m && m[key] <= rVals then {key} else {})
      && GoneVals(m, done + {key}, rVals) == GoneVals(m, done, rVals) + (ValSet(m, key) * rVals)
  {
  }

  lemma AddToOne<K, V>(m: map<K, set<V>>, key: K, newVals: set<V>)
    ensures Added(m, {key}, newVals) == if newVals == {} then m else m[key := ValSet(m, key) + newVals]
  {
  }

  lemma AddOneMore<K, V>(m: map<K, set<V>>, done: set<K>, key: K, newVals: set<V>)
    requires key !in done
    ensures Added(m, done + {key}, newVals) == Added(Added(m, done, newVals), {key}, newVals)
    ensures NewKeys(m, done + {key}, newVals) ==
      NewKeys(m, done, newVals) + if key in NewKeys(Added(m, done, newVals), {key}, newVals) then {key} else {}
  {
  }

  /** Documented as the values removed from the entry, the result of update is that only if the old and the
      new values are both nowhere or the same nothing: what is returned is the intersection. */
  lemma UpdateReturnsKept<V>(cur: set<V>, newVals: set<V>)
    ensures newVals * cur == cur - newVals <==> cur == {}
  {
    if cur != {} {
      var v :| v in cur;
      assert v in newVals * cur <==> v !in cur - newVals;
    }
  }
}
