/** Maps from keys to sets of values: what each operation leaves in the map and reports, and
    the class that does it by erasing and inserting one element at a time. */
module SetMap {

  function At<K, V>(m: map<K, set<V>>, key: K): set<V> {
    if key in m then m[key] else {}
  }

  ghost predicate NoEmptySet<K, V>(m: map<K, set<V>>) {
    forall key :: key in m ==> m[key] != {}
  }

  /** Takes `vals` from the entries of `keys`, and drops the entries that leaves empty. */
  function Trimmed<K, V>(m: map<K, set<V>>, keys: set<K>, vals: set<V>): map<K, set<V>> {
    map key | key in m && (key in keys ==> !(m[key] <= vals)) ::
      if key in keys then m[key] - vals else m[key]
  }

  function GoneKeys<K, V>(m: map<K, set<V>>, keys: set<K>, vals: set<V>): set<K> {
    set key | key in keys && key in m && m[key] <= vals
  }

  function GoneVals<K, V>(m: map<K, set<V>>, keys: set<K>, vals: set<V>): set<V> {
    set key, val | key in keys && key in m && val in m[key] && val in vals :: val
  }

  function Added<K, V>(m: map<K, set<V>>, keys: set<K>, vals: set<V>): map<K, set<V>> {
    if vals == {} then m
    else map key | key in m.Keys + keys :: if key in keys then At(m, key) + vals else m[key]
  }

  lemma TrimmedAt<K, V>(m: map<K, set<V>>, keys: set<K>, vals: set<V>, key: K)
    ensures At(Trimmed(m, keys, vals), key) ==
              if key in keys then At(m, key) - vals else At(m, key)
  {
  }

  lemma TrimmedKeys<K, V>(m: map<K, set<V>>, keys: set<K>, vals: set<V>)
    ensures Trimmed(m, keys, vals).Keys == m.Keys - GoneKeys(m, keys, vals)
    ensures NoEmptySet(m) ==> NoEmptySet(Trimmed(m, keys, vals))
  {
    hide At;
    forall key | NoEmptySet(m) && key in Trimmed(m, keys, vals)
      ensures Trimmed(m, keys, vals)[key] != {}
    {
      if key in keys {
        var val :| val in m[key] && val !in vals;
        assert val in Trimmed(m, keys, vals)[key];
      }
    }
  }

  lemma AddedAt<K, V>(m: map<K, set<V>>, keys: set<K>, vals: set<V>, key: K)
    ensures At(Added(m, keys, vals), key) ==
              if key in keys then At(m, key) + vals else At(m, key)
    ensures vals != {} ==> Added(m, keys, vals).Keys == m.Keys + keys
    ensures NoEmptySet(m) ==> NoEmptySet(Added(m, keys, vals))
  {
  }

  /** Some element, as an iterator over the set would come to. */
  method Pick<T>(s: set<T>) returns (t: T)
    requires s != {}
    ensures t in s
  {
    t :| t in s;
  }

  method TrimSet<T(==)>(from: set<T>, rVals: set<T>) returns (left: set<T>, gone: set<T>)
    ensures left == from - rVals && gone == from * rVals
  {
    left, gone := from, {};
    var todo := rVals;
    while todo != {}
      invariant todo <= rVals
      invariant left == from - (rVals - todo) && gone == from * (rVals - todo)
    {
      var val :| val in todo;
      if val in left {
        left, gone := left - {val}, gone + {val};
      }
      todo := todo - {val};
    }
  }

  /** Takes the intersection out of both sets. */
  method RemoveAndReturnInterset<T(==)>(s1: set<T>, s2: set<T>)
    returns (common: set<T>, left1: set<T>, left2: set<T>)
    ensures common == s1 * s2 && left1 == s1 - s2 && left2 == s2 - s1
  {
    common, left1, left2 := {}, s1, s2;
    var todo := s2;
    while todo != {}
      invariant todo <= left2 && s2 - todo <= s2
      invariant common == s1 * (s2 - todo)
      invariant left1 == s1 - (s2 - todo) && left2 == s2 - s1 * (s2 - todo)
    {
      var val :| val in todo;
      todo := todo - {val};
      if val in left1 {
        common, left1, left2 := common + {val}, left1 - {val}, left2 - {val};
      }
    }
  }

  class LocUnorderedSetMap<K(==), V(==)> {
    var mMap: map<K, set<V>>

    constructor ()
      ensures mMap == map[]
    {
      mMap := map[];
    }

    method GetValSet(key: K) returns (vals: set<V>)
      ensures vals == At(mMap, key)
    {
      vals := if key in mMap then mMap[key] else {};
    }

    method GetKeys() returns (keys: set<K>)
      ensures keys == mMap.Keys
    {
      keys := {};
      var todo := mMap.Keys;
      while todo != {}
        invariant todo <= mMap.Keys && keys == mMap.Keys - todo
      {
        var key :| key in todo;
        keys, todo := keys + {key}, todo - {key};
      }
    }

    method Remove(key: K) returns (removed: bool)
      modifies this
      ensures removed == (key in old(mMap)) && mMap == old(mMap) - {key}
    {
      removed := key in mMap;
      mMap := mMap - {key};
    }

    method TrimOrRemoveEntry(key: K, rVals: set<V>) returns (removeEntry: bool, goneVals: set<V>)
      requires key in mMap
      modifies this
      ensures removeEntry == (old(mMap)[key] <= rVals) && goneVals == old(mMap)[key] * rVals
      ensures mMap == if removeEntry then old(mMap) - {key}
                      else old(mMap)[key := old(mMap)[key] - rVals]
    {
      var left;
      left, goneVals := TrimSet(mMap[key], rVals);
      removeEntry := left == {};
      assert removeEntry ==> forall val :: val in mMap[key] ==> val !in left;
      if removeEntry {
        mMap := mMap - {key};
      } else {
        mMap := mMap[key := left];
      }
    }

    method TrimOrRemove(keys: set<K>, rVals: set<V>)
      returns (goneKeys: set<K>, goneVals: set<V>)
      modifies this
      ensures mMap == Trimmed(old(mMap), keys, rVals)
      ensures goneKeys == GoneKeys(old(mMap), keys, rVals)
      ensures goneVals == GoneVals(old(mMap), keys, rVals)
    {
      ghost var m := mMap;
      goneKeys, goneVals := {}, {};
      var todo := keys;
      ghost var done: set<K> := {};
      hide Trimmed, GoneKeys, GoneVals;
      TrimNone(m, rVals);
      while todo != {}
        invariant todo !! done && todo + done == keys
        invariant mMap == Trimmed(m, done, rVals)
        invariant goneKeys == GoneKeys(m, done, rVals)
        invariant goneVals == GoneVals(m, done, rVals)
      {
        var key :| key in todo;
        TrimOneMore(m, done, key, rVals);
        todo, done := todo - {key}, done + {key};
        if key in mMap {
          var removed, gone := TrimOrRemoveEntry(key, rVals);
          goneVals := goneVals + gone;
          if removed {
            goneKeys := goneKeys + {key};
          }
        }
      }
      assert done == keys;
    }

    method AddEntry(key: K, newVals: set<V>) returns (newEntryAdded: bool)
      modifies this
      ensures newEntryAdded == (newVals != {} && key !in old(mMap))
      ensures mMap == Added(old(mMap), {key}, newVals)
    {
      AddedOne(mMap, key, newVals);
      newEntryAdded := false;
      if newVals != {} {
        if key in mMap {
          mMap := mMap[key := mMap[key] + newVals];
        } else {
          assert At(mMap, key) + newVals == newVals;
          mMap := mMap[key := newVals];
          newEntryAdded := true;
        }
      }
    }

    method Add(keys: set<K>, newVals: set<V>) returns (newKeys: set<K>)
      modifies this
      ensures newKeys == if newVals == {} then {} else keys - old(mMap).Keys
      ensures mMap == Added(old(mMap), keys, newVals)
    {
      ghost var m := mMap;
      newKeys := {};
      var todo := keys;
      ghost var done: set<K> := {};
      hide Added;
      AddNone(m, newVals);
      while todo != {}
        invariant todo !! done && todo + done == keys
        invariant mMap == Added(m, done, newVals)
        invariant newKeys == if newVals == {} then {} else done - m.Keys
      {
        var key :| key in todo;
        AddOneMore(m, done, key, newVals);
        var isNew := AddEntry(key, newVals);
        if isNew {
          newKeys := newKeys + {key};
        }
        todo, done := todo - {key}, done + {key};
      }
      assert done == keys;
    }

    /** Documented to return the values the update drops; what it returns are the values it
        keeps. */
    method Update(key: K, newVals: set<V>) returns (goneVals: set<V>, newVals': set<V>)
      modifies this
      ensures mMap == if newVals == {} then old(mMap) - {key} else old(mMap)[key := newVals]
      ensures goneVals == At(old(mMap), key) * newVals
      ensures newVals' == newVals - At(old(mMap), key)
    {
      goneVals, newVals' := {}, newVals;
      if newVals == {} {
        mMap := mMap - {key};
      } else {
        var curVals := At(mMap, key);
        mMap := mMap[key := newVals];
        var left;
        goneVals, left, newVals' := RemoveAndReturnInterset(curVals, newVals);
      }
    }
  }

  lemma AddedOne<K, V>(m: map<K, set<V>>, key: K, vals: set<V>)
    ensures Added(m, {key}, vals) == if vals == {} then m else m[key := At(m, key) + vals]
  {
    if vals != {} {
      assert Added(m, {key}, vals).Keys == m.Keys + {key};
    }
  }

  lemma AddNone<K, V>(m: map<K, set<V>>, vals: set<V>)
    ensures Added(m, {}, vals) == m
  {
  }

  lemma AddOneMore<K, V>(m: map<K, set<V>>, keys: set<K>, key: K, vals: set<V>)
    requires key !in keys
    ensures Added(Added(m, keys, vals), {key}, vals) == Added(m, keys + {key}, vals)
    ensures vals != {} ==> (key in Added(m, keys, vals) <==> key in m)
  {
    if vals != {} {
      assert m.Keys + keys + {key} == m.Keys + (keys + {key});
    }
  }

  lemma TrimNone<K, V>(m: map<K, set<V>>, vals: set<V>)
    ensures Trimmed(m, {}, vals) == m
    ensures GoneKeys(m, {}, vals) == {} && GoneVals(m, {}, vals) == {}
  {
  }

  lemma TrimOneMore<K, V>(m: map<K, set<V>>, keys: set<K>, key: K, vals: set<V>)
    requires key !in keys
    ensures key in Trimmed(m, keys, vals) <==> key in m
    ensures key in m ==> Trimmed(m, keys, vals)[key] == m[key]
    ensures Trimmed(m, keys + {key}, vals) ==
              if key !in m then Trimmed(m, keys, vals)
              else if m[key] <= vals then Trimmed(m, keys, vals) - {key}
              else Trimmed(m, keys, vals)[key := m[key] - vals]
    ensures GoneKeys(m, keys + {key}, vals) ==
              GoneKeys(m, keys, vals) + if key in m && m[key] <= vals then {key} else {}
    ensures GoneVals(m, keys + {key}, vals) ==
              GoneVals(m, keys, vals) + if key in m then m[key] * vals else {}
  {
  }
}
