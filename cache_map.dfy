/** `CacheMap<Key, Value>`: a map whose values are created on demand by a factory. */
module CacheMaps {

  /** Inserting a key grows a map by one exactly when the key was absent. */
  lemma InsertSize<K, V>(m: map<K, V>, k: K, v: V)
    ensures |m[k := v]| == if k in m then |m| else |m| + 1
  {
    if k in m {
      assert m[k := v].Keys == m.Keys;
    } else {
      assert m[k := v].Keys == m.Keys + {k};
    }
  }

  class CacheMap<K(==), V> {
    var container: map<K, V>

    constructor ()
      ensures container == map[]
    {
      container := map[];
    }

    /**
     * `find_or_insert`: returns the value at `key`, calling `create` and inserting its result only
     * when the key is absent. The other entries never change.
     */
    method FindOrInsert(key: K, create: () -> V) returns (v: V)
      modifies this
      ensures key in container && v == container[key]
      ensures key in old(container) ==> container == old(container) && v == old(container)[key]
      ensures key !in old(container) ==> container == old(container)[key := create()]
      ensures |container| == if key in old(container) then |old(container)| else |old(container)| + 1
    {
      InsertSize(container, key, create());
      if key !in container {
        container := container[key := create()];
      }
      v := container[key];
    }

    /**
     * `replace_emplace`: afterwards `key` maps to `value` whether or not it was present (the
     * move-assign branch and the erase-then-emplace branch end in the same state).
     */
    method ReplaceEmplace(key: K, value: V) returns (v: V)
      modifies this
      ensures v == value
      ensures container == old(container)[key := value]
      ensures |container| == if key in old(container) then |old(container)| else |old(container)| + 1
    {
      InsertSize(container, key, value);
      if key !in container {
        container := container[key := value];
      } else {
        var erased := map k | k in container && k != key :: container[k];
        container := erased[key := value];
        assert container == old(container)[key := value];
      }
      v := container[key];
    }

    /** `clear` (inherited from the container wrapper). */
    method Clear()
      modifies this
      ensures container == map[]
    {
      container := map[];
    }
  }
}
