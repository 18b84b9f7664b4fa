/** `vkb::Map<K, T>`: an `unordered_map` with find-or-emplace and a membership test. */
module UtilMaps {

  class Map<K(==), T> {
    var container: map<K, T>

    constructor ()
      ensures container == map[]
    {
      container := map[];
    }

    /**
     * `find_or_emplace`: inserts `value` only when `key` is absent, and otherwise keeps the
     * existing value even if a different one is passed.
     */
    method FindOrEmplace(key: K, value: T) returns (v: T)
      modifies this
      ensures Contains(key) && v == container[key]
      ensures key in old(container) ==> container == old(container)
      ensures key !in old(container) ==> container == old(container)[key := value]
      ensures |container| <= |old(container)| + 1
    {
      if key !in container {
        container := container[key := value];
        assert container.Keys == old(container).Keys + {key};
      }
      v := container[key];
    }

    /** `contains`: a pure lookup. */
    predicate Contains(key: K)
      reads this
    {
      key in container
    }
  }

  /** A `find_or_emplace` followed by `contains` on the same key always answers true. */
  method FindOrEmplaceThenContains<K(==), T>(m: Map<K, T>, key: K, value: T) returns (found: bool)
    modifies m
    ensures found
  {
    var _ := m.FindOrEmplace(key, value);
    found := m.Contains(key);
  }
}
