/**
 * `Plot<int64_t>`: a named counter store. Names are `const char *` compared by address, so a
 * name is an opaque pointer id here. The Tracy calls that mirror each update are not modelled.
 */
module Profiling {

  /** The address of the `const char *` naming a plot. */
  type PlotName = nat

  /** The value `plots[name]` reads: a missing entry is value-initialised to 0 by `operator[]`. */
  function ValueIn(plots: map<PlotName, int>, name: PlotName): int {
    if name in plots then plots[name] else 0
  }

  class PlotStore {
    var plots: map<PlotName, int>

    constructor ()
      ensures plots == map[]
    {
      plots := map[];
    }

    function Value(name: PlotName): int
      reads this
    {
      ValueIn(plots, name)
    }

    /** `plot`: `plots[name] = value`. */
    method Plot(name: PlotName, value: int)
      modifies this
      ensures plots == old(plots)[name := value]
    {
      plots := plots[name := value];
    }

    /** `increment`: `plots[name] += amount`, from 0 when absent. */
    method Increment(name: PlotName, amount: int)
      modifies this
      ensures plots == old(plots)[name := ValueIn(old(plots), name) + amount]
    {
      plots := plots[name := ValueIn(plots, name) + amount];
    }

    /** `decrement`: `plots[name] -= amount`, from 0 when absent. */
    method Decrement(name: PlotName, amount: int)
      modifies this
      ensures plots == old(plots)[name := ValueIn(old(plots), name) - amount]
    {
      plots := plots[name := ValueIn(plots, name) - amount];
    }

    /** `reset`: `plots[name] = T{}`, which is 0 for `int64_t`. */
    method Reset(name: PlotName)
      modifies this
      ensures plots == old(plots)[name := 0]
    {
      plots := plots[name := 0];
    }
  }

  /** Every operation touches only its own entry: the other names read as before. */
  lemma UpdateTouchesOnlyItsName(plots: map<PlotName, int>, name: PlotName, v: int, other: PlotName)
    requires other != name
    ensures ValueIn(plots[name := v], other) == ValueIn(plots, other)
    ensures ValueIn(plots[name := v], name) == v
  {
  }

  /** Incrementing and then decrementing by the same amount restores the value read for a name. */
  method IncrementThenDecrement(store: PlotStore, name: PlotName, amount: int)
    modifies store
    ensures store.Value(name) == old(store.Value(name))
    ensures forall n :: n != name ==> store.Value(n) == old(store.Value(n))
    ensures name in store.plots
  {
    store.Increment(name, amount);
    store.Decrement(name, amount);
  }
}
