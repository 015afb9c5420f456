/**
 * Selectors describe workload attributes. A registration entry and a
 * subscriber each carry a raw list of selectors; the cache compares them as
 * sets, so order and duplicates do not matter.
 */
module Selectors {

  /** A selector is a (type, value) pair, e.g. ("unix", "uid:1000"). */
  datatype Selector = Selector(kind: string, value: string)

  /** The set a raw selector list stands for (duplicates collapse, order is lost). */
  function SelectorSet(sels: seq<Selector>): set<Selector>
  {
    set s | s in sels
  }

  /**
   * `superset` covers `subset`: every selector of `subset` occurs in
   * `superset`. A subscriber with selectors `superset` sees an entry with
   * selectors `subset` exactly when this holds.
   */
  predicate Includes(superset: seq<Selector>, subset: seq<Selector>)
  {
    SelectorSet(subset) <= SelectorSet(superset)
  }

  /** Inclusion is total: any selector list covers the empty one. */
  lemma IncludesEmpty(sels: seq<Selector>)
    ensures Includes(sels, [])
  {
  }

  /** Inclusion only depends on the selector sets, not on list order or duplicates. */
  lemma IncludesIgnoresListForm(a: seq<Selector>, a': seq<Selector>, b: seq<Selector>, b': seq<Selector>)
    requires SelectorSet(a) == SelectorSet(a') && SelectorSet(b) == SelectorSet(b')
    ensures Includes(a, b) == Includes(a', b')
  {
  }
}
