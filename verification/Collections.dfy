/** Small facts about finite collections. */
module Collections {
  /** The entries of m whose keys are in keys. */
  function Restrict<V>(m: map<string, V>, keys: set<string>): map<string, V> {
    map k | k in keys && k in m :: m[k]
  }

  /** Two sets are nested, or an element tells them apart. */
  lemma Outside(keys: set<int>, done: set<int>)
    ensures keys <= done || exists n :: n in keys && n !in done
  {
    if forall n :: n in keys ==> n in done {
      assert keys <= done;
    }
  }
}
