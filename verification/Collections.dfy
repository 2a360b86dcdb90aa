/** Small facts about finite sets and maps that every component uses. */
module Collections {
  /** Any element: for iterations whose order the program does not choose. */
  method PickOne<T>(items: set<T>) returns (item: T)
    requires items != {}
    ensures item in items
  {
    item :| item in items;
  }

  lemma SameMap<K, V>(a: map<K, V>, b: map<K, V>)
    requires forall k | k in a :: k in b && a[k] == b[k]
    requires forall k | k in b :: k in a
    ensures a == b
  {
  }

  lemma SomeOf<T>(s: set<T>) returns (x: T)
    requires s != {}
    ensures x in s
  {
    x :| x in s;
  }
}
