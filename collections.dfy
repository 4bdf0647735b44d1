/** Facts about Java maps whose iteration order the JDK leaves open. */
module Collections {

  /** order lists every key of m exactly once: one possible iteration order
      of a HashMap holding m. */
  predicate IsKeyOrder<K, V>(order: seq<K>, m: map<K, V>) {
    && (forall i :: 0 <= i < |order| ==> order[i] in m)
    && (forall k :: k in m ==> k in order)
    && (forall i, j :: 0 <= i < j < |order| ==> order[i] != order[j])
  }
}
