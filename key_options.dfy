// The option check both keyboards' isDown share: every option given must
// equal the recorded key's field of the same name. An option given as
// undefined is present but never equal to a boolean field.
module KeyOptions {
  import opened Wrappers

  /** The recorded key meets every option given; None is an explicit `undefined`. */
  predicate Matches<K, P>(field: (K, P) -> bool, k: K, options: map<P, Option<bool>>)
  {
    forall p :: p in options ==> options[p] == Some(field(k, p))
  }

  /** The for-in loop of isDown: the first option that differs answers false, and running out answers true. */
  method AllMatch<K, P(==)>(field: (K, P) -> bool, k: K, options: map<P, Option<bool>>) returns (r: bool)
    ensures r <==> Matches(field, k, options)
  {
    var remaining := options.Keys;
    while remaining != {}
      invariant remaining <= options.Keys
      invariant forall p :: p in options && p !in remaining ==> options[p] == Some(field(k, p))
      decreases remaining
    {
      var p :| p in remaining;
      if options[p] != Some(field(k, p)) {
        return false;
      }
      remaining := remaining - {p};
    }
    return true;
  }

  /** No options: any recorded key matches. */
  lemma NoOptionsMatch<K, P>(field: (K, P) -> bool, k: K)
    ensures Matches(field, k, map[])
  {
  }

  /** An option given as undefined rejects every key. */
  lemma UndefinedNeverMatches<K, P>(field: (K, P) -> bool, k: K, options: map<P, Option<bool>>, p: P)
    requires p in options && options[p] == None
    ensures !Matches(field, k, options)
  {
  }

  /** Dropping options only widens the keys that match. */
  lemma FewerOptionsMatchMore<K, P>(field: (K, P) -> bool, k: K, options: map<P, Option<bool>>, fewer: map<P, Option<bool>>)
    requires forall p :: p in fewer ==> p in options && fewer[p] == options[p]
    requires Matches(field, k, options)
    ensures Matches(field, k, fewer)
  {
  }
}
