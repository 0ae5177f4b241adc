/** Lists without repetitions, for nodes and for keys. */
module Lists {
  ghost predicate Distinct<A>(xs: seq<A>) { forall i, j | 0 <= i < j < |xs| :: xs[i] != xs[j] }
}
