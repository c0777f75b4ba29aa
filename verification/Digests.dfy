/** Hashes as far as identity goes: partial functions that tell their arguments apart, with no more said
    about them than that. */
module Digests {
  import opened Options

  /** `inverse` gets a value back from its digest; a value that cannot be encoded has none. */
  ghost predicate Inverts<V(!new), H(!new)>(inverse: H -> V, digest: V -> Option<H>) {
    forall v :: digest(v).Some? ==> inverse(digest(v).value) == v
  }

  /** Different values have different digests. */
  ghost predicate Injective<V(!new), H(!new)>(digest: V -> Option<H>) {
    exists inverse: H -> V :: Inverts(inverse, digest)
  }
}
