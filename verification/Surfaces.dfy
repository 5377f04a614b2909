/** Evidence from one venue query: what was fetched, what was recognised, and whether it can be trusted. */
module Surfaces {
  import opened Common

  datatype CanonicalSet<F> = CanonicalSet(schemeId: string, schemeVersion: int, fingerprints: set<F>)

  datatype SurfaceEvidence<E, I> = SurfaceEvidence(
    observedNs: int, fetchedCount: int, pageComplete: bool, truncated: bool, unknownCount: int, mismatchCount: int,
    entities: CanonicalSet<E>, identities: CanonicalSet<I>)

  predicate ValidCanonical<F>(c: CanonicalSet<F>) {
    c.schemeId != "" && c.schemeVersion > 0
  }

  /** The first structural complaint about a surface, if there is one. */
  function SurfaceError<E, I>(s: SurfaceEvidence<E, I>, nowNs: int): Option<string> {
    if nowNs < 0 then Some("invalid now_ns")
    else if s.observedNs < 0 then Some("invalid observed_ns")
    else if s.observedNs > nowNs then Some("observed_ns is in the future")
    else if s.fetchedCount < 0 || s.unknownCount < 0 || s.mismatchCount < 0 then Some("invalid count")
    else if !ValidCanonical(s.entities) || !ValidCanonical(s.identities) then Some("invalid canonical set")
    else if s.entities.schemeId == s.identities.schemeId then Some("identity and state schemes must be distinct")
    else if |s.entities.fingerprints| != |s.identities.fingerprints| then Some("identity and state cardinality differ")
    else if s.fetchedCount != |s.entities.fingerprints| + s.unknownCount then
      Some("fetched_count does not match entities")
    else None
  }

  /** Complete, fully known and fresh. */
  predicate Authoritative<E, I>(s: SurfaceEvidence<E, I>, nowNs: int, maxAgeNs: int) {
    && s.pageComplete && !s.truncated
    && s.unknownCount == 0 && s.mismatchCount == 0
    && 0 <= nowNs - s.observedNs <= maxAgeNs
  }
}
