/** Startup admission: every reason to stay frozen, collected once, and what the absence of reasons means. */
module Startup {
  import opened Common
  import opened Surfaces
  import Ledger
  import Nonce
  import OrderIdentity

  datatype VenueName = BybitVenue | HyperliquidVenue

  datatype SurfaceName = Orders | Fills | Positions | Balances

  type Surface = SurfaceEvidence<string, string>

  datatype ExpectedSurface = ExpectedSurface(entities: CanonicalSet<string>, identities: CanonicalSet<string>)

  datatype VenueEvidence = VenueEvidence(orders: Surface, fills: Surface, positions: Surface, balances: Surface)

  datatype VenueExpectation = VenueExpectation(
    orders: ExpectedSurface, fills: ExpectedSurface, positions: ExpectedSurface, balances: ExpectedSurface,
    frozenIntents: set<string>, ledger: Option<Ledger.BalanceLedger>)

  /** Both venues, in the order in which their names sort. */
  datatype Both<T> = Both(bybit: T, hyperliquid: T)

  datatype SurfaceFault = Stale | PaginationIncomplete | Truncated | UnknownEntities | Mismatch

  datatype LedgerFault = LedgerUnavailable | LedgerUnknownEntry | LedgerInconsistent

  datatype StateFault =
    | IdentityMismatch | StateMismatch | MissingLocalFill | FillStateMismatch
    | BalanceIdentityMismatch | BalanceStateMismatch | LedgerCoverageMismatch

  datatype Reason =
    | NonceFrozen(frozen: Nonce.NonceReason)
    | NonceConflict(conflict: Nonce.ChainConflict)
    | PreviousFreeze
    | FrozenIntent(venue: VenueName)
    | SurfaceReason(venue: VenueName, surface: SurfaceName, fault: SurfaceFault)
    | LedgerReason(venue: VenueName, ledgerFault: LedgerFault)
    | StateReason(venue: VenueName, surface: SurfaceName, stateFault: StateFault)

  // ---------- structure ----------

  predicate ValidExpected(x: ExpectedSurface) {
    && ValidCanonical(x.entities) && ValidCanonical(x.identities)
    && x.entities.schemeId != x.identities.schemeId
    && |x.entities.fingerprints| == |x.identities.fingerprints|
  }

  predicate SameContract(a: CanonicalSet<string>, b: CanonicalSet<string>) {
    a.schemeId == b.schemeId && a.schemeVersion == b.schemeVersion
  }

  predicate ValidPair(s: Surface, x: ExpectedSurface, nowNs: int) {
    && SurfaceError(s, nowNs).None? && ValidExpected(x)
    && SameContract(s.entities, x.entities) && SameContract(s.identities, x.identities)
    && "" !in s.entities.fingerprints && "" !in s.identities.fingerprints
    && "" !in x.entities.fingerprints && "" !in x.identities.fingerprints
  }

  predicate ValidPairs(e: VenueEvidence, x: VenueExpectation, nowNs: int) {
    && ValidPair(e.orders, x.orders, nowNs) && ValidPair(e.fills, x.fills, nowNs)
    && ValidPair(e.positions, x.positions, nowNs) && ValidPair(e.balances, x.balances, nowNs)
    && "" !in x.frozenIntents
  }

  ghost predicate ValidVenue(e: VenueEvidence, x: VenueExpectation, nowNs: int) {
    ValidPairs(e, x, nowNs) && (x.ledger.Some? ==> Ledger.ValidLedger(x.ledger.value))
  }

  ghost predicate ValidVenues(venues: Both<VenueEvidence>, expectations: Both<VenueExpectation>, nowNs: int) {
    && nowNs >= 0
    && ValidVenue(venues.bybit, expectations.bybit, nowNs)
    && ValidVenue(venues.hyperliquid, expectations.hyperliquid, nowNs)
  }

  function VenueOf<T>(both: Both<T>, v: VenueName): T {
    if v.BybitVenue? then both.bybit else both.hyperliquid
  }

  function SurfaceOf(e: VenueEvidence, n: SurfaceName): Surface {
    match n
    case Orders => e.orders
    case Fills => e.fills
    case Positions => e.positions
    case Balances => e.balances
  }

  function ExpectedOf(x: VenueExpectation, n: SurfaceName): ExpectedSurface {
    match n
    case Orders => x.orders
    case Fills => x.fills
    case Positions => x.positions
    case Balances => x.balances
  }

  /** A surface that counts what it holds, was observed by now, and names its two sets by different schemes. */
  predicate Structured(s: Surface, nowNs: int) {
    && 0 <= s.observedNs <= nowNs
    && s.unknownCount >= 0 && s.mismatchCount >= 0
    && s.fetchedCount == |s.entities.fingerprints| + s.unknownCount
    && |s.entities.fingerprints| == |s.identities.fingerprints|
    && s.entities.schemeId != "" && s.identities.schemeId != "" && s.entities.schemeId != s.identities.schemeId
    && s.entities.schemeVersion >= 1 && s.identities.schemeVersion >= 1
  }

  /** Both sides hold nonempty fingerprints of the same schemes and versions, as many entities as identities. */
  predicate Comparable(s: Surface, x: ExpectedSurface) {
    && x.entities.schemeId == s.entities.schemeId && x.identities.schemeId == s.identities.schemeId
    && x.entities.schemeVersion == s.entities.schemeVersion
    && x.identities.schemeVersion == s.identities.schemeVersion
    && |x.entities.fingerprints| == |x.identities.fingerprints|
    && (forall f :: f in s.entities.fingerprints + s.identities.fingerprints ==> f != "")
    && (forall f :: f in x.entities.fingerprints + x.identities.fingerprints ==> f != "")
  }

  /** What the inputs must satisfy, surface by surface. */
  ghost predicate WellStructured(venues: Both<VenueEvidence>, x: Both<VenueExpectation>, nowNs: int) {
    && nowNs >= 0
    && (forall v: VenueName, n: SurfaceName ::
          Structured(SurfaceOf(VenueOf(venues, v), n), nowNs)
          && Comparable(SurfaceOf(VenueOf(venues, v), n), ExpectedOf(VenueOf(x, v), n)))
    && (forall v: VenueName, intent :: intent in VenueOf(x, v).frozenIntents ==> intent != "")
    && (forall v: VenueName :: VenueOf(x, v).ledger.Some? ==> Ledger.ValidLedger(VenueOf(x, v).ledger.value))
  }

  lemma PairIff(s: Surface, x: ExpectedSurface, nowNs: int)
    requires nowNs >= 0
    ensures ValidPair(s, x, nowNs) <==> Structured(s, nowNs) && Comparable(s, x)
  {
    var ours, theirs := s.entities.fingerprints + s.identities.fingerprints,
                        x.entities.fingerprints + x.identities.fingerprints;
    assert "" !in ours <==> "" !in s.entities.fingerprints && "" !in s.identities.fingerprints;
    assert "" !in theirs <==> "" !in x.entities.fingerprints && "" !in x.identities.fingerprints;
  }

  lemma VenueIff(venues: Both<VenueEvidence>, x: Both<VenueExpectation>, v: VenueName, nowNs: int)
    requires nowNs >= 0
    ensures ValidVenue(VenueOf(venues, v), VenueOf(x, v), nowNs) <==>
            && (forall n: SurfaceName ::
                  Structured(SurfaceOf(VenueOf(venues, v), n), nowNs)
                  && Comparable(SurfaceOf(VenueOf(venues, v), n), ExpectedOf(VenueOf(x, v), n)))
            && (forall intent :: intent in VenueOf(x, v).frozenIntents ==> intent != "")
            && (VenueOf(x, v).ledger.Some? ==> Ledger.ValidLedger(VenueOf(x, v).ledger.value))
  {
    var e, y := VenueOf(venues, v), VenueOf(x, v);
    PairIff(e.orders, y.orders, nowNs);
    PairIff(e.fills, y.fills, nowNs);
    PairIff(e.positions, y.positions, nowNs);
    PairIff(e.balances, y.balances, nowNs);
    assert SurfaceOf(e, Orders) == e.orders && ExpectedOf(y, Orders) == y.orders;
    assert SurfaceOf(e, Fills) == e.fills && ExpectedOf(y, Fills) == y.fills;
    assert SurfaceOf(e, Positions) == e.positions && ExpectedOf(y, Positions) == y.positions;
    assert SurfaceOf(e, Balances) == e.balances && ExpectedOf(y, Balances) == y.balances;
  }

  lemma VenuesIff(venues: Both<VenueEvidence>, x: Both<VenueExpectation>, nowNs: int)
    ensures ValidVenues(venues, x, nowNs) <==> WellStructured(venues, x, nowNs)
  {
    if nowNs >= 0 {
      VenueIff(venues, x, BybitVenue, nowNs);
      VenueIff(venues, x, HyperliquidVenue, nowNs);
      assert VenueOf(venues, BybitVenue) == venues.bybit && VenueOf(x, BybitVenue) == x.bybit;
      assert VenueOf(venues, HyperliquidVenue) == venues.hyperliquid && VenueOf(x, HyperliquidVenue) == x.hyperliquid;
    }
  }

  method ValidateVenue(e: VenueEvidence, x: VenueExpectation, nowNs: int) returns (ok: bool)
    ensures ok <==> ValidVenue(e, x, nowNs)
  {
    ok := ValidPairs(e, x, nowNs);
    if ok && x.ledger.Some? {
      ok := Ledger.ValidateBalanceLedger(x.ledger.value);
    }
  }

  method ValidateVenues(venues: Both<VenueEvidence>, expectations: Both<VenueExpectation>, nowNs: int)
    returns (ok: bool)
    ensures ok <==> ValidVenues(venues, expectations, nowNs)
    ensures ok <==> WellStructured(venues, expectations, nowNs)
  {
    VenuesIff(venues, expectations, nowNs);
    var bybit := ValidateVenue(venues.bybit, expectations.bybit, nowNs);
    var hyperliquid := ValidateVenue(venues.hyperliquid, expectations.hyperliquid, nowNs);
    return nowNs >= 0 && bybit && hyperliquid;
  }

  // ---------- reasons ----------

  type Check = (bool, Reason)

  /** The reasons whose condition holds, in order. */
  function Reported(checks: seq<Check>): seq<Reason> {
    if checks == [] then [] else (if checks[0].0 then [checks[0].1] else []) + Reported(checks[1..])
  }

  function SurfaceChecks(v: VenueName, n: SurfaceName, s: Surface, startedNs: int): seq<Check> {
    [(s.observedNs <= startedNs, SurfaceReason(v, n, Stale)),
     (!s.pageComplete, SurfaceReason(v, n, PaginationIncomplete)),
     (s.truncated, SurfaceReason(v, n, Truncated)),
     (s.unknownCount != 0, SurfaceReason(v, n, UnknownEntities)),
     (s.mismatchCount != 0, SurfaceReason(v, n, Mismatch))]
  }

  function SurfaceReasons(v: VenueName, n: SurfaceName, s: Surface, startedNs: int): seq<Reason> {
    Reported(SurfaceChecks(v, n, s, startedNs))
  }

  function Concat(parts: seq<seq<Reason>>): seq<Reason> {
    if parts == [] then [] else parts[0] + Concat(parts[1..])
  }

  function SurfaceParts(v: VenueName, e: VenueEvidence, startedNs: int): seq<seq<Reason>> {
    [SurfaceReasons(v, Orders, e.orders, startedNs), SurfaceReasons(v, Fills, e.fills, startedNs),
     SurfaceReasons(v, Positions, e.positions, startedNs), SurfaceReasons(v, Balances, e.balances, startedNs)]
  }

  function VenueSurfaceReasons(v: VenueName, e: VenueEvidence, startedNs: int): seq<Reason> {
    Concat(SurfaceParts(v, e, startedNs))
  }

  function LedgerChecks(v: VenueName, x: VenueExpectation): seq<Check> {
    [(x.ledger.None?, LedgerReason(v, LedgerUnavailable)),
     (x.ledger.Some? && x.ledger.value.unknown != {}, LedgerReason(v, LedgerUnknownEntry)),
     (x.ledger.Some? && !x.ledger.value.selfConsistent, LedgerReason(v, LedgerInconsistent))]
  }

  function LedgerReasons(v: VenueName, x: VenueExpectation): seq<Reason> {
    Reported(LedgerChecks(v, x))
  }

  predicate SameIdentities(s: Surface, x: ExpectedSurface) {
    s.identities.fingerprints == x.identities.fingerprints
  }

  predicate SameEntities(s: Surface, x: ExpectedSurface) {
    s.entities.fingerprints == x.entities.fingerprints
  }

  predicate LedgerCovers(e: VenueEvidence, x: VenueExpectation) {
    x.ledger.Some? ==> x.ledger.value.endNs == e.balances.observedNs
  }

  /** The venue may know more fills than were expected locally; every other surface must match exactly. */
  function StateChecks(v: VenueName, e: VenueEvidence, x: VenueExpectation): seq<Check> {
    var fillIdentities := x.fills.identities.fingerprints <= e.fills.identities.fingerprints;
    var fillEntities := x.fills.entities.fingerprints <= e.fills.entities.fingerprints;
    [(!SameIdentities(e.orders, x.orders), StateReason(v, Orders, IdentityMismatch)),
     (SameIdentities(e.orders, x.orders) && !SameEntities(e.orders, x.orders), StateReason(v, Orders, StateMismatch)),
     (!SameIdentities(e.positions, x.positions), StateReason(v, Positions, IdentityMismatch)),
     (SameIdentities(e.positions, x.positions) && !SameEntities(e.positions, x.positions),
      StateReason(v, Positions, StateMismatch)),
     (!fillIdentities, StateReason(v, Fills, MissingLocalFill)),
     (fillIdentities && !fillEntities, StateReason(v, Fills, FillStateMismatch)),
     (!SameIdentities(e.balances, x.balances), StateReason(v, Balances, BalanceIdentityMismatch)),
     (SameIdentities(e.balances, x.balances) && !SameEntities(e.balances, x.balances),
      StateReason(v, Balances, BalanceStateMismatch)),
     (!LedgerCovers(e, x), StateReason(v, Balances, LedgerCoverageMismatch))]
  }

  function StateReasons(v: VenueName, e: VenueEvidence, x: VenueExpectation): seq<Reason> {
    Reported(StateChecks(v, e, x))
  }

  function NonceReasons(frozen: Option<Nonce.NonceReason>, conflict: Option<Nonce.ChainConflict>): seq<Reason> {
    (if frozen.Some? then [NonceFrozen(frozen.value)] else [])
    + (if conflict.Some? then [NonceConflict(conflict.value)] else [])
  }

  // ---------- the decision ----------

  datatype Action = Ready | CancelOnlyFreeze

  /** The reasons sort into one order, so a set says as much as the sorted tuple. */
  datatype Decision = Decision(action: Action, reasons: set<Reason>)

  ghost predicate NoRepeats(reasons: seq<Reason>) {
    forall i, j :: 0 <= i < j < |reasons| ==> reasons[i] != reasons[j]
  }

  function Members(reasons: seq<Reason>): set<Reason> {
    set r | r in reasons
  }

  /** Building a decision fails when a reason is repeated. */
  function BuildDecision(reasons: seq<Reason>): Result<Decision> {
    if |Members(reasons)| != |reasons| then Failure("admission reasons are not canonical")
    else Success(Decision(if reasons == [] then Ready else CancelOnlyFreeze, Members(reasons)))
  }

  function FrozenReasons(x: Both<VenueExpectation>): seq<Reason> {
    Reported([(x.bybit.frozenIntents != {}, FrozenIntent(BybitVenue)),
              (x.hyperliquid.frozenIntents != {}, FrozenIntent(HyperliquidVenue))])
  }

  function AllSurfaceReasons(venues: Both<VenueEvidence>, startedNs: int): seq<Reason> {
    VenueSurfaceReasons(BybitVenue, venues.bybit, startedNs)
    + VenueSurfaceReasons(HyperliquidVenue, venues.hyperliquid, startedNs)
  }

  function AllLedgerReasons(x: Both<VenueExpectation>): seq<Reason> {
    LedgerReasons(BybitVenue, x.bybit) + LedgerReasons(HyperliquidVenue, x.hyperliquid)
  }

  function AllStateReasons(venues: Both<VenueEvidence>, x: Both<VenueExpectation>): seq<Reason> {
    StateReasons(BybitVenue, venues.bybit, x.bybit) + StateReasons(HyperliquidVenue, venues.hyperliquid, x.hyperliquid)
  }

  /** The first kind of reason found stops the collection of the later kinds. */
  function GateReasons(venues: Both<VenueEvidence>, x: Both<VenueExpectation>, startedNs: int): seq<Reason> {
    if FrozenReasons(x) != [] then FrozenReasons(x)
    else if AllSurfaceReasons(venues, startedNs) != [] then AllSurfaceReasons(venues, startedNs)
    else if AllLedgerReasons(x) != [] then AllLedgerReasons(x)
    else AllStateReasons(venues, x)
  }

  function CollectedReasons(venues: Both<VenueEvidence>, x: Both<VenueExpectation>, startedNs: int,
                            frozen: Option<Nonce.NonceReason>, conflict: Option<Nonce.ChainConflict>,
                            previousFreeze: bool): seq<Reason> {
    NonceReasons(frozen, conflict) + Reported([(previousFreeze, PreviousFreeze)]) + GateReasons(venues, x, startedNs)
  }

  // ---------- the consistency classifier ----------

  predicate VenueAuthoritative(e: VenueEvidence, nowNs: int, maxAgeNs: int) {
    && Authoritative(e.orders, nowNs, maxAgeNs) && Authoritative(e.fills, nowNs, maxAgeNs)
    && Authoritative(e.positions, nowNs, maxAgeNs) && Authoritative(e.balances, nowNs, maxAgeNs)
  }

  predicate LedgerClean(x: VenueExpectation) {
    x.ledger.Some? && x.ledger.value.unknown == {} && x.ledger.value.selfConsistent
  }

  /** Nothing when the evidence is no input to a streak; otherwise whether both sides agree. */
  function Consistency(nowNs: int, maxAgeNs: int, venues: Both<VenueEvidence>, x: Both<VenueExpectation>)
    : Option<bool>
  {
    if !VenueAuthoritative(venues.bybit, nowNs, maxAgeNs) then None
    else if !VenueAuthoritative(venues.hyperliquid, nowNs, maxAgeNs) then None
    else if !LedgerClean(x.bybit) || !LedgerClean(x.hyperliquid) then None
    else Some(AllStateReasons(venues, x) == [])
  }

  /**
   * Every set that must match matches, no expected fill is missing, and the ledger ends where the balances were read.
   */
  predicate Agrees(e: VenueEvidence, x: VenueExpectation) {
    && SameIdentities(e.orders, x.orders) && SameEntities(e.orders, x.orders)
    && SameIdentities(e.positions, x.positions) && SameEntities(e.positions, x.positions)
    && SameIdentities(e.balances, x.balances) && SameEntities(e.balances, x.balances)
    && x.fills.identities.fingerprints <= e.fills.identities.fingerprints
    && x.fills.entities.fingerprints <= e.fills.entities.fingerprints
    && (x.ledger.Some? ==> x.ledger.value.endNs == e.balances.observedNs)
  }

  lemma CleanState(v: VenueName, e: VenueEvidence, x: VenueExpectation)
    ensures StateReasons(v, e, x) == [] <==> Agrees(e, x)
  {
    var checks := StateChecks(v, e, x);
    NothingReported(checks);
    assert (forall i :: 0 <= i < |checks| ==> !checks[i].0) <==>
           && !checks[0].0 && !checks[1].0 && !checks[2].0 && !checks[3].0 && !checks[4].0
           && !checks[5].0 && !checks[6].0 && !checks[7].0 && !checks[8].0;
  }

  /** Complete, without unknown or contradicting rows, and observed by now but no longer ago than allowed. */
  predicate Trusted(s: Surface, nowNs: int, maxAgeNs: int) {
    && s.pageComplete && !s.truncated && s.unknownCount == 0 && s.mismatchCount == 0
    && s.observedNs <= nowNs <= s.observedNs + maxAgeNs
  }

  predicate BothUsable(nowNs: int, maxAgeNs: int, venues: Both<VenueEvidence>, x: Both<VenueExpectation>) {
    && (forall v: VenueName, n: SurfaceName :: Trusted(SurfaceOf(VenueOf(venues, v), n), nowNs, maxAgeNs))
    && forall v: VenueName ::
         VenueOf(x, v).ledger.Some? && VenueOf(x, v).ledger.value.unknown == {}
         && VenueOf(x, v).ledger.value.selfConsistent
  }

  lemma UsableVenue(venues: Both<VenueEvidence>, v: VenueName, nowNs: int, maxAgeNs: int)
    ensures VenueAuthoritative(VenueOf(venues, v), nowNs, maxAgeNs) <==>
            forall n: SurfaceName :: Trusted(SurfaceOf(VenueOf(venues, v), n), nowNs, maxAgeNs)
  {
    var e := VenueOf(venues, v);
    assert SurfaceOf(e, Orders) == e.orders && SurfaceOf(e, Fills) == e.fills;
    assert SurfaceOf(e, Positions) == e.positions && SurfaceOf(e, Balances) == e.balances;
  }

  lemma UsableIff(nowNs: int, maxAgeNs: int, venues: Both<VenueEvidence>, x: Both<VenueExpectation>)
    ensures BothUsable(nowNs, maxAgeNs, venues, x) <==>
            && VenueAuthoritative(venues.bybit, nowNs, maxAgeNs)
            && VenueAuthoritative(venues.hyperliquid, nowNs, maxAgeNs)
            && LedgerClean(x.bybit) && LedgerClean(x.hyperliquid)
  {
    UsableVenue(venues, BybitVenue, nowNs, maxAgeNs);
    UsableVenue(venues, HyperliquidVenue, nowNs, maxAgeNs);
    assert VenueOf(x, BybitVenue) == x.bybit && VenueOf(x, HyperliquidVenue) == x.hyperliquid;
  }

  /**
   * The classifier answers true if and only if every surface is authoritative, both ledgers are clean and end at the
   * time of the balances, orders, positions and balances agree in identities and entities, and no expected fill is
   * unknown to its venue. It answers false if and only if the evidence is as usable but some of that differs.
   */
  lemma ConsistencyMeans(nowNs: int, maxAgeNs: int, venues: Both<VenueEvidence>, x: Both<VenueExpectation>)
    ensures var agree := Agrees(venues.bybit, x.bybit) && Agrees(venues.hyperliquid, x.hyperliquid);
            && (Consistency(nowNs, maxAgeNs, venues, x) == Some(true) <==>
                 BothUsable(nowNs, maxAgeNs, venues, x) && agree)
            && (Consistency(nowNs, maxAgeNs, venues, x) == Some(false) <==>
                 BothUsable(nowNs, maxAgeNs, venues, x) && !agree)
  {
    UsableIff(nowNs, maxAgeNs, venues, x);
    CleanState(BybitVenue, venues.bybit, x.bybit);
    CleanState(HyperliquidVenue, venues.hyperliquid, x.hyperliquid);
    BothEmpty(StateReasons(BybitVenue, venues.bybit, x.bybit),
              StateReasons(HyperliquidVenue, venues.hyperliquid, x.hyperliquid));
  }

  /** The classifier fails on its inputs alone; otherwise it answers by what the evidence says. */
  method ClassifyReconciliationConsistency(nowNs: int, maxAgeNs: int, venues: Both<VenueEvidence>,
                                           x: Both<VenueExpectation>)
    returns (r: Result<Option<bool>>)
    ensures r.Success? <==> maxAgeNs >= 0 && ValidVenues(venues, x, nowNs)
    ensures r.Success? ==> (r.value.Some? <==> BothUsable(nowNs, maxAgeNs, venues, x))
    ensures r.Success? && r.value.Some? ==>
              (r.value.value <==> Agrees(venues.bybit, x.bybit) && Agrees(venues.hyperliquid, x.hyperliquid))
  {
    var ok := ValidateVenues(venues, x, nowNs);
    if maxAgeNs < 0 || !ok {
      return Failure("invalid consistency inputs");
    }
    ConsistencyMeans(nowNs, maxAgeNs, venues, x);
    return Success(Consistency(nowNs, maxAgeNs, venues, x));
  }

  // ---------- no reason is collected twice ----------

  function VenueRank(v: VenueName): nat {
    if v.BybitVenue? then 0 else 1
  }

  function SurfaceRank(n: SurfaceName): nat {
    match n
    case Orders => 0
    case Fills => 1
    case Positions => 2
    case Balances => 3
  }

  function FaultRank(f: SurfaceFault): nat {
    match f
    case Stale => 0
    case PaginationIncomplete => 1
    case Truncated => 2
    case UnknownEntities => 3
    case Mismatch => 4
  }

  function LedgerFaultRank(f: LedgerFault): nat {
    match f
    case LedgerUnavailable => 0
    case LedgerUnknownEntry => 1
    case LedgerInconsistent => 2
  }

  /** Where a state reason stands among those of its venue. */
  function StateFaultRank(n: SurfaceName, f: StateFault): nat {
    match f
    case IdentityMismatch => if n.Orders? then 0 else 2
    case StateMismatch => if n.Orders? then 1 else 3
    case MissingLocalFill => 4
    case FillStateMismatch => 5
    case BalanceIdentityMismatch => 6
    case BalanceStateMismatch => 7
    case LedgerCoverageMismatch => 8
  }

  /** Where a reason stands in the order of collection. */
  function Rank(r: Reason): nat {
    match r
    case NonceFrozen(_) => 0
    case NonceConflict(_) => 1
    case PreviousFreeze => 2
    case FrozenIntent(v) => 3 + VenueRank(v)
    case SurfaceReason(v, n, f) => 10 + 20 * VenueRank(v) + 5 * SurfaceRank(n) + FaultRank(f)
    case LedgerReason(v, f) => 60 + 3 * VenueRank(v) + LedgerFaultRank(f)
    case StateReason(v, n, f) => 70 + 9 * VenueRank(v) + StateFaultRank(n, f)
  }

  /** Ranks lie in the range and strictly increase. */
  ghost predicate Ranked(reasons: seq<Reason>, lo: nat, hi: nat) {
    if reasons == [] then lo <= hi else lo <= Rank(reasons[0]) < hi && Ranked(reasons[1..], Rank(reasons[0]) + 1, hi)
  }

  lemma {:induction false} Widen(a: seq<Reason>, lo: nat, hi: nat, lower: nat, higher: nat)
    requires Ranked(a, lo, hi) && lower <= lo && hi <= higher
    ensures Ranked(a, lower, higher)
  {
    if a != [] {
      Widen(a[1..], Rank(a[0]) + 1, hi, Rank(a[0]) + 1, higher);
    }
  }

  lemma {:induction false} Join(a: seq<Reason>, b: seq<Reason>, lo: nat, mid: nat, hi: nat)
    requires Ranked(a, lo, mid) && Ranked(b, mid, hi) && lo <= mid
    ensures Ranked(a + b, lo, hi)
  {
    if a == [] {
      assert a + b == b;
      Widen(b, mid, hi, lo, hi);
    } else {
      assert (a + b)[1..] == a[1..] + b;
      RankedRange(a[1..], Rank(a[0]) + 1, mid);
      RankedRange(b, mid, hi);
      Join(a[1..], b, Rank(a[0]) + 1, mid, hi);
    }
  }

  lemma {:induction false} RankedRange(a: seq<Reason>, lo: nat, hi: nat)
    requires Ranked(a, lo, hi)
    ensures lo <= hi
  {
    if a != [] {
      RankedRange(a[1..], Rank(a[0]) + 1, hi);
    }
  }

  /** The i-th check carries the i-th rank from lo on. */
  ghost predicate Rising(checks: seq<Check>, lo: nat) {
    forall i :: 0 <= i < |checks| ==> Rank(checks[i].1) == lo + i
  }

  lemma ConsRanked(r: Reason, rest: seq<Reason>, lo: nat, hi: nat)
    requires Rank(r) == lo < hi && Ranked(rest, lo + 1, hi)
    ensures Ranked([r] + rest, lo, hi)
  {
    assert ([r] + rest)[1..] == rest;
  }

  lemma RisingTail(checks: seq<Check>, lo: nat)
    requires Rising(checks, lo) && checks != []
    ensures Rising(checks[1..], lo + 1) && Rank(checks[0].1) == lo
  {
    forall i | 0 <= i < |checks[1..]|
      ensures Rank(checks[1..][i].1) == lo + 1 + i
    {
      var j := i + 1;
      assert checks[1..][i] == checks[j] && Rank(checks[j].1) == lo + j;
    }
  }

  lemma {:induction false} ReportedRanked(checks: seq<Check>, lo: nat)
    requires Rising(checks, lo)
    ensures Ranked(Reported(checks), lo, lo + |checks|)
  {
    if checks != [] {
      var rest := Reported(checks[1..]);
      RisingTail(checks, lo);
      ReportedRanked(checks[1..], lo + 1);
      if checks[0].0 {
        ConsRanked(checks[0].1, rest, lo, lo + |checks|);
      } else {
        Widen(rest, lo + 1, lo + |checks|, lo, lo + |checks|);
        assert [] + rest == rest;
      }
    }
  }

  lemma {:induction false} NothingReported(checks: seq<Check>)
    ensures Reported(checks) == [] <==> forall i :: 0 <= i < |checks| ==> !checks[i].0
  {
    if checks != [] {
      var rest := checks[1..];
      NothingReported(rest);
      assert forall i :: 0 < i < |checks| ==> checks[i] == rest[i - 1];
      assert forall i :: 0 <= i < |rest| ==> rest[i] == checks[i + 1];
    }
  }

  lemma {:induction false} RankedMembers(reasons: seq<Reason>, lo: nat, hi: nat)
    requires Ranked(reasons, lo, hi)
    ensures forall r :: r in reasons ==> lo <= Rank(r)
    ensures |Members(reasons)| == |reasons| && NoRepeats(reasons)
  {
    if reasons == [] {
      assert Members(reasons) == {};
    } else {
      var first, rest := reasons[0], reasons[1..];
      RankedMembers(rest, Rank(first) + 1, hi);
      assert reasons == [first] + rest;
      assert first !in Members(rest);
      assert Members(reasons) == Members(rest) + {first};
      forall i, j | 0 <= i < j < |reasons|
        ensures reasons[i] != reasons[j]
      {
        assert reasons[j] == rest[j - 1];
        if i > 0 {
          assert reasons[i] == rest[i - 1];
        }
      }
    }
  }

  lemma SurfaceRanked(v: VenueName, n: SurfaceName, s: Surface, startedNs: int)
    ensures var base := 10 + 20 * VenueRank(v) + 5 * SurfaceRank(n);
            Ranked(SurfaceReasons(v, n, s, startedNs), base, base + 5)
  {
    ReportedRanked(SurfaceChecks(v, n, s, startedNs), 10 + 20 * VenueRank(v) + 5 * SurfaceRank(n));
  }

  lemma ConcatFour(a: seq<Reason>, b: seq<Reason>, c: seq<Reason>, d: seq<Reason>)
    ensures Concat([a, b, c, d]) == a + (b + (c + d))
  {
    assert [a, b, c, d][1..] == [b, c, d] && [b, c, d][1..] == [c, d] && [c, d][1..] == [d] && [d][1..] == [];
    assert Concat([d]) == d + [] == d;
    assert Concat([c, d]) == c + d;
    assert Concat([b, c, d]) == b + (c + d);
  }

  lemma FourPartsRanked(a: seq<Reason>, b: seq<Reason>, c: seq<Reason>, d: seq<Reason>, lo: nat)
    requires Ranked(a, lo, lo + 5) && Ranked(b, lo + 5, lo + 10) && Ranked(c, lo + 10, lo + 15)
             && Ranked(d, lo + 15, lo + 20)
    ensures Ranked(Concat([a, b, c, d]), lo, lo + 20)
  {
    Join(c, d, lo + 10, lo + 15, lo + 20);
    Join(b, c + d, lo + 5, lo + 10, lo + 20);
    Join(a, b + (c + d), lo, lo + 5, lo + 20);
    ConcatFour(a, b, c, d);
  }

  lemma VenueSurfacesRanked(v: VenueName, e: VenueEvidence, startedNs: int)
    ensures var base := 10 + 20 * VenueRank(v); Ranked(VenueSurfaceReasons(v, e, startedNs), base, base + 20)
  {
    SurfaceRanked(v, Orders, e.orders, startedNs);
    SurfaceRanked(v, Fills, e.fills, startedNs);
    SurfaceRanked(v, Positions, e.positions, startedNs);
    SurfaceRanked(v, Balances, e.balances, startedNs);
    var parts := SurfaceParts(v, e, startedNs);
    FourPartsRanked(parts[0], parts[1], parts[2], parts[3], 10 + 20 * VenueRank(v));
  }

  lemma LedgerRanked(v: VenueName, x: VenueExpectation)
    ensures var base := 60 + 3 * VenueRank(v); Ranked(LedgerReasons(v, x), base, base + 3)
  {
    ReportedRanked(LedgerChecks(v, x), 60 + 3 * VenueRank(v));
  }

  lemma StatesRanked(v: VenueName, e: VenueEvidence, x: VenueExpectation)
    ensures var base := 70 + 9 * VenueRank(v); Ranked(StateReasons(v, e, x), base, base + 9)
  {
    ReportedRanked(StateChecks(v, e, x), 70 + 9 * VenueRank(v));
  }

  lemma FrozenRanked(x: Both<VenueExpectation>)
    ensures Ranked(FrozenReasons(x), 3, 5)
  {
    ReportedRanked([(x.bybit.frozenIntents != {}, FrozenIntent(BybitVenue)),
                    (x.hyperliquid.frozenIntents != {}, FrozenIntent(HyperliquidVenue))], 3);
  }

  lemma AllSurfacesRanked(venues: Both<VenueEvidence>, startedNs: int)
    ensures Ranked(AllSurfaceReasons(venues, startedNs), 10, 50)
  {
    VenueSurfacesRanked(BybitVenue, venues.bybit, startedNs);
    VenueSurfacesRanked(HyperliquidVenue, venues.hyperliquid, startedNs);
    Join(VenueSurfaceReasons(BybitVenue, venues.bybit, startedNs),
         VenueSurfaceReasons(HyperliquidVenue, venues.hyperliquid, startedNs), 10, 30, 50);
  }

  lemma AllLedgersRanked(x: Both<VenueExpectation>)
    ensures Ranked(AllLedgerReasons(x), 60, 66)
  {
    LedgerRanked(BybitVenue, x.bybit);
    LedgerRanked(HyperliquidVenue, x.hyperliquid);
    Join(LedgerReasons(BybitVenue, x.bybit), LedgerReasons(HyperliquidVenue, x.hyperliquid), 60, 63, 66);
  }

  lemma AllStatesRanked(venues: Both<VenueEvidence>, x: Both<VenueExpectation>)
    ensures Ranked(AllStateReasons(venues, x), 70, 88)
  {
    StatesRanked(BybitVenue, venues.bybit, x.bybit);
    StatesRanked(HyperliquidVenue, venues.hyperliquid, x.hyperliquid);
    Join(StateReasons(BybitVenue, venues.bybit, x.bybit), StateReasons(HyperliquidVenue, venues.hyperliquid,
        x.hyperliquid), 70, 79, 88);
  }

  lemma GateRanked(venues: Both<VenueEvidence>, x: Both<VenueExpectation>, startedNs: int)
    ensures Ranked(GateReasons(venues, x, startedNs), 3, 88)
  {
    FrozenRanked(x);
    AllSurfacesRanked(venues, startedNs);
    AllLedgersRanked(x);
    AllStatesRanked(venues, x);
    if FrozenReasons(x) != [] {
      Widen(FrozenReasons(x), 3, 5, 3, 88);
    } else if AllSurfaceReasons(venues, startedNs) != [] {
      Widen(AllSurfaceReasons(venues, startedNs), 10, 50, 3, 88);
    } else if AllLedgerReasons(x) != [] {
      Widen(AllLedgerReasons(x), 60, 66, 3, 88);
    } else {
      Widen(AllStateReasons(venues, x), 70, 88, 3, 88);
    }
  }

  lemma NonceRanked(frozen: Option<Nonce.NonceReason>, conflict: Option<Nonce.ChainConflict>)
    ensures Ranked(NonceReasons(frozen, conflict), 0, 2)
  {
    var a := if frozen.Some? then [NonceFrozen(frozen.value)] else [];
    var b := if conflict.Some? then [NonceConflict(conflict.value)] else [];
    assert a[..0] == [] && (a != [] ==> a[1..] == []) && (b != [] ==> b[1..] == []);
    Join(a, b, 0, 1, 2);
  }

  /** Whatever the inputs, the collected reasons never repeat, so the decision can always be built. */
  lemma DecisionAlwaysBuilds(venues: Both<VenueEvidence>, x: Both<VenueExpectation>, startedNs: int,
                             frozen: Option<Nonce.NonceReason>, conflict: Option<Nonce.ChainConflict>,
                             previousFreeze: bool)
    ensures var reasons := CollectedReasons(venues, x, startedNs, frozen, conflict, previousFreeze);
            && NoRepeats(reasons)
            && BuildDecision(reasons)
            == Success(Decision(if reasons == [] then Ready else CancelOnlyFreeze, Members(reasons)))
  {
    var previous := Reported([(previousFreeze, PreviousFreeze)]);
    NonceRanked(frozen, conflict);
    ReportedRanked([(previousFreeze, PreviousFreeze)], 2);
    GateRanked(venues, x, startedNs);
    Join(NonceReasons(frozen, conflict), previous, 0, 2, 3);
    Join(NonceReasons(frozen, conflict) + previous, GateReasons(venues, x, startedNs), 0, 3, 88);
    RankedMembers(CollectedReasons(venues, x, startedNs, frozen, conflict, previousFreeze), 0, 88);
  }

  // ---------- what readiness means ----------

  predicate ObservedAfter(e: VenueEvidence, startedNs: int) {
    && e.orders.observedNs > startedNs && e.fills.observedNs > startedNs
    && e.positions.observedNs > startedNs && e.balances.observedNs > startedNs
  }

  lemma CleanSurface(v: VenueName, n: SurfaceName, s: Surface, startedNs: int, nowNs: int)
    requires SurfaceError(s, nowNs).None? && startedNs <= nowNs
    ensures SurfaceReasons(v, n, s, startedNs) == [] <==>
              s.observedNs > startedNs && Authoritative(s, nowNs, nowNs - startedNs)
  {
    var checks := SurfaceChecks(v, n, s, startedNs);
    NothingReported(checks);
    assert (forall i :: 0 <= i < |checks| ==> !checks[i].0) <==>
           !checks[0].0 && !checks[1].0 && !checks[2].0 && !checks[3].0 && !checks[4].0;
  }

  lemma CleanLedger(v: VenueName, x: VenueExpectation)
    ensures LedgerReasons(v, x) == [] <==> LedgerClean(x)
  {
    var checks := LedgerChecks(v, x);
    NothingReported(checks);
    assert (forall i :: 0 <= i < |checks| ==> !checks[i].0) <==> !checks[0].0 && !checks[1].0 && !checks[2].0;
  }

  lemma CleanIntents(x: Both<VenueExpectation>)
    ensures FrozenReasons(x) == [] <==> x.bybit.frozenIntents == {} && x.hyperliquid.frozenIntents == {}
  {
    var checks: seq<Check> := [(x.bybit.frozenIntents != {}, FrozenIntent(BybitVenue)),
                               (x.hyperliquid.frozenIntents != {}, FrozenIntent(HyperliquidVenue))];
    NothingReported(checks);
    assert (forall i :: 0 <= i < |checks| ==> !checks[i].0) <==> !checks[0].0 && !checks[1].0;
  }

  lemma {:induction false} ConcatEmpty(parts: seq<seq<Reason>>)
    ensures Concat(parts) == [] <==> forall i :: 0 <= i < |parts| ==> parts[i] == []
  {
    if parts != [] {
      var rest := parts[1..];
      ConcatEmpty(rest);
      BothEmpty(parts[0], Concat(rest));
      assert forall i :: 0 < i < |parts| ==> parts[i] == rest[i - 1];
      assert forall i :: 0 <= i < |rest| ==> rest[i] == parts[i + 1];
    }
  }

  lemma BothEmpty(a: seq<Reason>, b: seq<Reason>)
    ensures a + b == [] <==> a == [] && b == []
  {
  }

  lemma CleanVenue(v: VenueName, e: VenueEvidence, x: VenueExpectation, startedNs: int, nowNs: int)
    requires ValidPairs(e, x, nowNs) && startedNs <= nowNs
    ensures VenueSurfaceReasons(v, e, startedNs) == [] <==>
            ObservedAfter(e, startedNs) && VenueAuthoritative(e, nowNs, nowNs - startedNs)
  {
    var parts := SurfaceParts(v, e, startedNs);
    ConcatEmpty(parts);
    assert (forall i :: 0 <= i < |parts| ==> parts[i] == []) <==>
           parts[0] == [] && parts[1] == [] && parts[2] == [] && parts[3] == [];
    CleanSurface(v, Orders, e.orders, startedNs, nowNs);
    CleanSurface(v, Fills, e.fills, startedNs, nowNs);
    CleanSurface(v, Positions, e.positions, startedNs, nowNs);
    CleanSurface(v, Balances, e.balances, startedNs, nowNs);
  }

  /**
   * Nothing is collected exactly when the nonce replay is clean, no previous freeze and no frozen intent stands, every
   * surface was observed after startup, and the consistency classifier, allowing evidence as old as startup, answers
   * true.
   */
  lemma ReadyIff(venues: Both<VenueEvidence>, x: Both<VenueExpectation>, startedNs: int, nowNs: int,
                 frozen: Option<Nonce.NonceReason>, conflict: Option<Nonce.ChainConflict>, previousFreeze: bool)
    requires ValidVenues(venues, x, nowNs) && startedNs <= nowNs
    ensures CollectedReasons(venues, x, startedNs, frozen, conflict, previousFreeze) == [] <==>
            && frozen == None && conflict == None && !previousFreeze
            && x.bybit.frozenIntents == {} && x.hyperliquid.frozenIntents == {}
            && ObservedAfter(venues.bybit, startedNs) && ObservedAfter(venues.hyperliquid, startedNs)
            && Consistency(nowNs, nowNs - startedNs, venues, x) == Some(true)
  {
    CleanVenue(BybitVenue, venues.bybit, x.bybit, startedNs, nowNs);
    CleanVenue(HyperliquidVenue, venues.hyperliquid, x.hyperliquid, startedNs, nowNs);
    CleanLedger(BybitVenue, x.bybit);
    CleanLedger(HyperliquidVenue, x.hyperliquid);
    CleanIntents(x);
    NothingReported([(previousFreeze, PreviousFreeze)]);
    BothEmpty(LedgerReasons(BybitVenue, x.bybit), LedgerReasons(HyperliquidVenue, x.hyperliquid));
    BothEmpty(VenueSurfaceReasons(BybitVenue, venues.bybit, startedNs), VenueSurfaceReasons(HyperliquidVenue,
        venues.hyperliquid, startedNs));
    BothEmpty(NonceReasons(frozen, conflict), Reported([(previousFreeze, PreviousFreeze)]));
    BothEmpty(NonceReasons(frozen, conflict) + Reported([(previousFreeze, PreviousFreeze)]), GateReasons(venues, x,
        startedNs));
  }

  // ---------- when a reason is in the decision ----------

  predicate HasSurfaceFault(s: Surface, fault: SurfaceFault, startedNs: int) {
    match fault
    case Stale => s.observedNs <= startedNs
    case PaginationIncomplete => !s.pageComplete
    case Truncated => s.truncated
    case UnknownEntities => s.unknownCount != 0
    case Mismatch => s.mismatchCount != 0
  }

  predicate HasLedgerFault(ledger: Option<Ledger.BalanceLedger>, fault: LedgerFault) {
    match fault
    case LedgerUnavailable => ledger.None?
    case LedgerUnknownEntry => ledger.Some? && ledger.value.unknown != {}
    case LedgerInconsistent => ledger.Some? && !ledger.value.selfConsistent
  }

  /** The identities already differ. */
  predicate OtherIdentities(s: Surface, x: ExpectedSurface) {
    s.identities.fingerprints != x.identities.fingerprints
  }

  /** The identities agree and what is known of them differs. */
  predicate OtherStates(s: Surface, x: ExpectedSurface) {
    s.identities.fingerprints == x.identities.fingerprints && s.entities.fingerprints != x.entities.fingerprints
  }

  predicate HasStateFault(e: VenueEvidence, x: VenueExpectation, n: SurfaceName, fault: StateFault) {
    match fault
    case IdentityMismatch =>
      (n.Orders? && OtherIdentities(e.orders, x.orders))
      || (n.Positions? && OtherIdentities(e.positions, x.positions))
    case StateMismatch =>
      (n.Orders? && OtherStates(e.orders, x.orders)) || (n.Positions? && OtherStates(e.positions, x.positions))
    case MissingLocalFill =>
      n.Fills? && exists id :: id in x.fills.identities.fingerprints && id !in e.fills.identities.fingerprints
    case FillStateMismatch =>
      && n.Fills? && x.fills.identities.fingerprints <= e.fills.identities.fingerprints
      && exists state :: state in x.fills.entities.fingerprints && state !in e.fills.entities.fingerprints
    case BalanceIdentityMismatch => n.Balances? && OtherIdentities(e.balances, x.balances)
    case BalanceStateMismatch => n.Balances? && OtherStates(e.balances, x.balances)
    case LedgerCoverageMismatch => n.Balances? && x.ledger.Some? && x.ledger.value.endNs != e.balances.observedNs
  }

  predicate IntentStands(x: Both<VenueExpectation>) {
    exists v: VenueName :: VenueOf(x, v).frozenIntents != {}
  }

  predicate SurfaceFaulty(venues: Both<VenueEvidence>, startedNs: int) {
    exists v: VenueName, n: SurfaceName, f: SurfaceFault ::
      HasSurfaceFault(SurfaceOf(VenueOf(venues, v), n), f, startedNs)
  }

  predicate LedgerFaulty(x: Both<VenueExpectation>) {
    exists v: VenueName, f: LedgerFault :: HasLedgerFault(VenueOf(x, v).ledger, f)
  }

  /**
   * When a reason is given: the nonce evidence and the previous freeze always speak, surfaces only while no intent is
   * frozen, ledgers only while no surface is at fault either, and states only while no ledger is.
   */
  predicate Speaks(r: Reason, venues: Both<VenueEvidence>, x: Both<VenueExpectation>, startedNs: int,
                   frozen: Option<Nonce.NonceReason>, conflict: Option<Nonce.ChainConflict>, previousFreeze: bool) {
    match r
    case NonceFrozen(reason) => frozen == Some(reason)
    case NonceConflict(broken) => conflict == Some(broken)
    case PreviousFreeze => previousFreeze
    case FrozenIntent(v) => VenueOf(x, v).frozenIntents != {}
    case SurfaceReason(v, n, fault) =>
      !IntentStands(x) && HasSurfaceFault(SurfaceOf(VenueOf(venues, v), n), fault, startedNs)
    case LedgerReason(v, fault) =>
      !IntentStands(x) && !SurfaceFaulty(venues, startedNs) && HasLedgerFault(VenueOf(x, v).ledger, fault)
    case StateReason(v, n, fault) =>
      && !IntentStands(x) && !SurfaceFaulty(venues, startedNs) && !LedgerFaulty(x)
      && HasStateFault(VenueOf(venues, v), VenueOf(x, v), n, fault)
  }

  lemma {:induction false} ReportedIff(checks: seq<Check>, r: Reason)
    ensures r in Reported(checks) <==> exists i :: 0 <= i < |checks| && checks[i] == (true, r)
  {
    if checks != [] {
      var rest := checks[1..];
      ReportedIff(rest, r);
      assert forall i :: 0 < i < |checks| ==> checks[i] == rest[i - 1];
      assert forall i :: 0 <= i < |rest| ==> rest[i] == checks[i + 1];
    }
  }

  lemma SurfaceReasonIff(v: VenueName, n: SurfaceName, s: Surface, startedNs: int, r: Reason)
    ensures r in SurfaceReasons(v, n, s, startedNs) <==>
            r.SurfaceReason? && r.venue == v && r.surface == n && HasSurfaceFault(s, r.fault, startedNs)
  {
    var checks := SurfaceChecks(v, n, s, startedNs);
    ReportedIff(checks, r);
    if r.SurfaceReason? && r.venue == v && r.surface == n && HasSurfaceFault(s, r.fault, startedNs) {
      assert checks[FaultRank(r.fault)] == (true, r);
    }
  }

  lemma VenueSurfaceReasonIff(v: VenueName, e: VenueEvidence, startedNs: int, r: Reason)
    ensures r in VenueSurfaceReasons(v, e, startedNs) <==>
            r.SurfaceReason? && r.venue == v && HasSurfaceFault(SurfaceOf(e, r.surface), r.fault, startedNs)
  {
    SurfaceReasonIff(v, Orders, e.orders, startedNs, r);
    SurfaceReasonIff(v, Fills, e.fills, startedNs, r);
    SurfaceReasonIff(v, Positions, e.positions, startedNs, r);
    SurfaceReasonIff(v, Balances, e.balances, startedNs, r);
    ConcatFour(SurfaceReasons(v, Orders, e.orders, startedNs), SurfaceReasons(v, Fills, e.fills, startedNs),
               SurfaceReasons(v, Positions, e.positions, startedNs),
               SurfaceReasons(v, Balances, e.balances, startedNs));
  }

  lemma LedgerReasonIff(v: VenueName, x: VenueExpectation, r: Reason)
    ensures r in LedgerReasons(v, x) <==> r.LedgerReason? && r.venue == v && HasLedgerFault(x.ledger, r.ledgerFault)
  {
    var checks := LedgerChecks(v, x);
    ReportedIff(checks, r);
    if r.LedgerReason? && r.venue == v && HasLedgerFault(x.ledger, r.ledgerFault) {
      assert checks[LedgerFaultRank(r.ledgerFault)] == (true, r);
    }
  }

  lemma StateReasonIff(v: VenueName, e: VenueEvidence, x: VenueExpectation, r: Reason)
    ensures r in StateReasons(v, e, x) <==>
            r.StateReason? && r.venue == v && HasStateFault(e, x, r.surface, r.stateFault)
  {
    var checks := StateChecks(v, e, x);
    ReportedIff(checks, r);
    if r.StateReason? && r.venue == v && HasStateFault(e, x, r.surface, r.stateFault) {
      assert checks[StateFaultRank(r.surface, r.stateFault)] == (true, r);
    }
  }

  lemma IntentReasonIff(x: Both<VenueExpectation>, r: Reason)
    ensures r in FrozenReasons(x) <==> r.FrozenIntent? && VenueOf(x, r.venue).frozenIntents != {}
    ensures FrozenReasons(x) != [] <==> IntentStands(x)
  {
    var checks: seq<Check> := [(x.bybit.frozenIntents != {}, FrozenIntent(BybitVenue)),
                               (x.hyperliquid.frozenIntents != {}, FrozenIntent(HyperliquidVenue))];
    ReportedIff(checks, r);
    if r.FrozenIntent? && VenueOf(x, r.venue).frozenIntents != {} {
      assert checks[VenueRank(r.venue)] == (true, r);
    }
    CleanIntents(x);
    assert VenueOf(x, BybitVenue) == x.bybit && VenueOf(x, HyperliquidVenue) == x.hyperliquid;
  }

  lemma AllSurfacesIff(venues: Both<VenueEvidence>, startedNs: int, r: Reason)
    ensures r in AllSurfaceReasons(venues, startedNs) <==>
            r.SurfaceReason? && HasSurfaceFault(SurfaceOf(VenueOf(venues, r.venue), r.surface), r.fault, startedNs)
  {
    VenueSurfaceReasonIff(BybitVenue, venues.bybit, startedNs, r);
    VenueSurfaceReasonIff(HyperliquidVenue, venues.hyperliquid, startedNs, r);
  }

  lemma AnySurfaceIff(venues: Both<VenueEvidence>, startedNs: int)
    ensures AllSurfaceReasons(venues, startedNs) != [] <==> SurfaceFaulty(venues, startedNs)
  {
    var all := AllSurfaceReasons(venues, startedNs);
    if all != [] {
      AllSurfacesIff(venues, startedNs, all[0]);
    }
    if v: VenueName, n: SurfaceName, f: SurfaceFault :|
      HasSurfaceFault(SurfaceOf(VenueOf(venues, v), n), f, startedNs)
    {
      AllSurfacesIff(venues, startedNs, SurfaceReason(v, n, f));
    }
  }

  lemma AllLedgersIff(x: Both<VenueExpectation>, r: Reason)
    ensures r in AllLedgerReasons(x) <==> r.LedgerReason? && HasLedgerFault(VenueOf(x, r.venue).ledger, r.ledgerFault)
  {
    LedgerReasonIff(BybitVenue, x.bybit, r);
    LedgerReasonIff(HyperliquidVenue, x.hyperliquid, r);
  }

  lemma AnyLedgerIff(x: Both<VenueExpectation>)
    ensures AllLedgerReasons(x) != [] <==> LedgerFaulty(x)
  {
    var all := AllLedgerReasons(x);
    if all != [] {
      AllLedgersIff(x, all[0]);
    }
    if v: VenueName, f: LedgerFault :| HasLedgerFault(VenueOf(x, v).ledger, f) {
      AllLedgersIff(x, LedgerReason(v, f));
    }
  }

  lemma AllStatesIff(venues: Both<VenueEvidence>, x: Both<VenueExpectation>, r: Reason)
    ensures r in AllStateReasons(venues, x) <==>
            r.StateReason? && HasStateFault(VenueOf(venues, r.venue), VenueOf(x, r.venue), r.surface, r.stateFault)
  {
    StateReasonIff(BybitVenue, venues.bybit, x.bybit, r);
    StateReasonIff(HyperliquidVenue, venues.hyperliquid, x.hyperliquid, r);
  }

  /** Every reason is collected exactly when the evidence gives it. */
  lemma ReasonIff(r: Reason, venues: Both<VenueEvidence>, x: Both<VenueExpectation>, startedNs: int,
                  frozen: Option<Nonce.NonceReason>, conflict: Option<Nonce.ChainConflict>, previousFreeze: bool)
    ensures r in CollectedReasons(venues, x, startedNs, frozen, conflict, previousFreeze) <==>
            Speaks(r, venues, x, startedNs, frozen, conflict, previousFreeze)
  {
    IntentReasonIff(x, r);
    AllSurfacesIff(venues, startedNs, r);
    AnySurfaceIff(venues, startedNs);
    AllLedgersIff(x, r);
    AnyLedgerIff(x);
    AllStatesIff(venues, x, r);
    ReportedIff([(previousFreeze, PreviousFreeze)], r);
    assert r in Reported([(previousFreeze, PreviousFreeze)]) <==> previousFreeze && r == PreviousFreeze;
  }

  /**
   * Startup admits exactly when nothing at all speaks against it; otherwise it fails on its inputs or freezes with
   * reasons.
   */
  method DecideStartupAdmission(startedNs: int, nowNs: int, venues: Both<VenueEvidence>, x: Both<VenueExpectation>,
                                log: seq<Nonce.LogEvent>, wallet: string, previousFreeze: bool)
    returns (r: Result<Decision>)
    ensures r.Success? ==> (r.value.action == CancelOnlyFreeze <==> r.value.reasons != {})
    ensures r.Success? ==> exists frozen, conflict ::
              && Nonce.IsReplayedFreeze(log, wallet, |log|, frozen) && Nonce.IsConflict(log, wallet, |log|, conflict)
              && r.value.reasons == Members(CollectedReasons(venues, x, startedNs, frozen, conflict, previousFreeze))
              && forall reason :: reason in r.value.reasons <==>
                   Speaks(reason, venues, x, startedNs, frozen, conflict, previousFreeze)
    ensures r.Success? ==>
              (r.value.action == Ready <==>
                 && (forall i :: !Nonce.FreezeAt(log, wallet, i))
                 && (forall i :: 0 <= i < |log| ==> !Nonce.Broken(log, wallet, i))
                 && !previousFreeze
                 && x.bybit.frozenIntents == {} && x.hyperliquid.frozenIntents == {}
                 && ObservedAfter(venues.bybit, startedNs) && ObservedAfter(venues.hyperliquid, startedNs)
                 && Consistency(nowNs, nowNs - startedNs, venues, x) == Some(true))
    ensures r.Success? <==>
              && 0 <= startedNs <= nowNs && ValidVenues(venues, x, nowNs)
              && OrderIdentity.HexDigest(wallet) && Nonce.ValidatedRows(log, wallet) && Nonce.FreezeReplays(log, wallet)
  {
    var ok := ValidateVenues(venues, x, nowNs);
    if startedNs < 0 || nowNs < startedNs || !ok {
      return Failure("invalid startup structure");
    }
    var frozen := Nonce.ReplayFreezeReason(log, wallet);
    var conflict := Nonce.ReplaySignerNonceConflict(log, wallet);
    if frozen.Failure? || conflict.Failure? {
      return Failure("invalid signer nonce rows");
    }
    DecisionAlwaysBuilds(venues, x, startedNs, frozen.value, conflict.value, previousFreeze);
    ReadyIff(venues, x, startedNs, nowNs, frozen.value, conflict.value, previousFreeze);
    var reasons := CollectedReasons(venues, x, startedNs, frozen.value, conflict.value, previousFreeze);
    assert reasons != [] ==> reasons[0] in Members(reasons);
    forall reason | true
      ensures reason in reasons <==> Speaks(reason, venues, x, startedNs, frozen.value, conflict.value, previousFreeze)
    {
      ReasonIff(reason, venues, x, startedNs, frozen.value, conflict.value, previousFreeze);
    }
    r := BuildDecision(reasons);
  }
}
