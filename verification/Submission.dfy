/** Deciding, persisting and transporting one order at a time, over a durable trace of what was recorded and sent. */
module Submission {
  import opened Common
  import opened Decimals
  import opened Events
  import opened OrderIdentity
  import EventReplay
  import Nonce

  datatype Evidence = Evidence(status: OrderStatus, ordersNs: Option<int>, fillsNs: Option<int>,
      positionsNs: Option<int>)

  datatype History = History(clientOrderId: ClientOrderId, attempts: int, frozen: bool)

  datatype Decision = Freeze | Reconcile | Hold | RejectStale | Persist | Resend

  // ---------- the decision ----------

  predicate ValidTime(t: Option<int>) {
    t.Some? ==> t.value >= 0
  }

  predicate ValidEvidence(e: Evidence) {
    ValidTime(e.ordersNs) && ValidTime(e.fillsNs) && ValidTime(e.positionsNs)
  }

  predicate Later(t: Option<int>, watermark: int) {
    t.Some? && t.value > watermark
  }

  /** Orders, fills and positions were all queried after the order was recorded, or after its signal if it never was. */
  predicate AuthoritativeAfter(i: OrderIntent, e: Evidence, request: Option<OrderRequestRecord>) {
    var watermark := if request.None? then i.signalNs else request.value.recordedNs;
    Later(e.ordersNs, watermark) && Later(e.fillsNs, watermark) && Later(e.positionsNs, watermark)
  }

  predicate MatchesIntent(i: OrderIntent, request: Option<OrderRequestRecord>) {
    match request
    case None => true
    case Some(r) =>
      && LeaseBound(r.leg, r.accountDigest, r.leaseEpoch, r.writerInstanceId, r.walletFingerprint, r.allocatedNonce)
      && r.clientOrderId == i.clientOrderId
      && r.strategyId == i.strategyId && r.strategyVersion == i.strategyVersion && r.signalNs == i.signalNs
      && r.leg == i.leg && r.replacementOrdinal == i.replacementOrdinal
      && r.recordedNs >= i.signalNs
  }

  predicate Holds(status: OrderStatus) {
    || status.OrderOpen? || status.OrderPartiallyFilled? || status.OrderFilled?
    || status.OrderCancelled? || status.OrderRejected?
  }

  function Decide(i: OrderIntent, e: Evidence, request: Option<OrderRequestRecord>, h: History, nowNs: int,
                  maxAge: int, maxAttempts: int): Result<Decision> {
    if !ValidIntent(i) then Failure("invalid client_order_id")
    else if !ValidEvidence(e) then Failure("invalid evidence timestamp")
    else if !MatchesIntent(i, request) then Failure("request does not match intent")
    else if h.clientOrderId != i.clientOrderId then Failure("history does not match intent")
    else if h.attempts < 0 then Failure("invalid reconcile_attempts")
    else if nowNs < 0 || nowNs < i.signalNs then Failure("clock moved backwards")
    else if maxAge <= 0 then Failure("invalid max_signal_age_ns")
    else if maxAttempts <= 0 then Failure("invalid max_reconcile_attempts")
    else if h.frozen then Success(Freeze)
    else if e.status.OrderPending? || e.status.OrderUnknown?
            || (e.status.OrderAbsent? && !AuthoritativeAfter(i, e, request)) then
      Success(if h.attempts >= maxAttempts then Freeze else Reconcile)
    else if Holds(e.status) then Success(Hold)
    else if nowNs - i.signalNs > maxAge then Success(RejectStale)
    else Success(if request.None? then Persist else Resend)
  }

  // ---------- evidence from a replay ----------

  predicate ObservesOrder(event: Event, venue: EventVenue, client: string) {
    event.payload.OrderObservation? && event.venue == venue && event.clientOrderId == client
  }

  /** The latest time at which the order was observed, if it was. */
  function LatestObserved(events: seq<Event>, venue: EventVenue, client: string): Option<int> {
    if events == [] then None
    else
      var front, last := LatestObserved(events[..|events| - 1], venue, client), events[|events| - 1];
      if !ObservesOrder(last, venue, client) then front
      else if front.Some? && front.value >= last.payload.observedNs then front
      else Some(last.payload.observedNs)
  }

  function StatusesAt(events: seq<Event>, venue: EventVenue, client: string, observedNs: int): set<OrderStatus> {
    set e | e in events && ObservesOrder(e, venue, client) && e.payload.observedNs == observedNs :: e.payload.status
  }

  lemma OneMember(s: set<OrderStatus>)
    requires |s| == 1
    ensures exists x :: x in s && s == {x}
  {
    var x :| x in s;
    assert |s - {x}| == 0;
    assert s == {x};
  }

  const UNKNOWN := Evidence(OrderUnknown, None, None, None)

  function BuildEvidence(replay: EventReplay.Replay, venue: EventVenue, client: string): Evidence {
    var latest := LatestObserved(replay.events, venue, client);
    if replay.reasons != {} || latest.None? then UNKNOWN
    else
      var statuses := StatusesAt(replay.events, venue, client, latest.value);
      if |statuses| != 1 then UNKNOWN
      else
        OneMember(statuses);
        var status :| status in statuses && statuses == {status};
        if status.OrderUnknown? then UNKNOWN else Evidence(status, latest, None, None)
  }

  lemma {:induction false} LatestIsMaximum(events: seq<Event>, venue: EventVenue, client: string)
    ensures match LatestObserved(events, venue, client)
            case None => forall e :: e in events ==> !ObservesOrder(e, venue, client)
            case Some(t) =>
              && (forall e :: e in events && ObservesOrder(e, venue, client) ==> e.payload.observedNs <= t)
              && (exists e :: e in events && ObservesOrder(e, venue, client) && e.payload.observedNs == t)
  {
    if events != [] {
      var front, last := events[..|events| - 1], events[|events| - 1];
      LatestIsMaximum(front, venue, client);
      assert events == front + [last];
    }
  }

  /** An observation of the order that no observation of it follows and that none at its time contradicts. */
  ghost predicate Settles(events: seq<Event>, venue: EventVenue, client: string, e: Event) {
    && e in events && e.payload.OrderObservation? && e.venue == venue && e.clientOrderId == client
    && forall x :: x in events && x.payload.OrderObservation? && x.venue == venue && x.clientOrderId == client ==>
         x.payload.observedNs < e.payload.observedNs
         || (x.payload.observedNs == e.payload.observedNs && x.payload.status == e.payload.status)
  }

  /**
   * The evidence carries a status exactly when the replay is free of freeze reasons and its latest observation is
   * settled.
   */
  lemma EvidenceMeaning(replay: EventReplay.Replay, venue: EventVenue, client: string, status: OrderStatus)
    requires !status.OrderUnknown?
    ensures BuildEvidence(replay, venue, client).status == status <==>
            replay.reasons == {} && exists e :: Settles(replay.events, venue, client, e) && e.payload.status == status
  {
    LatestIsMaximum(replay.events, venue, client);
    var latest := LatestObserved(replay.events, venue, client);
    if replay.reasons == {} && latest.Some? {
      var statuses := StatusesAt(replay.events, venue, client, latest.value);
      var first :| && first in replay.events
                   && ObservesOrder(first, venue, client) && first.payload.observedNs == latest.value;
      assert first.payload.status in statuses;
      if |statuses| == 1 {
        OneMember(statuses);
        forall x | x in replay.events && ObservesOrder(x, venue, client) && x.payload.observedNs == latest.value
          ensures x.payload.status in statuses
        {
        }
        assert Settles(replay.events, venue, client, first);
      }
      if e :| Settles(replay.events, venue, client, e) && e.payload.status == status {
        assert e.payload.observedNs == latest.value;
        assert statuses == {status};
      }
    }
  }

  /** Evidence that a replay alone supports never lets an order be sent, whatever else the caller supplies. */
  lemma ReplayNeverTransports(replay: EventReplay.Replay, venue: EventVenue, client: string, i: OrderIntent,
                              request: Option<OrderRequestRecord>, h: History, nowNs: int, maxAge: int,
                              maxAttempts: int)
    ensures var d := Decide(i, BuildEvidence(replay, venue, client), request, h, nowNs, maxAge, maxAttempts);
            d != Success(Persist) && d != Success(Resend)
  {
  }

  /**
   * An order may be sent exactly when it is known absent by queries all later than its record, and its signal is
   * fresh.
   */
  lemma SendIffAbsent(i: OrderIntent, e: Evidence, request: Option<OrderRequestRecord>, h: History, nowNs: int,
                      maxAge: int, maxAttempts: int)
    requires Decide(i, e, request, h, nowNs, maxAge, maxAttempts).Success?
    ensures var d := Decide(i, e, request, h, nowNs, maxAge, maxAttempts).value;
            (d == Persist || d == Resend <==>
               !h.frozen && e.status.OrderAbsent? && AuthoritativeAfter(i, e, request) && nowNs <= i.signalNs + maxAge)
            && (d == Persist ==> request.None?) && (d == Resend ==> request.Some?)
  {
  }

  /** The watermark that a query has to be later than: the order's record, or its signal if it was never recorded. */
  predicate QueriedSince(t: Option<int>, i: OrderIntent, request: Option<OrderRequestRecord>) {
    match (t, request)
    case (None, _) => false
    case (Some(ns), None) => i.signalNs < ns
    case (Some(ns), Some(r)) => r.recordedNs < ns
  }

  /** Whether the order reached its venue cannot be told: it is pending, unknown, or absent from a query too early. */
  predicate Unsettled(i: OrderIntent, e: Evidence, request: Option<OrderRequestRecord>) {
    || e.status == OrderPending || e.status == OrderUnknown
    || (e.status == OrderAbsent
        && !(QueriedSince(e.ordersNs, i, request) && QueriedSince(e.fillsNs, i, request)
             && QueriedSince(e.positionsNs, i, request)))
  }

  /** The record is one that was made for the intent, bound to a lease, and not before the signal. */
  predicate RecordOf(r: OrderRequestRecord, i: OrderIntent) {
    && (r.strategyId, r.strategyVersion, r.signalNs, r.leg, r.replacementOrdinal, r.clientOrderId)
       == (i.strategyId, i.strategyVersion, i.signalNs, i.leg, i.replacementOrdinal, i.clientOrderId)
    && i.signalNs <= r.recordedNs
    && HexDigest(r.accountDigest) && HexDigest(r.walletFingerprint) && r.leaseEpoch >= 1 && |r.writerInstanceId| > 0
    && (if r.leg == BybitLeg then r.allocatedNonce == None else r.allocatedNonce.Some? && r.allocatedNonce.value >= 1)
  }

  /** The inputs of a decision are in order. */
  predicate Decidable(i: OrderIntent, e: Evidence, request: Option<OrderRequestRecord>, h: History, nowNs: int,
                      maxAge: int, maxAttempts: int) {
    && ValidIntent(i) && h.clientOrderId == i.clientOrderId && h.attempts >= 0
    && (forall t :: t in {e.ordersNs, e.fillsNs, e.positionsNs} && t.Some? ==> t.value >= 0)
    && (request.Some? ==> RecordOf(request.value, i))
    && nowNs >= 0 && i.signalNs <= nowNs && maxAge >= 1 && maxAttempts >= 1
  }

  /** What the evidence demands for an order whose inputs are in order. */
  predicate Demands(i: OrderIntent, e: Evidence, request: Option<OrderRequestRecord>, h: History, nowNs: int,
                    maxAge: int, maxAttempts: int, d: Decision) {
    match d
    case Freeze => h.frozen || (Unsettled(i, e, request) && maxAttempts <= h.attempts)
    case Reconcile => !h.frozen && Unsettled(i, e, request) && h.attempts < maxAttempts
    case Hold =>
      && !h.frozen
      && e.status in {OrderOpen, OrderPartiallyFilled, OrderFilled, OrderCancelled, OrderRejected}
    case RejectStale => !h.frozen && KnownAbsent(i, e, request) && i.signalNs + maxAge < nowNs
    case Persist => !h.frozen && KnownAbsent(i, e, request) && nowNs <= i.signalNs + maxAge && request == None
    case Resend => !h.frozen && KnownAbsent(i, e, request) && nowNs <= i.signalNs + maxAge && request != None
  }

  predicate KnownAbsent(i: OrderIntent, e: Evidence, request: Option<OrderRequestRecord>) {
    e.status == OrderAbsent && !Unsettled(i, e, request)
  }

  lemma DecidableIff(i: OrderIntent, e: Evidence, request: Option<OrderRequestRecord>, h: History, nowNs: int,
                     maxAge: int, maxAttempts: int)
    ensures Decide(i, e, request, h, nowNs, maxAge, maxAttempts).Success? <==>
              Decidable(i, e, request, h, nowNs, maxAge, maxAttempts)
  {
    assert e.ordersNs in {e.ordersNs, e.fillsNs, e.positionsNs} && e.fillsNs in {e.ordersNs, e.fillsNs, e.positionsNs};
    assert e.positionsNs in {e.ordersNs, e.fillsNs, e.positionsNs};
  }

  /** Every answer, and the refusal, is given exactly for the evidence that demands it. */
  lemma DecideMeaning(i: OrderIntent, e: Evidence, request: Option<OrderRequestRecord>, h: History, nowNs: int,
                      maxAge: int, maxAttempts: int)
    ensures var r := Decide(i, e, request, h, nowNs, maxAge, maxAttempts);
            && (r.Success? <==> Decidable(i, e, request, h, nowNs, maxAge, maxAttempts))
            && (r.Success? ==> forall d :: r.value == d <==> Demands(i, e, request, h, nowNs, maxAge, maxAttempts, d))
  {
    DecidableIff(i, e, request, h, nowNs, maxAge, maxAttempts);
  }

  // ---------- replacement ----------

  /** A replacement needs terminal evidence that is later than the signal, and is the next order of its series. */
  function ReplacementIntent(previous: OrderIntent, e: Evidence, quantity: Dec): Result<OrderIntent> {
    if !ValidIntent(previous) then Failure("invalid client_order_id")
    else if !ValidEvidence(e) then Failure("invalid evidence timestamp")
    else if !e.status.OrderCancelled? && !e.status.OrderRejected? then Failure("order is not replaceable")
    else if !AuthoritativeAfter(previous, e, None) then Failure("authoritative terminal evidence required")
    else
      RehydrateIntent(previous.strategyId, previous.strategyVersion, previous.signalNs, previous.leg, previous.symbol,
                      previous.side, quantity, previous.reduceOnly, previous.replacementOrdinal + 1)
  }

  /**
   * An order may be replaced exactly when it is valid and was seen cancelled or rejected by queries that are all later
   * than its signal, and then only by the next order of its series, which differs in nothing but ordinal and quantity.
   */
  lemma ReplacementIff(previous: OrderIntent, e: Evidence, quantity: Dec)
    ensures var r := ReplacementIntent(previous, e, quantity);
            && (r.Success? <==>
                  && ValidIntent(previous) && (e.status == OrderCancelled || e.status == OrderRejected)
                  && (forall t :: t in [e.ordersNs, e.fillsNs, e.positionsNs] ==>
                        t.Some? && previous.signalNs < t.value)
                  && !quantity.negative && quantity.coefficient > 0)
            && (r.Success? ==>
                  && ValidIntent(r.value)
                  && r.value == previous.(quantity := quantity, replacementOrdinal := previous.replacementOrdinal + 1,
                                          clientOrderId := r.value.clientOrderId))
  {
    var times := [e.ordersNs, e.fillsNs, e.positionsNs];
    assert times[0] in times && times[1] in times && times[2] in times;
    if ValidIntent(previous) {
      assert previous.signalNs >= 0 && previous.replacementOrdinal >= 0;
    }
  }

  ghost predicate ReplacedBy(a: OrderIntent, b: OrderIntent) {
    exists e, q :: ReplacementIntent(a, e, q) == Success(b)
  }

  /** A series of intents in which each replaces the one before it. */
  ghost predicate Replaces(series: seq<OrderIntent>) {
    forall k :: 0 < k < |series| ==> ReplacedBy(series[k - 1], series[k])
  }

  lemma {:induction false} ReplacementOrdinals(series: seq<OrderIntent>, i: nat, k: nat)
    requires Replaces(series) && i <= k < |series|
    ensures series[k].replacementOrdinal == series[i].replacementOrdinal + (k - i)
    ensures i < k ==> ValidIntent(series[i]) && ValidIntent(series[k])
  {
    if i < k {
      ReplacementOrdinals(series, i, k - 1);
      assert ReplacedBy(series[k - 1], series[k]);
      var e, q :| ReplacementIntent(series[k - 1], e, q) == Success(series[k]);
    }
  }

  /** However long a series of replacements, no two of its orders share a client order id. */
  lemma ReplacementsAreNewOrders(series: seq<OrderIntent>, i: nat, k: nat)
    requires Replaces(series) && i < k < |series|
    ensures series[i].clientOrderId != series[k].clientOrderId
  {
    ReplacementOrdinals(series, i, k);
    SameClientIdIffSameOrder(series[i], series[k]);
  }

  // ---------- submission ----------

  /** What the durable side of the world sees, in order: a request recorded, or a request handed to the transport. */
  datatype Effect =
    | Recorded(record: OrderRequestRecord)
    | Sent(record: OrderRequestRecord, again: bool, evidence: Evidence, sender: Sender)

  /** Who hands a request to the transport, and when: the allocator's account, the lease's wallet and the clock. */
  datatype Sender = Sender(account: string, wallet: string, nowMs: int)

  datatype World = World(nonces: Nonce.World, effects: seq<Effect>)

  datatype Authority = Authority(wallet: string, instance: string, epoch: int)

  /** authority: what the lease answered, if it authorized the action. The flags say whether each recorder works. */
  datatype Call = Call(
    intent: OrderIntent, evidence: Evidence, request: Option<OrderRequestRecord>, history: History,
    authority: Option<Authority>, nowNs: int, maxAge: int, maxAttempts: int, nowMs: int, decidedNs: int,
    fenceHolds: bool, nonceRecorderOk: bool, requestRecorderOk: bool)

  predicate PositiveScalars(c: Call) {
    c.nowNs > 0 && c.maxAge > 0 && c.maxAttempts > 0 && c.nowMs > 0 && c.decidedNs > 0
  }

  predicate MayResume(w: World, c: Call, r: OrderRequestRecord, wallet: string) {
    && r.accountDigest == w.nonces.allocator.account
    && r.walletFingerprint == wallet
    && (c.intent.leg.HyperliquidLeg? && r.allocatedNonce.Some? ==>
          Nonce.LowerOk(r.allocatedNonce.value, c.nowMs) && Nonce.UpperOk(r.allocatedNonce.value, c.nowMs))
  }

  type Outcome = (World, Result<Decision>)

  function SenderOf(w: World, c: Call, authority: Authority): Sender {
    Sender(w.nonces.allocator.account, authority.wallet, c.nowMs)
  }

  function PersistAndSend(w: World, c: Call, authority: Authority, nonce: Option<int>): Outcome {
    match BuildRequest(c.intent, c.decidedNs, w.nonces.allocator.account, authority.epoch, authority.instance,
        authority.wallet, nonce)
    case Failure(error) => (w, Failure(error))
    case Success(record) =>
      if !c.requestRecorderOk then (w, Failure("request recording failed"))
      else (w.(effects := w.effects + [Recorded(record), Sent(record, false, c.evidence, SenderOf(w, c, authority))]),
          Success(Persist))
  }

  function Submit(w: World, c: Call): Outcome {
    if !PositiveScalars(c) then (w, Failure("scalar must be positive"))
    else
      match Decide(c.intent, c.evidence, c.request, c.history, c.nowNs, c.maxAge, c.maxAttempts)
      case Failure(error) => (w, Failure(error))
      case Success(decision) =>
        if decision != Persist && decision != Resend then (w, Success(decision))
        else
          match c.authority
          case None => (w, Failure("writer action not authorized"))
          case Some(authority) =>
            if c.request.Some? then
              if !MayResume(w, c, c.request.value, authority.wallet) then (w, Failure("resume request mismatch"))
              else
                var sent := Sent(c.request.value, true, c.evidence, SenderOf(w, c, authority));
                (w.(effects := w.effects + [sent]), Success(Resend))
            else if c.intent.leg.BybitLeg? then PersistAndSend(w, c, authority, None)
            else
              var (a, log, r) := Nonce.Allocate(w.nonces.allocator, w.nonces.log, c.nowMs, c.decidedNs,
                  c.fenceHolds, c.nonceRecorderOk);
              var v := w.(nonces := Nonce.World(a, log));
              if r.Granted? then PersistAndSend(v, c, authority, Some(r.nonce))
              else (v, Failure("signer nonce not allocated"))
  }

  // ---------- what one call answers ----------

  predicate InOrder(c: Call) {
    && c.nowNs >= 1 && c.maxAge >= 1 && c.maxAttempts >= 1 && c.nowMs >= 1 && c.decidedNs >= 1
    && Decidable(c.intent, c.evidence, c.request, c.history, c.nowNs, c.maxAge, c.maxAttempts)
  }

  predicate DemandsOf(c: Call, d: Decision) {
    Demands(c.intent, c.evidence, c.request, c.history, c.nowNs, c.maxAge, c.maxAttempts, d)
  }

  /**
   * The request carries the order, the time, the allocator's account, the lease and the nonce that it was built from.
   */
  predicate Carries(r: OrderRequestRecord, c: Call, account: string, authority: Authority, nonce: Option<int>) {
    && (r.strategyId, r.strategyVersion, r.signalNs, r.leg, r.replacementOrdinal, r.clientOrderId)
       == (c.intent.strategyId, c.intent.strategyVersion, c.intent.signalNs, c.intent.leg, c.intent.replacementOrdinal,
           c.intent.clientOrderId)
    && r.recordedNs == c.decidedNs && r.accountDigest == account && r.allocatedNonce == nonce
    && r.leaseEpoch == authority.epoch && r.writerInstanceId == authority.instance
    && r.walletFingerprint == authority.wallet
  }

  /** The durable record of a new order and its transport are all that the call added. */
  ghost predicate SentNew(before: seq<Effect>, after: seq<Effect>, c: Call, account: string, authority: Authority,
                          nonce: Option<int>) {
    exists r :: Carries(r, c, account, authority, nonce) && RecordOf(r, c.intent)
      && after == before + [Recorded(r), Sent(r, false, c.evidence, Sender(account, authority.wallet, c.nowMs))]
  }

  /** An order that needs no transport is answered as its evidence demands, and nothing happens. */
  lemma AnswerWithoutTransport(w: World, c: Call, d: Decision)
    requires d in {Freeze, Reconcile, Hold, RejectStale}
    ensures Submit(w, c).1 == Success(d) <==> InOrder(c) && DemandsOf(c, d)
    ensures Submit(w, c).1 == Success(d) ==> Submit(w, c).0 == w
  {
    DecideMeaning(c.intent, c.evidence, c.request, c.history, c.nowNs, c.maxAge, c.maxAttempts);
  }

  /** A recorded order is sent again exactly when that is demanded and authorized, by its own account and wallet. */
  lemma AnswerResend(w: World, c: Call)
    ensures Submit(w, c).1 == Success(Resend) <==>
              && InOrder(c) && DemandsOf(c, Resend) && c.authority.Some?
              && MaySend(c.request.value, SenderOf(w, c, c.authority.value))
    ensures Submit(w, c).1 == Success(Resend) ==>
              Submit(w, c).0
              == w.(effects := w.effects + [Sent(c.request.value, true, c.evidence, SenderOf(w, c, c.authority.value))])
  {
    DecideMeaning(c.intent, c.evidence, c.request, c.history, c.nowNs, c.maxAge, c.maxAttempts);
  }

  lemma PersistCarries(w: World, c: Call, authority: Authority, nonce: Option<int>)
    requires InOrder(c)
    ensures var (v, r) := PersistAndSend(w, c, authority, nonce);
            && v.nonces == w.nonces
            && (r.Success? ==>
                 r.value == Persist && SentNew(w.effects, v.effects, c, w.nonces.allocator.account, authority, nonce))
            && (r.Failure? ==> v == w)
  {
    var built := BuildRequest(c.intent, c.decidedNs, w.nonces.allocator.account, authority.epoch, authority.instance,
                              authority.wallet, nonce);
    if built.Success? {
      assert Carries(built.value, c, w.nonces.allocator.account, authority, nonce) && RecordOf(built.value, c.intent);
    }
  }

  /** A new order's record can be built and kept: its time, account and lease are proper and its recorder works. */
  predicate Recordable(c: Call, account: string, authority: Authority) {
    && c.intent.signalNs <= c.decidedNs && HexDigest(account)
    && HexDigest(authority.wallet) && authority.epoch >= 1 && |authority.instance| > 0
    && c.requestRecorderOk
  }

  lemma PersistsIff(w: World, c: Call, authority: Authority, nonce: Option<int>)
    requires InOrder(c)
    requires if c.intent.leg == BybitLeg then nonce == None else nonce.Some? && nonce.value >= 1
    ensures PersistAndSend(w, c, authority, nonce).1.Success? <==> Recordable(c, w.nonces.allocator.account, authority)
  {
  }

  function AllocationOf(w: World, c: Call): (Nonce.Allocator, seq<Nonce.LogEvent>, Nonce.AllocateResult) {
    Nonce.Allocate(w.nonces.allocator, w.nonces.log, c.nowMs, c.decidedNs, c.fenceHolds, c.nonceRecorderOk)
  }

  /** The nonce that a new order of the call carries. */
  function NonceFor(w: World, c: Call): Option<int>
    requires c.intent.leg.HyperliquidLeg? ==> AllocationOf(w, c).2.Granted?
  {
    if c.intent.leg.BybitLeg? then None else Some(AllocationOf(w, c).2.nonce)
  }

  /**
   * A new order is sent exactly when that is demanded and authorized, its nonce is granted where it needs one, and its
   * record could be kept; the record comes first and carries what it was built from.
   */
  lemma AnswerPersist(w: World, c: Call)
    requires Nonce.ValidIdentity(w.nonces.allocator)
    ensures var (v, r) := Submit(w, c);
            && (r == Success(Persist) <==>
                  && InOrder(c) && DemandsOf(c, Persist) && c.authority.Some?
                  && (c.intent.leg.HyperliquidLeg? ==> AllocationOf(w, c).2.Granted?)
                  && Recordable(c, w.nonces.allocator.account, c.authority.value))
            && (r == Success(Persist) ==>
                  SentNew(w.effects, v.effects, c, w.nonces.allocator.account, c.authority.value, NonceFor(w, c)))
  {
    DecideMeaning(c.intent, c.evidence, c.request, c.history, c.nowNs, c.maxAge, c.maxAttempts);
    if InOrder(c) && DemandsOf(c, Persist) && c.authority.Some? {
      var authority := c.authority.value;
      if c.intent.leg.BybitLeg? {
        PersistCarries(w, c, authority, None);
        PersistsIff(w, c, authority, None);
      } else if AllocationOf(w, c).2.Granted? {
        var (a, log, granted) := AllocationOf(w, c);
        var v := w.(nonces := Nonce.World(a, log));
        PersistCarries(v, c, authority, Some(granted.nonce));
        PersistsIff(v, c, authority, Some(granted.nonce));
      }
    }
  }

  /** A call that fails records and sends nothing. */
  lemma FailureSendsNothing(w: World, c: Call)
    ensures Submit(w, c).1.Failure? ==> Submit(w, c).0.effects == w.effects
  {
    if InOrder(c) && c.authority.Some? {
      var authority := c.authority.value;
      PersistCarries(w, c, authority, None);
      var (a, log, granted) := AllocationOf(w, c);
      if granted.Granted? {
        PersistCarries(w.(nonces := Nonce.World(a, log)), c, authority, Some(granted.nonce));
      }
    }
    DecideMeaning(c.intent, c.evidence, c.request, c.history, c.nowNs, c.maxAge, c.maxAttempts);
  }

  // ---------- whole runs ----------

  /** The request that the durable trace holds for a client order id. */
  function DurableRequest(effects: seq<Effect>, client: ClientOrderId): Option<OrderRequestRecord> {
    if effects == [] then None
    else
      var front, last := DurableRequest(effects[..|effects| - 1], client), effects[|effects| - 1];
      if front.Some? then front
      else if last.Recorded? && last.record.clientOrderId == client then Some(last.record)
      else None
  }

  predicate RecordedAt(effects: seq<Effect>, k: int, r: OrderRequestRecord) {
    0 <= k < |effects| && effects[k] == Recorded(r)
  }

  predicate SentAt(effects: seq<Effect>, k: int) {
    0 <= k < |effects| && effects[k].Sent?
  }

  lemma {:induction false} DurableMeaning(effects: seq<Effect>, client: ClientOrderId)
    ensures match DurableRequest(effects, client)
            case None => forall k, r :: RecordedAt(effects, k, r) ==> r.clientOrderId != client
            case Some(r) => r.clientOrderId == client && exists k :: RecordedAt(effects, k, r)
  {
    if effects != [] {
      var n := |effects| - 1;
      var front := effects[..n];
      DurableMeaning(front, client);
      match DurableRequest(front, client)
      case None => assert forall k, r :: RecordedAt(effects, k, r) && k < n ==> RecordedAt(front, k, r);
        if effects[n].Recorded? {
          assert RecordedAt(effects, n, effects[n].record);
        }
      case Some(r) =>
        var k :| RecordedAt(front, k, r);
        assert RecordedAt(effects, k, r);
    }
  }

  predicate AbsentSince(e: Evidence, recordedNs: int) {
    && e.status.OrderAbsent?
    && Later(e.ordersNs, recordedNs) && Later(e.fillsNs, recordedNs) && Later(e.positionsNs, recordedNs)
  }

  /** The request belongs to the sender, and its nonce is one that the venue still takes at the sender's time. */
  predicate MaySend(r: OrderRequestRecord, sender: Sender) {
    && r.accountDigest == sender.account && r.walletFingerprint == sender.wallet
    && (r.leg.HyperliquidLeg? ==>
          && r.allocatedNonce.Some?
          && sender.nowMs - 2 * 86_400_000 < r.allocatedNonce.value < sender.nowMs + 86_400_000)
  }

  /** Effect k is allowed by the effects before it. */
  ghost predicate Justified(effects: seq<Effect>, k: int)
    requires 0 <= k < |effects|
  {
    match effects[k]
    case Recorded(r) =>
      && (forall j, q :: j < k && RecordedAt(effects, j, q) ==> q.clientOrderId != r.clientOrderId)
      && (forall j, q :: j < k && RecordedAt(effects, j, q) && q.allocatedNonce.Some? && r.allocatedNonce.Some? ==>
            q.allocatedNonce.value < r.allocatedNonce.value)
    case Sent(r, again, evidence, sender) =>
      && MaySend(r, sender)
      && (exists j :: j < k && RecordedAt(effects, j, r))
      && (again ==> AbsentSince(evidence, r.recordedNs))
      && (!again ==> k > 0 && effects[k - 1] == Recorded(r))
  }

  ghost predicate NoncesBelow(effects: seq<Effect>, last: int) {
    forall k, r :: RecordedAt(effects, k, r) && r.allocatedNonce.Some? ==> r.allocatedNonce.value <= last
  }

  ghost predicate Safe(w: World) {
    && Nonce.Good(w.nonces)
    && (forall k :: 0 <= k < |w.effects| ==> Justified(w.effects, k))
    && NoncesBelow(w.effects, w.nonces.allocator.last)
  }

  datatype Step = Submitting(call: Call) | Allocating(step: Nonce.Step)

  /**
   * Each call is given the durable request of its own client order id; the allocator may also be used, reloaded or
   * bypassed between calls.
   */
  ghost predicate Next(w: World, step: Step, v: World) {
    match step
    case Submitting(call) =>
      call.request == DurableRequest(w.effects, call.intent.clientOrderId) && v == Submit(w, call).0
    case Allocating(nonceStep) => v.effects == w.effects && Nonce.Next(w.nonces, nonceStep, v.nonces)
  }

  lemma JustifiedPrefix(effects: seq<Effect>, more: seq<Effect>, k: nat)
    requires effects <= more && k < |effects| && Justified(effects, k)
    ensures Justified(more, k)
  {
    assert forall j, q :: j < k && RecordedAt(more, j, q) ==> RecordedAt(effects, j, q);
    if effects[k].Sent? {
      var j :| j < k && RecordedAt(effects, j, effects[k].record);
      assert RecordedAt(more, j, effects[k].record);
    }
  }

  lemma ResendSafe(w: World, r: OrderRequestRecord, evidence: Evidence, sender: Sender)
    requires MaySend(r, sender)
    requires Safe(w) && AbsentSince(evidence, r.recordedNs) && exists j :: RecordedAt(w.effects, j, r)
    ensures Safe(w.(effects := w.effects + [Sent(r, true, evidence, sender)]))
  {
    var more := w.effects + [Sent(r, true, evidence, sender)];
    forall k | 0 <= k < |more|
      ensures Justified(more, k)
    {
      if k < |w.effects| {
        JustifiedPrefix(w.effects, more, k);
      } else {
        var j :| RecordedAt(w.effects, j, r);
        assert RecordedAt(more, j, r);
      }
    }
    assert forall k, q :: RecordedAt(more, k, q) ==> RecordedAt(w.effects, k, q);
  }

  lemma PersistSafe(w: World, last: int, r: OrderRequestRecord, evidence: Evidence, sender: Sender)
    requires MaySend(r, sender)
    requires Safe(w) && last <= w.nonces.allocator.last && NoncesBelow(w.effects, last)
    requires DurableRequest(w.effects, r.clientOrderId).None?
    requires r.allocatedNonce.Some? ==> last < r.allocatedNonce.value <= w.nonces.allocator.last
    ensures Safe(w.(effects := w.effects + [Recorded(r), Sent(r, false, evidence, sender)]))
  {
    var n := |w.effects|;
    var more := w.effects + [Recorded(r), Sent(r, false, evidence, sender)];
    DurableMeaning(w.effects, r.clientOrderId);
    assert forall k, q :: RecordedAt(more, k, q) && k < n ==> RecordedAt(w.effects, k, q);
    assert RecordedAt(more, n, r);
    forall k | 0 <= k < |more|
      ensures Justified(more, k)
    {
      if k < n {
        JustifiedPrefix(w.effects, more, k);
      }
    }
    assert forall k, q :: RecordedAt(more, k, q) ==> RecordedAt(w.effects, k, q) || (k == n && q == r);
  }

  lemma PersistAndSendSafe(w: World, last: int, c: Call, authority: Authority, nonce: Option<int>)
    requires Safe(w) && last <= w.nonces.allocator.last && NoncesBelow(w.effects, last)
    requires DurableRequest(w.effects, c.intent.clientOrderId).None?
    requires nonce.Some? ==> last < nonce.value <= w.nonces.allocator.last
    requires nonce.Some? ==> Nonce.LowerOk(nonce.value, c.nowMs) && Nonce.UpperOk(nonce.value, c.nowMs)
    ensures Safe(PersistAndSend(w, c, authority, nonce).0)
  {
    var r := BuildRequest(c.intent, c.decidedNs, w.nonces.allocator.account, authority.epoch, authority.instance,
        authority.wallet, nonce);
    if r.Success? {
      PersistSafe(w, last, r.value, c.evidence, SenderOf(w, c, authority));
    }
  }

  lemma AllocationSafe(w: World, step: Nonce.Step, v: Nonce.World)
    requires Safe(w) && Nonce.Next(w.nonces, step, v)
    ensures Safe(w.(nonces := v)) && w.nonces.allocator.last <= v.allocator.last
  {
    Nonce.NextKeepsGood(w.nonces, step, v);
  }

  lemma SubmitSafe(w: World, c: Call)
    requires Safe(w) && c.request == DurableRequest(w.effects, c.intent.clientOrderId)
    ensures Safe(Submit(w, c).0)
  {
    var decision := Decide(c.intent, c.evidence, c.request, c.history, c.nowNs, c.maxAge, c.maxAttempts);
    DurableMeaning(w.effects, c.intent.clientOrderId);
    if decision == Success(Resend) {
      if c.authority.Some? && MayResume(w, c, c.request.value, c.authority.value.wallet) {
        ResendSafe(w, c.request.value, c.evidence, SenderOf(w, c, c.authority.value));
      }
    } else if decision == Success(Persist) && c.authority.Some? {
      if c.intent.leg.BybitLeg? {
        PersistAndSendSafe(w, w.nonces.allocator.last, c, c.authority.value, None);
      } else {
        AllocateThenSendSafe(w, c);
      }
    }
  }

  lemma AllocateThenSendSafe(w: World, c: Call)
    requires Safe(w) && c.request.None? && DurableRequest(w.effects, c.intent.clientOrderId).None?
    requires c.authority.Some?
    ensures var (a, log, r) := Nonce.Allocate(w.nonces.allocator, w.nonces.log, c.nowMs, c.decidedNs, c.fenceHolds,
        c.nonceRecorderOk);
            var v := w.(nonces := Nonce.World(a, log));
            Safe(v) && (r.Granted? ==> Safe(PersistAndSend(v, c, c.authority.value, Some(r.nonce)).0))
  {
    var (a, log, r) := Nonce.Allocate(w.nonces.allocator, w.nonces.log, c.nowMs, c.decidedNs, c.fenceHolds,
        c.nonceRecorderOk);
    var v := w.(nonces := Nonce.World(a, log));
    AllocationSafe(w, Nonce.Allocation(c.nowMs, c.decidedNs, c.fenceHolds, c.nonceRecorderOk), v.nonces);
    if r.Granted? {
      PersistAndSendSafe(v, w.nonces.allocator.last, c, c.authority.value, Some(r.nonce));
    }
  }

  ghost predicate Run(worlds: seq<World>, steps: seq<Step>) {
    && |worlds| == |steps| + 1
    && forall k :: 0 <= k < |steps| ==> Next(worlds[k], steps[k], worlds[k + 1])
  }

  lemma RunStep(worlds: seq<World>, steps: seq<Step>, k: nat)
    requires Run(worlds, steps) && k < |steps|
    ensures Next(worlds[k], steps[k], worlds[k + 1])
  {
  }

  lemma NextSafe(w: World, step: Step, v: World)
    requires Safe(w) && Next(w, step, v)
    ensures Safe(v)
  {
    match step
    case Submitting(call) => SubmitSafe(w, call);
    case Allocating(nonceStep) => AllocationSafe(w, nonceStep, v.nonces);
  }

  lemma {:induction false} RunSafe(worlds: seq<World>, steps: seq<Step>, n: nat)
    requires Run(worlds, steps) && Safe(worlds[0]) && n < |worlds|
    ensures Safe(worlds[n])
  {
    if n > 0 {
      RunSafe(worlds, steps, n - 1);
      RunStep(worlds, steps, n - 1);
      NextSafe(worlds[n - 1], steps[n - 1], worlds[n]);
    }
  }

  lemma OneRecordPerClient(effects: seq<Effect>, j: nat, k: nat, q: OrderRequestRecord, r: OrderRequestRecord)
    requires forall i :: 0 <= i < |effects| ==> Justified(effects, i)
    requires RecordedAt(effects, j, q) && RecordedAt(effects, k, r) && q.clientOrderId == r.clientOrderId
    ensures j == k
  {
    assert Justified(effects, j) && Justified(effects, k);
  }

  /** j is the one record of the client order id that transport k carries, and k follows it as it must. */
  ghost predicate OnlyRecordOf(effects: seq<Effect>, k: int, j: int)
    requires SentAt(effects, k)
  {
    && j < k && RecordedAt(effects, j, effects[k].record) && MaySend(effects[k].record, effects[k].sender)
    && (if effects[k].again then AbsentSince(effects[k].evidence, effects[k].record.recordedNs) else j == k - 1)
    && forall i, r :: RecordedAt(effects, i, r) && r.clientOrderId == effects[k].record.clientOrderId ==> i == j
  }

  /**
   * On every run, every transport follows the durable record that it carries: the first one at once, and one that is
   * sent again only when the order was absent in queries of orders, fills and positions that were all made after the
   * record. No other record of the run has that client order id.
   */
  lemma TransportFollowsRecord(worlds: seq<World>, steps: seq<Step>, n: nat, k: nat)
    requires Run(worlds, steps) && worlds[0].effects == [] && Nonce.Good(worlds[0].nonces) && n < |worlds|
    requires SentAt(worlds[n].effects, k)
    ensures exists j :: OnlyRecordOf(worlds[n].effects, k, j)
  {
    RunSafe(worlds, steps, n);
    var effects := worlds[n].effects;
    assert Justified(effects, k);
    var j :| j < k && RecordedAt(effects, j, effects[k].record);
    forall i, r | RecordedAt(effects, i, r) && r.clientOrderId == effects[k].record.clientOrderId
      ensures i == j
    {
      OneRecordPerClient(effects, i, j, r, effects[k].record);
    }
    if !effects[k].again {
      assert RecordedAt(effects, k - 1, effects[k].record);
    }
    assert OnlyRecordOf(effects, k, j);
  }

  /**
   * All transports of one client order id carry the same record, nonce included, and any but the first happens only
   * when the order was absent in queries of orders, fills and positions that were all made after the record.
   */
  lemma NoCarelessResend(worlds: seq<World>, steps: seq<Step>, n: nat, i: nat, k: nat)
    requires Run(worlds, steps) && worlds[0].effects == [] && Nonce.Good(worlds[0].nonces) && n < |worlds|
    requires i < k && SentAt(worlds[n].effects, i) && SentAt(worlds[n].effects, k)
    requires worlds[n].effects[i].record.clientOrderId == worlds[n].effects[k].record.clientOrderId
    ensures var effects := worlds[n].effects;
            && effects[i].record == effects[k].record
            && effects[k].again
            && AbsentSince(effects[k].evidence, effects[k].record.recordedNs)
            && exists j :: j < i && RecordedAt(effects, j, effects[i].record)
  {
    RunSafe(worlds, steps, n);
    var effects := worlds[n].effects;
    assert Justified(effects, i) && Justified(effects, k);
    var j :| j < i && RecordedAt(effects, j, effects[i].record);
    var l :| l < k && RecordedAt(effects, l, effects[k].record);
    OneRecordPerClient(effects, j, l, effects[i].record, effects[k].record);
    if !effects[k].again {
      assert RecordedAt(effects, k - 1, effects[k].record);
      OneRecordPerClient(effects, j, k - 1, effects[i].record, effects[k].record);
    }
  }

  /** No two client orders of a run ever carry the same nonce. */
  lemma NoncesNeverShared(worlds: seq<World>, steps: seq<Step>, n: nat, i: nat, k: nat)
    requires Run(worlds, steps) && worlds[0].effects == [] && Nonce.Good(worlds[0].nonces) && n < |worlds|
    requires SentAt(worlds[n].effects, i) && SentAt(worlds[n].effects, k)
    requires worlds[n].effects[i].record.allocatedNonce.Some?
    requires worlds[n].effects[i].record.allocatedNonce == worlds[n].effects[k].record.allocatedNonce
    ensures worlds[n].effects[i].record == worlds[n].effects[k].record
  {
    RunSafe(worlds, steps, n);
    var effects := worlds[n].effects;
    assert Justified(effects, i) && Justified(effects, k);
    var j :| j < i && RecordedAt(effects, j, effects[i].record);
    var l :| l < k && RecordedAt(effects, l, effects[k].record);
    assert Justified(effects, j) && Justified(effects, l);
  }

  // ---------- the two legs of one signal ----------

  /** Numeric equality of quantities. */
  predicate SameQuantity(a: OrderIntent, b: OrderIntent) {
    if a.quantity.coefficient == 0 || b.quantity.coefficient == 0 then a.quantity.coefficient == b.quantity.coefficient
    else Canonical(a.quantity) == Canonical(b.quantity)
  }

  predicate PairMatches(hl: OrderIntent, bybit: OrderIntent) {
    && hl.leg.HyperliquidLeg? && hl.side.Sell? && !hl.reduceOnly
    && bybit.leg.BybitLeg? && bybit.side.Buy? && !bybit.reduceOnly
    && hl.strategyId == bybit.strategyId && hl.strategyVersion == bybit.strategyVersion
    && hl.signalNs == bybit.signalNs && hl.symbol == bybit.symbol && SameQuantity(hl, bybit)
  }

  /** The order opens a position on its leg and side. */
  predicate Opens(i: OrderIntent, leg: Leg, side: Side) {
    i.leg == leg && i.side == side && !i.reduceOnly
  }

  /** Two legs match exactly when one sells and one buys the same number of the same symbol for the same signal. */
  lemma PairIff(hl: OrderIntent, bybit: OrderIntent)
    ensures PairMatches(hl, bybit) <==>
            && Opens(hl, HyperliquidLeg, Sell) && Opens(bybit, BybitLeg, Buy)
            && (hl.strategyId, hl.strategyVersion, hl.signalNs, hl.symbol)
            == (bybit.strategyId, bybit.strategyVersion, bybit.signalNs, bybit.symbol)
            && Value(hl.quantity) == Value(bybit.quantity)
  {
    ZeroValue(hl.quantity);
    ZeroValue(bybit.quantity);
    if hl.quantity.coefficient > 0 && bybit.quantity.coefficient > 0 {
      CanonicalIffSameNumber(hl.quantity, bybit.quantity);
    }
  }

  lemma DurableAfter(effects: seq<Effect>, e: Effect, client: ClientOrderId)
    requires e.Recorded? ==> e.record.clientOrderId != client
    ensures DurableRequest(effects + [e], client) == DurableRequest(effects, client)
  {
    assert (effects + [e])[..|effects|] == effects;
  }

  /** Nothing was added, or a transport, or a record of this client order and its transport. */
  predicate AddsOwn(before: seq<Effect>, after: seq<Effect>, client: ClientOrderId) {
    var n := |before|;
    || after == before
    || (|after| == n + 1 && after == before + [after[n]] && after[n].Sent?)
    || (|after| == n + 2 && after == before + [after[n]] + [after[n + 1]] && after[n].Recorded? && after[n + 1].Sent?
        && after[n].record.clientOrderId == client)
  }

  lemma PersistAddsOwn(w: World, c: Call, authority: Authority, nonce: Option<int>)
    ensures AddsOwn(w.effects, PersistAndSend(w, c, authority, nonce).0.effects, c.intent.clientOrderId)
  {
    var r := BuildRequest(c.intent, c.decidedNs, w.nonces.allocator.account, authority.epoch, authority.instance,
                          authority.wallet, nonce);
    if r.Success? {
      var first, second := Recorded(r.value), Sent(r.value, false, c.evidence, SenderOf(w, c, authority));
      assert w.effects + [first, second] == w.effects + [first] + [second];
    }
  }

  lemma SubmitAddsOwn(w: World, c: Call)
    ensures AddsOwn(w.effects, Submit(w, c).0.effects, c.intent.clientOrderId)
  {
    if c.authority.Some? && c.request.None? {
      var (a, log, r) := Nonce.Allocate(w.nonces.allocator, w.nonces.log, c.nowMs, c.decidedNs, c.fenceHolds,
          c.nonceRecorderOk);
      PersistAddsOwn(w, c, c.authority.value, None);
      if r.Granted? {
        PersistAddsOwn(w.(nonces := Nonce.World(a, log)), c, c.authority.value, Some(r.nonce));
      }
    }
  }

  lemma OwnAddedOnly(before: seq<Effect>, after: seq<Effect>, own: ClientOrderId, client: ClientOrderId)
    requires AddsOwn(before, after, own) && own != client
    ensures DurableRequest(after, client) == DurableRequest(before, client)
  {
    var n := |before|;
    if |after| > n {
      DurableAfter(before, after[n], client);
      if |after| == n + 2 {
        DurableAfter(before + [after[n]], after[n + 1], client);
      }
    }
  }

  lemma SubmitRecordsOwnOnly(w: World, c: Call, client: ClientOrderId)
    requires c.intent.clientOrderId != client
    ensures DurableRequest(Submit(w, c).0.effects, client) == DurableRequest(w.effects, client)
  {
    SubmitAddsOwn(w, c);
    OwnAddedOnly(w.effects, Submit(w, c).0.effects, c.intent.clientOrderId, client);
  }

  /**
   * The legs of a pair never disturb each other: whatever became of the first, the second is still given its own
   * request.
   */
  lemma PairLegsIndependent(w: World, hl: Call, bybit: Call)
    requires PairMatches(hl.intent, bybit.intent) && ValidIntent(hl.intent) && ValidIntent(bybit.intent) && Safe(w)
    requires hl.request == DurableRequest(w.effects, hl.intent.clientOrderId)
    requires bybit.request == DurableRequest(w.effects, bybit.intent.clientOrderId)
    ensures var v := Submit(w, hl).0;
            && bybit.request == DurableRequest(v.effects, bybit.intent.clientOrderId)
            && Safe(Submit(v, bybit).0)
  {
    assert hl.intent.clientOrderId.leg != bybit.intent.clientOrderId.leg;
    SubmitRecordsOwnOnly(w, hl, bybit.intent.clientOrderId);
    SubmitSafe(w, hl);
    SubmitSafe(Submit(w, hl).0, bybit);
  }

  class Submitter {
    const allocator: Nonce.NonceAllocator
    var effects: seq<Effect>

    function State(): World
      reads this, allocator
    {
      World(Nonce.World(allocator.State(), allocator.log), effects)
    }

    constructor (allocator: Nonce.NonceAllocator)
      ensures this.allocator == allocator && effects == []
    {
      this.allocator := allocator;
      effects := [];
    }

    method PersistThenSend(c: Call, authority: Authority, nonce: Option<int>) returns (r: Result<Decision>)
      modifies this
      ensures (State(), r) == PersistAndSend(old(State()), c, authority, nonce)
    {
      var built := BuildRequest(c.intent, c.decidedNs, allocator.account, authority.epoch, authority.instance,
          authority.wallet, nonce);
      if built.Failure? {
        return Failure(built.error);
      }
      if !c.requestRecorderOk {
        return Failure("request recording failed");
      }
      var sent := Sent(built.value, false, c.evidence, Sender(allocator.account, authority.wallet, c.nowMs));
      effects := effects + [Recorded(built.value)] + [sent];
      assert effects == old(effects) + [Recorded(built.value), sent];
      return Success(Persist);
    }

    method SubmitOrder(c: Call) returns (r: Result<Decision>)
      modifies this, allocator
      ensures (State(), r) == Submit(old(State()), c)
      ensures forall d :: d in {Freeze, Reconcile, Hold, RejectStale} ==> (r == Success(d) <==>
                InOrder(c) && DemandsOf(c, d))
      ensures r.Success? && r.value in {Freeze, Reconcile, Hold, RejectStale} ==> State() == old(State())
      ensures r.Failure? ==> effects == old(effects)
    {
      ghost var w := State();
      forall d | d in {Freeze, Reconcile, Hold, RejectStale}
        ensures Submit(w, c).1 == Success(d) <==> InOrder(c) && DemandsOf(c, d)
        ensures Submit(w, c).1 == Success(d) ==> Submit(w, c).0 == w
      {
        AnswerWithoutTransport(w, c, d);
      }
      FailureSendsNothing(w, c);
      if !PositiveScalars(c) {
        return Failure("scalar must be positive");
      }
      r := Decide(c.intent, c.evidence, c.request, c.history, c.nowNs, c.maxAge, c.maxAttempts);
      if r.Failure? || (r.value != Persist && r.value != Resend) {
        return;
      }
      if c.authority.None? {
        return Failure("writer action not authorized");
      }
      var authority := c.authority.value;
      if c.request.Some? {
        if !MayResume(State(), c, c.request.value, authority.wallet) {
          return Failure("resume request mismatch");
        }
        var sender := Sender(allocator.account, authority.wallet, c.nowMs);
        effects := effects + [Sent(c.request.value, true, c.evidence, sender)];
        return Success(Resend);
      }
      if c.intent.leg.BybitLeg? {
        r := PersistThenSend(c, authority, None);
        return;
      }
      var granted := allocator.AllocateNonce(c.nowMs, c.decidedNs, c.fenceHolds, c.nonceRecorderOk);
      if !granted.Granted? {
        return Failure("signer nonce not allocated");
      }
      r := PersistThenSend(c, authority, Some(granted.nonce));
    }

    /** Submits both legs in order, Hyperliquid first, and keeps both outcomes whatever the first one was. */
    method SubmitPair(hl: Call, bybit: Call) returns (outcome: Result<(Result<Decision>, Result<Decision>)>)
      modifies this, allocator
      ensures if !PairMatches(hl.intent, bybit.intent) then State() == old(State()) && outcome.Failure?
              else
                var first := Submit(old(State()), hl);
                var second := Submit(first.0, bybit);
                State() == second.0 && outcome == Success((first.1, second.1))
    {
      if !PairMatches(hl.intent, bybit.intent) {
        return Failure("pair intents do not match");
      }
      var first := SubmitOrder(hl);
      var second := SubmitOrder(bybit);
      return Success((first, second));
    }
  }
}
