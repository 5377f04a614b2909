/** Order identity and its durable form: the client id names an order by the numeric value of its quantity. */
module OrderIdentity {
  import opened Common
  import opened Decimals
  import opened DecimalText

  datatype Leg = HyperliquidLeg | BybitLeg

  datatype Symbol = BTC | ETH

  datatype Side = Buy | Sell

  // ---------- canonical quantity ----------

  /** Sign, significant digits and exponent. */
  type CanonicalQuantity = (bool, seq<Digit>, int)

  function Canonical(q: Dec): CanonicalQuantity
    requires q.coefficient > 0
  {
    var s := Strip(q.coefficient, q.exponent);
    (q.negative, DigitsOf(s.0), s.1)
  }

  lemma DigitsEnd(c: nat)
    ensures var ds := DigitsOf(c); ds[|ds| - 1] == c % 10
    ensures c >= 10 ==> var ds := DigitsOf(c); ds[..|ds| - 1] == DigitsOf(c / 10)
  {
  }

  /** The stripping loop stops, and leaves the one canonical triple of the quantity. */
  method StripQuantity(q: Dec) returns (r: CanonicalQuantity)
    requires q.coefficient > 0
    ensures r == Canonical(q)
  {
    var coefficient, exponent := DigitsOf(q.coefficient), q.exponent;
    ghost var c: nat := q.coefficient;
    DigitsEnd(c);
    while coefficient[|coefficient| - 1] == 0
      invariant c > 0 && coefficient == DigitsOf(c) && coefficient[|coefficient| - 1] == c % 10
      invariant Strip(c, exponent) == Strip(q.coefficient, q.exponent)
      decreases |coefficient|
    {
      coefficient := coefficient[..|coefficient| - 1];
      exponent := exponent + 1;
      c := c / 10;
      DigitsEnd(c);
    }
    return (q.negative, coefficient, exponent);
  }

  lemma DigitsInjective(a: nat, b: nat)
    ensures DigitsOf(a) == DigitsOf(b) ==> a == b
  {
    DigitsRoundTrip(a);
    DigitsRoundTrip(b);
  }

  /** Two positive quantities share a canonical triple exactly when they are the same number. */
  lemma CanonicalIffSameNumber(a: Dec, b: Dec)
    requires a.coefficient > 0 && b.coefficient > 0
    ensures Canonical(a) == Canonical(b) <==> Value(a) == Value(b)
  {
    var s, t := Strip(a.coefficient, a.exponent), Strip(b.coefficient, b.exponent);
    StripValue(a.negative, a.coefficient, a.exponent);
    StripValue(b.negative, b.coefficient, b.exponent);
    DigitsInjective(s.0, t.0);
    if Value(a) == Value(b) {
      StrippedUnique(Dec(a.negative, s.0, s.1), Dec(b.negative, t.0, t.1));
    }
  }

  // ---------- intents ----------

  /** What the client id hashes; the hash is injective, so the preimage stands for it. */
  datatype ClientOrderId = ClientOrderId(
    strategyId: string, strategyVersion: string, signalNs: int, leg: Leg, symbol: Symbol, side: Side,
    quantity: CanonicalQuantity, reduceOnly: bool, ordinal: int)

  datatype OrderIntent = OrderIntent(
    strategyId: string, strategyVersion: string, signalNs: int, leg: Leg, symbol: Symbol, side: Side,
    quantity: Dec, reduceOnly: bool, replacementOrdinal: int, clientOrderId: ClientOrderId)

  predicate Positive(q: Dec) {
    !q.negative && q.coefficient > 0
  }

  function RehydrateIntent(strategyId: string, strategyVersion: string, signalNs: int, leg: Leg, symbol: Symbol,
                           side: Side,
                           quantity: Dec, reduceOnly: bool, ordinal: int): Result<OrderIntent> {
    if strategyId == "" then Failure("invalid strategy_id")
    else if strategyVersion == "" then Failure("invalid strategy_version")
    else if signalNs < 0 then Failure("invalid signal_ns")
    else if !Positive(quantity) then Failure("invalid quantity")
    else if ordinal < 0 then Failure("invalid replacement_ordinal")
    else
      Success(OrderIntent(strategyId, strategyVersion, signalNs, leg, symbol, side, quantity, reduceOnly, ordinal,
                          ClientOrderId(strategyId, strategyVersion, signalNs, leg, symbol, side, Canonical(quantity),
                              reduceOnly, ordinal)))
  }

  /** The intent is exactly what its own fields rebuild. */
  predicate ValidIntent(i: OrderIntent) {
    RehydrateIntent(i.strategyId, i.strategyVersion, i.signalNs, i.leg, i.symbol, i.side, i.quantity, i.reduceOnly,
        i.replacementOrdinal)
    == Success(i)
  }

  /**
   * An intent is built exactly from named strategies, a nonnegative signal time and ordinal, and a quantity above
   * zero; it keeps what it was built from.
   */
  lemma IntentIff(strategyId: string, strategyVersion: string, signalNs: int, leg: Leg, symbol: Symbol, side: Side,
                  quantity: Dec, reduceOnly: bool, ordinal: int)
    ensures var r := RehydrateIntent(strategyId, strategyVersion, signalNs, leg, symbol, side, quantity, reduceOnly,
                                     ordinal);
            && (r.Success? <==>
                  && |strategyId| >= 1 && |strategyVersion| >= 1 && signalNs >= 0 && ordinal >= 0
                  && Value(quantity) > 0.0)
            && (r.Success? ==>
                  r.value == OrderIntent(strategyId, strategyVersion, signalNs, leg, symbol, side, quantity, reduceOnly,
                                         ordinal, r.value.clientOrderId))
  {
    ValueSign(quantity);
    ZeroValue(quantity);
  }

  /** Valid intents share a client id exactly when they agree in every field, quantities compared as numbers. */
  lemma SameClientIdIffSameOrder(a: OrderIntent, b: OrderIntent)
    requires ValidIntent(a) && ValidIntent(b)
    ensures a.clientOrderId == b.clientOrderId <==>
            a.(quantity := b.quantity, clientOrderId := b.clientOrderId) == b && Value(a.quantity) == Value(b.quantity)
  {
    CanonicalIffSameNumber(a.quantity, b.quantity);
  }

  // ---------- request records ----------

  predicate HexDigest(s: string) {
    |s| == 64 && forall c :: c in s ==> '0' <= c <= '9' || 'a' <= c <= 'f'
  }

  datatype OrderRequestRecord = OrderRequestRecord(
    strategyId: string, strategyVersion: string, signalNs: int, leg: Leg, replacementOrdinal: int,
    clientOrderId: ClientOrderId, recordedNs: int,
    accountDigest: string, leaseEpoch: int, writerInstanceId: string, walletFingerprint: string,
    allocatedNonce: Option<int>)

  predicate LeaseBound(leg: Leg, account: string, epoch: int, instance: string, wallet: string, nonce: Option<int>) {
    && HexDigest(account) && HexDigest(wallet) && epoch > 0 && instance != ""
    && (leg.HyperliquidLeg? ==> nonce.Some? && nonce.value > 0)
    && (leg.BybitLeg? ==> nonce.None?)
  }

  function BuildRequest(i: OrderIntent, recordedNs: int, account: string, epoch: int, instance: string, wallet: string,
                        nonce: Option<int>): Result<OrderRequestRecord> {
    if !ValidIntent(i) then Failure("invalid client_order_id")
    else if recordedNs < i.signalNs then Failure("invalid recorded_ns")
    else if !LeaseBound(i.leg, account, epoch, instance, wallet, nonce) then
      Failure("invalid order request lease binding")
    else Success(OrderRequestRecord(i.strategyId, i.strategyVersion, i.signalNs, i.leg, i.replacementOrdinal,
                                    i.clientOrderId, recordedNs, account, epoch, instance, wallet, nonce))
  }

  /**
   * A request is built exactly for a valid intent, not before its signal, under proper digests, a positive epoch and a
   * named writer, with a positive nonce on Hyperliquid and none on Bybit.
   */
  lemma RequestIff(i: OrderIntent, recordedNs: int, account: string, epoch: int, instance: string, wallet: string,
                   nonce: Option<int>)
    ensures BuildRequest(i, recordedNs, account, epoch, instance, wallet, nonce).Success? <==>
              && ValidIntent(i) && i.signalNs <= recordedNs
              && HexDigest(account) && HexDigest(wallet) && epoch >= 1 && |instance| >= 1
              && (if i.leg == BybitLeg then nonce == None else exists n :: nonce == Some(n) && n >= 1)
  {
  }

  // ---------- the durable event ----------

  /** Envelope fields the caller supplies: connection, boot, clocks, source and sequence. */
  datatype Envelope = Envelope(connId: string, bootId: string, recvWallNs: nat, recvMonoNs: nat, source: string,
      sequence: nat)

  datatype RequestPayload = RequestPayload(
    strategyId: string, strategyVersion: string, signalNs: int, leg: Leg, replacementOrdinal: int, recordedNs: int,
    accountDigest: string, leaseEpoch: int, writerInstanceId: string, walletFingerprint: string,
    allocatedNonce: Option<int>,
    symbol: Symbol, side: Side, quantity: string, reduceOnly: bool)

  datatype RequestEvent = RequestEvent(envelope: Envelope, venue: Leg, clientOrderId: ClientOrderId,
      payload: RequestPayload)

  /** The request checks of the envelope validator, for events that carry every bound field. */
  predicate ValidEvent(e: RequestEvent) {
    var p := e.payload;
    && e.envelope.connId != "" && e.envelope.bootId != "" && e.envelope.source != ""
    && LeaseBound(e.venue, p.accountDigest, p.leaseEpoch, p.writerInstanceId, p.walletFingerprint, p.allocatedNonce)
    && p.strategyId != "" && p.strategyVersion != "" && 0 <= p.signalNs <= p.recordedNs && p.replacementOrdinal >= 0
    && ParseDecimal(p.quantity).Some? && Positive(ParseDecimal(p.quantity).value)
    && p.leg == e.venue
  }

  function PayloadOf(i: OrderIntent, r: OrderRequestRecord): RequestPayload {
    RequestPayload(r.strategyId, r.strategyVersion, r.signalNs, r.leg, r.replacementOrdinal, r.recordedNs,
                   r.accountDigest, r.leaseEpoch, r.writerInstanceId, r.walletFingerprint, r.allocatedNonce,
                   i.symbol, i.side, ToText(i.quantity), i.reduceOnly)
  }

  function SerializeOrderRequest(i: OrderIntent, r: OrderRequestRecord, envelope: Envelope): Result<RequestEvent> {
    var rebuilt := BuildRequest(i, r.recordedNs, r.accountDigest, r.leaseEpoch, r.writerInstanceId, r.walletFingerprint,
                                r.allocatedNonce);
    if rebuilt != Success(r) then Failure("record does not match intent")
    else
      var event := RequestEvent(envelope, i.leg, i.clientOrderId, PayloadOf(i, r));
      if ValidEvent(event) then Success(event) else Failure("invalid envelope")
  }

  function RehydrateOrderRequest(e: RequestEvent): Result<(OrderIntent, OrderRequestRecord)> {
    if !ValidEvent(e) then Failure("invalid envelope")
    else
      var p := e.payload;
      match RehydrateIntent(p.strategyId, p.strategyVersion, p.signalNs, p.leg, p.symbol, p.side,
                            ParseDecimal(p.quantity).value, p.reduceOnly, p.replacementOrdinal)
      case Failure(error) => Failure(error)
      case Success(intent) =>
        if intent.clientOrderId != e.clientOrderId then Failure("client_order_id mismatch")
        else
          match BuildRequest(intent, p.recordedNs, p.accountDigest, p.leaseEpoch, p.writerInstanceId,
                             p.walletFingerprint, p.allocatedNonce)
          case Failure(error) => Failure(error)
          case Success(record) => Success((intent, record))
  }

  /**
   * A durable event is read back exactly when its envelope is filled in, its quantity reads as a number above zero, and
   * its fields build an intent of its own client order id and a request for it.
   */
  lemma RehydrateIff(e: RequestEvent)
    ensures var p := e.payload;
            RehydrateOrderRequest(e).Success? <==>
              && |e.envelope.connId| >= 1 && |e.envelope.bootId| >= 1 && |e.envelope.source| >= 1
              && |p.strategyId| >= 1 && |p.strategyVersion| >= 1 && 0 <= p.signalNs <= p.recordedNs
              && p.replacementOrdinal >= 0
              && HexDigest(p.accountDigest) && HexDigest(p.walletFingerprint) && p.leaseEpoch >= 1
              && |p.writerInstanceId| >= 1
              && (if p.leg == BybitLeg then p.allocatedNonce == None
                  else exists n :: p.allocatedNonce == Some(n) && n >= 1)
              && ParseDecimal(p.quantity).Some?
              && !ParseDecimal(p.quantity).value.negative && ParseDecimal(p.quantity).value.coefficient >= 1
              && p.leg == e.venue
              && e.clientOrderId
              == ClientOrderId(p.strategyId, p.strategyVersion, p.signalNs, p.leg, p.symbol, p.side,
                               Canonical(ParseDecimal(p.quantity).value), p.reduceOnly, p.replacementOrdinal)
  {
  }

  /** A built request always serializes, and rehydrating the event returns the same intent and record. */
  lemma SerializeRoundTrip(i: OrderIntent, recordedNs: int, account: string, epoch: int, instance: string,
                           wallet: string, nonce: Option<int>, envelope: Envelope)
    requires BuildRequest(i, recordedNs, account, epoch, instance, wallet, nonce).Success?
    requires envelope.connId != "" && envelope.bootId != "" && envelope.source != ""
    ensures var r := BuildRequest(i, recordedNs, account, epoch, instance, wallet, nonce).value;
            var event := SerializeOrderRequest(i, r, envelope);
            event.Success? && RehydrateOrderRequest(event.value) == Success((i, r))
  {
    TextRoundTrip(i.quantity);
  }

  /**
   * Whatever rehydrates came from a serializable pair: serializing it again restores the event, its quantity
   * reprinted.
   */
  lemma RehydrateRoundTrip(e: RequestEvent)
    requires RehydrateOrderRequest(e).Success?
    ensures var (i, r) := RehydrateOrderRequest(e).value;
            && SerializeOrderRequest(i, r, e.envelope)
            == Success(e.(payload := e.payload.(quantity := ToText(i.quantity))))
            && ParseDecimal(e.payload.quantity) == Some(i.quantity)
            && i.clientOrderId == e.clientOrderId
  {
    TextRoundTrip(RehydrateOrderRequest(e).value.0.quantity);
  }
}
