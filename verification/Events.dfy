/** Durable events, as far as cross-event analysis reads them. */
module Events {
  import opened Common

  datatype EventVenue = HyperliquidVenue | BybitVenue

  datatype OrderStatus =
    | OrderPending
    | OrderOpen
    | OrderPartiallyFilled
    | OrderFilled
    | OrderCancelled
    | OrderRejected
    | OrderAbsent
    | OrderUnknown

  /** rest stands for every field the analysis does not read, so that equal events have equal encodings. */
  datatype Payload =
    | LedgerEntry(entryId: string)
    | LeaseAcquired(account: string, epoch: int, instance: string, wallet: string)
    | NonceAllocated(account: string, instance: string, wallet: string, nonce: int)
    | OrderRequest(account: string, epoch: int, instance: string, wallet: string, allocatedNonce: Option<int>)
    | OrderObservation(status: OrderStatus, observedNs: int)
    | OtherPayload

  datatype Event = Event(
    recvNs: int, bootId: string, seqWithinBoot: int,
    venue: EventVenue, clientOrderId: string, venueOrderId: Option<string>,
    payload: Payload, rest: string)

  datatype OrderBinding = OrderBinding(venue: EventVenue, clientOrderId: string, venueOrderId: string)

  datatype Reason =
    | OrderKeyConflict
    | EntryIdConflict(entryId: string)
    | LeaseEpochConflict(account: string, epoch: int)
    | NonceAllocationMissing(wallet: string, nonce: int)
    | NonceAllocationBindingMismatch(wallet: string, nonce: int)
    | NonceAllocationNotPrior(wallet: string, nonce: int)
    | LeaseBindingMismatch(account: string, epoch: int)
    | LeaseWalletMismatch(account: string, epoch: int)
    | NonceReuse(wallet: string, nonce: int)
    | ClientOrderIdConflict(venue: EventVenue, clientOrderId: string)
    | VenueOrderIdConflict(venue: EventVenue, venueOrderId: string)
    | RequestNotPrior(venue: EventVenue, clientOrderId: string)

  // ---------- the order key ----------

  /** Lexicographic order on text. */
  predicate TextBefore(a: string, b: string) {
    b != [] && (a == [] || a[0] < b[0] || (a[0] == b[0] && TextBefore(a[1..], b[1..])))
  }

  lemma {:induction false} TextTotal(a: string, b: string)
    ensures TextBefore(a, b) || TextBefore(b, a) || a == b
    ensures !(TextBefore(a, b) && TextBefore(b, a))
    ensures TextBefore(a, b) ==> a != b
  {
    if a != [] && b != [] {
      TextTotal(a[1..], b[1..]);
      assert a == [a[0]] + a[1..] && b == [b[0]] + b[1..];
    }
  }

  lemma {:induction false} TextTransitive(a: string, b: string, c: string)
    requires TextBefore(a, b) && TextBefore(b, c)
    ensures TextBefore(a, c)
  {
    if a != [] && a[0] == b[0] == c[0] {
      TextTransitive(a[1..], b[1..], c[1..]);
    }
  }

  datatype Key = Key(recvNs: int, bootId: string, seqWithinBoot: int)

  function KeyOf(e: Event): Key {
    Key(e.recvNs, e.bootId, e.seqWithinBoot)
  }

  predicate KeyBefore(a: Key, b: Key) {
    || a.recvNs < b.recvNs
    || (a.recvNs == b.recvNs && TextBefore(a.bootId, b.bootId))
    || (a.recvNs == b.recvNs && a.bootId == b.bootId && a.seqWithinBoot < b.seqWithinBoot)
  }

  lemma KeyTotal(a: Key, b: Key)
    ensures KeyBefore(a, b) || KeyBefore(b, a) || a == b
    ensures !(KeyBefore(a, b) && KeyBefore(b, a))
    ensures KeyBefore(a, b) ==> a != b
  {
    TextTotal(a.bootId, b.bootId);
  }

  lemma KeyTransitive(a: Key, b: Key, c: Key)
    requires KeyBefore(a, b) && KeyBefore(b, c)
    ensures KeyBefore(a, c)
  {
    if a.recvNs == b.recvNs == c.recvNs {
      if TextBefore(a.bootId, b.bootId) && TextBefore(b.bootId, c.bootId) {
        TextTransitive(a.bootId, b.bootId, c.bootId);
      }
    }
  }
}
