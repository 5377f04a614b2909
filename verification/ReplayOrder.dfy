/** Which client order id and venue order id the observations of a window tie together. */
module ReplayOrder {
  import opened Common
  import opened Events
  import OrderBindings

  type Bindings = set<OrderBinding>
  type IdTable = map<(EventVenue, string), set<string>>

  predicate ObservesAt(events: seq<Event>, i: int, b: OrderBinding) {
    && 0 <= i < |events|
    && events[i].payload.OrderObservation?
    && events[i].venue == b.venue
    && events[i].clientOrderId == b.clientOrderId
    && events[i].venueOrderId == Some(b.venueOrderId)
  }

  predicate NamesAt(events: seq<Event>, i: int, venue: EventVenue, client: string) {
    && 0 <= i < |events|
    && events[i].payload.OrderObservation?
    && events[i].venue == venue
    && events[i].clientOrderId == client
    && events[i].venueOrderId.Some?
  }

  predicate RequestedAt(events: seq<Event>, i: int, venue: EventVenue, client: string) {
    OrderBindings.RequestsAt(events, i) && events[i].venue == venue && events[i].clientOrderId == client
  }

  /** Observation i names an order whose first request in the window does not come before it. */
  ghost predicate Premature(events: seq<Event>, i: int, venue: EventVenue, client: string) {
    && NamesAt(events, i, venue, client)
    && (exists k :: RequestedAt(events, k, venue, client))
    && forall k :: 0 <= k < i ==> !RequestedAt(events, k, venue, client)
  }

  ghost predicate SameClientTwoOrders(bindings: Bindings, a: OrderBinding, b: OrderBinding, venue: EventVenue,
                                      client: string) {
    && a in bindings && b in bindings && a.venue == b.venue == venue
    && a.clientOrderId == b.clientOrderId == client && a.venueOrderId != b.venueOrderId
  }

  ghost predicate SameOrderTwoClients(bindings: Bindings, a: OrderBinding, b: OrderBinding, venue: EventVenue,
                                      oid: string) {
    && a in bindings && b in bindings && a.venue == b.venue == venue
    && a.venueOrderId == b.venueOrderId == oid && a.clientOrderId != b.clientOrderId
  }

  ghost predicate BindingConflict(bindings: Bindings, r: Reason) {
    match r
    case ClientOrderIdConflict(venue, client) => exists a, b :: SameClientTwoOrders(bindings, a, b, venue, client)
    case VenueOrderIdConflict(venue, oid) => exists a, b :: SameOrderTwoClients(bindings, a, b, venue, oid)
    case _ => false
  }

  ghost predicate Reported(events: seq<Event>, bindings: Bindings, r: Reason) {
    || BindingConflict(bindings, r)
    || (r.RequestNotPrior? && exists i :: Premature(events, i, r.venue, r.clientOrderId))
  }

  /** Within each venue the observed relation pairs each client order with one venue order and back. */
  ghost predicate OneToOne(bindings: Bindings) {
    forall a, b :: a in bindings && b in bindings && a.venue == b.venue ==>
      (a.clientOrderId == b.clientOrderId <==> a.venueOrderId == b.venueOrderId)
  }

  lemma NoConflictIffOneToOne(bindings: Bindings)
    ensures (forall r :: !BindingConflict(bindings, r)) <==> OneToOne(bindings)
  {
    if forall r :: !BindingConflict(bindings, r) {
      forall a, b | a in bindings && b in bindings && a.venue == b.venue
        ensures a.clientOrderId == b.clientOrderId <==> a.venueOrderId == b.venueOrderId
      {
        assert !BindingConflict(bindings, ClientOrderIdConflict(a.venue, a.clientOrderId));
        assert !SameClientTwoOrders(bindings, a, b, a.venue, a.clientOrderId);
        assert !BindingConflict(bindings, VenueOrderIdConflict(a.venue, a.venueOrderId));
        assert !SameOrderTwoClients(bindings, a, b, a.venue, a.venueOrderId);
      }
    }
  }

  // ---------- the conflict tables ----------

  ghost predicate ClientsIndexed(table: IdTable, bindings: Bindings) {
    forall v, c, o :: ((v, c) in table && o in table[(v, c)]) <==> OrderBinding(v, c, o) in bindings
  }

  ghost predicate OrdersIndexed(table: IdTable, bindings: Bindings) {
    forall v, o, c :: ((v, o) in table && c in table[(v, o)]) <==> OrderBinding(v, c, o) in bindings
  }

  function Added(table: IdTable, key: (EventVenue, string), id: string): IdTable {
    table[key := (if key in table then table[key] else {}) + {id}]
  }

  lemma ClientReason(table: IdTable, bindings: Bindings, v: EventVenue, c: string)
    requires ClientsIndexed(table, bindings)
    ensures ((v, c) in table && |table[(v, c)]| > 1) <==> BindingConflict(bindings, ClientOrderIdConflict(v, c))
  {
    if (v, c) in table {
      var ids := table[(v, c)];
      OrderBindings.SeveralMembers(ids);
      if o, p :| o in ids && p in ids && o != p {
        assert SameClientTwoOrders(bindings, OrderBinding(v, c, o), OrderBinding(v, c, p), v, c);
      }
    }
    if a, b :| SameClientTwoOrders(bindings, a, b, v, c) {
      assert a == OrderBinding(v, c, a.venueOrderId) && b == OrderBinding(v, c, b.venueOrderId);
    }
  }

  lemma OrderReason(table: IdTable, bindings: Bindings, v: EventVenue, o: string)
    requires OrdersIndexed(table, bindings)
    ensures ((v, o) in table && |table[(v, o)]| > 1) <==> BindingConflict(bindings, VenueOrderIdConflict(v, o))
  {
    if (v, o) in table {
      var ids := table[(v, o)];
      OrderBindings.SeveralMembers(ids);
      if c, d :| c in ids && d in ids && c != d {
        assert SameOrderTwoClients(bindings, OrderBinding(v, c, o), OrderBinding(v, d, o), v, o);
      }
    }
    if a, b :| SameOrderTwoClients(bindings, a, b, v, o) {
      assert a == OrderBinding(v, a.clientOrderId, o) && b == OrderBinding(v, b.clientOrderId, o);
    }
  }

  function ClientReasons(table: IdTable): (reasons: set<Reason>)
    ensures forall r :: r in reasons <==>
              r.ClientOrderIdConflict? && (r.venue, r.clientOrderId) in table && |table[(r.venue, r.clientOrderId)]| > 1
  {
    set k | k in table && |table[k]| > 1 :: ClientOrderIdConflict(k.0, k.1)
  }

  function OrderReasons(table: IdTable): (reasons: set<Reason>)
    ensures forall r :: r in reasons <==>
              r.VenueOrderIdConflict? && (r.venue, r.venueOrderId) in table && |table[(r.venue, r.venueOrderId)]| > 1
  {
    set k | k in table && |table[k]| > 1 :: VenueOrderIdConflict(k.0, k.1)
  }

  lemma ClientsIndexedAdd(table: IdTable, bindings: Bindings, b: OrderBinding)
    requires ClientsIndexed(table, bindings)
    ensures ClientsIndexed(Added(table, (b.venue, b.clientOrderId), b.venueOrderId), bindings + {b})
  {
  }

  lemma OrdersIndexedAdd(table: IdTable, bindings: Bindings, b: OrderBinding)
    requires OrdersIndexed(table, bindings)
    ensures OrdersIndexed(Added(table, (b.venue, b.venueOrderId), b.clientOrderId), bindings + {b})
  {
  }

  ghost predicate Indexed(clients: IdTable, orders: IdTable, bindings: Bindings) {
    ClientsIndexed(clients, bindings) && OrdersIndexed(orders, bindings)
  }

  lemma IndexedAdd(clients: IdTable, orders: IdTable, bindings: Bindings, left: Bindings, b: OrderBinding)
    requires b in left && left <= bindings && Indexed(clients, orders, bindings - left)
    ensures Indexed(Added(clients, (b.venue, b.clientOrderId), b.venueOrderId),
                    Added(orders, (b.venue, b.venueOrderId), b.clientOrderId), bindings - (left - {b}))
  {
    ClientsIndexedAdd(clients, bindings - left, b);
    OrdersIndexedAdd(orders, bindings - left, b);
    assert bindings - (left - {b}) == (bindings - left) + {b};
  }

  lemma IndexedReasons(clients: IdTable, orders: IdTable, bindings: Bindings, r: Reason)
    requires Indexed(clients, orders, bindings)
    ensures r in ClientReasons(clients) + OrderReasons(orders) <==> BindingConflict(bindings, r)
  {
    match r
    case ClientOrderIdConflict(v, c) => ClientReason(clients, bindings, v, c);
    case VenueOrderIdConflict(v, o) => OrderReason(orders, bindings, v, o);
    case _ =>
  }

  /** Reports a reason exactly for each identifier that is bound twice within a venue. */
  method BindingConflicts(bindings: Bindings) returns (reasons: set<Reason>)
    ensures forall r :: r in reasons <==> BindingConflict(bindings, r)
  {
    var clientOids: IdTable := map[];
    var oidClients: IdTable := map[];
    var left := bindings;
    while left != {}
      invariant left <= bindings
      invariant Indexed(clientOids, oidClients, bindings - left)
      decreases |left|
    {
      var b :| b in left;
      IndexedAdd(clientOids, oidClients, bindings, left, b);
      clientOids := Added(clientOids, (b.venue, b.clientOrderId), b.venueOrderId);
      oidClients := Added(oidClients, (b.venue, b.venueOrderId), b.clientOrderId);
      left := left - {b};
    }
    assert bindings - left == bindings;
    reasons := ClientReasons(clientOids) + OrderReasons(oidClients);
    forall r: Reason | true
      ensures r in reasons <==> BindingConflict(bindings, r)
    {
      IndexedReasons(clientOids, oidClients, bindings, r);
    }
  }

  // ---------- the evidence pass ----------

  type RequestTable = map<(EventVenue, string), nat>

  ghost predicate RequestsIndexed(table: RequestTable, events: seq<Event>, n: nat) {
    forall v, c :: RequestIndexed(table, events, n, v, c)
  }

  ghost predicate RequestIndexed(table: RequestTable, events: seq<Event>, n: nat, v: EventVenue, c: string) {
    if (v, c) in table then
      && table[(v, c)] < n
      && RequestedAt(events, table[(v, c)], v, c)
      && forall k :: 0 <= k < table[(v, c)] ==> !RequestedAt(events, k, v, c)
    else forall k :: 0 <= k < n ==> !RequestedAt(events, k, v, c)
  }

  method IndexRequests(events: seq<Event>) returns (requests: RequestTable, observations: seq<nat>)
    ensures RequestsIndexed(requests, events, |events|)
    ensures forall i :: i in observations <==>
              0 <= i < |events| && events[i].payload.OrderObservation? && events[i].venueOrderId.Some?
  {
    requests, observations := map[], [];
    for i := 0 to |events|
      invariant RequestsIndexed(requests, events, i)
      invariant forall k :: k in observations <==>
                  0 <= k < i && events[k].payload.OrderObservation? && events[k].venueOrderId.Some?
    {
      var e := events[i];
      ghost var before := requests;
      if e.payload.OrderRequest? {
        requests := OrderBindings.SetDefault(requests, (e.venue, e.clientOrderId), i);
      } else if e.payload.OrderObservation? && e.venueOrderId.Some? {
        observations := observations + [i];
      }
      ghost var next := i + 1;
      forall v, c | true
        ensures RequestIndexed(requests, events, next, v, c)
      {
        assert RequestIndexed(before, events, i, v, c);
      }
    }
  }

  ghost predicate Gathered(events: seq<Event>, observations: seq<nat>, m: nat, bindings: Bindings, reasons: set<Reason>)
    requires m <= |observations|
  {
    && (forall b :: b in bindings <==> exists j :: 0 <= j < m && ObservesAt(events, observations[j], b))
    && (forall r :: r in reasons <==>
          && r.RequestNotPrior?
          && exists j :: 0 <= j < m && Premature(events, observations[j], r.venue, r.clientOrderId))
  }

  method ObservationBindingEvidence(events: seq<Event>) returns (bindings: Bindings, reasons: set<Reason>)
    ensures forall b :: b in bindings <==> exists i :: ObservesAt(events, i, b)
    ensures forall r :: r in reasons <==> Reported(events, bindings, r)
  {
    var requests, observations := IndexRequests(events);
    bindings, reasons := {}, {};
    for m := 0 to |observations|
      invariant Gathered(events, observations, m, bindings, reasons)
    {
      var i := observations[m];
      assert i in observations;
      var e := events[i];
      var binding := OrderBinding(e.venue, e.clientOrderId, e.venueOrderId.value);
      var key := (e.venue, e.clientOrderId);
      assert RequestIndexed(requests, events, |events|, e.venue, e.clientOrderId);
      assert Premature(events, i, e.venue, e.clientOrderId) <==> key in requests && requests[key] >= i;
      assert ObservesAt(events, i, binding);
      bindings := bindings + {binding};
      if key in requests && requests[key] >= i {
        reasons := reasons + {RequestNotPrior(e.venue, e.clientOrderId)};
      }
    }
    var conflicts := BindingConflicts(bindings);
    assert forall i, b :: ObservesAt(events, i, b) ==> i in observations;
    assert forall i, v, c :: Premature(events, i, v, c) ==> i in observations;
    reasons := reasons + conflicts;
  }
}
