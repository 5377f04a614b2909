/** Conflicts between order requests, nonce allocations, leases and observations in one replayed window. */
module OrderBindings {
  import opened Common
  import opened Events

  type Signed = (string, int)

  // ---------- the facts a log states ----------

  predicate AllocatesAt(events: seq<Event>, i: int, wallet: string, nonce: int) {
    && 0 <= i < |events|
    && events[i].payload.NonceAllocated?
    && events[i].payload.wallet == wallet
    && events[i].payload.nonce == nonce
  }

  predicate AcquiresAt(events: seq<Event>, i: int, account: string, epoch: int) {
    && 0 <= i < |events|
    && events[i].payload.LeaseAcquired?
    && events[i].payload.account == account
    && events[i].payload.epoch == epoch
  }

  predicate RequestsAt(events: seq<Event>, i: int) {
    0 <= i < |events| && events[i].payload.OrderRequest?
  }

  predicate SpendsAt(events: seq<Event>, i: int, wallet: string, nonce: int) {
    && RequestsAt(events, i)
    && events[i].venue.HyperliquidVenue?
    && events[i].payload.wallet == wallet
    && events[i].payload.allocatedNonce == Some(nonce)
  }

  /** Position i is where the wallet's nonce was first allocated. */
  ghost predicate FirstAllocation(events: seq<Event>, i: int, wallet: string, nonce: int) {
    AllocatesAt(events, i, wallet, nonce) && forall j :: 0 <= j < i ==> !AllocatesAt(events, j, wallet, nonce)
  }

  ghost predicate FirstAcquisition(events: seq<Event>, i: int, account: string, epoch: int) {
    AcquiresAt(events, i, account, epoch) && forall j :: 0 <= j < i ==> !AcquiresAt(events, j, account, epoch)
  }

  /** The window holds an allocation of the wallet at or below the nonce: the floor rule. */
  ghost predicate Tracked(events: seq<Event>, wallet: string, nonce: int) {
    exists i, m :: AllocatesAt(events, i, wallet, m) && m <= nonce
  }

  ghost predicate Allocated(events: seq<Event>, wallet: string, nonce: int) {
    exists i :: AllocatesAt(events, i, wallet, nonce)
  }

  ghost predicate SameSigner(allocation: Payload, request: Payload)
    requires allocation.NonceAllocated? && request.OrderRequest?
  {
    allocation.account == request.account && allocation.instance == request.instance
  }

  // ---------- what each reason means ----------

  ghost predicate Mismatched(events: seq<Event>, a: int, k: int, wallet: string, nonce: int) {
    && FirstAllocation(events, a, wallet, nonce)
    && SpendsAt(events, k, wallet, nonce)
    && !SameSigner(events[a].payload, events[k].payload)
  }

  ghost predicate TooLate(events: seq<Event>, a: int, k: int, wallet: string, nonce: int) {
    && FirstAllocation(events, a, wallet, nonce)
    && SpendsAt(events, k, wallet, nonce)
    && SameSigner(events[a].payload, events[k].payload)
    && k < a
  }

  ghost predicate UnderLease(events: seq<Event>, l: int, k: int, account: string, epoch: int) {
    && FirstAcquisition(events, l, account, epoch)
    && RequestsAt(events, k)
    && events[k].payload.account == account
    && events[k].payload.epoch == epoch
  }

  ghost predicate Reused(events: seq<Event>, i: int, k: int, wallet: string, nonce: int) {
    && SpendsAt(events, i, wallet, nonce)
    && SpendsAt(events, k, wallet, nonce)
    && events[i].clientOrderId != events[k].clientOrderId
  }

  /** Request k is one half of the relation that the reason reports. */
  ghost predicate ConflictAt(events: seq<Event>, k: int, r: Reason) {
    match r
    case NonceAllocationMissing(w, n) => SpendsAt(events, k, w, n) && Tracked(events, w, n) && !Allocated(events, w, n)
    case NonceAllocationBindingMismatch(w, n) => exists a :: Mismatched(events, a, k, w, n)
    case NonceAllocationNotPrior(w, n) => exists a :: TooLate(events, a, k, w, n)
    case LeaseBindingMismatch(account, epoch) =>
      exists l :: UnderLease(events, l, k, account, epoch) && events[l].payload.instance != events[k].payload.instance
    case LeaseWalletMismatch(account, epoch) =>
      exists l :: UnderLease(events, l, k, account, epoch) && events[l].payload.wallet != events[k].payload.wallet
    case NonceReuse(w, n) => exists i :: Reused(events, i, k, w, n)
    case _ => false
  }

  ghost predicate Conflict(events: seq<Event>, r: Reason) {
    exists k :: ConflictAt(events, k, r)
  }

  // ---------- the index tables ----------

  type LeaseTable = map<(string, int), (string, string)>
  type AllocationTable = map<Signed, (nat, Payload)>
  type FloorTable = map<string, int>
  type ClientTable = map<Signed, set<string>>

  datatype Tables = Tables(leases: LeaseTable, allocations: AllocationTable, floors: FloorTable, clients: ClientTable)

  function SetDefault<K, V>(m: map<K, V>, k: K, v: V): map<K, V> {
    if k in m then m else m[k := v]
  }

  function Min(a: int, b: int): int {
    if a < b then a else b
  }

  /** The tables after one more event. */
  function Indexed(t: Tables, e: Event, i: nat): Tables {
    match e.payload
    case LeaseAcquired(account, epoch, instance, wallet) =>
      t.(leases := SetDefault(t.leases, (account, epoch), (instance, wallet)))
    case NonceAllocated(account, instance, wallet, nonce) =>
      t.(allocations := SetDefault(t.allocations, (wallet, nonce), (i, e.payload)),
         floors := t.floors[wallet := if wallet in t.floors then Min(nonce, t.floors[wallet]) else nonce])
    case OrderRequest(account, epoch, instance, wallet, spent) =>
      if e.venue.HyperliquidVenue? && spent.Some? then
        var key := (wallet, spent.value);
        t.(clients := t.clients[key := (if key in t.clients then t.clients[key] else {}) + {e.clientOrderId}])
      else t
    case _ => t
  }

  function TablesOf(events: seq<Event>, k: nat): Tables
    requires k <= |events|
  {
    if k == 0 then Tables(map[], map[], map[], map[]) else Indexed(TablesOf(events, k - 1), events[k - 1], k - 1)
  }

  ghost predicate AcquiredBefore(events: seq<Event>, k: nat, l: int, account: string, epoch: int) {
    l < k && FirstAcquisition(events, l, account, epoch)
  }

  lemma {:induction false} LeaseLookup(events: seq<Event>, k: nat, account: string, epoch: int)
    requires k <= |events|
    ensures var leases := TablesOf(events, k).leases;
            if (account, epoch) in leases then
              exists l :: AcquiredBefore(events, k, l, account, epoch)
                && leases[(account, epoch)] == (events[l].payload.instance, events[l].payload.wallet)
            else forall l :: 0 <= l < k ==> !AcquiresAt(events, l, account, epoch)
  {
    if k > 0 {
      LeaseLookup(events, k - 1, account, epoch);
      var before := TablesOf(events, k - 1).leases;
      if (account, epoch) in before {
        var l :| AcquiredBefore(events, k - 1, l, account, epoch)
          && before[(account, epoch)] == (events[l].payload.instance, events[l].payload.wallet);
        assert AcquiredBefore(events, k, l, account, epoch);
      } else if AcquiresAt(events, k - 1, account, epoch) {
        assert AcquiredBefore(events, k, k - 1, account, epoch);
      }
    }
  }

  ghost predicate AllocatedBefore(events: seq<Event>, k: nat, a: int, wallet: string, nonce: int) {
    a < k && FirstAllocation(events, a, wallet, nonce)
  }

  lemma {:induction false} AllocationLookup(events: seq<Event>, k: nat, wallet: string, nonce: int)
    requires k <= |events|
    ensures var allocations := TablesOf(events, k).allocations;
            if (wallet, nonce) in allocations then
              var (a, payload) := allocations[(wallet, nonce)];
              AllocatedBefore(events, k, a, wallet, nonce) && payload == events[a].payload
            else forall a :: 0 <= a < k ==> !AllocatesAt(events, a, wallet, nonce)
  {
    if k > 0 {
      AllocationLookup(events, k - 1, wallet, nonce);
    }
  }

  lemma {:induction false} FloorLookup(events: seq<Event>, k: nat, wallet: string, nonce: int)
    requires k <= |events|
    ensures var floors := TablesOf(events, k).floors;
            (wallet in floors && floors[wallet] <= nonce) <==>
              exists i, m :: i < k && AllocatesAt(events, i, wallet, m) && m <= nonce
  {
    if k > 0 {
      FloorLookup(events, k - 1, wallet, nonce);
      var last := events[k - 1].payload;
      if last.NonceAllocated? && last.wallet == wallet && last.nonce <= nonce {
        assert AllocatesAt(events, k - 1, wallet, last.nonce);
      }
    }
  }

  lemma {:induction false} ClientLookup(events: seq<Event>, k: nat, wallet: string, nonce: int, client: string)
    requires k <= |events|
    ensures var clients := TablesOf(events, k).clients;
            ((wallet, nonce) in clients && client in clients[(wallet, nonce)]) <==>
            exists i :: i < k && SpendsAt(events, i, wallet, nonce) && events[i].clientOrderId == client
  {
    if k > 0 {
      ClientLookup(events, k - 1, wallet, nonce, client);
      if SpendsAt(events, k - 1, wallet, nonce) && events[k - 1].clientOrderId == client {
        assert k - 1 < k;
      }
    }
  }

  // ---------- the reasons one request gives ----------

  function NonceRequestConflict(index: nat, e: Event, t: Tables): Option<Reason>
    requires e.payload.OrderRequest?
  {
    match (e.venue, e.payload.allocatedNonce)
    case (HyperliquidVenue, Some(nonce)) =>
      var wallet := e.payload.wallet;
      if wallet !in t.floors || nonce < t.floors[wallet] then None
      else if (wallet, nonce) !in t.allocations then Some(NonceAllocationMissing(wallet, nonce))
      else
        var (a, payload) := t.allocations[(wallet, nonce)];
        if payload.NonceAllocated? ==>
             payload.account != e.payload.account || payload.instance != e.payload.instance then
          Some(NonceAllocationBindingMismatch(wallet, nonce))
        else if a >= index then Some(NonceAllocationNotPrior(wallet, nonce))
        else None
    case _ => None
  }

  function LeaseRequestConflicts(p: Payload, leases: LeaseTable): set<Reason>
    requires p.OrderRequest?
  {
    if (p.account, p.epoch) !in leases then {}
    else
      var (instance, wallet) := leases[(p.account, p.epoch)];
      (if instance != p.instance then {LeaseBindingMismatch(p.account, p.epoch)} else {})
      + (if wallet != p.wallet then {LeaseWalletMismatch(p.account, p.epoch)} else {})
  }

  lemma NonceReasonMeaning(events: seq<Event>, k: nat, r: Reason)
    requires RequestsAt(events, k)
    requires r.NonceAllocationMissing? || r.NonceAllocationBindingMismatch? || r.NonceAllocationNotPrior?
    ensures NonceRequestConflict(k, events[k], TablesOf(events, |events|)) == Some(r) <==> ConflictAt(events, k, r)
  {
    var t, e := TablesOf(events, |events|), events[k];
    if e.venue.HyperliquidVenue? && e.payload.allocatedNonce.Some? {
      var w, n := e.payload.wallet, e.payload.allocatedNonce.value;
      assert SpendsAt(events, k, w, n);
      FloorLookup(events, |events|, w, n);
      AllocationLookup(events, |events|, w, n);
      assert Tracked(events, w, n) <==> w in t.floors && t.floors[w] <= n;
      if (w, n) in t.allocations {
        var a := t.allocations[(w, n)].0;
        assert FirstAllocation(events, a, w, n) && AllocatesAt(events, a, w, n) && a != k;
        assert Mismatched(events, a, k, w, n) <==> !SameSigner(events[a].payload, e.payload);
        assert TooLate(events, a, k, w, n) <==> SameSigner(events[a].payload, e.payload) && k < a;
      } else {
        assert !Allocated(events, w, n);
      }
    }
  }

  lemma LeaseReasonMeaning(events: seq<Event>, k: nat, r: Reason)
    requires RequestsAt(events, k)
    requires r.LeaseBindingMismatch? || r.LeaseWalletMismatch?
    ensures r in LeaseRequestConflicts(events[k].payload, TablesOf(events, |events|).leases) <==>
              ConflictAt(events, k, r)
  {
    LeaseLookup(events, |events|, r.account, r.epoch);
  }

  lemma ReuseMeaning(events: seq<Event>, w: string, n: int)
    ensures var clients := TablesOf(events, |events|).clients;
            ((w, n) in clients && |clients[(w, n)]| > 1) <==> Conflict(events, NonceReuse(w, n))
  {
    var clients := TablesOf(events, |events|).clients;
    forall c | true
      ensures ((w, n) in clients && c in clients[(w, n)]) <==>
              exists i :: i < |events| && SpendsAt(events, i, w, n) && events[i].clientOrderId == c
    {
      ClientLookup(events, |events|, w, n, c);
    }
    if (w, n) in clients {
      SeveralMembers(clients[(w, n)]);
      if c, d :| c in clients[(w, n)] && d in clients[(w, n)] && c != d {
        var i :| i < |events| && SpendsAt(events, i, w, n) && events[i].clientOrderId == c;
        var k :| k < |events| && SpendsAt(events, k, w, n) && events[k].clientOrderId == d;
        assert Reused(events, i, k, w, n);
        assert ConflictAt(events, k, NonceReuse(w, n));
      }
    }
    if Conflict(events, NonceReuse(w, n)) {
      var k :| ConflictAt(events, k, NonceReuse(w, n));
      var i :| Reused(events, i, k, w, n);
      var c, d := events[i].clientOrderId, events[k].clientOrderId;
      ClientLookup(events, |events|, w, n, c);
      ClientLookup(events, |events|, w, n, d);
      assert (w, n) in clients && c in clients[(w, n)] && d in clients[(w, n)];
      SeveralMembers(clients[(w, n)]);
    }
  }

  lemma SeveralMembers<T>(s: set<T>)
    ensures |s| > 1 <==> exists a, b :: a in s && b in s && a != b
  {
    if |s| > 1 {
      var a :| a in s;
      var rest := s - {a};
      assert |rest| > 0;
      var b :| b in rest;
    } else if a, b :| a in s && b in s && a != b {
      assert {a, b} <= s;
      SubsetSize({a, b}, s);
    }
  }

  lemma {:induction false} SubsetSize<T>(a: set<T>, b: set<T>)
    requires a <= b
    ensures |a| <= |b|
  {
    if x :| x in a {
      SubsetSize(a - {x}, b - {x});
    }
  }

  // ---------- the conflict pass ----------

  function RequestReasons(events: seq<Event>, k: nat, t: Tables): set<Reason>
    requires RequestsAt(events, k)
  {
    var nonce := NonceRequestConflict(k, events[k], t);
    (if nonce.Some? then {nonce.value} else {}) + LeaseRequestConflicts(events[k].payload, t.leases)
  }

  lemma RequestReasonMeaning(events: seq<Event>, k: nat, r: Reason)
    requires RequestsAt(events, k)
    ensures r in RequestReasons(events, k, TablesOf(events, |events|)) <==> !r.NonceReuse? && ConflictAt(events, k, r)
  {
    if r.NonceAllocationMissing? || r.NonceAllocationBindingMismatch? || r.NonceAllocationNotPrior? {
      NonceReasonMeaning(events, k, r);
    } else if r.LeaseBindingMismatch? || r.LeaseWalletMismatch? {
      LeaseReasonMeaning(events, k, r);
    }
  }

  ghost predicate GivenByRequest(events: seq<Event>, ks: seq<nat>, m: nat, r: Reason)
    requires m <= |ks|
  {
    !r.NonceReuse? && exists j :: 0 <= j < m && ConflictAt(events, ks[j], r)
  }

  method CollectTables(events: seq<Event>) returns (t: Tables, requests: seq<nat>)
    ensures t == TablesOf(events, |events|)
    ensures forall k :: k in requests <==> RequestsAt(events, k)
  {
    var leases: LeaseTable := map[];
    var allocations: AllocationTable := map[];
    var floors: FloorTable := map[];
    var clients: ClientTable := map[];
    requests := [];
    for i := 0 to |events|
      invariant Tables(leases, allocations, floors, clients) == TablesOf(events, i)
      invariant forall k :: k in requests <==> k < i && RequestsAt(events, k)
    {
      var p := events[i].payload;
      if p.LeaseAcquired? {
        leases := SetDefault(leases, (p.account, p.epoch), (p.instance, p.wallet));
      } else if p.NonceAllocated? {
        allocations := SetDefault(allocations, (p.wallet, p.nonce), (i, p));
        floors := floors[p.wallet := if p.wallet in floors then Min(p.nonce, floors[p.wallet]) else p.nonce];
      } else if p.OrderRequest? {
        requests := requests + [i];
        if events[i].venue.HyperliquidVenue? && p.allocatedNonce.Some? {
          var key := (p.wallet, p.allocatedNonce.value);
          clients := clients[key := (if key in clients then clients[key] else {}) + {events[i].clientOrderId}];
        }
      }
    }
    t := Tables(leases, allocations, floors, clients);
  }

  method ReusedNonces(clients: ClientTable) returns (conflicts: set<Reason>)
    ensures forall r :: r in conflicts <==>
              r.NonceReuse? && (r.wallet, r.nonce) in clients && |clients[(r.wallet, r.nonce)]| > 1
  {
    conflicts := {};
    var keys := clients.Keys;
    while keys != {}
      invariant keys <= clients.Keys
      invariant forall r :: r in conflicts <==>
                  r.NonceReuse? && (r.wallet, r.nonce) in clients.Keys - keys && |clients[(r.wallet, r.nonce)]| > 1
      decreases |keys|
    {
      var key :| key in keys;
      if |clients[key]| > 1 {
        conflicts := conflicts + {NonceReuse(key.0, key.1)};
      }
      keys := keys - {key};
    }
  }

  /** The pass reports a reason exactly when two events of the window stand in the relation that it names. */
  method OrderBindingConflicts(events: seq<Event>) returns (conflicts: set<Reason>)
    ensures forall r :: r in conflicts <==> Conflict(events, r)
  {
    var t, requests := CollectTables(events);
    conflicts := {};
    for m := 0 to |requests|
      invariant forall r :: r in conflicts <==> GivenByRequest(events, requests, m, r)
    {
      var k := requests[m];
      forall r: Reason | true
        ensures r in RequestReasons(events, k, t) <==> !r.NonceReuse? && ConflictAt(events, k, r)
      {
        RequestReasonMeaning(events, k, r);
      }
      conflicts := conflicts + RequestReasons(events, k, t);
    }
    var reused := ReusedNonces(t.clients);
    forall r: Reason | true
      ensures r in conflicts + reused <==> Conflict(events, r)
    {
      PassMeaning(events, requests, r);
    }
    conflicts := conflicts + reused;
  }

  lemma PassMeaning(events: seq<Event>, ks: seq<nat>, r: Reason)
    requires forall k :: k in ks <==> RequestsAt(events, k)
    ensures var clients := TablesOf(events, |events|).clients;
            Conflict(events, r) <==>
            || GivenByRequest(events, ks, |ks|, r)
            || (r.NonceReuse? && (r.wallet, r.nonce) in clients && |clients[(r.wallet, r.nonce)]| > 1)
  {
    if r.NonceReuse? {
      ReuseMeaning(events, r.wallet, r.nonce);
    } else if Conflict(events, r) {
      var k :| ConflictAt(events, k, r);
      assert RequestsAt(events, k);
      var j :| 0 <= j < |ks| && ks[j] == k;
    }
  }

  // ---------- what a clean window guarantees ----------

  /** The request's nonce was handed out earlier in the window, to the same account and instance. */
  ghost predicate Backed(events: seq<Event>, k: int, wallet: string, nonce: int) {
    exists a ::
      && a < k && FirstAllocation(events, a, wallet, nonce)
      && RequestsAt(events, k) && SameSigner(events[a].payload, events[k].payload)
  }

  ghost predicate RequestsBacked(events: seq<Event>) {
    forall k, w, n :: SpendsAt(events, k, w, n) && Tracked(events, w, n) ==> Backed(events, k, w, n)
  }

  ghost predicate NoncesUnshared(events: seq<Event>) {
    forall i, k, w, n :: SpendsAt(events, i, w, n) && SpendsAt(events, k, w, n) ==>
      events[i].clientOrderId == events[k].clientOrderId
  }

  ghost predicate LeasesMatch(events: seq<Event>) {
    forall l, k, account, epoch :: UnderLease(events, l, k, account, epoch) ==>
      events[l].payload.instance == events[k].payload.instance && events[l].payload.wallet == events[k].payload.wallet
  }

  lemma {:induction false} EarliestAllocation(events: seq<Event>, i: nat, wallet: string, nonce: int)
    requires AllocatesAt(events, i, wallet, nonce)
    ensures exists a :: a <= i && FirstAllocation(events, a, wallet, nonce)
  {
    if j :| 0 <= j < i && AllocatesAt(events, j, wallet, nonce) {
      EarliestAllocation(events, j, wallet, nonce);
    } else {
      assert FirstAllocation(events, i, wallet, nonce);
    }
  }

  lemma UnbackedConflicts(events: seq<Event>, k: nat, w: string, n: int)
    requires SpendsAt(events, k, w, n) && Tracked(events, w, n)
    ensures Backed(events, k, w, n) <==>
            !ConflictAt(events, k, NonceAllocationMissing(w, n))
            && !ConflictAt(events, k, NonceAllocationBindingMismatch(w, n))
            && !ConflictAt(events, k, NonceAllocationNotPrior(w, n))
  {
    if Allocated(events, w, n) {
      var i :| AllocatesAt(events, i, w, n);
      EarliestAllocation(events, i, w, n);
      var a :| a <= i && FirstAllocation(events, a, w, n);
      assert AllocatesAt(events, a, w, n) && a != k;
      assert Mismatched(events, a, k, w, n) <==> !SameSigner(events[a].payload, events[k].payload);
      assert TooLate(events, a, k, w, n) <==> SameSigner(events[a].payload, events[k].payload) && k < a;
    }
  }

  /**
   * A window without order-request reasons is one in which every tracked Hyperliquid request is backed by an earlier
   * allocation of its own account and instance, no nonce serves two client orders, and every request under a lease
   * taken in the window carries that lease's instance and wallet.
   */
  lemma NoConflictIffClean(events: seq<Event>)
    ensures (forall r :: !Conflict(events, r)) <==>
              RequestsBacked(events) && NoncesUnshared(events) && LeasesMatch(events)
  {
    if forall r :: !Conflict(events, r) {
      CleanWithoutConflict(events);
    }
    if RequestsBacked(events) && NoncesUnshared(events) && LeasesMatch(events) {
      forall r: Reason | true
        ensures !Conflict(events, r)
      {
        NoConflictWhenClean(events, r);
      }
    }
  }

  lemma CleanWithoutConflict(events: seq<Event>)
    requires forall r :: !Conflict(events, r)
    ensures RequestsBacked(events) && NoncesUnshared(events) && LeasesMatch(events)
  {
    forall k, w, n | SpendsAt(events, k, w, n) && Tracked(events, w, n)
      ensures Backed(events, k, w, n)
    {
      UnbackedConflicts(events, k, w, n);
      assert !Conflict(events, NonceAllocationMissing(w, n));
      assert !Conflict(events, NonceAllocationBindingMismatch(w, n));
      assert !Conflict(events, NonceAllocationNotPrior(w, n));
    }
    forall i, k, w, n | SpendsAt(events, i, w, n) && SpendsAt(events, k, w, n)
      ensures events[i].clientOrderId == events[k].clientOrderId
    {
      assert !Conflict(events, NonceReuse(w, n));
      assert !ConflictAt(events, k, NonceReuse(w, n));
      assert !Reused(events, i, k, w, n);
    }
    forall l, k, account, epoch | UnderLease(events, l, k, account, epoch)
      ensures events[l].payload.instance == events[k].payload.instance
              && events[l].payload.wallet == events[k].payload.wallet
    {
      assert !Conflict(events, LeaseBindingMismatch(account, epoch));
      assert !ConflictAt(events, k, LeaseBindingMismatch(account, epoch));
      assert !Conflict(events, LeaseWalletMismatch(account, epoch));
      assert !ConflictAt(events, k, LeaseWalletMismatch(account, epoch));
    }
  }

  lemma NoConflictWhenClean(events: seq<Event>, r: Reason)
    requires RequestsBacked(events) && NoncesUnshared(events) && LeasesMatch(events)
    ensures !Conflict(events, r)
  {
    forall k: int | true
      ensures !ConflictAt(events, k, r)
    {
      if r.NonceAllocationMissing? || r.NonceAllocationBindingMismatch? || r.NonceAllocationNotPrior? {
        if SpendsAt(events, k, r.wallet, r.nonce) {
          BackedHasNoConflict(events, k, r.wallet, r.nonce);
        }
      }
    }
  }

  lemma BackedHasNoConflict(events: seq<Event>, k: nat, w: string, n: int)
    requires RequestsBacked(events) && SpendsAt(events, k, w, n)
    ensures !ConflictAt(events, k, NonceAllocationMissing(w, n))
    ensures !ConflictAt(events, k, NonceAllocationBindingMismatch(w, n))
    ensures !ConflictAt(events, k, NonceAllocationNotPrior(w, n))
  {
    if Tracked(events, w, n) {
      UnbackedConflicts(events, k, w, n);
    } else {
      assert forall a :: FirstAllocation(events, a, w, n) ==> AllocatesAt(events, a, w, n);
    }
  }
}
