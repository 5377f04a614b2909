/** Balance ledger algebra: folding deltas over opening balances, and when the fold conserves value. */
module Ledger {
  import opened Common
  import opened Decimals
  import opened DecimalText

  // ---------- folding one asset ----------

  ghost function Sum(ds: seq<Dec>): real {
    if ds == [] then 0.0 else Sum(ds[..|ds| - 1]) + Value(ds[|ds| - 1])
  }

  /** Deltas added one after another in the default context. */
  function Fold(opening: Dec, ds: seq<Dec>): Dec {
    FoldWith(Add, opening, ds)
  }

  function FoldWith(add: (Dec, Dec) -> Dec, opening: Dec, ds: seq<Dec>): Dec {
    if ds == [] then opening else add(FoldWith(add, opening, ds[..|ds| - 1]), ds[|ds| - 1])
  }

  /** No partial sum needs more than 28 significant digits. */
  ghost predicate FitsThroughout(opening: Dec, ds: seq<Dec>) {
    ds == [] || (FitsThroughout(opening, ds[..|ds| - 1]) && Fits(ExactSum(Fold(opening, ds[..|ds| - 1]), ds[|ds| - 1])))
  }

  ghost predicate Conserves(opening: Dec, ds: seq<Dec>) {
    Value(Fold(opening, ds)) == Value(opening) + Sum(ds)
  }

  /** Every prefix of the fold conserves. */
  ghost predicate ConservesThroughout(opening: Dec, ds: seq<Dec>) {
    Conserves(opening, ds) && (ds == [] || ConservesThroughout(opening, ds[..|ds| - 1]))
  }

  /** Every prefix of the fold is opening plus the sum of its deltas exactly when every partial sum fits. */
  lemma {:induction false} ConservationIffFits(opening: Dec, ds: seq<Dec>)
    ensures ConservesThroughout(opening, ds) <==> FitsThroughout(opening, ds)
  {
    if ds != [] {
      ConservationIffFits(opening, ds[..|ds| - 1]);
      AddExactIffFits(Fold(opening, ds[..|ds| - 1]), ds[|ds| - 1]);
    }
  }

  // ---------- a bound under which no order rounds ----------

  /** A decimal in units of 10^e. */
  function Units(d: Dec, e: int): int
    requires e <= d.exponent
  {
    Signed(d) * Pow10(d.exponent - e)
  }

  function Abs(n: int): nat {
    if n < 0 then -n else n
  }

  function TotalUnits(ds: seq<Dec>, e: int): nat
    requires forall d :: d in ds ==> e <= d.exponent
  {
    if ds == [] then 0 else TotalUnits(ds[..|ds| - 1], e) + Abs(Units(ds[|ds| - 1], e))
  }

  /** In units of 10^e, opening and deltas together stay below 10^28. */
  ghost predicate Bounded(opening: Dec, ds: seq<Dec>, e: int) {
    && e <= opening.exponent && (forall d :: d in ds ==> e <= d.exponent)
    && Abs(Units(opening, e)) + TotalUnits(ds, e) < Pow10(PRECISION)
  }

  lemma DistributePow(x: int, y: int, p: int)
    ensures (x + y) * p == x * p + y * p
  {
  }

  lemma ExactUnits(a: Dec, b: Dec, e: int)
    requires e <= a.exponent && e <= b.exponent
    ensures e <= ExactSum(a, b).exponent
    ensures Units(ExactSum(a, b), e) == Units(a, e) + Units(b, e)
  {
    var m := ExactSum(a, b).exponent;
    var p := Pow10(m - e);
    Pow10Add(a.exponent - m, m - e);
    Pow10Add(b.exponent - m, m - e);
    IntAssoc(Signed(a), Pow10(a.exponent - m), p);
    IntAssoc(Signed(b), Pow10(b.exponent - m), p);
    DistributePow(Signed(a) * Pow10(a.exponent - m), Signed(b) * Pow10(b.exponent - m), p);
  }

  lemma CoefficientWithinUnits(d: Dec, e: int)
    requires e <= d.exponent
    ensures d.coefficient <= Abs(Units(d, e))
  {
    var p := Pow10(d.exponent - e);
    NegProduct(d.coefficient, p);
    MulAtMost(1, p, d.coefficient);
    assert p * d.coefficient == d.coefficient * p;
  }

  lemma SmallNeedsNoRounding(d: Dec)
    requires d.coefficient < Pow10(PRECISION)
    ensures Round(d) == d && Fits(d)
  {
    FewDigits(d.coefficient);
    if d.coefficient > 0 {
      StripAtMost(d.coefficient, d.exponent);
    }
  }

  lemma FewDigits(c: nat)
    requires c < Pow10(PRECISION)
    ensures |DigitsOf(c)| <= PRECISION
  {
    DigitsRoundTrip(c);
    var n := |DigitsOf(c)|;
    if c > 0 {
      Pow10Monotone(n - 1, PRECISION);
    }
  }

  lemma SmallSum(a: Dec, b: Dec, e: int)
    requires e <= a.exponent && e <= b.exponent && Abs(Units(a, e)) + Abs(Units(b, e)) < Pow10(PRECISION)
    ensures Add(a, b) == ExactSum(a, b) && Fits(ExactSum(a, b)) && e <= ExactSum(a, b).exponent
    ensures Abs(Units(ExactSum(a, b), e)) <= Abs(Units(a, e)) + Abs(Units(b, e))
  {
    ExactUnits(a, b, e);
    CoefficientWithinUnits(ExactSum(a, b), e);
    SmallNeedsNoRounding(ExactSum(a, b));
  }

  lemma {:induction false} BoundedFolds(opening: Dec, ds: seq<Dec>, e: int)
    requires Bounded(opening, ds, e)
    ensures e <= Fold(opening, ds).exponent
    ensures Abs(Units(Fold(opening, ds), e)) <= Abs(Units(opening, e)) + TotalUnits(ds, e)
    ensures FitsThroughout(opening, ds)
  {
    if ds != [] {
      var init, last := ds[..|ds| - 1], ds[|ds| - 1];
      assert last in ds && forall d :: d in init ==> d in ds;
      BoundedFolds(opening, init, e);
      SmallSum(Fold(opening, init), last, e);
    }
  }

  lemma {:induction false} TotalUnitsRemove(ds: seq<Dec>, k: nat, e: int)
    requires k < |ds| && forall d :: d in ds ==> e <= d.exponent
    ensures forall d :: d in ds[..k] + ds[k + 1..] ==> e <= d.exponent
    ensures TotalUnits(ds, e) == TotalUnits(ds[..k] + ds[k + 1..], e) + Abs(Units(ds[k], e))
  {
    var n := |ds| - 1;
    var rest := ds[..k] + ds[k + 1..];
    forall d | d in rest ensures d in ds {
    }
    if k == n {
      assert rest == ds[..n];
    } else {
      assert ds[..n][..k] + ds[..n][k + 1..] == rest[..n - 1] && rest[n - 1] == ds[n];
      assert forall d :: d in ds[..n] ==> d in ds;
      TotalUnitsRemove(ds[..n], k, e);
    }
  }

  /** The bound and the sum depend on the deltas, not on their order. */
  lemma {:induction false} PermutedTotals(a: seq<Dec>, b: seq<Dec>, e: int)
    requires multiset(a) == multiset(b) && forall d :: d in a ==> e <= d.exponent
    ensures forall d :: d in b ==> e <= d.exponent
    ensures TotalUnits(a, e) == TotalUnits(b, e) && Sum(a) == Sum(b)
    decreases |a|
  {
    forall d | d in b ensures d in a {
      assert d in multiset(b);
    }
    if a == [] {
      assert |multiset(a)| == 0 && |b| == |multiset(b)|;
    } else {
      var n := |a| - 1;
      var k := PullLast(a, b);
      assert forall d :: d in a[..n] ==> d in a;
      PermutedTotals(a[..n], b[..k] + b[k + 1..], e);
      TotalUnitsRemove(b, k, e);
    }
    PermutedSum(a, b);
  }

  lemma {:induction false} SumRemove(ds: seq<Dec>, k: nat)
    requires k < |ds|
    ensures Sum(ds) == Sum(ds[..k] + ds[k + 1..]) + Value(ds[k])
  {
    var n := |ds| - 1;
    var rest := ds[..k] + ds[k + 1..];
    if k == n {
      assert rest == ds[..n];
    } else {
      assert ds[..n][..k] + ds[..n][k + 1..] == rest[..n - 1] && rest[n - 1] == ds[n];
      SumRemove(ds[..n], k);
    }
  }

  lemma {:induction false} PermutedSum(a: seq<Dec>, b: seq<Dec>)
    requires multiset(a) == multiset(b)
    ensures Sum(a) == Sum(b)
    decreases |a|
  {
    if a == [] {
      assert |multiset(a)| == 0 && |b| == |multiset(b)|;
    } else {
      var n := |a| - 1;
      var k := PullLast(a, b);
      PermutedSum(a[..n], b[..k] + b[k + 1..]);
      SumRemove(b, k);
    }
  }

  /** The last element of one ordering somewhere in another, and what is left. */
  lemma PullLast<T>(a: seq<T>, b: seq<T>) returns (k: nat)
    requires a != [] && multiset(a) == multiset(b)
    ensures k < |b| && b[k] == a[|a| - 1]
    ensures multiset(a[..|a| - 1]) == multiset(b[..k] + b[k + 1..])
  {
    var n := |a| - 1;
    assert a == a[..n] + [a[n]];
    assert a[n] in multiset(b);
    k :| 0 <= k < |b| && b[k] == a[n];
    assert b == b[..k] + [b[k]] + b[k + 1..];
    assert multiset(a[..n]) == multiset(a) - multiset{a[n]};
    assert multiset(b[..k] + b[k + 1..]) == multiset(b) - multiset{a[n]};
  }

  /**
   * Two orderings of the same deltas give the same balance text, each exact, whenever no partial sum of either needs
   * more digits than the context keeps.
   */
  lemma OrderNeverMatters(opening: Dec, a: seq<Dec>, b: seq<Dec>)
    requires multiset(a) == multiset(b) && Fits(opening)
    requires FitsThroughout(opening, a) && FitsThroughout(opening, b)
    ensures Conserves(opening, a) && Conserves(opening, b)
    ensures FormatAmount(Fold(opening, a)) == FormatAmount(Fold(opening, b))
  {
    PermutedSum(a, b);
    ConservationIffFits(opening, a);
    ConservationIffFits(opening, b);
    FoldFits(opening, a);
    FoldFits(opening, b);
    SameValueSameText(Fold(opening, a), Fold(opening, b));
  }

  /** A bound on the sizes of opening and deltas is enough, for every ordering at once. */
  lemma BoundedOrdersFit(opening: Dec, a: seq<Dec>, b: seq<Dec>, e: int)
    requires multiset(a) == multiset(b) && Bounded(opening, a, e)
    ensures Fits(opening) && FitsThroughout(opening, a) && FitsThroughout(opening, b)
  {
    PermutedTotals(a, b, e);
    BoundedFolds(opening, a, e);
    BoundedFolds(opening, b, e);
    CoefficientWithinUnits(opening, e);
    SmallNeedsNoRounding(opening);
  }

  lemma SameValueSameText(x: Dec, y: Dec)
    requires Value(x) == Value(y) && Fits(x) && Fits(y)
    ensures FormatAmount(x) == FormatAmount(y)
  {
    FormatThenRead(x);
    FormatThenRead(y);
    TextEqualityIsNumericEquality(FormatAmount(x), FormatAmount(y));
  }

  lemma FoldTwo(opening: Dec, x: Dec, y: Dec)
    ensures Fold(opening, [x]) == Add(opening, x)
    ensures Fold(opening, [x, y]) == Add(Add(opening, x), y)
    ensures Sum([x]) == Value(x)
  {
    FoldAppend(Add, opening, [], x);
    FoldAppend(Add, opening, [x], y);
    assert [] + [x] == [x] && [x] + [y] == [x, y] && [x][..0] == [];
    assert Sum([x]) == Sum([x][..0]) + Value(x);
  }

  /** Outside the bound both laws fail: 10^28 and 1 need 29 digits, so the 1 is rounded away, unless it comes last. */
  lemma RoundingLosesValue()
    ensures var huge, one, minus := Dec(false, Pow10(28), 0), Dec(false, 1, 0), Dec(true, Pow10(28), 0);
            && !Conserves(huge, [one])
            && Fold(huge, [one, minus]).coefficient == 0
            && Fold(huge, [minus, one]) == one
  {
    var huge, one, minus := Dec(false, Pow10(28), 0), Dec(false, 1, 0), Dec(true, Pow10(28), 0);
    var kept := Dec(false, Pow10(27), 1);
    FoldTwo(huge, one, minus);
    FoldTwo(huge, minus, one);
    HugePlusOne();
    assert Pow10(1) == 10 && Pow10(0) == 1 && Pow10(28) == 10 * Pow10(27);
    Rescale(false, Pow10(27), 0, 1);
    WorthInjective(1, 0, 0);
    OppositesCancel(Pow10(27), Pow10(28));
    SmallNeedsNoRounding(ExactSum(kept, minus));
    SmallNeedsNoRounding(Dec(false, 0, 0));
    SmallNeedsNoRounding(one);
  }

  lemma OppositesCancel(tenth: nat, whole: nat)
    requires whole == 10 * tenth
    ensures ExactSum(Dec(false, tenth, 1), Dec(true, whole, 0)) == Dec(false, 0, 0)
    ensures ExactSum(Dec(false, whole, 0), Dec(true, whole, 0)) == Dec(false, 0, 0)
    ensures ExactSum(Dec(false, 0, 0), Dec(false, 1, 0)) == Dec(false, 1, 0)
  {
    assert Pow10(1) == 10 && Pow10(0) == 1;
  }

  lemma OneMoreUnit(x: nat)
    ensures ExactSum(Dec(false, x, 0), Dec(false, 1, 0)) == Dec(false, x + 1, 0)
  {
    assert Pow10(0) == 1;
  }

  lemma OneLeftOver(q: nat)
    ensures DivMod(10 * q + 1, 10) == (q, 1)
  {
    DivModUnique(10 * q + 1, 10, q, 1);
  }

  /** A 29-digit coefficient that ends in 1 loses its last digit. */
  lemma LastOneIsLost(q: nat)
    requires |DigitsOf(10 * q + 1)| == PRECISION + 1 && q < Pow10(PRECISION)
    ensures Round(Dec(false, 10 * q + 1, 0)) == Dec(false, q, 1)
  {
    OneLeftOver(q);
    assert Pow10(1) == 10;
  }

  lemma DigitCount(c: nat, n: nat)
    requires Pow10(n) <= c < Pow10(n + 1)
    ensures |DigitsOf(c)| == n + 1
  {
    DigitsRoundTrip(c);
    var m := |DigitsOf(c)|;
    Pow10Monotone(n, m);
    Pow10Monotone(m - 1, n + 1);
  }

  lemma HugePlusOne()
    ensures Add(Dec(false, Pow10(PRECISION), 0), Dec(false, 1, 0)) == Dec(false, Pow10(PRECISION - 1), 1)
  {
    var q := Pow10(PRECISION - 1);
    PowStep(PRECISION - 1);
    PowStep(PRECISION);
    OneMoreUnit(10 * q);
    DigitCount(10 * q + 1, PRECISION);
    LastOneIsLost(q);
  }

  lemma PowStep(n: nat)
    ensures Pow10(n + 1) == 10 * Pow10(n) && Pow10(n) < Pow10(n + 1) && Pow10(n) + 1 < Pow10(n + 1)
  {
    Pow10Monotone(n, n + 1);
  }

  // ---------- the ledger ----------

  /** The amount is the number its canonical text reads as; the constructor already refused any other text. */
  datatype BalanceDelta = BalanceDelta(entryId: string, occurredNs: int, asset: string, amount: Dec)

  /** Sorted balance pairs are a map from asset to amount text; sorted entry ids are a set. */
  datatype BalanceLedger = BalanceLedger(
    startNs: int, endNs: int, folded: map<string, string>, snapshot: map<string, string>,
    applied: set<string>, unknown: set<string>, selfConsistent: bool)

  predicate ValidBalances(b: map<string, string>) {
    b != map[] && forall asset :: asset in b ==> asset != "" && Amount(b[asset]).Success?
  }

  ghost predicate SameBalances(a: map<string, string>, b: map<string, string>)
    requires ValidBalances(a) && ValidBalances(b)
  {
    a.Keys == b.Keys && forall asset :: asset in a ==> Value(Amount(a[asset]).value) == Value(Amount(b[asset]).value)
  }

  ghost predicate ValidLedger(l: BalanceLedger) {
    && 0 <= l.startNs <= l.endNs
    && ValidBalances(l.folded) && ValidBalances(l.snapshot)
    && "" !in l.unknown && l.unknown !! l.applied
    && (l.selfConsistent <==> SameBalances(l.folded, l.snapshot))
  }

  /** The amounts of one asset among the first n deltas, in order. */
  function AmountsOfFirst(deltas: seq<BalanceDelta>, n: nat, asset: string): seq<Dec>
    requires n <= |deltas|
  {
    if n == 0 then []
    else AmountsOfFirst(deltas, n - 1, asset) + if deltas[n - 1].asset == asset then [deltas[n - 1].amount] else []
  }

  function AmountsOf(deltas: seq<BalanceDelta>, asset: string): seq<Dec> {
    AmountsOfFirst(deltas, |deltas|, asset)
  }

  function EntryIds(deltas: seq<BalanceDelta>): set<string> {
    set i | 0 <= i < |deltas| :: deltas[i].entryId
  }

  /** What the fold demands of its deltas: inside the window, on known assets, no entry twice. */
  ghost predicate AcceptedAt(deltas: seq<BalanceDelta>, k: nat, startNs: int, endNs: int, assets: set<string>)
    requires k < |deltas|
  {
    && startNs <= deltas[k].occurredNs <= endNs
    && deltas[k].asset in assets
    && (forall i :: 0 <= i < k ==> deltas[i].entryId != deltas[k].entryId)
  }

  ghost predicate AcceptedDeltas(deltas: seq<BalanceDelta>, startNs: int, endNs: int, assets: set<string>) {
    forall k :: 0 <= k < |deltas| ==> AcceptedAt(deltas, k, startNs, endNs, assets)
  }

  /** The running totals after the first n deltas. */
  ghost function TotalsAfter(add: (Dec, Dec) -> Dec, opening: map<string, Dec>, deltas: seq<BalanceDelta>,
                             n: nat): (totals: map<string, Dec>)
    requires n <= |deltas|
    ensures totals.Keys == opening.Keys
  {
    if n == 0 then opening
    else
      var before, asset := TotalsAfter(add, opening, deltas, n - 1), deltas[n - 1].asset;
      if asset in before then before[asset := add(before[asset], deltas[n - 1].amount)] else before
  }

  lemma FoldAppend(add: (Dec, Dec) -> Dec, opening: Dec, ds: seq<Dec>, x: Dec)
    ensures FoldWith(add, opening, ds + [x]) == add(FoldWith(add, opening, ds), x)
  {
    assert (ds + [x])[..|ds|] == ds;
  }

  /** Running totals kept per asset are the folds of each asset's own deltas. */
  lemma {:induction false} TotalsAreFolds(add: (Dec, Dec) -> Dec, opening: map<string, Dec>,
                                          deltas: seq<BalanceDelta>, n: nat, asset: string)
    requires n <= |deltas| && asset in opening
    ensures TotalsAfter(add, opening, deltas, n)[asset]
         == FoldWith(add, opening[asset], AmountsOfFirst(deltas, n, asset))
  {
    if n > 0 {
      TotalsAreFolds(add, opening, deltas, n - 1, asset);
      FoldAppend(add, opening[asset], AmountsOfFirst(deltas, n - 1, asset), deltas[n - 1].amount);
      assert deltas[n - 1].asset != asset ==> AmountsOfFirst(deltas, n, asset) == AmountsOfFirst(deltas, n - 1, asset);
    }
  }

  /** The ids are those of the first k deltas. */
  ghost predicate IdsOf(ids: set<string>, deltas: seq<BalanceDelta>, k: nat)
    requires k <= |deltas|
  {
    forall id :: id in ids <==> exists i :: 0 <= i < k && deltas[i].entryId == id
  }

  lemma AcceptedNext(ids: set<string>, deltas: seq<BalanceDelta>, k: nat, startNs: int, endNs: int, assets: set<string>)
    requires k < |deltas| && IdsOf(ids, deltas, k)
    ensures AcceptedAt(deltas, k, startNs, endNs, assets) <==>
              startNs <= deltas[k].occurredNs <= endNs && deltas[k].asset in assets && deltas[k].entryId !in ids
    ensures IdsOf(ids + {deltas[k].entryId}, deltas, k + 1)
  {
  }

  method FoldDeltas(opening: map<string, Dec>, deltas: seq<BalanceDelta>, startNs: int, endNs: int)
    returns (r: Result<map<string, Dec>>)
    ensures r.Success? <==> AcceptedDeltas(deltas, startNs, endNs, opening.Keys)
    ensures r.Success? ==> r.value == TotalsAfter(Add, opening, deltas, |deltas|)
  {
    var totals, entryIds := opening, {};
    for k := 0 to |deltas|
      invariant forall j :: 0 <= j < k ==> AcceptedAt(deltas, j, startNs, endNs, opening.Keys)
      invariant totals == TotalsAfter(Add, opening, deltas, k)
      invariant IdsOf(entryIds, deltas, k)
    {
      var delta := deltas[k];
      AcceptedNext(entryIds, deltas, k, startNs, endNs, opening.Keys);
      if !(startNs <= delta.occurredNs <= endNs) { return Failure("delta outside ledger window"); }
      if delta.entryId in entryIds { return Failure("duplicate ledger entry"); }
      if delta.asset !in totals { return Failure("delta asset identity is unknown"); }
      entryIds := entryIds + {delta.entryId};
      totals := totals[delta.asset := Add(totals[delta.asset], delta.amount)];
    }
    return Success(totals);
  }

  function Parsed(b: map<string, string>): map<string, Dec>
    requires ValidBalances(b)
  {
    map asset | asset in b :: Amount(b[asset]).value
  }

  function Formatted(totals: map<string, Dec>): map<string, string> {
    map asset | asset in totals :: FormatAmount(totals[asset])
  }

  /** What the inputs of a reconciliation must satisfy before its final validation. */
  ghost predicate Reconcilable(startNs: int, endNs: int, opening: map<string, string>, deltas: seq<BalanceDelta>,
                               closing: map<string, string>) {
    && 0 <= startNs <= endNs
    && ValidBalances(opening) && ValidBalances(closing) && opening.Keys == closing.Keys
    && AcceptedDeltas(deltas, startNs, endNs, opening.Keys)
  }

  method FoldBalances(startNs: int, endNs: int, opening: map<string, string>, deltas: seq<BalanceDelta>,
                      closing: map<string, string>)
    returns (r: Result<(map<string, string>, map<string, string>)>)
    ensures r.Success? <==> Reconcilable(startNs, endNs, opening, deltas, closing)
    ensures r.Success? ==> r.value == (FoldedTexts(opening, deltas), Formatted(Parsed(closing)))
  {
    if !(0 <= startNs <= endNs) { return Failure("invalid ledger window"); }
    if !ValidBalances(opening) || !ValidBalances(closing) { return Failure("invalid balances"); }
    if opening.Keys != closing.Keys { return Failure("balance asset identities differ"); }
    var parsed := Parsed(opening);
    assert parsed.Keys == opening.Keys;
    var totals := FoldDeltas(parsed, deltas, startNs, endNs);
    if totals.Failure? { return Failure(totals.error); }
    return Success((Formatted(totals.value), Formatted(Parsed(closing))));
  }

  /** Folds the deltas over the opening balances; the final validation can reject only the unknown entry ids. */
  method ReconcileBalanceLedger(startNs: int, endNs: int, opening: map<string, string>, deltas: seq<BalanceDelta>,
                                closing: map<string, string>, unknown: set<string>)
    returns (r: Result<BalanceLedger>)
    ensures r.Success? <==>
              Reconcilable(startNs, endNs, opening, deltas, closing) && "" !in unknown && unknown !! EntryIds(deltas)
    ensures r.Success? ==> ValidLedger(r.value) && r.value.applied == EntryIds(deltas) && r.value.snapshot == closing
    ensures r.Success? ==> r.value.folded == FoldedTexts(opening, deltas)
  {
    var balances := FoldBalances(startNs, endNs, opening, deltas, closing);
    if balances.Failure? { return Failure(balances.error); }
    var (folded, observed) := balances.value;
    var audit := BalanceLedger(startNs, endNs, folded, observed, EntryIds(deltas), unknown, folded == observed);
    FoldedTextsValid(opening, deltas);
    ReformattedClosing(closing);
    TextEqualsValues(folded, observed);
    var ok := ValidateBalanceLedger(audit);
    if !ok { return Failure("invalid balance ledger"); }
    return Success(audit);
  }

  ghost function FoldedTexts(opening: map<string, string>, deltas: seq<BalanceDelta>): map<string, string>
    requires ValidBalances(opening)
  {
    Formatted(TotalsAfter(Add, Parsed(opening), deltas, |deltas|))
  }

  lemma FoldedTextsValid(opening: map<string, string>, deltas: seq<BalanceDelta>)
    requires ValidBalances(opening)
    ensures ValidBalances(FoldedTexts(opening, deltas)) && FoldedTexts(opening, deltas).Keys == opening.Keys
  {
    var totals := TotalsAfter(Add, Parsed(opening), deltas, |deltas|);
    var folded := FoldedTexts(opening, deltas);
    assert folded.Keys == totals.Keys == opening.Keys != {};
    forall asset | asset in folded ensures Amount(folded[asset]).Success? {
      FormatThenRead(totals[asset]);
    }
  }

  lemma ReformattedClosing(closing: map<string, string>)
    requires ValidBalances(closing)
    ensures Formatted(Parsed(closing)) == closing
  {
    var formatted := Formatted(Parsed(closing));
    forall asset | asset in closing ensures formatted[asset] == closing[asset] {
      ReformattedAsset(closing, asset);
    }
    SameTexts(formatted, closing);
  }

  lemma SameTexts(a: map<string, string>, b: map<string, string>)
    requires a.Keys == b.Keys && forall k :: k in b ==> a[k] == b[k]
    ensures a == b
  {
  }

  lemma ReformattedAsset(closing: map<string, string>, asset: string)
    requires ValidBalances(closing) && asset in closing
    ensures Formatted(Parsed(closing))[asset] == closing[asset]
  {
    ReadThenFormat(closing[asset]);
  }

  /** Comparing balance texts is comparing balances. */
  lemma TextEqualsValues(a: map<string, string>, b: map<string, string>)
    requires ValidBalances(a) && ValidBalances(b)
    ensures a == b <==> SameBalances(a, b)
  {
    forall asset | asset in a && asset in b
      ensures a[asset] == b[asset] <==> Value(Amount(a[asset]).value) == Value(Amount(b[asset]).value)
    {
      TextEqualityIsNumericEquality(a[asset], b[asset]);
    }
  }

  /** Validation compares the balances as numbers; canonical texts make that a comparison of texts. */
  method ValidateBalanceLedger(l: BalanceLedger) returns (ok: bool)
    ensures ok <==> ValidLedger(l)
  {
    if !(0 <= l.startNs <= l.endNs) || !ValidBalances(l.folded) || !ValidBalances(l.snapshot) {
      return false;
    }
    TextEqualsValues(l.folded, l.snapshot);
    return "" !in l.unknown && l.unknown !! l.applied && l.selfConsistent == (l.folded == l.snapshot);
  }

  /** A folded balance reads as opening plus the sum of its asset's deltas whenever every partial sum fits. */
  lemma FoldedBalanceIsOpeningPlusDeltas(opening: map<string, string>, deltas: seq<BalanceDelta>, asset: string)
    requires ValidBalances(opening)
    requires asset in opening && FitsThroughout(Amount(opening[asset]).value, AmountsOf(deltas, asset))
    ensures Amount(FoldedTexts(opening, deltas)[asset]).Success?
    ensures Value(Amount(FoldedTexts(opening, deltas)[asset]).value)
         == Value(Amount(opening[asset]).value) + Sum(AmountsOf(deltas, asset))
  {
    var first, ds := Amount(opening[asset]).value, AmountsOf(deltas, asset);
    TotalsAreFolds(Add, Parsed(opening), deltas, |deltas|, asset);
    ReadThenFormat(opening[asset]);
    FoldFits(first, ds);
    ConservationIffFits(first, ds);
    FormatThenRead(Fold(first, ds));
  }

  lemma {:induction false} SameAmounts(a: seq<BalanceDelta>, b: seq<BalanceDelta>, n: nat, asset: string)
    requires n <= |a| && n <= |b| && forall i :: 0 <= i < n ==> a[i] == b[i]
    ensures AmountsOfFirst(a, n, asset) == AmountsOfFirst(b, n, asset)
  {
    if n > 0 {
      SameAmounts(a, b, n - 1, asset);
    }
  }

  lemma {:induction false} AmountsConcat(x: seq<BalanceDelta>, y: seq<BalanceDelta>, n: nat, asset: string)
    requires n <= |y|
    ensures AmountsOfFirst(x + y, |x| + n, asset) == AmountsOf(x, asset) + AmountsOfFirst(y, n, asset)
  {
    if n == 0 {
      SameAmounts(x + y, x, |x|, asset);
    } else {
      AmountsConcat(x, y, n - 1, asset);
      assert (x + y)[|x| + n - 1] == y[n - 1];
    }
  }

  lemma AmountsJoin(x: seq<BalanceDelta>, y: seq<BalanceDelta>, asset: string)
    ensures AmountsOf(x + y, asset) == AmountsOf(x, asset) + AmountsOf(y, asset)
  {
    AmountsConcat(x, y, |y|, asset);
  }

  /** Reordered deltas hand each asset a reordering of its amounts. */
  lemma {:induction false} AmountsPermute(a: seq<BalanceDelta>, b: seq<BalanceDelta>, asset: string)
    requires multiset(a) == multiset(b)
    ensures multiset(AmountsOf(a, asset)) == multiset(AmountsOf(b, asset))
    decreases |a|
  {
    if a == [] {
      assert |multiset(a)| == 0 && |b| == |multiset(b)|;
    } else {
      var n := |a| - 1;
      var k := PullLast(a, b);
      AmountsPermute(a[..n], b[..k] + b[k + 1..], asset);
      AmountsWithout(a, n, asset);
      AmountsWithout(b, k, asset);
      assert a[..n] + a[n + 1..] == a[..n];
    }
  }

  lemma AmountsWithout(s: seq<BalanceDelta>, k: nat, asset: string)
    requires k < |s|
    ensures multiset(AmountsOf(s, asset))
         == multiset(AmountsOf(s[..k] + s[k + 1..], asset)) + multiset(AmountsOf([s[k]], asset))
  {
    var before, after := s[..k], s[k + 1..];
    AmountsJoin(before, [s[k]] + after, asset);
    AmountsJoin([s[k]], after, asset);
    AmountsJoin(before, after, asset);
    assert s == before + ([s[k]] + after);
  }

  /** No partial sum of the asset needs more digits than the context keeps. */
  ghost predicate AssetFits(opening: map<string, string>, deltas: seq<BalanceDelta>, asset: string)
    requires ValidBalances(opening) && asset in opening
  {
    FitsThroughout(Amount(opening[asset]).value, AmountsOf(deltas, asset))
  }

  /** Where partial sums fit, a folded balance does not depend on the order of the deltas. */
  lemma LedgerOrderNeverMatters(opening: map<string, string>, a: seq<BalanceDelta>, b: seq<BalanceDelta>,
                                asset: string)
    requires ValidBalances(opening) && multiset(a) == multiset(b) && asset in opening
    requires AssetFits(opening, a, asset) && AssetFits(opening, b, asset)
    ensures FoldedTexts(opening, a)[asset] == FoldedTexts(opening, b)[asset]
  {
    AmountsPermute(a, b, asset);
    ReadThenFormat(opening[asset]);
    OrderNeverMatters(Amount(opening[asset]).value, AmountsOf(a, asset), AmountsOf(b, asset));
    TotalsAreFolds(Add, Parsed(opening), a, |a|, asset);
    TotalsAreFolds(Add, Parsed(opening), b, |b|, asset);
  }

  /** Where the sizes stay within the bound, no ordering of the deltas changes the folded balance. */
  lemma BoundedLedgerOrder(opening: map<string, string>, a: seq<BalanceDelta>, b: seq<BalanceDelta>, asset: string,
                           e: int)
    requires ValidBalances(opening) && multiset(a) == multiset(b) && asset in opening
    requires Bounded(Amount(opening[asset]).value, AmountsOf(a, asset), e)
    ensures FoldedTexts(opening, a)[asset] == FoldedTexts(opening, b)[asset]
  {
    AmountsPermute(a, b, asset);
    BoundedOrdersFit(Amount(opening[asset]).value, AmountsOf(a, asset), AmountsOf(b, asset), e);
    LedgerOrderNeverMatters(opening, a, b, asset);
  }

  /** Taking one delta out of an accepted sequence leaves one; its entry id appears nowhere else. */
  lemma AcceptedWithout(deltas: seq<BalanceDelta>, k: nat, startNs: int, endNs: int, assets: set<string>)
    requires k < |deltas|
    ensures AcceptedDeltas(deltas, startNs, endNs, assets) <==>
              && AcceptedDeltas(deltas[..k] + deltas[k + 1..], startNs, endNs, assets)
              && startNs <= deltas[k].occurredNs <= endNs && deltas[k].asset in assets
              && deltas[k].entryId !in EntryIds(deltas[..k] + deltas[k + 1..])
  {
    var rest := deltas[..k] + deltas[k + 1..];
    assert forall i :: 0 <= i < k ==> rest[i] == deltas[i];
    assert forall i :: k <= i < |rest| ==> rest[i] == deltas[i + 1];
    if AcceptedDeltas(deltas, startNs, endNs, assets) {
      assert AcceptedAt(deltas, k, startNs, endNs, assets);
      forall i: nat | i < |rest|
        ensures AcceptedAt(rest, i, startNs, endNs, assets) && rest[i].entryId != deltas[k].entryId
      {
        assert AcceptedAt(deltas, if i < k then i else i + 1, startNs, endNs, assets);
      }
    }
    if AcceptedDeltas(rest, startNs, endNs, assets) && deltas[k].entryId !in EntryIds(rest) {
      forall i: nat, j: nat | i < j < |deltas|
        ensures deltas[i].entryId != deltas[j].entryId
      {
        if i != k && j != k {
          assert AcceptedAt(rest, if j < k then j else j - 1, startNs, endNs, assets);
          assert rest[if i < k then i else i - 1] == deltas[i];
        } else {
          var other := if i == k then j else i;
          assert rest[if other < k then other else other - 1] == deltas[other];
          assert deltas[other].entryId in EntryIds(rest);
        }
      }
      forall i: nat | i < |deltas| && i != k
        ensures startNs <= deltas[i].occurredNs <= endNs && deltas[i].asset in assets
      {
        assert AcceptedAt(rest, if i < k then i else i - 1, startNs, endNs, assets);
      }
    }
  }

  lemma {:induction false} AcceptedPermute(a: seq<BalanceDelta>, b: seq<BalanceDelta>, startNs: int, endNs: int,
                                           assets: set<string>)
    requires multiset(a) == multiset(b)
    ensures AcceptedDeltas(a, startNs, endNs, assets) <==> AcceptedDeltas(b, startNs, endNs, assets)
    decreases |a|
  {
    if a == [] {
      assert |multiset(a)| == 0 && |b| == |multiset(b)|;
    } else {
      var n := |a| - 1;
      var k := PullLast(a, b);
      var rest := b[..k] + b[k + 1..];
      assert a[..n] + a[n + 1..] == a[..n];
      AcceptedPermute(a[..n], rest, startNs, endNs, assets);
      SameEntryIds(a[..n], rest);
      AcceptedWithout(a, n, startNs, endNs, assets);
      AcceptedWithout(b, k, startNs, endNs, assets);
    }
  }

  lemma SameEntryIds(a: seq<BalanceDelta>, b: seq<BalanceDelta>)
    requires multiset(a) == multiset(b)
    ensures EntryIds(a) == EntryIds(b)
  {
    assert forall d :: d in a <==> d in multiset(a);
    assert forall d :: d in b <==> d in multiset(b);
    assert forall i :: 0 <= i < |a| ==> a[i] in b;
    assert forall i :: 0 <= i < |b| ==> b[i] in a;
  }

  /**
   * Reordering fills and entries changes nothing about a reconciliation: the same deltas are accepted, the same entry
   * ids are applied, and where the partial sums of both orders fit, the folded balances are the same texts.
   */
  lemma ReconciliationIgnoresOrder(startNs: int, endNs: int, opening: map<string, string>, a: seq<BalanceDelta>,
                                   b: seq<BalanceDelta>, closing: map<string, string>)
    requires multiset(a) == multiset(b)
    ensures Reconcilable(startNs, endNs, opening, a, closing) <==> Reconcilable(startNs, endNs, opening, b, closing)
    ensures EntryIds(a) == EntryIds(b)
    ensures ValidBalances(opening)
            && (forall asset :: asset in opening ==> AssetFits(opening, a, asset) && AssetFits(opening, b, asset)) ==>
              FoldedTexts(opening, a) == FoldedTexts(opening, b)
  {
    AcceptedPermute(a, b, startNs, endNs, opening.Keys);
    SameEntryIds(a, b);
    if ValidBalances(opening)
       && forall asset :: asset in opening ==> AssetFits(opening, a, asset) && AssetFits(opening, b, asset) {
      FoldedTextsValid(opening, a);
      FoldedTextsValid(opening, b);
      forall asset | asset in opening
        ensures FoldedTexts(opening, a)[asset] == FoldedTexts(opening, b)[asset]
      {
        LedgerOrderNeverMatters(opening, a, b, asset);
      }
      SameTexts(FoldedTexts(opening, a), FoldedTexts(opening, b));
    }
  }

  lemma FoldFits(opening: Dec, ds: seq<Dec>)
    requires Fits(opening) && FitsThroughout(opening, ds)
    ensures Fits(Fold(opening, ds))
  {
    if ds != [] {
      var last := ExactSum(Fold(opening, ds[..|ds| - 1]), ds[|ds| - 1]);
      RoundExactIffFits(last);
      FitsByValue(last, Round(last));
    }
  }
}
