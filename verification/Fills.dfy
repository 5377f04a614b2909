/** Fill pages of both venues: deduplicated surfaces and the filled quantity of one client order. */
module Fills {
  import opened Common
  import opened Decimals
  import opened DecimalText
  import opened Events
  import opened Surfaces
  import EventReplay
  import Ledger
  import ReplayOrder

  // ---------- rows ----------

  /** rest stands for the fields the quantity does not read, so equal fills have equal state fingerprints. */
  datatype Fill =
    | HlFill(coin: string, oid: nat, tid: nat, timeMs: nat, buy: bool, size: Dec, rest: string)
    | BybitFill(symbol: string, link: string, execId: string, timeMs: nat, buy: bool, size: Dec, rest: string)

  datatype Identity = HlIdentity(timeMs: nat, coin: string, tid: nat) | BybitIdentity(symbol: string, execId: string)

  function IdentityOf(f: Fill): Identity {
    match f
    case HlFill(coin, _, tid, timeMs, _, _, _) => HlIdentity(timeMs, coin, tid)
    case BybitFill(symbol, _, execId, _, _, _, _) => BybitIdentity(symbol, execId)
  }

  /** A row as the venue's row parser sees it; executions that are no trades are out of scope. */
  datatype Row = OutOfScope | UnknownRow | Known(fill: Fill)

  type States = map<Identity, Fill>

  // ---------- the surface ----------

  datatype Tally = Tally(states: States, unknown: nat, mismatch: nat)

  /** The first state of every identity, the rows not recognised, and the later rows that contradict the first. */
  function TallyOf(rows: seq<Row>): Tally {
    if rows == [] then Tally(map[], 0, 0)
    else
      var t, last := TallyOf(rows[..|rows| - 1]), rows[|rows| - 1];
      match last
      case OutOfScope => t
      case UnknownRow => t.(unknown := t.unknown + 1)
      case Known(f) =>
        var id := IdentityOf(f);
        if id !in t.states then t.(states := t.states[id := f])
        else if t.states[id] != f then t.(mismatch := t.mismatch + 1)
        else t
  }

  function SurfaceOf(t: Tally, venue: string, observedNs: int, pageComplete: bool,
                     truncated: bool): SurfaceEvidence<Fill, Identity> {
    SurfaceEvidence(observedNs, |t.states| + t.unknown, pageComplete, truncated, t.unknown, t.mismatch,
                    CanonicalSet(venue + ".fills.state", 1, t.states.Values),
                    CanonicalSet(venue + ".fills.identity", 1, t.states.Keys))
  }

  function Surface(rows: seq<Row>, venue: string, observedNs: int, pageComplete: bool,
                   truncated: bool): SurfaceEvidence<Fill, Identity> {
    SurfaceOf(TallyOf(rows), venue, observedNs, pageComplete, truncated)
  }

  /** All rows of all pages, in order. */
  function Rows(pages: seq<seq<Row>>): seq<Row> {
    if pages == [] then [] else Rows(pages[..|pages| - 1]) + pages[|pages| - 1]
  }

  /** One pass over the rows that keeps the first state of every identity. */
  method TallyRows(rows: seq<Row>) returns (t: Tally)
    ensures t == TallyOf(rows)
  {
    var states: States := map[];
    var unknown, mismatch := 0, 0;
    for k := 0 to |rows|
      invariant Tally(states, unknown, mismatch) == TallyOf(rows[..k])
    {
      assert rows[..k + 1][..k] == rows[..k];
      match rows[k]
      case OutOfScope =>
      case UnknownRow => unknown := unknown + 1;
      case Known(f) =>
        var id := IdentityOf(f);
        if id in states {
          if states[id] != f {
            mismatch := mismatch + 1;
          }
        } else {
          states := states[id := f];
        }
    }
    assert rows[..|rows|] == rows;
    return Tally(states, unknown, mismatch);
  }

  method ParseFillsSurface(pages: seq<seq<Row>>, venue: string, observedNs: int, pageComplete: bool, truncated: bool)
    returns (r: Result<SurfaceEvidence<Fill, Identity>>)
    ensures r.Success? <==> pages != [] && observedNs > 0
    ensures r.Success? ==> r.value == Surface(Rows(pages), venue, observedNs, pageComplete, truncated)
    ensures r.Success? ==> SurfaceCounts(r.value, Rows(pages))
    ensures r.Success? ==>
              && r.value.observedNs == observedNs
              && r.value.pageComplete == pageComplete && r.value.truncated == truncated
  {
    if pages == [] {
      return Failure("pages must not be empty");
    }
    if observedNs <= 0 {
      return Failure("observed_ns must be positive");
    }
    var t := TallyRows(Rows(pages));
    SurfaceMeaning(Rows(pages), venue, observedNs, pageComplete, truncated);
    return Success(SurfaceOf(t, venue, observedNs, pageComplete, truncated));
  }

  // ---------- what the surface counts ----------

  /** Two rows report one execution. */
  predicate SameExecution(f: Fill, g: Fill) {
    if f.HlFill? then g.HlFill? && f.timeMs == g.timeMs && f.coin == g.coin && f.tid == g.tid
    else g.BybitFill? && f.symbol == g.symbol && f.execId == g.execId
  }

  /** The row is the first report of its execution. */
  predicate FirstReport(rows: seq<Row>, k: nat)
    requires k < |rows|
  {
    rows[k].Known? && forall j :: 0 <= j < k && rows[j].Known? ==> !SameExecution(rows[j].fill, rows[k].fill)
  }

  predicate Differs(rows: seq<Row>, j: nat, k: nat)
    requires j < k < |rows|
  {
    rows[j].Known? && rows[k].Known? && SameExecution(rows[j].fill, rows[k].fill) && rows[j].fill != rows[k].fill
  }

  /** The row reports an execution again, and differently from its first report. */
  predicate Contradicts(rows: seq<Row>, k: nat)
    requires k < |rows|
  {
    exists j :: 0 <= j < k && FirstReport(rows, j) && Differs(rows, j, k)
  }

  predicate Reports(rows: seq<Row>, k: nat, f: Fill)
    requires k < |rows|
  {
    FirstReport(rows, k) && rows[k].fill == f
  }

  function Unrecognised(rows: seq<Row>, n: nat): nat
    requires n <= |rows|
  {
    if n == 0 then 0 else Unrecognised(rows, n - 1) + if rows[n - 1].UnknownRow? then 1 else 0
  }

  function Contradictions(rows: seq<Row>, n: nat): nat
    requires n <= |rows|
  {
    if n == 0 then 0 else Contradictions(rows, n - 1) + if Contradicts(rows, n - 1) then 1 else 0
  }

  /** The table after n rows holds the first report of every execution reported. */
  ghost predicate HoldsFirstReports(states: States, rows: seq<Row>, n: nat)
    requires n <= |rows|
  {
    && (forall k :: 0 <= k < n && FirstReport(rows, k) ==>
          IdentityOf(rows[k].fill) in states && states[IdentityOf(rows[k].fill)] == rows[k].fill)
    && (forall id :: id in states ==> exists k :: 0 <= k < n && Reports(rows, k, states[id]))
  }

  lemma FirstReportIsNew(rows: seq<Row>, k: nat)
    requires k < |rows|
    ensures FirstReport(rows, k) <==> IsNew(rows[..k], rows[k])
  {
    var front := rows[..k];
    TallyKeyed(front);
    if rows[k].Known? {
      var id := IdentityOf(rows[k].fill);
      if id in TallyOf(front).states {
        var g := TallyOf(front).states[id];
        assert g in TallyOf(front).states.Values;
        assert Known(g) in front;
        var j :| 0 <= j < k && rows[j] == Known(g);
        assert SameExecution(rows[j].fill, rows[k].fill);
      } else {
        forall j | 0 <= j < k && rows[j].Known?
          ensures !SameExecution(rows[j].fill, rows[k].fill)
        {
          assert rows[j] == front[j];
        }
      }
    }
  }

  lemma {:induction false} StatesAreFirstReports(rows: seq<Row>, n: nat)
    requires n <= |rows|
    ensures HoldsFirstReports(TallyOf(rows[..n]).states, rows, n)
  {
    if n > 0 {
      StatesAreFirstReports(rows, n - 1);
      FirstReportIsNew(rows, n - 1);
      assert rows[..n][..n - 1] == rows[..n - 1];
      var before, after := TallyOf(rows[..n - 1]).states, TallyOf(rows[..n]).states;
      if FirstReport(rows, n - 1) {
        assert after == before[IdentityOf(rows[n - 1].fill) := rows[n - 1].fill];
        assert Reports(rows, n - 1, rows[n - 1].fill);
      } else {
        assert after == before;
      }
    }
  }

  /** A repeated row contradicts exactly when it differs from what the table holds. */
  lemma ContradictsIff(rows: seq<Row>, k: nat)
    requires k < |rows| && rows[k].Known?
    ensures Contradicts(rows, k) <==>
            var states, id := TallyOf(rows[..k]).states, IdentityOf(rows[k].fill);
            id in states && states[id] != rows[k].fill
  {
    StatesAreFirstReports(rows, k);
    TallyKeyed(rows[..k]);
    var states, id := TallyOf(rows[..k]).states, IdentityOf(rows[k].fill);
    if id in states {
      var j :| 0 <= j < k && Reports(rows, j, states[id]);
      if states[id] != rows[k].fill {
        assert Differs(rows, j, k);
      }
    }
  }

  lemma TallyStep(rows: seq<Row>, k: nat)
    requires k < |rows|
    ensures var before, after := TallyOf(rows[..k]), TallyOf(rows[..k + 1]);
            && after.unknown == before.unknown + (if rows[k].UnknownRow? then 1 else 0)
            && after.mismatch == before.mismatch + if Contradicts(rows, k) then 1 else 0
  {
    assert rows[..k + 1][..k] == rows[..k];
    if rows[k].Known? {
      ContradictsIff(rows, k);
    }
  }

  /** What the table counts: rows not recognised, and rows that contradict the first report of their execution. */
  lemma {:induction false} TallyCounts(rows: seq<Row>, n: nat)
    requires n <= |rows|
    ensures TallyOf(rows[..n]).unknown == Unrecognised(rows, n)
    ensures TallyOf(rows[..n]).mismatch == Contradictions(rows, n)
  {
    if n > 0 {
      TallyCounts(rows, n - 1);
      TallyStep(rows, n - 1);
    }
  }

  /** The surface of the rows in terms of the rows alone. */
  ghost predicate SurfaceCounts(s: SurfaceEvidence<Fill, Identity>, rows: seq<Row>) {
    && s.unknownCount == Unrecognised(rows, |rows|)
    && s.mismatchCount == Contradictions(rows, |rows|)
    && s.fetchedCount == |s.entities.fingerprints| + s.unknownCount
    && (forall f :: f in s.entities.fingerprints <==> exists k :: 0 <= k < |rows| && Reports(rows, k, f))
    && (forall id :: id in s.identities.fingerprints <==>
          exists f :: f in s.entities.fingerprints && IdentityOf(f) == id)
  }

  lemma SurfaceMeaning(rows: seq<Row>, venue: string, observedNs: int, pageComplete: bool, truncated: bool)
    ensures SurfaceCounts(Surface(rows, venue, observedNs, pageComplete, truncated), rows)
  {
    TallyCounts(rows, |rows|);
    StatesAreFirstReports(rows, |rows|);
    assert rows[..|rows|] == rows;
    TallyKeyed(rows);
    KeyedSizes(TallyOf(rows).states);
    var states := TallyOf(rows).states;
    forall f | exists k :: 0 <= k < |rows| && Reports(rows, k, f)
      ensures f in states.Values
    {
      assert states[IdentityOf(f)] == f;
    }
    forall id | id in states
      ensures states[id] in states.Values && IdentityOf(states[id]) == id
    {
    }
  }

  ghost predicate Keyed(states: States) {
    forall id :: id in states ==> IdentityOf(states[id]) == id
  }

  lemma {:induction false} TallyKeyed(rows: seq<Row>)
    ensures Keyed(TallyOf(rows).states)
    ensures forall f :: f in TallyOf(rows).states.Values ==> Known(f) in rows
    ensures forall f :: Known(f) in rows ==> IdentityOf(f) in TallyOf(rows).states
  {
    if rows != [] {
      var front, last := rows[..|rows| - 1], rows[|rows| - 1];
      TallyKeyed(front);
      assert rows == front + [last];
    }
  }

  lemma {:induction false} KeyedSizes(states: States)
    requires Keyed(states)
    ensures |states.Values| == |states.Keys|
    decreases |states|
  {
    if id :| id in states {
      var rest := states - {id};
      assert rest.Keys == states.Keys - {id};
      assert forall k :: k in rest ==> rest[k] == states[k];
      KeyedSizes(rest);
      assert states.Values == rest.Values + {states[id]};
      assert states[id] !in rest.Values;
    } else {
      assert states.Keys == {} && states.Values == {};
    }
  }

  /** Every surface that the parsers build passes surface validation from the moment it was observed. */
  lemma SurfaceAlwaysValid(rows: seq<Row>, venue: string, observedNs: int, pageComplete: bool, truncated: bool,
                           nowNs: int)
    requires 0 < observedNs <= nowNs
    ensures SurfaceError(Surface(rows, venue, observedNs, pageComplete, truncated), nowNs) == None
  {
    TallyKeyed(rows);
    KeyedSizes(TallyOf(rows).states);
    var state, identity := venue + ".fills.state", venue + ".fills.identity";
    assert |state| != |identity|;
    assert |TallyOf(rows).states| == |TallyOf(rows).states.Keys|;
  }

  /** No two recognised fills share an identity and differ. */
  ghost predicate Consistent(rows: seq<Row>) {
    forall f, g :: Known(f) in rows && Known(g) in rows && IdentityOf(f) == IdentityOf(g) ==> f == g
  }

  lemma ConsistentStep(front: seq<Row>, last: Row)
    ensures Consistent(front + [last]) <==>
            && Consistent(front)
            && (last.Known? ==>
                  forall g :: Known(g) in front && IdentityOf(g) == IdentityOf(last.fill) ==> g == last.fill)
  {
    var rows := front + [last];
    assert forall r :: r in rows <==> r in front || r == last;
  }

  /** On consistent rows the table holds exactly the fills. */
  lemma StatesAreFills(rows: seq<Row>, f: Fill)
    requires Consistent(rows)
    ensures f in TallyOf(rows).states.Values <==> Known(f) in rows
    ensures Known(f) in rows ==> IdentityOf(f) in TallyOf(rows).states && TallyOf(rows).states[IdentityOf(f)] == f
  {
    TallyKeyed(rows);
    if Known(f) in rows {
      var g := TallyOf(rows).states[IdentityOf(f)];
      assert g in TallyOf(rows).states.Values;
      assert Known(g) in rows;
    }
  }

  /** The mismatch count is zero exactly when no identity was delivered with two states. */
  lemma {:induction false} MismatchMeaning(rows: seq<Row>)
    ensures TallyOf(rows).mismatch == 0 <==> Consistent(rows)
  {
    if rows != [] {
      var front, last := rows[..|rows| - 1], rows[|rows| - 1];
      assert rows == front + [last];
      MismatchMeaning(front);
      ConsistentStep(front, last);
      if last.Known? && Consistent(front) {
        LastMatches(front, last.fill);
      }
    }
  }

  lemma LastMatches(front: seq<Row>, f: Fill)
    requires Consistent(front)
    ensures var states := TallyOf(front).states;
            (IdentityOf(f) in states ==> states[IdentityOf(f)] == f) <==>
            forall g :: Known(g) in front && IdentityOf(g) == IdentityOf(f) ==> g == f
  {
    TallyKeyed(front);
    var states := TallyOf(front).states;
    forall g | Known(g) in front && IdentityOf(g) == IdentityOf(f)
      ensures IdentityOf(f) in states && states[IdentityOf(f)] == g
    {
      StatesAreFills(front, g);
    }
    if IdentityOf(f) in states {
      assert states[IdentityOf(f)] in states.Values;
      assert Known(states[IdentityOf(f)]) in front;
    }
  }

  // ---------- the filled quantity ----------

  datatype Target = HlTarget(coin: string, oids: set<nat>) | BybitTarget(symbol: string, link: string)

  /** What one order is after: its venue identity, its side and the earliest time of its fills. */
  datatype Query = Query(target: Target, buy: bool, earliestMs: int)

  predicate Matches(f: Fill, q: Query) {
    && f.timeMs >= q.earliestMs
    && match (f, q.target)
       case (HlFill(coin, oid, _, _, _, _, _), HlTarget(wanted, oids)) => coin == wanted && oid in oids
       case (BybitFill(symbol, link, _, _, _, _, _), BybitTarget(wanted, id)) => symbol == wanted && link == id
       case _ => false
  }

  /** The size with the sign of the fill's side, as the venue's builder computes it. */
  function SignedSize(f: Fill): Dec {
    var d := Dec(if f.buy then f.size.negative else !f.size.negative, f.size.coefficient, f.size.exponent);
    if f.BybitFill? && f.buy then d else Round(d)
  }

  /** The signed size is exact but where a sale, or a Hyperliquid size, has more digits than the context keeps. */
  lemma SignedSizeExactIff(f: Fill)
    ensures Value(SignedSize(f)) == (if f.buy then Value(f.size) else -Value(f.size)) <==>
            (f.BybitFill? && f.buy) || Fits(f.size)
  {
    ValueSign(f.size);
    RoundExactIffFits(Dec(f.size.negative, f.size.coefficient, f.size.exponent));
    RoundExactIffFits(Dec(!f.size.negative, f.size.coefficient, f.size.exponent));
  }

  /** The first fill of every identity, in order. */
  function FirstFills(rows: seq<Row>): seq<Fill> {
    if rows == [] then []
    else
      var front, last := rows[..|rows| - 1], rows[|rows| - 1];
      if last.Known? && IdentityOf(last.fill) !in TallyOf(front).states then FirstFills(front) + [last.fill]
      else FirstFills(front)
  }

  function Amounts(fills: seq<Fill>, q: Query): seq<Dec> {
    if fills == [] then []
    else
      var front, last := Amounts(fills[..|fills| - 1], q), fills[|fills| - 1];
      if Matches(last, q) then front + [SignedSize(last)] else front
  }

  const ZERO := Dec(false, 0, 0)

  function Negated(d: Dec): Dec {
    Round(Dec(!d.negative, d.coefficient, d.exponent))
  }

  /** The total aligned with the order's side, or nothing if the fills went the other way on balance. */
  function Aligned(signed: Dec, buy: bool): Option<Dec> {
    var aligned := if buy then Round(signed) else Negated(signed);
    if aligned.negative && aligned.coefficient > 0 then None else Some(aligned)
  }

  function Filled(rows: seq<Row>, q: Query): Option<Dec> {
    Aligned(Total(rows, q), q.buy)
  }

  function EarliestMs(sinceMs: nat, skewMs: nat): int {
    if sinceMs < skewMs then 0 else sinceMs - skewMs
  }

  lemma AmountsStep(fills: seq<Fill>, f: Fill, q: Query)
    ensures Amounts(fills + [f], q) == if Matches(f, q) then Amounts(fills, q) + [SignedSize(f)] else Amounts(fills, q)
  {
    assert (fills + [f])[..|fills|] == fills;
  }

  lemma FoldStep(ds: seq<Dec>, d: Dec)
    ensures Ledger.Fold(ZERO, ds + [d]) == Add(Ledger.Fold(ZERO, ds), d)
  {
    assert (ds + [d])[..|ds|] == ds;
  }

  /** The row brings an identity that the rows before it did not have. */
  predicate IsNew(front: seq<Row>, row: Row) {
    row.Known? && IdentityOf(row.fill) !in TallyOf(front).states
  }

  lemma FirstFillsStep(front: seq<Row>, row: Row)
    ensures FirstFills(front + [row]) == if IsNew(front, row) then FirstFills(front) + [row.fill] else FirstFills(front)
    ensures TallyOf(front + [row]).states.Keys
         == TallyOf(front).states.Keys + if IsNew(front, row) then {IdentityOf(row.fill)} else {}
  {
    assert (front + [row])[..|front|] == front;
  }

  function Total(rows: seq<Row>, q: Query): Dec {
    Ledger.Fold(ZERO, Amounts(FirstFills(rows), q))
  }

  lemma RowStep(rows: seq<Row>, k: nat, q: Query)
    requires k < |rows|
    ensures var front, row := rows[..k], rows[k];
            && TallyOf(rows[..k + 1]).states.Keys
            == TallyOf(front).states.Keys + (if IsNew(front, row) then {IdentityOf(row.fill)} else {})
            && Total(rows[..k + 1], q)
            == if IsNew(front, row) && Matches(row.fill, q) then Add(Total(front, q), SignedSize(row.fill))
               else Total(front, q)
  {
    var front, row := rows[..k], rows[k];
    assert rows[..k + 1] == front + [row];
    FirstFillsStep(front, row);
    if IsNew(front, row) {
      AmountsStep(FirstFills(front), row.fill, q);
      FoldStep(Amounts(FirstFills(front), q), SignedSize(row.fill));
    }
  }

  // ---------- what the quantity counts ----------

  /** The fill has the order's instrument and id and is no older than the order, allowing for the clock skew. */
  predicate OfOrder(f: Fill, target: Target, sinceMs: nat, skewMs: nat) {
    && f.timeMs + skewMs >= sinceMs
    && match target
       case HlTarget(coin, oids) => f.HlFill? && f.coin == coin && f.oid in oids
       case BybitTarget(symbol, link) => f.BybitFill? && f.symbol == symbol && f.link == link
  }

  predicate Counted(rows: seq<Row>, k: nat, target: Target, sinceMs: nat, skewMs: nat)
    requires k < |rows|
  {
    FirstReport(rows, k) && OfOrder(rows[k].fill, target, sinceMs, skewMs)
  }

  /** What the order bought less what it sold in the first n rows, in the sizes as written. */
  ghost function NetSize(rows: seq<Row>, n: nat, target: Target, sinceMs: nat, skewMs: nat): real
    requires n <= |rows|
  {
    if n == 0 then 0.0
    else
      var before := NetSize(rows, n - 1, target, sinceMs, skewMs);
      if !Counted(rows, n - 1, target, sinceMs, skewMs) then before
      else if rows[n - 1].fill.buy then before + Value(rows[n - 1].fill.size)
      else before - Value(rows[n - 1].fill.size)
  }

  function SizeUnits(f: Fill, e: int): nat
    requires e <= f.size.exponent
  {
    f.size.coefficient * Pow10(f.size.exponent - e)
  }

  /** The counted sizes of the first n rows without their signs, in units of 10^e. */
  ghost function GrossUnits(rows: seq<Row>, n: nat, target: Target, sinceMs: nat, skewMs: nat, e: int): nat
    requires n <= |rows|
    requires forall k :: 0 <= k < n && Counted(rows, k, target, sinceMs, skewMs) ==> e <= rows[k].fill.size.exponent
  {
    if n == 0 then 0
    else
      var before := GrossUnits(rows, n - 1, target, sinceMs, skewMs, e);
      if !Counted(rows, n - 1, target, sinceMs, skewMs) then before else before + SizeUnits(rows[n - 1].fill, e)
  }

  /** In units of 10^e the counted sizes stay below 10^28, so that no size and no partial sum is rounded. */
  ghost predicate ShortSizes(rows: seq<Row>, target: Target, sinceMs: nat, skewMs: nat, e: int) {
    && e <= 0
    && (forall k :: 0 <= k < |rows| && Counted(rows, k, target, sinceMs, skewMs) ==> e <= rows[k].fill.size.exponent)
    && GrossUnits(rows, |rows|, target, sinceMs, skewMs, e) < Pow10(PRECISION)
  }

  lemma OfOrderMatches(f: Fill, target: Target, buy: bool, sinceMs: nat, skewMs: nat)
    ensures OfOrder(f, target, sinceMs, skewMs) <==> Matches(f, Query(target, buy, EarliestMs(sinceMs, skewMs)))
  {
  }

  lemma ExactAmountsStep(fills: seq<Fill>, f: Fill, q: Query)
    ensures ExactAmounts(fills + [f], q)
         == if Matches(f, q) then ExactAmounts(fills, q) + [ExactSize(f)] else ExactAmounts(fills, q)
  {
    assert (fills + [f])[..|fills|] == fills;
  }

  /** One more row adds its exact size if it is counted. */
  lemma ExactRowStep(rows: seq<Row>, n: nat, target: Target, buy: bool, sinceMs: nat, skewMs: nat)
    requires n < |rows|
    ensures var q := Query(target, buy, EarliestMs(sinceMs, skewMs));
            var before, after := ExactAmounts(FirstFills(rows[..n]), q), ExactAmounts(FirstFills(rows[..n + 1]), q);
            after == if Counted(rows, n, target, sinceMs, skewMs) then before + [ExactSize(rows[n].fill)] else before
  {
    var q := Query(target, buy, EarliestMs(sinceMs, skewMs));
    assert rows[..n + 1] == rows[..n] + [rows[n]];
    FirstFillsStep(rows[..n], rows[n]);
    FirstReportIsNew(rows, n);
    if FirstReport(rows, n) {
      ExactAmountsStep(FirstFills(rows[..n]), rows[n].fill, q);
      OfOrderMatches(rows[n].fill, target, buy, sinceMs, skewMs);
    }
  }

  lemma SumStep(ds: seq<Dec>, d: Dec)
    ensures Ledger.Sum(ds + [d]) == Ledger.Sum(ds) + Value(d)
  {
    assert (ds + [d])[..|ds|] == ds;
  }

  lemma TotalUnitsStep(ds: seq<Dec>, d: Dec, e: int)
    requires (forall x :: x in ds ==> e <= x.exponent) && e <= d.exponent
    ensures forall x :: x in ds + [d] ==> e <= x.exponent
    ensures Ledger.TotalUnits(ds + [d], e) == Ledger.TotalUnits(ds, e) + Ledger.Abs(Ledger.Units(d, e))
  {
    assert (ds + [d])[..|ds|] == ds;
  }

  lemma {:induction false} NetIsSum(rows: seq<Row>, n: nat, target: Target, buy: bool, sinceMs: nat, skewMs: nat)
    requires n <= |rows|
    ensures NetSize(rows, n, target, sinceMs, skewMs)
         == Ledger.Sum(ExactAmounts(FirstFills(rows[..n]), Query(target, buy, EarliestMs(sinceMs, skewMs))))
  {
    if n > 0 {
      NetIsSum(rows, n - 1, target, buy, sinceMs, skewMs);
      ExactRowStep(rows, n - 1, target, buy, sinceMs, skewMs);
      if Counted(rows, n - 1, target, sinceMs, skewMs) {
        var before := ExactAmounts(FirstFills(rows[..n - 1]), Query(target, buy, EarliestMs(sinceMs, skewMs)));
        SumStep(before, ExactSize(rows[n - 1].fill));
        ValueSign(rows[n - 1].fill.size);
      }
    }
  }

  lemma {:induction false} ExponentsAbove(rows: seq<Row>, n: nat, target: Target, buy: bool, sinceMs: nat, skewMs: nat,
                                          e: int)
    requires n <= |rows|
    requires forall k :: 0 <= k < n && Counted(rows, k, target, sinceMs, skewMs) ==> e <= rows[k].fill.size.exponent
    ensures var amounts := ExactAmounts(FirstFills(rows[..n]), Query(target, buy, EarliestMs(sinceMs, skewMs)));
            forall d :: d in amounts ==> e <= d.exponent
  {
    if n > 0 {
      ExponentsAbove(rows, n - 1, target, buy, sinceMs, skewMs, e);
      ExactRowStep(rows, n - 1, target, buy, sinceMs, skewMs);
    }
  }

  lemma {:induction false} GrossIsTotal(rows: seq<Row>, n: nat, target: Target, buy: bool, sinceMs: nat, skewMs: nat,
                                        e: int)
    requires n <= |rows|
    requires forall k :: 0 <= k < n && Counted(rows, k, target, sinceMs, skewMs) ==> e <= rows[k].fill.size.exponent
    requires var amounts := ExactAmounts(FirstFills(rows[..n]), Query(target, buy, EarliestMs(sinceMs, skewMs)));
             forall d :: d in amounts ==> e <= d.exponent
    ensures var amounts := ExactAmounts(FirstFills(rows[..n]), Query(target, buy, EarliestMs(sinceMs, skewMs)));
            Ledger.TotalUnits(amounts, e) == GrossUnits(rows, n, target, sinceMs, skewMs, e)
  {
    if n == 0 {
      assert rows[..0] == [];
    } else {
      var q := Query(target, buy, EarliestMs(sinceMs, skewMs));
      var before := ExactAmounts(FirstFills(rows[..n - 1]), q);
      ExponentsAbove(rows, n - 1, target, buy, sinceMs, skewMs, e);
      GrossIsTotal(rows, n - 1, target, buy, sinceMs, skewMs, e);
      ExactRowStep(rows, n - 1, target, buy, sinceMs, skewMs);
      if Counted(rows, n - 1, target, sinceMs, skewMs) {
        TotalUnitsStep(before, ExactSize(rows[n - 1].fill), e);
        UnitsOfSize(rows[n - 1].fill, e);
      }
    }
  }

  lemma UnitsOfSize(f: Fill, e: int)
    requires e <= f.size.exponent
    ensures Ledger.Abs(Ledger.Units(ExactSize(f), e)) == SizeUnits(f, e)
  {
    var p := Pow10(f.size.exponent - e);
    assert (0 - f.size.coefficient) * p == 0 - f.size.coefficient * p;
  }

  /**
   * Within the bound the quantity is the side's share of the exact sum over the order's executions, each counted once
   * as first reported, from the skew allowance before the order on.
   */
  lemma QuantityIsNetSize(rows: seq<Row>, target: Target, buy: bool, sinceMs: nat, skewMs: nat, e: int)
    requires ShortSizes(rows, target, sinceMs, skewMs, e)
    ensures IsShare(Filled(rows, Query(target, buy, EarliestMs(sinceMs, skewMs))),
                    NetSize(rows, |rows|, target, sinceMs, skewMs), buy)
  {
    ShortIsSmall(rows, target, buy, sinceMs, skewMs, e);
    NetIsSum(rows, |rows|, target, buy, sinceMs, skewMs);
    assert rows[..|rows|] == rows;
    FilledIsExact(rows, Query(target, buy, EarliestMs(sinceMs, skewMs)), e);
  }

  lemma ShortIsSmall(rows: seq<Row>, target: Target, buy: bool, sinceMs: nat, skewMs: nat, e: int)
    requires ShortSizes(rows, target, sinceMs, skewMs, e)
    ensures Small(rows, Query(target, buy, EarliestMs(sinceMs, skewMs)), e)
  {
    ExponentsAbove(rows, |rows|, target, buy, sinceMs, skewMs, e);
    GrossIsTotal(rows, |rows|, target, buy, sinceMs, skewMs, e);
    assert rows[..|rows|] == rows;
    ZeroUnits(e);
  }

  lemma ZeroUnits(e: int)
    requires e <= 0
    ensures Ledger.Abs(Ledger.Units(ZERO, e)) == 0
  {
    assert Signed(ZERO) == 0 && 0 * Pow10(0 - e) == 0;
  }

  /** Rows reads the pages from the first to the last. */
  lemma {:induction false} RowsJoin(a: seq<seq<Row>>, b: seq<seq<Row>>)
    ensures Rows(a + b) == Rows(a) + Rows(b)
    ensures forall page :: Rows([page]) == page
  {
    forall page: seq<Row> | true
      ensures Rows([page]) == page
    {
      assert [page][..0] == [];
    }
    if b == [] {
      assert a + b == a;
    } else {
      assert (a + b)[..|a + b| - 1] == a + b[..|b| - 1];
      RowsJoin(a, b[..|b| - 1]);
    }
  }

  /** One pass over the pages that adds every matching fill once. */
  method BuildFilledQuantity(pages: seq<seq<Row>>, target: Target, buy: bool, sinceMs: nat,
                             skewMs: nat) returns (quantity: Option<Dec>)
    ensures quantity == Filled(Rows(pages), Query(target, buy, EarliestMs(sinceMs, skewMs)))
    ensures forall e :: ShortSizes(Rows(pages), target, sinceMs, skewMs, e) ==>
              IsShare(quantity, NetSize(Rows(pages), |Rows(pages)|, target, sinceMs, skewMs), buy)
  {
    var rows := Rows(pages);
    var seen: set<Identity> := {};
    var signed := ZERO;
    var q := Query(target, buy, if sinceMs < skewMs then 0 else sinceMs - skewMs);
    for k := 0 to |rows|
      invariant seen == TallyOf(rows[..k]).states.Keys
      invariant signed == Total(rows[..k], q)
    {
      RowStep(rows, k, q);
      if rows[k].Known? {
        var f := rows[k].fill;
        if IdentityOf(f) !in seen {
          seen := seen + {IdentityOf(f)};
          if Matches(f, q) {
            signed := Add(signed, SignedSize(f));
          }
        }
      }
    }
    assert rows[..|rows|] == rows;
    forall e | ShortSizes(rows, target, sinceMs, skewMs, e)
      ensures IsShare(Filled(rows, q), NetSize(rows, |rows|, target, sinceMs, skewMs), buy)
    {
      QuantityIsNetSize(rows, target, buy, sinceMs, skewMs, e);
    }
    return Aligned(signed, buy);
  }

  lemma {:induction false} FirstFillsCount(rows: seq<Row>, f: Fill)
    requires Consistent(rows)
    ensures multiset(FirstFills(rows))[f] == if Known(f) in rows then 1 else 0
  {
    if rows != [] {
      var front, last := rows[..|rows| - 1], rows[|rows| - 1];
      assert rows == front + [last];
      assert Consistent(front) by {
        assert forall x :: x in front ==> x in rows;
      }
      FirstFillsCount(front, f);
      TallyKeyed(front);
      if last.Known? && IdentityOf(last.fill) in TallyOf(front).states {
        var g := TallyOf(front).states[IdentityOf(last.fill)];
        assert g in TallyOf(front).states.Values;
        assert Known(g) in rows && g == last.fill;
      }
    }
  }

  ghost predicate SameFills(a: seq<Row>, b: seq<Row>) {
    forall f :: Known(f) in a <==> Known(f) in b
  }

  lemma SameFirstFills(a: seq<Row>, b: seq<Row>)
    requires Consistent(a) && Consistent(b) && SameFills(a, b)
    ensures multiset(FirstFills(a)) == multiset(FirstFills(b))
  {
    var x, y := multiset(FirstFills(a)), multiset(FirstFills(b));
    forall f: Fill | true
      ensures x[f] == y[f]
    {
      FirstFillsCount(a, f);
      FirstFillsCount(b, f);
    }
    SameFillCounts(x, y);
  }

  lemma SameFillCounts(x: multiset<Fill>, y: multiset<Fill>)
    requires forall f :: x[f] == y[f]
    ensures x == y
  {
  }

  lemma {:induction false} AmountsJoin(a: seq<Fill>, b: seq<Fill>, q: Query)
    ensures Amounts(a + b, q) == Amounts(a, q) + Amounts(b, q)
  {
    if b == [] {
      assert a + b == a;
    } else {
      assert (a + b)[..|a + b| - 1] == a + b[..|b| - 1];
      AmountsJoin(a, b[..|b| - 1], q);
    }
  }

  lemma AmountsWithout(s: seq<Fill>, k: nat, q: Query)
    requires k < |s|
    ensures multiset(Amounts(s, q)) == multiset(Amounts(s[..k] + s[k + 1..], q)) + multiset(Amounts([s[k]], q))
  {
    var before, after := s[..k], s[k + 1..];
    AmountsJoin(before, [s[k]] + after, q);
    AmountsJoin([s[k]], after, q);
    AmountsJoin(before, after, q);
    assert s == before + ([s[k]] + after);
  }

  lemma {:induction false} AmountsPermute(a: seq<Fill>, b: seq<Fill>, q: Query)
    requires multiset(a) == multiset(b)
    ensures multiset(Amounts(a, q)) == multiset(Amounts(b, q))
    decreases |a|
  {
    if a == [] {
      assert |multiset(a)| == 0 && |b| == |multiset(b)|;
    } else {
      var n := |a| - 1;
      var k := Ledger.PullLast(a, b);
      AmountsPermute(a[..n], b[..k] + b[k + 1..], q);
      AmountsWithout(a, n, q);
      AmountsWithout(b, k, q);
      assert a[..n] + a[n + 1..] == a[..n];
    }
  }

  /** The size as the venue wrote it, with the sign of the fill's side and no rounding. */
  function ExactSize(f: Fill): Dec {
    Dec(if f.buy then f.size.negative else !f.size.negative, f.size.coefficient, f.size.exponent)
  }

  function ExactAmounts(fills: seq<Fill>, q: Query): seq<Dec> {
    if fills == [] then []
    else
      var front, last := ExactAmounts(fills[..|fills| - 1], q), fills[|fills| - 1];
      if Matches(last, q) then front + [ExactSize(last)] else front
  }

  /**
   * In units of 10^e the matching sizes, as written, stay below 10^28, so that neither a size nor a partial sum is
   * rounded in any order.
   */
  ghost predicate Small(rows: seq<Row>, q: Query, e: int) {
    Ledger.Bounded(ZERO, ExactAmounts(FirstFills(rows), q), e)
  }

  lemma ShortDigits(c: nat)
    requires c < Pow10(PRECISION)
    ensures |DigitsOf(c)| <= PRECISION
  {
    var n := |DigitsOf(c)|;
    DigitsRoundTrip(c);
    if n > PRECISION {
      Pow10Monotone(PRECISION, n - 1);
    }
  }

  lemma AbsScaled(x: int, p: nat)
    requires p >= 1
    ensures Ledger.Abs(x) <= Ledger.Abs(x * p)
  {
    assert x >= 0 ==> x * p >= x;
    assert x < 0 ==> x * p <= x;
  }

  lemma ShortStays(d: Dec, e: int)
    requires e <= d.exponent && Ledger.Abs(Ledger.Units(d, e)) < Pow10(PRECISION)
    ensures Round(d) == d
  {
    AbsScaled(Signed(d), Pow10(d.exponent - e));
    assert d.coefficient == Ledger.Abs(Signed(d));
    ShortDigits(d.coefficient);
  }

  lemma {:induction false} UnitsWithin(ds: seq<Dec>, d: Dec, e: int)
    requires (forall x :: x in ds ==> e <= x.exponent) && d in ds
    ensures Ledger.Abs(Ledger.Units(d, e)) <= Ledger.TotalUnits(ds, e)
  {
    var front := ds[..|ds| - 1];
    assert ds == front + [ds[|ds| - 1]];
    if d in front {
      UnitsWithin(front, d, e);
    }
  }

  /** A size that is short as written is not rounded. */
  lemma {:induction false} UnroundedAmounts(fills: seq<Fill>, q: Query)
    requires forall d :: d in ExactAmounts(fills, q) ==> Round(d) == d
    ensures Amounts(fills, q) == ExactAmounts(fills, q)
  {
    if fills != [] {
      var front, last := fills[..|fills| - 1], fills[|fills| - 1];
      assert forall d :: d in ExactAmounts(front, q) ==> d in ExactAmounts(fills, q);
      UnroundedAmounts(front, q);
      assert Matches(last, q) ==> ExactSize(last) in ExactAmounts(fills, q);
    }
  }

  lemma SmallIsExact(rows: seq<Row>, q: Query, e: int)
    requires Small(rows, q, e)
    ensures Amounts(FirstFills(rows), q) == ExactAmounts(FirstFills(rows), q)
  {
    var exact := ExactAmounts(FirstFills(rows), q);
    forall d | d in exact
      ensures Round(d) == d
    {
      UnitsWithin(exact, d, e);
      ShortStays(d, e);
    }
    UnroundedAmounts(FirstFills(rows), q);
  }

  /** The quantity is the side's share of an exact total; nothing, if that total is negative. */
  ghost predicate IsShare(quantity: Option<Dec>, total: real, buy: bool) {
    var aligned := if buy then total else -total;
    match quantity
    case None => aligned < 0.0
    case Some(x) => Value(x) == aligned && aligned >= 0.0
  }

  lemma AlignedIsShare(signed: Dec, buy: bool)
    requires Fits(signed)
    ensures IsShare(Aligned(signed, buy), Value(signed), buy)
  {
    var opposite := Dec(!signed.negative, signed.coefficient, signed.exponent);
    ValueSign(signed);
    RoundExactIffFits(signed);
    RoundExactIffFits(opposite);
    assert Fits(opposite);
    ValueSign(Round(signed));
    ValueSign(Round(opposite));
  }

  lemma BoundedShare(rows: seq<Row>, q: Query, e: int)
    requires Ledger.Bounded(ZERO, Amounts(FirstFills(rows), q), e)
    ensures IsShare(Filled(rows, q), Ledger.Sum(Amounts(FirstFills(rows), q)), q.buy)
  {
    var amounts := Amounts(FirstFills(rows), q);
    Ledger.BoundedFolds(ZERO, amounts, e);
    Ledger.ConservationIffFits(ZERO, amounts);
    ZeroValue(ZERO);
    assert Fits(ZERO);
    Ledger.FoldFits(ZERO, amounts);
    AlignedIsShare(Ledger.Fold(ZERO, amounts), q.buy);
  }

  /** Within the bound the quantity is the exact sum of the matching sizes as written, each fill counted once. */
  lemma FilledIsExact(rows: seq<Row>, q: Query, e: int)
    requires Small(rows, q, e)
    ensures IsShare(Filled(rows, q), Ledger.Sum(ExactAmounts(FirstFills(rows), q)), q.buy)
  {
    SmallIsExact(rows, q, e);
    BoundedShare(rows, q, e);
  }

  /**
   * On rows without mismatch, and within the bound, the quantity depends only on the set of fills: permuting rows,
   * overlapping pages, repeating rows and rows out of scope or not recognised all leave it unchanged.
   */
  lemma QuantityDependsOnSet(a: seq<Row>, b: seq<Row>, q: Query, e: int)
    requires TallyOf(a).mismatch == 0 && TallyOf(b).mismatch == 0 && SameFills(a, b) && Small(a, q, e)
    ensures var total := Ledger.Sum(ExactAmounts(FirstFills(a), q));
            IsShare(Filled(a, q), total, q.buy) && IsShare(Filled(b, q), total, q.buy)
    ensures TallyOf(a).states == TallyOf(b).states
  {
    MismatchMeaning(a);
    MismatchMeaning(b);
    SameFirstFills(a, b);
    AmountsPermute(FirstFills(a), FirstFills(b), q);
    SmallIsExact(a, q, e);
    Ledger.PermutedTotals(Amounts(FirstFills(a), q), Amounts(FirstFills(b), q), e);
    BoundedShare(a, q, e);
    BoundedShare(b, q, e);
    SameStates(a, b);
  }

  lemma SameStates(a: seq<Row>, b: seq<Row>)
    requires Consistent(a) && Consistent(b) && SameFills(a, b)
    ensures TallyOf(a).states == TallyOf(b).states
  {
    var x, y := TallyOf(a).states, TallyOf(b).states;
    forall id | id in x
      ensures id in y && y[id] == x[id]
    {
      StateCarriesOver(a, b, id);
    }
    forall id | id in y
      ensures id in x
    {
      StateCarriesOver(b, a, id);
    }
  }

  lemma StateCarriesOver(a: seq<Row>, b: seq<Row>, id: Identity)
    requires Consistent(a) && Consistent(b) && SameFills(a, b) && id in TallyOf(a).states
    ensures id in TallyOf(b).states && TallyOf(b).states[id] == TallyOf(a).states[id]
  {
    TallyKeyed(a);
    var f := TallyOf(a).states[id];
    assert f in TallyOf(a).states.Values;
    StatesAreFills(a, f);
    StatesAreFills(b, f);
  }

  // ---------- Hyperliquid order ids ----------

  const UINT64_MAX: nat := 0xFFFF_FFFF_FFFF_FFFF

  /** A canonical unsigned decimal: digits only, no leading zero. */
  predicate CanonicalOid(text: string) {
    text != "" && DigitRun(text) == |text| && (text == "0" || text[0] != '0')
  }

  function OidOf(text: string): nat {
    NatOf(DigitsIn(text))
  }

  function WireOids(bindings: set<OrderBinding>, client: string): set<string> {
    set b | b in bindings && b.venue.HyperliquidVenue? && b.clientOrderId == client :: b.venueOrderId
  }

  function OidsOf(wire: set<string>): set<nat> {
    set text | text in wire :: OidOf(text)
  }

  lemma OneOid(text: string)
    ensures OidsOf({text}) == {OidOf(text)}
  {
    assert text in {text} && OidOf(text) in OidsOf({text});
    forall n | n in OidsOf({text})
      ensures n == OidOf(text)
    {
    }
  }

  predicate IsWireOid(text: string) {
    CanonicalOid(text) && OidOf(text) <= UINT64_MAX
  }

  /** One client's observed order ids; nothing if none was observed. */
  function HlOrderIds(bindings: set<OrderBinding>, client: string): Result<Option<set<nat>>> {
    var wire := WireOids(bindings, client);
    if client == "" then Failure("client_order_id must not be empty")
    else if wire == {} then Success(None)
    else if forall text :: text in wire ==> IsWireOid(text) then Success(Some(OidsOf(wire)))
    else Failure("venue_order_id must be canonical uint64 decimal")
  }

  predicate Observed(bindings: set<OrderBinding>, client: string, text: string) {
    OrderBinding(HyperliquidVenue, client, text) in bindings
  }

  /**
   * The lookup fails exactly on an empty client id or an observed id that is no canonical unsigned 64-bit number, finds
   * nothing exactly when nothing was observed for the client, and otherwise finds the numbers observed.
   */
  lemma OrderIdsIff(bindings: set<OrderBinding>, client: string)
    ensures var ids := HlOrderIds(bindings, client);
            && (ids.Failure? <==>
                  || client == ""
                  || exists text :: Observed(bindings, client, text)
                       && !(CanonicalOid(text) && OidOf(text) < 0x1_0000_0000_0000_0000))
            && (ids == Success(None) <==> client != "" && forall text :: !Observed(bindings, client, text))
            && (ids.Success? && ids.value.Some? ==>
                  forall oid :: oid in ids.value.value <==>
                    exists text :: Observed(bindings, client, text) && OidOf(text) == oid)
  {
    forall text | true
      ensures text in WireOids(bindings, client) <==> Observed(bindings, client, text)
    {
      BindingOf(bindings, client, text);
    }
    var wire := WireOids(bindings, client);
    if wire != {} {
      var text :| text in wire;
      assert Observed(bindings, client, text);
    }
  }

  lemma {:induction false} RunMeansDigits(s: string, i: nat)
    requires DigitRun(s) == |s| && i < |s|
    ensures IsDigit(s[i])
  {
    if i > 0 {
      RunMeansDigits(s[1..], i - 1);
    }
  }

  lemma {:induction false} FirstDigitsPositive(ds: seq<Digit>, n: nat)
    requires 0 < n <= |ds| && ds[0] != 0
    ensures NatOfFirst(ds, n) > 0
  {
    if n > 1 {
      FirstDigitsPositive(ds, n - 1);
    } else {
      assert NatOfFirst(ds, 1) == NatOfFirst(ds, 0) * 10 + ds[0];
    }
  }

  /** Digits without a leading zero are the digits of their number. */
  lemma {:induction false} DigitsOfNat(ds: seq<Digit>, n: nat)
    requires 0 < n <= |ds| && (n == 1 || ds[0] != 0)
    ensures DigitsOf(NatOfFirst(ds, n)) == ds[..n]
  {
    if n == 1 {
      assert NatOfFirst(ds, 1) == NatOfFirst(ds, 0) * 10 + ds[0];
      assert ds[..1] == [ds[0]];
    } else {
      FirstDigitsPositive(ds, n - 1);
      DigitsOfNat(ds, n - 1);
      var front := NatOfFirst(ds, n - 1);
      assert NatOfFirst(ds, n) == front * 10 + ds[n - 1];
      assert (front * 10 + ds[n - 1]) / 10 == front && (front * 10 + ds[n - 1]) % 10 == ds[n - 1];
      assert ds[..n] == ds[..n - 1] + [ds[n - 1]];
    }
  }

  /** Two canonical ids name the same number only if they are the same text. */
  lemma OidInjective(a: string, b: string)
    requires CanonicalOid(a) && CanonicalOid(b)
    ensures OidOf(a) == OidOf(b) ==> a == b
  {
    CanonicalDigits(a);
    CanonicalDigits(b);
    if OidOf(a) == OidOf(b) {
      SameDigits(a, b);
    }
  }

  lemma CanonicalDigits(text: string)
    requires CanonicalOid(text)
    ensures DigitsOf(OidOf(text)) == DigitsIn(text) && forall i :: 0 <= i < |text| ==> IsDigit(text[i])
  {
    forall i | 0 <= i < |text|
      ensures IsDigit(text[i])
    {
      RunMeansDigits(text, i);
    }
    var ds := DigitsIn(text);
    DigitsOfNat(ds, |ds|);
    assert ds[..|ds|] == ds;
  }

  lemma SameDigits(a: string, b: string)
    requires DigitsIn(a) == DigitsIn(b)
    requires (forall i :: 0 <= i < |a| ==> IsDigit(a[i])) && (forall i :: 0 <= i < |b| ==> IsDigit(b[i]))
    ensures a == b
  {
    assert |a| == |DigitsIn(a)| && |b| == |DigitsIn(b)|;
    forall i | 0 <= i < |a|
      ensures a[i] == b[i]
    {
      assert DigitsIn(a)[i] == CharDigit(a[i]) && DigitsIn(b)[i] == CharDigit(b[i]);
    }
  }

  /** In a replay without freeze reasons one client order has at most one Hyperliquid order id. */
  lemma OneOrderIdPerClient(log: seq<Event>, start: int, end: int, v: EventReplay.Replay, client: string)
    requires EventReplay.IsReplay(log, start, end, v) && v.reasons == {}
    requires HlOrderIds(v.bindings, client).Success? && HlOrderIds(v.bindings, client).value.Some?
    ensures exists oid :: HlOrderIds(v.bindings, client).value == Some({oid})
  {
    CleanReplayIsOneToOne(log, start, end, v);
    var wire := WireOids(v.bindings, client);
    var text :| text in wire;
    assert wire == {text} by {
      forall t | t in wire
        ensures t == text
      {
        BindingOf(v.bindings, client, t);
        BindingOf(v.bindings, client, text);
      }
    }
    OneOid(text);
    assert HlOrderIds(v.bindings, client).value == Some({OidOf(text)});
  }

  lemma BindingOf(bindings: set<OrderBinding>, client: string, text: string)
    ensures text in WireOids(bindings, client) <==> OrderBinding(HyperliquidVenue, client, text) in bindings
  {
    if text in WireOids(bindings, client) {
      var b :| b in bindings && b.venue.HyperliquidVenue? && b.clientOrderId == client && b.venueOrderId == text;
      assert b == OrderBinding(HyperliquidVenue, client, text);
    }
  }

  lemma CleanReplayIsOneToOne(log: seq<Event>, start: int, end: int, v: EventReplay.Replay)
    requires EventReplay.IsReplay(log, start, end, v) && v.reasons == {}
    ensures ReplayOrder.OneToOne(v.bindings)
  {
    forall r: Reason | true
      ensures !ReplayOrder.BindingConflict(v.bindings, r)
    {
      assert r !in v.reasons;
      assert !EventReplay.FreezeReason(log, v.events, v.bindings, r);
    }
    ReplayOrder.NoConflictIffOneToOne(v.bindings);
  }

  predicate HasOrderId(bindings: set<OrderBinding>, client: string, oid: nat) {
    HlOrderIds(bindings, client).Success? && HlOrderIds(bindings, client).value.Some?
    && oid in HlOrderIds(bindings, client).value.value
  }

  /** In a replay without freeze reasons a Hyperliquid fill is counted for at most one client order. */
  lemma FillCountsForOneClient(log: seq<Event>, start: int, end: int, v: EventReplay.Replay, a: string, b: string,
                               f: Fill)
    requires EventReplay.IsReplay(log, start, end, v) && v.reasons == {} && f.HlFill?
    requires HasOrderId(v.bindings, a, f.oid) && HasOrderId(v.bindings, b, f.oid)
    ensures a == b
  {
    CleanReplayIsOneToOne(log, start, end, v);
    var x :| x in WireOids(v.bindings, a) && OidOf(x) == f.oid;
    var y :| y in WireOids(v.bindings, b) && OidOf(y) == f.oid;
    OidInjective(x, y);
    BindingOf(v.bindings, a, x);
    BindingOf(v.bindings, b, y);
  }

  /** The quantity that a decision may use: none while the replay freezes, and none before an order id was observed. */
  method BuildReplayedFilledQuantity(v: EventReplay.Replay, pages: seq<seq<Row>>, client: string, coin: string,
                                     buy: bool, sinceMs: nat, skewMs: nat)
    returns (r: Result<Option<Option<Dec>>>)
    ensures match HlOrderIds(v.bindings, client)
            case Failure(error) => r == Failure(error)
            case Success(None) => r == Success(None)
            case Success(Some(oids)) =>
              r == Success(if v.reasons != {} then None
                           else Some(Filled(Rows(pages),
                               Query(HlTarget(coin, oids), buy, EarliestMs(sinceMs, skewMs)))))
    ensures r.Success? && r.value.Some? ==> HlOrderIds(v.bindings, client).Success?
                                            && HlOrderIds(v.bindings, client).value.Some?
    ensures r.Success? && r.value.Some? ==>
              var target := HlTarget(coin, HlOrderIds(v.bindings, client).value.value);
              forall e :: ShortSizes(Rows(pages), target, sinceMs, skewMs, e) ==>
                IsShare(r.value.value, NetSize(Rows(pages), |Rows(pages)|, target, sinceMs, skewMs), buy)
  {
    var oids := HlOrderIds(v.bindings, client);
    if oids.Failure? {
      return Failure(oids.error);
    }
    if v.reasons != {} || oids.value.None? {
      return Success(None);
    }
    var quantity := BuildFilledQuantity(pages, HlTarget(coin, oids.value.value), buy, sinceMs, skewMs);
    return Success(Some(quantity));
  }
}
