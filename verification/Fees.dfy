/** The fee service: which tier an amount falls in, what it costs, and the two places that
    charge it, the quote over HTTP and the ledger row for a created order. */
module Fees {
  import opened Wrappers
  import opened Arithmetic
  import opened Decimal
  import Amounts

  const GLOBAL := "global"
  const BPS: int := 10_000

  /** A row of the schedule table. Nothing there or in the update handler keeps the rate or the
      minimum from being negative. */
  datatype Schedule = Schedule(
    operation: string,
    arena: string,
    tierMin: int,
    tierMax: Option<int>,
    bps: int,
    minFee: int,
    active: bool)
  {
    predicate Covers(w: int) {
      tierMin <= w && (tierMax.Some? ==> w < tierMax.value)
    }

    predicate Matches(op: string, ar: string, w: int) {
      operation == op && (arena == ar || arena == GLOBAL) && active && Covers(w)
    }

    /** The share of the amount, rounded down, or the minimum where that is more. */
    function Fee(w: int): int {
      var share := w * bps / BPS;
      if share < minFee then minFee else share
    }
  }

  /** Schedules by their ID. */
  type Table = map<nat, Schedule>

  // ------------------------------------------------------------------------ tier selection

  function Rank(s: Schedule, arena: string): nat {
    if s.arena == arena then 0 else 1
  }

  /** What the lookup may answer: any matching row of least rank, or none if no row matches. */
  predicate Selects(table: Table, op: string, arena: string, w: int, answer: Option<nat>) {
    match answer
    case None => forall id | id in table :: !table[id].Matches(op, arena, w)
    case Some(chosen) =>
      && chosen in table
      && table[chosen].Matches(op, arena, w)
      && forall id | id in table && table[id].Matches(op, arena, w) ::
           Rank(table[chosen], arena) <= Rank(table[id], arena)
  }

  /** Some positive amount lies in both tiers: the least one that reaches both minima does. */
  predicate Overlap(a: Schedule, b: Schedule) {
    var least := Max(1, Max(a.tierMin, b.tierMin));
    a.Covers(least) && b.Covers(least)
  }

  predicate NoOverlap(table: Table) {
    forall i, j | i in table && j in table && i != j
                  && table[i].active && table[j].active
                  && table[i].operation == table[j].operation
                  && table[i].arena == table[j].arena ::
      !Overlap(table[i], table[j])
  }

  ghost predicate OneAnswer(table: Table) {
    forall op, arena, w, a, b | w > 0 && Selects(table, op, arena, w, a) && Selects(table, op, arena, w, b) :: a == b
  }

  lemma SelectionUnique(table: Table, op: string, arena: string, w: int, a: Option<nat>, b: Option<nat>)
    requires NoOverlap(table) && w > 0
    requires Selects(table, op, arena, w, a) && Selects(table, op, arena, w, b)
    ensures a == b
  {
  }

  /** The answer is the same whatever order the rows are scanned in, for every operation, arena
      and amount, exactly if no two active tiers of one operation and arena overlap. */
  lemma SelectionUniqueExactly(table: Table)
    ensures OneAnswer(table) <==> NoOverlap(table)
  {
    if NoOverlap(table) {
      forall op, arena, w, a, b | w > 0 && Selects(table, op, arena, w, a) && Selects(table, op, arena, w, b)
        ensures a == b
      {
        SelectionUnique(table, op, arena, w, a, b);
      }
    } else {
      var i, j :| i in table && j in table && i != j
                  && table[i].active && table[j].active
                  && table[i].operation == table[j].operation
                  && table[i].arena == table[j].arena
                  && Overlap(table[i], table[j]);
      var w := Max(1, Max(table[i].tierMin, table[j].tierMin));
      assert Selects(table, table[i].operation, table[i].arena, w, Some(i));
      assert Selects(table, table[i].operation, table[i].arena, w, Some(j));
    }
  }

  lemma SelectionExists(table: Table, op: string, arena: string, w: int)
    ensures exists answer :: Selects(table, op, arena, w, answer)
  {
    if id :| id in table && table[id].Matches(op, arena, w) && table[id].arena == arena {
      assert Selects(table, op, arena, w, Some(id));
    } else if id :| id in table && table[id].Matches(op, arena, w) {
      assert Selects(table, op, arena, w, Some(id));
    } else {
      assert Selects(table, op, arena, w, None);
    }
  }

  // ------------------------------------------------------------------------- both charges

  datatype Response =
    | BadRequest(message: string)
    | NotFound
    | Internal
    | Quoted(feeWei: int, feeBps: int, amountWei: int, operation: string, arena: string)

  datatype OrderCreated = OrderCreated(order: nat, kind: string, amountWei: string, arena: string)

  datatype Entry = Entry(order: nat, operation: string, amountWei: int, feeWei: int, feeBps: int, arena: string)

  function ArenaOf(arena: string): string {
    if arena == "" then GLOBAL else arena
  }

  function OperationOf(kind: string): string {
    if kind == "sell" then "burn" else "mint"
  }

  /** The amount a gram text or a wei text stands for, if it is one that can be charged. */
  function Chargeable(wei: Option<int>): Option<int> {
    if wei.Some? && wei.value > 0 then wei else None
  }

  /** The responses the quote may give for a database that answers, or does not. */
  ghost predicate IsQuote(table: Table, op: string, grams: string, arena: string, reachable: bool, q: Response) {
    if op == "" || grams == "" then q == BadRequest("operation_type and amount_grams are required")
    else
      match Chargeable(Amounts.FeeWei(grams))
      case None => q == BadRequest("invalid amount_grams")
      case Some(w) =>
        if !reachable then q == Internal
        else
          match q
          case NotFound => Selects(table, op, ArenaOf(arena), w, None)
          case Quoted(fee, bps, amount, o, a) =>
            && amount == w && o == op && a == ArenaOf(arena)
            && exists id :: Selects(table, op, a, w, Some(id)) && fee == table[id].Fee(w) && bps == table[id].bps
          case _ => false
  }

  /** The rows a created order may add: a tier that is not found and a lookup that fails are
      both taken for no fee at all. */
  ghost predicate IsCharge(table: Table, e: OrderCreated, reachable: bool, rows: seq<Entry>) {
    match Chargeable(ParseInt(e.amountWei))
    case None => rows == []
    case Some(w) =>
      var op, arena := OperationOf(e.kind), ArenaOf(e.arena);
      if !reachable || rows == [] then rows == [] && (reachable ==> Selects(table, op, arena, w, None))
      else
        exists id :: Selects(table, op, arena, w, Some(id))
                     && rows == [Entry(e.order, op, w, table[id].Fee(w), table[id].bps, arena)]
  }

  class FeeService {
    var schedules: Table
    var ledger: seq<Entry>

    method FindTier(op: string, arena: string, w: int) returns (tier: Option<nat>)
      ensures Selects(schedules, op, arena, w, tier)
    {
      if id :| id in schedules && schedules[id].Matches(op, arena, w) && schedules[id].arena == arena {
        tier := Some(id);
      } else if id :| id in schedules && schedules[id].Matches(op, arena, w) {
        tier := Some(id);
      } else {
        tier := None;
      }
    }

    method Calculate(op: string, grams: string, arena: string, reachable: bool) returns (q: Response)
      ensures IsQuote(schedules, op, grams, arena, reachable, q)
    {
      if op == "" || grams == "" {
        return BadRequest("operation_type and amount_grams are required");
      }
      var at := arena;
      if at == "" {
        at := GLOBAL;
      }
      var amount := Amounts.GramsToWei(grams);
      if amount.None? || amount.value <= 0 {
        return BadRequest("invalid amount_grams");
      }
      if !reachable {
        return Internal;
      }
      var tier := FindTier(op, at, amount.value);
      if tier.None? {
        return NotFound;
      }
      var s := schedules[tier.value];
      var feeWei := amount.value * s.bps;
      feeWei := feeWei / BPS;
      if feeWei < s.minFee {
        feeWei := s.minFee;
      }
      q := Quoted(feeWei, s.bps, amount.value, op, at);
    }

    /** `ok` is what decides between acknowledging the event and having it again; the ledger
        insert may fail, and may have taken effect nevertheless. `rows` is what it inserts. */
    method HandleOrderCreated(e: OrderCreated, reachable: bool, insertOk: bool, landed: bool)
      returns (ok: bool, ghost rows: seq<Entry>)
      requires insertOk ==> landed
      modifies this`ledger
      ensures IsCharge(schedules, e, reachable, rows)
      ensures ledger == old(ledger) + (if landed then rows else [])
      ensures ok <==> rows == [] || insertOk
    {
      var amount := ParseInt(e.amountWei);
      if amount.None? || amount.value <= 0 {
        return true, [];
      }
      var op := "mint";
      if e.kind == "sell" {
        op := "burn";
      }
      var arena := e.arena;
      if arena == "" {
        arena := GLOBAL;
      }
      var tier := None;
      if reachable {
        tier := FindTier(op, arena, amount.value);
      }
      if tier.None? {
        return true, [];
      }
      var s := schedules[tier.value];
      var feeWei := amount.value * s.bps;
      feeWei := feeWei / BPS;
      if feeWei < s.minFee {
        feeWei := s.minFee;
      }
      var entry := Entry(e.order, op, amount.value, feeWei, s.bps, arena);
      rows := [entry];
      if landed {
        ledger := ledger + [entry];
      }
      ok := insertOk;
    }
  }

  lemma NoGramsNoCharge()
    ensures Chargeable(Amounts.FeeWei("")) == None
  {
    ValueZeros(Amounts.FRACTION_DIGITS);
    assert Amounts.Scaled("") == Repeat('0', Amounts.FRACTION_DIGITS);
  }

  /** What a client is quoted is what its order is charged, for the same operation, arena and
      amount in wei: where tiers do not overlap, both find a tier or neither does. */
  lemma QuotedFeeIsCharged(table: Table, op: string, grams: string, arena: string, q: Response,
                           e: OrderCreated, rows: seq<Entry>)
    requires NoOverlap(table)
    requires IsQuote(table, op, grams, arena, true, q) && IsCharge(table, e, true, rows)
    requires OperationOf(e.kind) == op && ArenaOf(e.arena) == ArenaOf(arena)
    requires ParseInt(e.amountWei) == Amounts.FeeWei(grams)
    ensures rows == if q.Quoted? then [Entry(e.order, op, q.amountWei, q.feeWei, q.feeBps, q.arena)] else []
  {
    var wei := Chargeable(Amounts.FeeWei(grams));
    if grams == "" {
      NoGramsNoCharge();
    }
    if wei.Some? {
      var quoted: Option<nat>, charged: Option<nat> := None, None;
      if q.Quoted? {
        var id :| Selects(table, op, ArenaOf(arena), wei.value, Some(id))
                  && q.feeWei == table[id].Fee(wei.value) && q.feeBps == table[id].bps;
        quoted := Some(id);
      }
      if rows != [] {
        var id :| Selects(table, op, ArenaOf(arena), wei.value, Some(id))
                  && rows == [Entry(e.order, op, wei.value, table[id].Fee(wei.value), table[id].bps, ArenaOf(arena))];
        charged := Some(id);
      }
      SelectionUnique(table, op, ArenaOf(arena), wei.value, quoted, charged);
    }
  }

  // --------------------------------------------------------------------------- redelivery

  /** One run of the handler on an event: what it inserts, and whether that took effect. */
  datatype HandlerRun = HandlerRun(reachable: bool, landed: bool, rows: seq<Entry>)

  /** What the runs leave in the ledger. */
  function Recorded(runs: seq<HandlerRun>): seq<Entry> {
    if runs == [] then []
    else
      var last := runs[|runs| - 1];
      Recorded(runs[..|runs| - 1]) + if last.landed then last.rows else []
  }

  function LandedRuns(runs: seq<HandlerRun>): nat {
    if runs == [] then 0
    else
      var last := runs[|runs| - 1];
      LandedRuns(runs[..|runs| - 1]) + if last.reachable && last.landed then 1 else 0
  }

  /** Nothing recognises an event that was handled before: an order that has a tier is charged the
      same fee once for every run that could look it up and whose insert took effect. */
  lemma {:induction false} ChargedOncePerLandedRun(table: Table, e: OrderCreated, runs: seq<HandlerRun>, w: int, id: nat)
    requires NoOverlap(table) && Chargeable(ParseInt(e.amountWei)) == Some(w)
    requires Selects(table, OperationOf(e.kind), ArenaOf(e.arena), w, Some(id))
    requires forall k | 0 <= k < |runs| :: IsCharge(table, e, runs[k].reachable, runs[k].rows)
    ensures |Recorded(runs)| == LandedRuns(runs)
    ensures forall k | 0 <= k < |Recorded(runs)| ::
              Recorded(runs)[k] == Entry(e.order, OperationOf(e.kind), w, table[id].Fee(w), table[id].bps, ArenaOf(e.arena))
  {
    if runs != [] {
      var front, last := runs[..|runs| - 1], runs[|runs| - 1];
      ChargedOncePerLandedRun(table, e, front, w, id);
      OneCharge(table, e, last, w, id);
    }
  }

  lemma OneCharge(table: Table, e: OrderCreated, run: HandlerRun, w: int, id: nat)
    requires NoOverlap(table) && Chargeable(ParseInt(e.amountWei)) == Some(w)
    requires Selects(table, OperationOf(e.kind), ArenaOf(e.arena), w, Some(id))
    requires IsCharge(table, e, run.reachable, run.rows)
    ensures run.rows == if run.reachable
                        then [Entry(e.order, OperationOf(e.kind), w, table[id].Fee(w), table[id].bps, ArenaOf(e.arena))]
                        else []
  {
    var op, arena := OperationOf(e.kind), ArenaOf(e.arena);
    if run.reachable && run.rows == [] {
      SelectionUnique(table, op, arena, w, None, Some(id));
    } else if run.reachable {
      var j :| Selects(table, op, arena, w, Some(j))
               && run.rows == [Entry(e.order, op, w, table[j].Fee(w), table[j].bps, arena)];
      SelectionUnique(table, op, arena, w, Some(j), Some(id));
    }
  }

  // ---------------------------------------------------------------------------- splitting

  predicate AllPositive(parts: seq<int>) {
    forall k | 0 <= k < |parts| :: parts[k] > 0
  }

  function Sum(parts: seq<int>): int {
    if parts == [] then 0 else Sum(parts[..|parts| - 1]) + parts[|parts| - 1]
  }

  function SumFees(s: Schedule, parts: seq<int>): int {
    if parts == [] then 0 else SumFees(s, parts[..|parts| - 1]) + s.Fee(parts[|parts| - 1])
  }

  lemma ShareAdds(v: int, w: int, bps: int)
    ensures (v + w) * bps / BPS <= v * bps / BPS + w * bps / BPS + 1
  {
  }

  lemma {:induction false} SharesAdd(s: Schedule, parts: seq<int>)
    requires parts != []
    ensures SumFees(s, parts) >= Sum(parts) * s.bps / BPS - (|parts| - 1)
    ensures SumFees(s, parts) >= |parts| * s.minFee
  {
    var front, last := parts[..|parts| - 1], parts[|parts| - 1];
    if front != [] {
      SharesAdd(s, front);
      ShareAdds(Sum(front), last, s.bps);
      assert |parts| * s.minFee == |front| * s.minFee + s.minFee;
    }
  }

  predicate LosesLittle(s: Schedule, parts: seq<int>) {
    SumFees(s, parts) >= s.Fee(Sum(parts)) - (|parts| - 1)
  }

  /** Splitting an amount into k parts never saves more than k - 1 wei, unless the tier pays its
      customers and its minimum is below one negative wei. */
  lemma SplittingLosesLittle(s: Schedule, parts: seq<int>)
    requires parts != [] && (s.bps >= 0 || s.minFee >= -1) && AllPositive(parts)
    ensures LosesLittle(s, parts)
  {
    SharesAdd(s, parts);
    SumPositive(parts);
    var w, k := Sum(parts), |parts|;
    assert s.bps >= 0 ==> w * s.bps >= 0;
    assert k * s.minFee - s.minFee + (k - 1) == (k - 1) * (s.minFee + 1);
    assert s.minFee >= -1 ==> (k - 1) * (s.minFee + 1) >= 0;
  }

  lemma {:induction false} SumPositive(parts: seq<int>)
    requires AllPositive(parts)
    ensures Sum(parts) >= |parts|
  {
    if parts != [] {
      SumPositive(parts[..|parts| - 1]);
    }
  }

  /** A split whose parts, and whose whole, the tier charges. */
  predicate Within(s: Schedule, parts: seq<int>) {
    parts != [] && AllPositive(parts) && (forall k | 0 <= k < |parts| :: s.Covers(parts[k])) && s.Covers(Sum(parts))
  }

  /** Two parts of the tier, together still in the tier. */
  predicate FairPair(s: Schedule, a: int, b: int) {
    a > 0 && b > 0 && s.Covers(a) && s.Covers(b) && s.Covers(a + b) ==> s.Fee(a) + s.Fee(b) >= s.Fee(a + b) - 1
  }

  lemma TwoParts(s: Schedule, a: int, b: int)
    ensures LosesLittle(s, [a, b]) <==> s.Fee(a) + s.Fee(b) >= s.Fee(a + b) - 1
    ensures a > 0 && b > 0 && s.Covers(a) && s.Covers(b) && s.Covers(a + b) ==> Within(s, [a, b])
  {
    hide Schedule.Fee;
    var fa, fb := s.Fee(a), s.Fee(b);
    assert [a, b][..1] == [a] && [a][..0] == [];
    assert Sum([a]) == a && SumFees(s, [a]) == fa;
    assert Sum([a, b]) == a + b && SumFees(s, [a, b]) == fa + fb;
  }

  /** Where splitting in two loses little, so does every split. */
  lemma {:induction false} PairsDecide(s: Schedule, parts: seq<int>)
    requires Within(s, parts) && forall a, b :: FairPair(s, a, b)
    ensures LosesLittle(s, parts)
  {
    hide Schedule.Fee;
    var front, last := parts[..|parts| - 1], parts[|parts| - 1];
    if front == [] {
      assert parts[..|parts| - 1] == [];
      var fee := s.Fee(last);
      assert Sum(parts) == 0 + last && SumFees(s, parts) == 0 + fee;
    } else {
      SumPositive(front);
      AtLeastMin(s, front);
      PairsDecide(s, front);
      assert FairPair(s, Sum(front), last);
    }
  }

  lemma {:induction false} AtLeastMin(s: Schedule, parts: seq<int>)
    requires parts != [] && AllPositive(parts) && forall k | 0 <= k < |parts| :: s.Covers(parts[k])
    ensures Sum(parts) >= s.tierMin
  {
    var front := parts[..|parts| - 1];
    if front != [] {
      AtLeastMin(s, front);
      assert parts[|parts| - 1] > 0;
    } else {
      assert Sum(parts) == parts[0];
    }
  }

  /** A larger amount costs no more where the rate is negative. */
  lemma FeeFalls(s: Schedule, v: int, w: int)
    requires s.bps < 0 && v <= w
    ensures s.Fee(w) <= s.Fee(v)
  {
    assert w * s.bps <= v * s.bps by {
      assert (w - v) * s.bps <= 0;
      assert w * s.bps == v * s.bps + (w - v) * s.bps;
    }
    DivMonotone(w * s.bps, v * s.bps, BPS);
  }

  /** The largest amount of a bounded tier, split in two. */
  predicate FairTop(s: Schedule, a: int)
    requires s.tierMax.Some?
  {
    FairPair(s, a, s.tierMax.value - 1 - a)
  }

  predicate LargestFair(s: Schedule)
    requires s.tierMax.Some?
  {
    forall a | 0 < a < s.tierMax.value - 1 :: FairTop(s, a)
  }

  lemma FeeIsLarger(s: Schedule, w: int)
    ensures s.Fee(w) >= s.minFee && s.Fee(w) >= w * s.bps / BPS
    ensures s.Fee(w) == s.minFee || s.Fee(w) == w * s.bps / BPS
  {
  }

  lemma UnfairMeansMinimum(s: Schedule, a: int, b: int)
    requires !FairPair(s, a, b)
    ensures a > 0 && b > 0 && s.Covers(a) && s.Covers(b) && s.Covers(a + b)
    ensures s.Fee(a) + s.Fee(b) < s.minFee - 1 && s.Fee(a + b) == s.minFee
  {
    FeeIsLarger(s, a);
    FeeIsLarger(s, b);
    FeeIsLarger(s, a + b);
    ShareAdds(a, b, s.bps);
    var fa, fb, fab := s.Fee(a), s.Fee(b), s.Fee(a + b);
    assert fa + fb < fab - 1;
  }

  lemma UnfairLargest(s: Schedule, a: int, b: int)
    requires s.bps < 0 && s.tierMax.Some? && !FairPair(s, a, b)
    ensures !LargestFair(s)
  {
    var top := s.tierMax.value - 1;
    UnfairMeansMinimum(s, a, b);
    FeeFalls(s, a + b, top);
    FeeFalls(s, b, top - a);
    FeeIsLarger(s, top);
    hide Schedule.Fee;
    assert a + (top - a) == top;
    assert !FairTop(s, a);
  }

  lemma MinimumReached(s: Schedule, w: int)
    requires s.bps < 0 && s.minFee < 0 && w >= BPS * -s.minFee
    ensures s.Fee(w) == s.minFee
  {
    assert w * s.bps <= w * -1;
    assert w * s.bps <= BPS * s.minFee;
  }

  lemma UnboundedUnfair(s: Schedule) returns (w: int)
    requires s.bps < 0 && s.minFee < -1 && s.tierMax.None?
    ensures !FairPair(s, w, w)
  {
    w := Max(BPS * -s.minFee, Max(s.tierMin, 1));
    MinimumReached(s, w);
    MinimumReached(s, w + w);
  }

  /** When no split of an amount into parts of the same tier saves more than rounding, exactly: the
      rate is not negative, or the minimum is at least -1, or the tier is bounded and its largest
      amount saves no more by being split in two. */
  lemma SplittingLosesLittleExactly(s: Schedule)
    ensures (forall parts | Within(s, parts) :: LosesLittle(s, parts))
            <==> s.bps >= 0 || s.minFee >= -1 || (s.tierMax.Some? && LargestFair(s))
  {
    if s.bps >= 0 || s.minFee >= -1 {
      forall parts | Within(s, parts) ensures LosesLittle(s, parts) {
        SplittingLosesLittle(s, parts);
      }
    } else if s.tierMax.None? {
      var w := UnboundedUnfair(s);
      TwoParts(s, w, w);
      assert Within(s, [w, w]) && !LosesLittle(s, [w, w]);
    } else if LargestFair(s) {
      forall a, b ensures FairPair(s, a, b) {
        if !FairPair(s, a, b) {
          UnfairLargest(s, a, b);
        }
      }
      forall parts | Within(s, parts) ensures LosesLittle(s, parts) {
        PairsDecide(s, parts);
      }
    } else {
      var a :| 0 < a < s.tierMax.value - 1 && !FairTop(s, a);
      TwoParts(s, a, s.tierMax.value - 1 - a);
      assert Within(s, [a, s.tierMax.value - 1 - a]);
    }
  }

  /** In particular where the share of the whole stays above the minimum. */
  lemma ShareAboveMinimum(s: Schedule, parts: seq<int>)
    requires parts != [] && Sum(parts) * s.bps / BPS >= s.minFee
    ensures LosesLittle(s, parts)
  {
    SharesAdd(s, parts);
  }
}
