/** The treasury: reserve balances, the settlements that change them, and reconciliation.

    A manual settlement adjusts a balance and records itself in one transaction. Balances are in
    wei; a settlement that was recorded counts as settled. */
module Treasury {
  import opened Wrappers
  import opened Decimal

  type AccountId = nat

  datatype Settlement = Settlement(account: AccountId, credit: bool, amount: int)
  {
    function Signed(): int { if credit then amount else -amount }
  }

  datatype RepoError = NotFound | InsufficientBalance | Failed

  datatype Books = Books(balances: map<AccountId, int>, settlements: seq<Settlement>)

  // ------------------------------------------------------------------ what a settlement does

  /** The two conditional updates. */
  function Adjusted(balances: map<AccountId, int>, s: Settlement): Result<map<AccountId, int>, RepoError> {
    if s.account !in balances then Err(NotFound)
    else if !s.credit && balances[s.account] < s.amount then Err(InsufficientBalance)
    else Ok(balances[s.account := balances[s.account] + s.Signed()])
  }

  function Applied(b: Books, s: Settlement): Result<Books, RepoError> {
    match Adjusted(b.balances, s)
    case Err(e) => Err(e)
    case Ok(balances) => Ok(Books(balances, b.settlements + [s]))
  }

  /** The signed sum of an account's settlements. */
  function Net(settlements: seq<Settlement>, account: AccountId): int {
    if settlements == [] then 0
    else
      var last := settlements[|settlements| - 1];
      Net(settlements[..|settlements| - 1], account) + if last.account == account then last.Signed() else 0
  }

  /** Every balance is its initial value plus what the settlements say, and none is negative. */
  predicate Balanced(initial: map<AccountId, int>, b: Books) {
    && b.balances.Keys == initial.Keys
    && forall a | a in initial :: b.balances[a] == initial[a] + Net(b.settlements, a) && b.balances[a] >= 0
  }

  lemma AppliedBalanced(initial: map<AccountId, int>, b: Books, s: Settlement)
    requires Balanced(initial, b) && s.amount > 0 && Applied(b, s).Ok?
    ensures Balanced(initial, Applied(b, s).value)
  {
  }

  // ----------------------------------------------------------------------------- requests

  /** How far a transaction gets. A commit may take effect and still be reported as failed. */
  datatype Attempt = Attempt(begun: bool, updated: bool, existsRead: bool, inserted: bool, committed: bool, acked: bool)

  predicate Possible(f: Attempt) {
    f.acked ==> f.committed
  }

  predicate Lands(f: Attempt) {
    f.begun && f.updated && f.inserted && f.committed
  }

  function SettledBooks(b: Books, s: Settlement, f: Attempt): Books {
    if Lands(f) && Applied(b, s).Ok? then Applied(b, s).value else b
  }

  datatype Response =
    | BadRequest
    | AccountNotFound
    | InsufficientReserve
    | InternalError
    | Created
    | Reconciled(log: LogRow)

  datatype Status = StatusOk | StatusDiscrepancy

  datatype LogRow = LogRow(account: AccountId, expected: int, actual: int, discrepancy: int, status: Status)

  /** The row a reconciliation stores. */
  function Compared(balances: map<AccountId, int>, account: AccountId, actual: int): LogRow
    requires account in balances
  {
    var off := actual - balances[account];
    LogRow(account, balances[account], actual, off, if off == 0 then StatusOk else StatusDiscrepancy)
  }

  /** The body of a settlement request, its identifiers parsed or not. */
  datatype Request = Request(
    kind: string,
    account: Option<AccountId>,
    reference: Option<nat>,
    amountWei: string,
    referenceType: string)

  /** The settlement a request asks for, if it is well formed. */
  function Asked(r: Request): Option<Settlement> {
    var amount := ParseInt(r.amountWei);
    if (r.kind == "credit" || r.kind == "debit") && r.account.Some? && r.reference.Some?
       && amount.Some? && amount.value > 0 && r.referenceType != ""
    then Some(Settlement(r.account.value, r.kind == "credit", amount.value))
    else None
  }

  /** The tables as one transaction sees them. */
  class Tx {
    var balances: map<AccountId, int>
    var settlements: seq<Settlement>

    constructor (b: map<AccountId, int>, s: seq<Settlement>)
      ensures balances == b && settlements == s
    {
      balances, settlements := b, s;
    }

    method Credit(id: AccountId, amount: int, reached: bool) returns (e: Option<RepoError>)
      modifies this`balances
      ensures match if reached then Adjusted(old(balances), Settlement(id, true, amount)) else Err(Failed)
              case Ok(b) => e.None? && balances == b
              case Err(x) => e == Some(x) && balances == old(balances)
    {
      if !reached {
        return Some(Failed);
      }
      if id !in balances {
        return Some(NotFound);
      }
      balances := balances[id := balances[id] + amount];
      e := None;
    }

    /** A failing look for the account's row reads as a missing account. */
    method Debit(id: AccountId, amount: int, reached: bool, existsRead: bool) returns (e: Option<RepoError>)
      modifies this`balances
      ensures match if reached then Adjusted(old(balances), Settlement(id, false, amount)) else Err(Failed)
              case Ok(b) => e.None? && balances == b
              case Err(x) =>
                && e == Some(if x.InsufficientBalance? && !existsRead then NotFound else x)
                && balances == old(balances)
    {
      if !reached {
        return Some(Failed);
      }
      if id in balances && balances[id] >= amount {
        balances := balances[id := balances[id] - amount];
        return None;
      }
      var exists' := existsRead && id in balances;
      e := Some(if exists' then InsufficientBalance else NotFound);
    }

    method Create(s: Settlement, reached: bool) returns (e: Option<RepoError>)
      modifies this`settlements
      ensures settlements == if reached then old(settlements) + [s] else old(settlements)
      ensures e == if reached then None else Some(Failed)
    {
      if !reached {
        return Some(Failed);
      }
      settlements := settlements + [s];
      e := None;
    }
  }

  class TreasuryService {
    var balances: map<AccountId, int>
    var settlements: seq<Settlement>
    var logs: seq<LogRow>

    function View(): Books
      reads this
    {
      Books(balances, settlements)
    }

    method ApplyManualSettlement(s: Settlement, f: Attempt) returns (e: Option<RepoError>)
      requires Possible(f)
      modifies this`balances, this`settlements
      ensures View() == SettledBooks(old(View()), s, f)
      ensures e.None? <==> Lands(f) && f.acked && Applied(old(View()), s).Ok?
      ensures e == Some(InsufficientBalance) <==>
                f.begun && f.updated && f.existsRead && Applied(old(View()), s) == Err(InsufficientBalance)
      ensures e == Some(NotFound) <==> f.begun && f.updated
                                       && (Applied(old(View()), s) == Err(NotFound)
                                           || (!f.existsRead && Applied(old(View()), s) == Err(InsufficientBalance)))
    {
      if !f.begun {
        return Some(Failed);
      }
      var tx := new Tx(balances, settlements);
      if s.credit {
        e := tx.Credit(s.account, s.amount, f.updated);
      } else {
        e := tx.Debit(s.account, s.amount, f.updated, f.existsRead);
      }
      if e.Some? {
        return;
      }
      e := tx.Create(s, f.inserted);
      if e.Some? {
        return;
      }
      if f.committed {
        balances, settlements := tx.balances, tx.settlements;
      }
      e := if f.acked then None else Some(Failed);
    }

    method CreateSettlement(r: Request, f: Attempt) returns (resp: Response)
      requires Possible(f)
      modifies this`balances, this`settlements
      ensures View() == match Asked(r) case None => old(View()) case Some(s) => SettledBooks(old(View()), s, f)
      ensures resp.BadRequest? <==> Asked(r).None?
      ensures resp.Created? <==> Asked(r).Some? && Lands(f) && f.acked && Applied(old(View()), Asked(r).value).Ok?
      ensures resp.InsufficientReserve? <==> Asked(r).Some? && f.begun && f.updated && f.existsRead
                                             && Applied(old(View()), Asked(r).value) == Err(InsufficientBalance)
      ensures !resp.Reconciled?
    {
      if r.kind != "credit" && r.kind != "debit" {
        return BadRequest;
      }
      if r.account.None? || r.reference.None? {
        return BadRequest;
      }
      var amount := ParseInt(r.amountWei);
      if amount.None? || amount.value <= 0 {
        return BadRequest;
      }
      if r.referenceType == "" {
        return BadRequest;
      }
      var credit := r.kind == "credit";
      var e := ApplyManualSettlement(Settlement(r.account.value, credit, amount.value), f);
      resp := match e
        case None => Created
        case Some(NotFound) => AccountNotFound
        case Some(InsufficientBalance) => InsufficientReserve
        case Some(Failed) => InternalError;
    }

    /** `readOk` is whether the account could be read, `logOk` whether the log row was stored. */
    method Reconcile(account: Option<AccountId>, actualWei: string, readOk: bool, logOk: bool) returns (resp: Response)
      modifies this`logs
      ensures var actual := ParseInt(actualWei);
              var valid := account.Some? && actual.Some? && actual.value >= 0;
              && (resp.BadRequest? <==> !valid)
              && (resp.Reconciled? <==> valid && readOk && logOk && account.value in balances)
              && (resp.Reconciled? ==>
                    resp.log == Compared(balances, account.value, actual.value) && logs == old(logs) + [resp.log])
              && (!resp.Reconciled? ==> logs == old(logs))
    {
      if account.None? {
        return BadRequest;
      }
      var actual := ParseInt(actualWei);
      if actual.None? || actual.value < 0 {
        return BadRequest;
      }
      if !readOk {
        return InternalError;
      }
      if account.value !in balances {
        return AccountNotFound;
      }
      var discrepancy := actual.value - balances[account.value];
      var status := StatusOk;
      if discrepancy != 0 {
        status := StatusDiscrepancy;
      }
      var row := LogRow(account.value, balances[account.value], actual.value, discrepancy, status);
      if !logOk {
        return InternalError;
      }
      logs := logs + [row];
      resp := Reconciled(row);
    }
  }

  // ------------------------------------------------------------- overlapping transactions

  /** A transaction between its statements. The updated row is visible to itself alone, and
      locked against every other transaction until it ends. */
  datatype Phase = Begun(s: Settlement) | Holding(s: Settlement, balance: int) | Recorded(s: Settlement, balance: int)
  {
    predicate Locks(account: AccountId) { !Begun? && s.account == account }
  }

  datatype World = World(books: Books, open: map<nat, Phase>)

  datatype Step =
    | Begin(t: nat, s: Settlement)
    | Update(t: nat)
    | Insert(t: nat)
    | Commit(t: nat)
    | Rollback(t: nat)

  predicate Locked(w: World, account: AccountId) {
    exists t | t in w.open :: w.open[t].Locks(account)
  }

  /** An update that finds no row to change leads to a rollback. */
  predicate Enabled(w: World, step: Step) {
    match step
    case Begin(t, s) => t !in w.open && s.amount > 0
    case Update(t) =>
      && t in w.open && w.open[t].Begun?
      && !Locked(w, w.open[t].s.account)
      && Adjusted(w.books.balances, w.open[t].s).Ok?
    case Insert(t) => t in w.open && w.open[t].Holding?
    case Commit(t) => t in w.open && w.open[t].Recorded?
    case Rollback(t) => t in w.open
  }

  function Next(w: World, step: Step): World
    requires Enabled(w, step)
  {
    match step
    case Begin(t, s) => w.(open := w.open[t := Begun(s)])
    case Update(t) =>
      var s := w.open[t].s;
      w.(open := w.open[t := Holding(s, Adjusted(w.books.balances, s).value[s.account])])
    case Insert(t) => w.(open := w.open[t := Recorded(w.open[t].s, w.open[t].balance)])
    case Commit(t) =>
      var s := w.open[t].s;
      World(Books(w.books.balances[s.account := w.open[t].balance], w.books.settlements + [s]), w.open - {t})
    case Rollback(t) => w.(open := w.open - {t})
  }

  predicate ValidRun(w: World, steps: seq<Step>)
    decreases |steps|
  {
    steps == [] || (Enabled(w, steps[0]) && ValidRun(Next(w, steps[0]), steps[1..]))
  }

  function After(w: World, steps: seq<Step>): World
    requires ValidRun(w, steps)
    decreases |steps|
  {
    if steps == [] then w else After(Next(w, steps[0]), steps[1..])
  }

  /** The settlements of the transactions that committed, in that order. */
  function Commits(w: World, steps: seq<Step>): seq<Settlement>
    requires ValidRun(w, steps)
    decreases |steps|
  {
    if steps == [] then []
    else (if steps[0].Commit? then [w.open[steps[0].t].s] else []) + Commits(Next(w, steps[0]), steps[1..])
  }

  /** One after the other, with nothing in between; stuck at the first that is refused. */
  function OneByOne(b: Books, ss: seq<Settlement>): Result<Books, RepoError>
    decreases |ss|
  {
    if ss == [] then Ok(b)
    else
      match Applied(b, ss[0])
      case Err(e) => Err(e)
      case Ok(next) => OneByOne(next, ss[1..])
  }

  /** What a transaction holds back is what it would do now. */
  predicate Current(w: World, p: Phase) {
    && p.s.amount > 0
    && (!p.Begun? ==>
          && Adjusted(w.books.balances, p.s).Ok?
          && p.balance == w.books.balances[p.s.account] + p.s.Signed())
  }

  predicate Isolated(w: World) {
    && (forall t | t in w.open :: Current(w, w.open[t]))
    && (forall t, u | t in w.open && u in w.open && t != u && !w.open[t].Begun? && !w.open[u].Begun? ::
          w.open[t].s.account != w.open[u].s.account)
  }

  lemma StepIsolated(w: World, step: Step)
    requires Isolated(w) && Enabled(w, step)
    ensures Isolated(Next(w, step))
    ensures step.Commit? ==> Applied(w.books, w.open[step.t].s) == Ok(Next(w, step).books)
    ensures !step.Commit? ==> Next(w, step).books == w.books
  {
    var next := Next(w, step);
    match step
    case Update(t) =>
      forall u | u in w.open && u != t && !w.open[u].Begun? ensures w.open[u].s.account != w.open[t].s.account {
        assert !w.open[u].Locks(w.open[t].s.account);
      }
    case Commit(t) =>
      assert Current(w, w.open[t]);
      forall u | u in next.open ensures Current(next, next.open[u]) {
        assert Current(w, w.open[u]);
      }
    case _ =>
  }

  /** However transactions overlap, and wherever they fail: the books are those of the committed
      settlements applied one by one in commit order, none of which would have been refused. */
  lemma {:induction false} SerialInCommitOrder(w: World, steps: seq<Step>)
    requires Isolated(w) && ValidRun(w, steps)
    ensures OneByOne(w.books, Commits(w, steps)) == Ok(After(w, steps).books)
    decreases |steps|
  {
    if steps != [] {
      StepIsolated(w, steps[0]);
      SerialInCommitOrder(Next(w, steps[0]), steps[1..]);
      var rest := Commits(Next(w, steps[0]), steps[1..]);
      if steps[0].Commit? {
        assert ([w.open[steps[0].t].s] + rest)[1..] == rest;
      } else {
        assert [] + rest == rest;
      }
    }
  }

  predicate AllPositive(ss: seq<Settlement>) {
    forall k | 0 <= k < |ss| :: ss[k].amount > 0
  }

  lemma {:induction false} OneByOneBalanced(initial: map<AccountId, int>, b: Books, ss: seq<Settlement>)
    requires Balanced(initial, b) && AllPositive(ss) && OneByOne(b, ss).Ok?
    ensures Balanced(initial, OneByOne(b, ss).value)
    decreases |ss|
  {
    if ss != [] {
      assert AllPositive(ss[1..]) && ss[0].amount > 0;
      hide Balanced, Applied, AllPositive;
      AppliedBalanced(initial, b, ss[0]);
      OneByOneBalanced(initial, Applied(b, ss[0]).value, ss[1..]);
    }
  }

  lemma {:induction false} OneByOneLogs(b: Books, ss: seq<Settlement>)
    requires OneByOne(b, ss).Ok?
    ensures OneByOne(b, ss).value.settlements == b.settlements + ss
    decreases |ss|
  {
    if ss != [] {
      hide Adjusted;
      var next := Applied(b, ss[0]).value;
      OneByOneLogs(next, ss[1..]);
      assert next.settlements + ss[1..] == b.settlements + ss;
    }
  }

  lemma {:induction false} CommitsPositive(w: World, steps: seq<Step>)
    requires Isolated(w) && ValidRun(w, steps)
    ensures AllPositive(Commits(w, steps))
    decreases |steps|
  {
    if steps != [] {
      StepIsolated(w, steps[0]);
      CommitsPositive(Next(w, steps[0]), steps[1..]);
      if steps[0].Commit? {
        assert Current(w, w.open[steps[0].t]);
      }
    }
  }

  /** From non-negative balances and an empty settlement log, after any run: each balance is its
      initial value plus the signed sum of the recorded settlements, none is negative, and the
      log is exactly what committed. */
  lemma BalancesFollowTheLog(initial: map<AccountId, int>, steps: seq<Step>)
    requires forall a | a in initial :: initial[a] >= 0
    requires ValidRun(World(Books(initial, []), map[]), steps)
    ensures var w := World(Books(initial, []), map[]);
            && Balanced(initial, After(w, steps).books)
            && After(w, steps).books.settlements == Commits(w, steps)
  {
    var w := World(Books(initial, []), map[]);
    SerialInCommitOrder(w, steps);
    CommitsPositive(w, steps);
    OneByOneBalanced(initial, w.books, Commits(w, steps));
    OneByOneLogs(w.books, Commits(w, steps));
  }

  // ------------------------------------------------------------------------ reconciliation

  /** The service's own requests keep the books balanced, whatever fails. */
  lemma RequestBalanced(initial: map<AccountId, int>, b: Books, r: Request, f: Attempt)
    requires Balanced(initial, b) && Asked(r).Some?
    ensures Balanced(initial, SettledBooks(b, Asked(r).value, f))
  {
  }

  /** Reconciling balanced books finds nothing amiss exactly if the reported balance is what the
      settlements say, and otherwise logs by how much it is off. */
  lemma ReconcileOkExactly(initial: map<AccountId, int>, b: Books, account: AccountId, actual: int)
    requires Balanced(initial, b) && account in initial
    ensures var row, owed := Compared(b.balances, account, actual), initial[account] + Net(b.settlements, account);
            && (row.status.StatusOk? <==> actual == owed)
            && row.discrepancy == actual - owed
  {
  }

  /** Over any run of manual settlements, overlapping and failing anywhere, reconciliation
      agrees with a report exactly if it is the initial balance plus what committed. */
  lemma ReconcileAfterAnyRun(initial: map<AccountId, int>, steps: seq<Step>, account: AccountId, actual: int)
    requires forall a | a in initial :: initial[a] >= 0
    requires ValidRun(World(Books(initial, []), map[]), steps) && account in initial
    ensures var w := World(Books(initial, []), map[]);
            && account in After(w, steps).books.balances
            && (Compared(After(w, steps).books.balances, account, actual).status.StatusOk?
                <==> actual == initial[account] + Net(Commits(w, steps), account))
  {
    BalancesFollowTheLog(initial, steps);
    ReconcileOkExactly(initial, After(World(Books(initial, []), map[]), steps).books, account, actual);
  }
}
