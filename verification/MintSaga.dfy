/** The mint saga: its states, the step each state takes, and the tables a step changes.

    The saga table is a sequence and a saga's ID is its position; the outbox is a sequence in
    creation order. Whatever a foreign call answered is part of the step that made the call, so
    a run is a sequence of steps and every chain client, allocator and failing database is one
    choice of answers. */
module MintSaga {
  import opened Wrappers
  import Hex

  /** Nanoseconds a saga rests between steps. */
  const POLL_BACKOFF: int := 5_000_000_000

  datatype SagaState =
    | Created
    | ReservingBars
    | Proposing
    | AwaitingApprovals
    | Executing
    | Completed
    | Failed
    | FailedNoStock
    | FailedApprovalTimeout
    | FailedReserveInvariant
    | BurnRequested
    | BurnRequestingChain
    | BurnExecuted
  {
    predicate IsTerminal() {
      Completed? || BurnExecuted? || IsFailure()
    }

    predicate IsFailure() {
      Failed? || FailedNoStock? || FailedApprovalTimeout? || FailedReserveInvariant?
    }

    predicate IsMint() {
      !BurnRequested? && !BurnRequestingChain? && !BurnExecuted?
    }
  }

  /** The rows of the transition table. */
  function NextStates(from: SagaState): set<SagaState> {
    match from
    case Created => {ReservingBars, Failed}
    case ReservingBars => {Proposing, FailedNoStock, Failed}
    case Proposing => {AwaitingApprovals, Failed}
    case AwaitingApprovals => {Executing, FailedApprovalTimeout, Failed}
    case Executing => {Completed, FailedReserveInvariant, Failed}
    case _ => {}
  }

  predicate MintStateTransition(from: SagaState, to: SagaState) {
    to in NextStates(from)
  }

  type Address = a: seq<Hex.Byte> | |a| == 20 witness seq(20, _ => 0)

  datatype MintRequest = MintRequest(allocation: nat, order: nat, to: Address, amountWei: int)

  datatype Saga = Saga(
    state: SagaState,
    req: MintRequest,
    bars: seq<string>,
    proposalTx: string,
    executeTx: string,
    lastError: string,
    lastErrorCode: string,
    startedAt: Time,
    lastStepAt: Time,
    completedAt: Option<Time>,
    attempts: nat)

  datatype Event =
    | MintExecuted(saga: nat, order: nat, amountWei: int, txHash: string, allocation: nat, to: string)
    | MintFailed(saga: nat, order: nat, code: string, message: string)

  /** A bar reserved under an allocation. */
  datatype Hold = Hold(allocation: nat, bar: string)

  datatype Db = Db(sagas: seq<Saga>, outbox: seq<Event>, held: set<Hold>)

  const EMPTY: Db := Db([], [], {})

  datatype Config = Config(approvalTimeout: Time, approvalThreshold: int)

  datatype ChainError = ErrReserveInvariant | ErrProposalNotFound | ErrInsufficientApprovals | ErrOther(text: string)
  {
    function Text(): string {
      match this
      case ErrReserveInvariant => "chain: reserve invariant violated"
      case ErrProposalNotFound => "chain: proposal not found"
      case ErrInsufficientApprovals => "chain: insufficient approvals"
      case ErrOther(t) => t
    }
  }

  type Approvals = n: int | 0 <= n < 256

  /** What the calls of one step answer. `partial` are the bars a failing reservation left
      reserved. */
  datatype Replies = Replies(
    reserve: Result<seq<string>, string>,
    partial: set<string>,
    propose: Result<string, ChainError>,
    approvals: Result<Approvals, ChainError>,
    execute: Result<string, ChainError>,
    releaseOk: bool)

  /** What a handler asks the database to do. */
  datatype Outcome =
    | Aborted
    | Saved(saga: Saga)
    | Settled(saga: Saga, event: Event)

  // ---------------------------------------------------------------- one step of one saga

  function NewSaga(req: MintRequest, now: Time): Saga {
    Saga(Created, req, [], "", "", "", "", now, now, None, 0)
  }

  function ExecutedEvent(id: nat, s: Saga): Event {
    MintExecuted(id, s.req.order, s.req.amountWei, s.executeTx, s.req.allocation, Hex.PrintAddress(s.req.to))
  }

  function FailedEvent(id: nat, s: Saga): Event {
    MintFailed(id, s.req.order, s.lastErrorCode, s.lastError)
  }

  function Advanced(s: Saga, to: SagaState): Outcome {
    if MintStateTransition(s.state, to) then Saved(s.(state := to)) else Aborted
  }

  /** No transition check here: a compensation assigns the failure state outright. */
  function Compensated(id: nat, s: Saga, to: SagaState, cause: string, code: string): Outcome {
    var failed := s.(state := to, lastError := cause, lastErrorCode := code);
    Settled(failed, FailedEvent(id, failed))
  }

  predicate TimedOut(cfg: Config, s: Saga, now: Time) {
    now - s.startedAt > cfg.approvalTimeout
  }

  function Handle(cfg: Config, id: nat, s: Saga, now: Time, r: Replies): Outcome {
    match s.state
    case Created => Advanced(s, ReservingBars)
    case ReservingBars =>
      (match r.reserve
       case Err(e) => Compensated(id, s, FailedNoStock, e, "bars_not_available")
       case Ok(bars) => Advanced(s.(bars := bars), Proposing))
    case Proposing =>
      (match r.propose
       case Err(e) => Compensated(id, s, Failed, e.Text(), "propose_failed")
       case Ok(tx) => Advanced(s.(proposalTx := tx), AwaitingApprovals))
    case AwaitingApprovals =>
      if TimedOut(cfg, s, now) then
        Compensated(id, s, FailedApprovalTimeout, "approval timeout", "approval_timeout")
      else
        (match r.approvals
         case Err(_) => Aborted
         case Ok(count) => if count < cfg.approvalThreshold then Saved(s) else Advanced(s, Executing))
    case Executing =>
      (match r.execute
       case Err(ErrReserveInvariant) =>
         Compensated(id, s, FailedReserveInvariant, ErrReserveInvariant.Text(), "reserve_invariant")
       case Err(e) => Compensated(id, s, Failed, e.Text(), "execute_failed")
       case Ok(tx) =>
         var done := s.(executeTx := tx, state := Completed);
         Settled(done, ExecutedEvent(id, done)))
    case _ => Aborted
  }

  /** The columns that the update statement itself fills in. */
  function Stamped(s: Saga, now: Time): Saga {
    s.(lastStepAt := now,
       completedAt := if s.state.IsTerminal() then Some(now) else None,
       attempts := s.attempts + 1)
  }

  predicate Compensates(o: Outcome) {
    o.Settled? && o.event.MintFailed?
  }

  // ------------------------------------------------------------------------- the tables

  predicate AllocationTaken(db: Db, allocation: nat) {
    exists i | 0 <= i < |db.sagas| :: db.sagas[i].req.allocation == allocation
  }

  function Persisted(db: Db, id: nat, o: Outcome, now: Time): Db
    requires id < |db.sagas|
  {
    match o
    case Aborted => db
    case Saved(s) => db.(sagas := db.sagas[id := Stamped(s, now)])
    case Settled(s, e) => db.(sagas := db.sagas[id := Stamped(s, now)], outbox := db.outbox + [e])
  }

  function Reserved(held: set<Hold>, allocation: nat, bars: set<string>): set<Hold> {
    held + set b | b in bars :: Hold(allocation, b)
  }

  function Released(held: set<Hold>, allocation: nat): set<Hold> {
    set h | h in held && h.allocation != allocation
  }

  function Elements(s: seq<string>): set<string> {
    set x | x in s
  }

  /** The bar calls of a step. They precede the database write and do not depend on it. */
  function HeldAfter(cfg: Config, held: set<Hold>, id: nat, s: Saga, now: Time, r: Replies): set<Hold> {
    var reserved :=
      if s.state.ReservingBars? then
        Reserved(held, s.req.allocation, if r.reserve.Ok? then Elements(r.reserve.value) else r.partial)
      else held;
    if Compensates(Handle(cfg, id, s, now, r)) && r.releaseOk
    then Released(reserved, s.req.allocation)
    else reserved
  }

  /** `commit` says whether the write took effect, whatever the caller was told. */
  datatype Step =
    | Accept(req: MintRequest, now: Time, commit: bool)
    | Advance(id: nat, now: Time, replies: Replies, commit: bool)

  predicate Eligible(s: Saga, now: Time) {
    && s.completedAt.None?
    && !s.state.IsTerminal()
    && s.lastStepAt < now - POLL_BACKOFF
  }

  /** The oldest eligible row. Rows with equal age are tied. */
  predicate IsNextPending(db: Db, now: Time, id: nat) {
    && id < |db.sagas|
    && Eligible(db.sagas[id], now)
    && forall j | 0 <= j < |db.sagas| && Eligible(db.sagas[j], now) ::
         db.sagas[id].lastStepAt <= db.sagas[j].lastStepAt
  }

  predicate Enabled(db: Db, step: Step) {
    step.Advance? ==> IsNextPending(db, step.now, step.id)
  }

  function Stepped(cfg: Config, db: Db, id: nat, now: Time, r: Replies, commit: bool): Db
    requires id < |db.sagas|
  {
    var called := db.(held := HeldAfter(cfg, db.held, id, db.sagas[id], now, r));
    if commit then Persisted(called, id, Handle(cfg, id, db.sagas[id], now, r), now) else called
  }

  /** The unique index on the allocation rejects a second saga for the same allocation. */
  function Next(cfg: Config, db: Db, step: Step): Db
    requires Enabled(db, step)
  {
    match step
    case Accept(req, now, commit) =>
      if commit && !AllocationTaken(db, req.allocation)
      then db.(sagas := db.sagas + [NewSaga(req, now)])
      else db
    case Advance(id, now, r, commit) => Stepped(cfg, db, id, now, r, commit)
  }

  // ------------------------------------------------------------------------------- runs

  ghost predicate ValidRun(cfg: Config, db: Db, steps: seq<Step>)
    decreases |steps|
  {
    steps == [] || (Enabled(db, steps[0]) && ValidRun(cfg, Next(cfg, db, steps[0]), steps[1..]))
  }

  ghost function After(cfg: Config, db: Db, steps: seq<Step>, k: nat): Db
    requires ValidRun(cfg, db, steps) && k <= |steps|
    decreases k
  {
    if k == 0 then db else After(cfg, Next(cfg, db, steps[0]), steps[1..], k - 1)
  }

  lemma {:induction false} AfterStep(cfg: Config, db: Db, steps: seq<Step>, k: nat)
    requires ValidRun(cfg, db, steps) && k < |steps|
    ensures Enabled(After(cfg, db, steps, k), steps[k])
    ensures After(cfg, db, steps, k + 1) == Next(cfg, After(cfg, db, steps, k), steps[k])
    decreases k
  {
    if k > 0 {
      AfterStep(cfg, Next(cfg, db, steps[0]), steps[1..], k - 1);
    } else {
      var next := Next(cfg, db, steps[0]);
      assert After(cfg, next, steps[1..], 0) == next;
    }
  }
}
