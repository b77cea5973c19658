/** The saga worker and its repositories as they run: tables updated in place, one handler per
    state. Every method is proved to be the step of MintSaga it stands for. */
module SagaWorker {
  import opened Wrappers
  import opened MintSaga

  /** Which statements of a transaction took effect. */
  datatype TxFate = TxFate(update: bool, enqueue: bool, commit: bool)
  {
    predicate Applied() {
      update && enqueue && commit
    }
  }

  /** The saga table, the outbox and the bar reservations. */
  class SagaStore {
    var sagas: seq<Saga>
    var outbox: seq<Event>
    var held: set<Hold>

    constructor ()
      ensures View() == EMPTY
    {
      sagas, outbox, held := [], [], {};
    }

    ghost function View(): Db
      reads this
    {
      Db(sagas, outbox, held)
    }

    method Create(s: Saga, commit: bool) returns (ok: bool)
      modifies this
      ensures ok <==> commit && !AllocationTaken(old(View()), s.req.allocation)
      ensures View() == if ok then old(View()).(sagas := old(sagas) + [s]) else old(View())
    {
      ok := commit && forall i | 0 <= i < |sagas| :: sagas[i].req.allocation != s.req.allocation;
      if ok {
        sagas := sagas + [s];
      }
    }

    /** SELECT ... ORDER BY last_step_at LIMIT 1: any of the rows tied for oldest. */
    method NextPending(now: Time) returns (next: Option<nat>)
      ensures next.Some? ==> IsNextPending(View(), now, next.value)
      ensures next.None? ==> forall j | 0 <= j < |sagas| :: !Eligible(sagas[j], now)
    {
      if j :| 0 <= j < |sagas| && Eligible(sagas[j], now) {
        ghost var oldest := OldestExists(View(), now, j, |sagas|);
        var id: nat :| id < |sagas| && IsOldest(sagas, now, |sagas|, id);
        assert IsOldest(sagas, now, |sagas|, id);
        next := Some(id);
      } else {
        next := None;
      }
    }

    method UpdateState(id: nat, s: Saga, now: Time, tx: TxFate) returns (ok: bool)
      requires id < |sagas|
      modifies this`sagas
      ensures ok == tx.update
      ensures sagas == if tx.update then old(sagas)[id := Stamped(s, now)] else old(sagas)
    {
      if tx.update {
        sagas := sagas[id := Stamped(s, now)];
      }
      ok := tx.update;
    }

    /** The state change and the outbox row take effect together or not at all. */
    method UpdateStateAndEnqueue(id: nat, s: Saga, e: Event, now: Time, tx: TxFate) returns (ok: bool)
      requires id < |sagas|
      modifies this`sagas, this`outbox
      ensures ok <==> tx.Applied()
      ensures ok ==> sagas == old(sagas)[id := Stamped(s, now)] && outbox == old(outbox) + [e]
      ensures !ok ==> sagas == old(sagas) && outbox == old(outbox)
    {
      var rows, staged := sagas, outbox;
      if !tx.update {
        return false;
      }
      rows := rows[id := Stamped(s, now)];
      if !tx.enqueue {
        return false;
      }
      staged := staged + [e];
      if !tx.commit {
        return false;
      }
      sagas, outbox := rows, staged;
      return true;
    }

    method ReserveBars(allocation: nat, r: Replies) returns (reply: Result<seq<string>, string>)
      modifies this`held
      ensures reply == r.reserve
      ensures held == Reserved(old(held), allocation, if r.reserve.Ok? then Elements(r.reserve.value) else r.partial)
    {
      held := held + set b | b in (if r.reserve.Ok? then Elements(r.reserve.value) else r.partial) :: Hold(allocation, b);
      reply := r.reserve;
    }

    method ReleaseAllocation(allocation: nat, r: Replies) returns (ok: bool)
      modifies this`held
      ensures ok == r.releaseOk
      ensures held == if r.releaseOk then Released(old(held), allocation) else old(held)
    {
      if r.releaseOk {
        held := set h | h in held && h.allocation != allocation;
      }
      ok := r.releaseOk;
    }
  }

  predicate IsOldest(sagas: seq<Saga>, now: Time, n: nat, id: nat)
    requires n <= |sagas|
  {
    && id < n
    && Eligible(sagas[id], now)
    && forall j | 0 <= j < n && Eligible(sagas[j], now) :: sagas[id].lastStepAt <= sagas[j].lastStepAt
  }

  /** Among the first n rows, one of which is eligible, some row is oldest. */
  lemma {:induction false} OldestExists(db: Db, now: Time, j: nat, n: nat) returns (id: nat)
    requires j < n <= |db.sagas| && Eligible(db.sagas[j], now)
    ensures IsOldest(db.sagas, now, n, id)
    decreases n
  {
    var last := n - 1;
    if k :| 0 <= k < last && Eligible(db.sagas[k], now) {
      id := OldestExists(db, now, k, last);
      if Eligible(db.sagas[last], now) && db.sagas[last].lastStepAt < db.sagas[id].lastStepAt {
        id := last;
      }
    } else {
      id := last;
    }
  }

  class Orchestrator {
    const store: SagaStore
    const cfg: Config

    constructor (store: SagaStore, cfg: Config)
      ensures this.store == store && this.cfg == cfg
    {
      this.store := store;
      this.cfg := cfg;
    }

    /** The step that a handler on row `id` has to perform, and what it reports of it. */
    twostate predicate Performs(id: nat, s: Saga, now: Time, r: Replies, commit: bool, ok: bool)
      reads store
    {
      && id < |old(store.sagas)| && old(store.sagas)[id] == s
      && store.View() == Stepped(cfg, old(store.View()), id, now, r, commit)
      && (ok <==> commit && !Handle(cfg, id, s, now, r).Aborted?)
    }

    method CreateMintSaga(req: MintRequest, now: Time, commit: bool) returns (ok: bool)
      modifies store
      ensures store.View() == Next(cfg, old(store.View()), Accept(req, now, commit))
      ensures ok <==> commit && !AllocationTaken(old(store.View()), req.allocation)
    {
      ok := store.Create(NewSaga(req, now), commit);
    }

    method Advance(id: nat, s: Saga, to: SagaState, now: Time, tx: TxFate) returns (ok: bool)
      requires id < |store.sagas|
      modifies store`sagas
      ensures store.View() ==
              if tx.update then Persisted(old(store.View()), id, Advanced(s, to), now) else old(store.View())
      ensures ok <==> tx.update && MintStateTransition(s.state, to)
    {
      if !MintStateTransition(s.state, to) {
        return false;
      }
      var moved := s.(state := to);
      ok := store.UpdateState(id, moved, now, tx);
    }

    method Compensate(id: nat, s: Saga, to: SagaState, cause: string, code: string, now: Time, r: Replies, tx: TxFate)
      returns (ok: bool)
      requires id < |store.sagas|
      modifies store
      ensures var released :=
                old(store.View()).(held := if r.releaseOk then Released(old(store.held), s.req.allocation) else old(store.held));
              store.View() ==
              if tx.Applied() then Persisted(released, id, Compensated(id, s, to, cause, code), now) else released
      ensures ok <==> tx.Applied()
    {
      var released := store.ReleaseAllocation(s.req.allocation, r);
      // A failed release is logged and the compensation goes on.
      var failed := s.(state := to);
      failed := failed.(lastError := cause);
      failed := failed.(lastErrorCode := code);
      ok := store.UpdateStateAndEnqueue(id, failed, FailedEvent(id, failed), now, tx);
    }

    method OnCreated(id: nat, s: Saga, now: Time, r: Replies, tx: TxFate) returns (ok: bool)
      requires id < |store.sagas| && store.sagas[id] == s && s.state.Created?
      modifies store
      ensures Performs(id, s, now, r, tx.update, ok)
    {
      ok := Advance(id, s, ReservingBars, now, tx);
    }

    method OnReservingBars(id: nat, s: Saga, now: Time, r: Replies, tx: TxFate) returns (ok: bool)
      requires id < |store.sagas| && store.sagas[id] == s && s.state.ReservingBars?
      modifies store
      ensures Performs(id, s, now, r, if r.reserve.Ok? then tx.update else tx.Applied(), ok)
    {
      var bars := store.ReserveBars(s.req.allocation, r);
      if bars.Err? {
        ok := Compensate(id, s, FailedNoStock, bars.error, "bars_not_available", now, r, tx);
        return;
      }
      var reserved := s.(bars := bars.value);
      ok := Advance(id, reserved, Proposing, now, tx);
    }

    method OnProposing(id: nat, s: Saga, now: Time, r: Replies, tx: TxFate) returns (ok: bool)
      requires id < |store.sagas| && store.sagas[id] == s && s.state.Proposing?
      modifies store
      ensures Performs(id, s, now, r, if r.propose.Ok? then tx.update else tx.Applied(), ok)
    {
      if r.propose.Err? {
        ok := Compensate(id, s, Failed, r.propose.error.Text(), "propose_failed", now, r, tx);
        return;
      }
      var proposed := s.(proposalTx := r.propose.value);
      ok := Advance(id, proposed, AwaitingApprovals, now, tx);
    }

    method OnAwaitingApprovals(id: nat, s: Saga, now: Time, r: Replies, tx: TxFate) returns (ok: bool)
      requires id < |store.sagas| && store.sagas[id] == s && s.state.AwaitingApprovals?
      modifies store
      ensures Performs(id, s, now, r, if TimedOut(cfg, s, now) then tx.Applied() else tx.update, ok)
    {
      if TimedOut(cfg, s, now) {
        ok := Compensate(id, s, FailedApprovalTimeout, "approval timeout", "approval_timeout", now, r, tx);
        return;
      }
      if r.approvals.Err? {
        return false;
      }
      if r.approvals.value < cfg.approvalThreshold {
        ok := store.UpdateState(id, s, now, tx);
        return;
      }
      ok := Advance(id, s, Executing, now, tx);
    }

    method OnExecuting(id: nat, s: Saga, now: Time, r: Replies, tx: TxFate) returns (ok: bool)
      requires id < |store.sagas| && store.sagas[id] == s && s.state.Executing?
      modifies store
      ensures Performs(id, s, now, r, tx.Applied(), ok)
    {
      if r.execute.Err? {
        if r.execute.error.ErrReserveInvariant? {
          ok := Compensate(id, s, FailedReserveInvariant, r.execute.error.Text(), "reserve_invariant", now, r, tx);
        } else {
          ok := Compensate(id, s, Failed, r.execute.error.Text(), "execute_failed", now, r, tx);
        }
        return;
      }
      var done := s.(executeTx := r.execute.value);
      if !MintStateTransition(done.state, Completed) {
        return false;
      }
      done := done.(state := Completed);
      ok := store.UpdateStateAndEnqueue(id, done, ExecutedEvent(id, done), now, tx);
    }

    /** Whether the write that a step ends in took effect. */
    function Commits(s: Saga, now: Time, r: Replies, tx: TxFate): bool {
      if Handle(cfg, 0, s, now, r).Settled? then tx.Applied() else tx.update
    }

    method Step(id: nat, s: Saga, now: Time, r: Replies, tx: TxFate) returns (ok: bool)
      requires id < |store.sagas| && store.sagas[id] == s
      modifies store
      ensures Performs(id, s, now, r, Commits(s, now, r, tx), ok)
    {
      match s.state
      case Created => ok := OnCreated(id, s, now, r, tx);
      case ReservingBars => ok := OnReservingBars(id, s, now, r, tx);
      case Proposing => ok := OnProposing(id, s, now, r, tx);
      case AwaitingApprovals => ok := OnAwaitingApprovals(id, s, now, r, tx);
      case Executing => ok := OnExecuting(id, s, now, r, tx);
      case _ => ok := false;
    }

    method TickOnce(now: Time, r: Replies, tx: TxFate) returns (stepped: Option<nat>, ok: bool)
      modifies store
      ensures stepped.None? ==>
                ok && store.View() == old(store.View())
                && forall j | 0 <= j < |store.sagas| :: !Eligible(store.sagas[j], now)
      ensures stepped.Some? ==>
                && IsNextPending(old(store.View()), now, stepped.value)
                && store.View() == Next(cfg, old(store.View()), MintSaga.Advance(stepped.value, now, r,
                     Commits(old(store.sagas)[stepped.value], now, r, tx)))
                && (ok <==> Commits(old(store.sagas)[stepped.value], now, r, tx)
                            && !Handle(cfg, stepped.value, old(store.sagas)[stepped.value], now, r).Aborted?)
    {
      stepped := store.NextPending(now);
      if stepped.None? {
        return None, true;
      }
      ok := Step(stepped.value, store.sagas[stepped.value], now, r, tx);
    }
  }
}
