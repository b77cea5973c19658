/** From a placed order to a settled one: the order service around the mint sagas, with the
    stream in between, for every chain client and every failure of its calls.

    A delivery is split into the handler's read and its write, so handler runs overlap freely;
    any streamed message can be delivered any number of times, in any order. */
module Settlement {
  import opened Wrappers
  import opened MintSaga
  import MintPipeline
  import OutboxRelay
  import SagaSafety

  datatype OrderStatus = OrderCreated | OrderConfirmed | OrderProcessing | OrderCompleted | OrderFailed
  {
    predicate IsTerminal() {
      OrderCompleted? || OrderFailed?
    }
  }

  datatype Order = Order(
    to: Address,
    amountWei: int,
    status: OrderStatus,
    allocation: Option<nat>,
    failureReason: string,
    confirmedAt: Option<Time>,
    completedAt: Option<Time>)

  /** An order handler between its read and its write. */
  datatype Handler = Handler(event: Event, snapshot: Order)

  datatype LogRow = LogRow(user: nat, amountWei: int)

  datatype Sys = Sys(
    db: Db,
    relay: OutboxRelay.Relay,
    orders: map<nat, Order>,
    ready: set<MintRequest>,
    handlers: seq<Handler>,
    walletLog: map<string, LogRow>)

  const BEGIN: Sys := Sys(EMPTY, OutboxRelay.IDLE, map[], {}, [], map[])

  datatype Move =
    | Mint(step: MintSaga.Step)
    | Ship(act: OutboxRelay.Act)
    | Place(order: nat, to: Address, amountWei: int)
    | Confirm(order: nat, allocation: nat, now: Time, saved: bool, sent: bool)
    | Read(message: nat)
    | Write(handler: nat, now: Time, saved: bool)
    | Log(message: nat, owner: Option<nat>)

  // ------------------------------------------------------------- the order service's parts

  /** `completeOrder` and `failOrder` on the order they loaded. */
  function Settled(o: Order, e: Event, now: Time): Order {
    match e
    case MintExecuted(_, _, _, _, _, _) => o.(status := OrderCompleted, completedAt := Some(now))
    case MintFailed(_, _, code, message) =>
      o.(status := OrderFailed, failureReason := code + ": " + message, completedAt := Some(now))
  }

  /** The columns that `Update` writes; the rest of the row is fixed at creation. */
  function Updated(row: Order, o: Order): Order {
    row.(status := o.status, allocation := o.allocation, failureReason := o.failureReason,
         confirmedAt := o.confirmedAt, completedAt := o.completedAt)
  }

  function Confirmed(o: Order, allocation: nat, now: Time): Order {
    o.(status := OrderConfirmed, allocation := Some(allocation), confirmedAt := Some(now))
  }

  /** INSERT ... ON CONFLICT (tx_hash, event_type) DO NOTHING. */
  function Logged(log: map<string, LogRow>, tx: string, row: LogRow): map<string, LogRow> {
    if tx in log then log else log[tx := row]
  }

  function EventAt(s: Sys, message: nat): Event
    requires message < |s.relay.stream| && s.relay.stream[message] < |s.db.outbox|
  {
    s.db.outbox[s.relay.stream[message]]
  }

  predicate CanMove(cfg: Config, s: Sys, m: Move) {
    match m
    case Mint(step) => Enabled(s.db, step) && (step.Accept? ==> step.req in s.ready)
    case Ship(a) => !a.Append? && OutboxRelay.CanAct(s.relay, a)
    case Place(id, _, _) => id !in s.orders
    // Only createOrder confirms, once, right after it inserted the order, with a new allocation.
    case Confirm(id, allocation, _, saved, sent) =>
      && id in s.orders && s.orders[id].status.OrderCreated?
      && (forall r | r in s.ready :: r.allocation != allocation)
      && (sent ==> saved)
    case Read(k) => k < |s.relay.stream| && s.relay.stream[k] < |s.db.outbox|
    case Write(h, _, _) => h < |s.handlers|
    case Log(k, _) => k < |s.relay.stream| && s.relay.stream[k] < |s.db.outbox|
  }

  function Step(cfg: Config, s: Sys, m: Move): Sys
    requires CanMove(cfg, s, m)
  {
    match m
    case Mint(step) =>
      var next := Next(cfg, s.db, step);
      s.(db := next,
         relay := if |next.outbox| > |s.db.outbox| then OutboxRelay.Do(s.relay, OutboxRelay.Append) else s.relay)
    case Ship(a) => s.(relay := OutboxRelay.Do(s.relay, a))
    case Place(id, to, amountWei) =>
      s.(orders := s.orders[id := Order(to, amountWei, OrderCreated, None, "", None, None)])
    case Confirm(id, allocation, now, saved, sent) =>
      if !saved then s
      else
        var o := s.orders[id];
        s.(orders := s.orders[id := Updated(o, Confirmed(o, allocation, now))],
           ready := if sent then s.ready + {MintRequest(allocation, id, o.to, o.amountWei)} else s.ready)
    case Read(k) =>
      var e := EventAt(s, k);
      if e.order !in s.orders || s.orders[e.order].status.IsTerminal() then s
      else s.(handlers := s.handlers + [Handler(e, s.orders[e.order])])
    case Write(h, now, saved) =>
      var w := s.handlers[h];
      var rest := s.(handlers := s.handlers[..h] + s.handlers[h + 1..]);
      var id := w.event.order;
      if saved && id in s.orders
      then rest.(orders := s.orders[id := Updated(s.orders[id], Settled(w.snapshot, w.event, now))])
      else rest
    case Log(k, owner) =>
      (match EventAt(s, k)
       case MintFailed(_, _, _, _) => s
       case MintExecuted(_, _, amountWei, tx, _, _) =>
         if owner.None? then s else s.(walletLog := Logged(s.walletLog, tx, LogRow(owner.value, amountWei))))
  }

  ghost predicate ValidMoves(cfg: Config, s: Sys, moves: seq<Move>)
    decreases |moves|
  {
    moves == [] || (CanMove(cfg, s, moves[0]) && ValidMoves(cfg, Step(cfg, s, moves[0]), moves[1..]))
  }

  ghost function SysAfter(cfg: Config, s: Sys, moves: seq<Move>): Sys
    requires ValidMoves(cfg, s, moves)
    decreases |moves|
  {
    if moves == [] then s else SysAfter(cfg, Step(cfg, s, moves[0]), moves[1..])
  }

  // -------------------------------------------------------------------------- invariants

  /** Saga i settled order id this way. */
  ghost predicate SettledBy(s: Sys, i: nat, id: nat, completed: bool) {
    && i < |s.db.sagas|
    && s.db.sagas[i].req.order == id
    && (if completed then s.db.sagas[i].state.Completed? else s.db.sagas[i].state.IsFailure())
  }

  ghost predicate PlumbingOk(s: Sys) {
    && SagaSafety.Consistent(s.db)
    && OutboxRelay.InOrder(s.relay)
    && s.relay.rows == |s.db.outbox|
  }

  predicate OneRequestPerOrder(s: Sys) {
    && (forall r | r in s.ready ::
          && r.order in s.orders && !s.orders[r.order].status.OrderCreated?
          && r.amountWei == s.orders[r.order].amountWei && r.to == s.orders[r.order].to)
    && (forall r, q | r in s.ready && q in s.ready && r.order == q.order :: r == q)
    && (forall i | 0 <= i < |s.db.sagas| :: s.db.sagas[i].req in s.ready)
  }

  ghost predicate OrdersOk(s: Sys) {
    && (forall id | id in s.orders && s.orders[id].status.OrderCompleted? :: exists i :: SettledBy(s, i, id, true))
    && (forall id | id in s.orders && s.orders[id].status.OrderFailed? :: exists i :: SettledBy(s, i, id, false))
    && (forall h | 0 <= h < |s.handlers| ::
          && s.handlers[h].event in s.db.outbox
          && s.handlers[h].event.order in s.orders
          && !s.handlers[h].snapshot.status.IsTerminal())
  }

  /** Row `tx` of the wallet log records the mint of saga i. */
  ghost predicate RecordsMint(s: Sys, tx: string, i: nat) {
    && i < |s.db.sagas|
    && s.db.sagas[i].state.Completed?
    && s.db.sagas[i].executeTx == tx
    && tx in s.walletLog && s.walletLog[tx].amountWei == s.db.sagas[i].req.amountWei
  }

  ghost predicate LogOk(s: Sys) {
    forall tx | tx in s.walletLog :: exists i :: RecordsMint(s, tx, i)
  }

  ghost predicate Linked(s: Sys) {
    PlumbingOk(s) && OneRequestPerOrder(s) && OrdersOk(s) && LogOk(s)
  }

  /** One saga per order. */
  lemma SameOrderSameSaga(s: Sys, i: nat, j: nat)
    requires PlumbingOk(s) && OneRequestPerOrder(s)
    requires i < |s.db.sagas| && j < |s.db.sagas|
    requires s.db.sagas[i].req.order == s.db.sagas[j].req.order
    ensures i == j
  {
  }

  /** A staged event settles its order the way its saga ended. */
  lemma EventSettles(s: Sys, e: Event)
    requires PlumbingOk(s) && e in s.db.outbox
    ensures SettledBy(s, e.saga, e.order, e.MintExecuted?)
    ensures e == SagaSafety.OutcomeEvent(e.saga, s.db.sagas[e.saga])
  {
    var k :| 0 <= k < |s.db.outbox| && s.db.outbox[k] == e;
    assert SagaSafety.EventConsistent(s.db, k);
    assert SagaSafety.SagaConsistent(s.db, e.saga);
    SagaSafety.PendingHasNoEvent(s.db, k);
  }

  /** What a mint move leaves of everything that is settled. */
  lemma MintMoveGrows(cfg: Config, s: Sys, step: MintSaga.Step)
    requires CanMove(cfg, s, Mint(step))
    ensures SagaSafety.Follows(s.db, Step(cfg, s, Mint(step)).db)
  {
    SagaSafety.StepFollowsTable(cfg, s.db, step);
  }

  lemma PlumbingStep(cfg: Config, s: Sys, m: Move)
    requires PlumbingOk(s) && CanMove(cfg, s, m)
    ensures PlumbingOk(Step(cfg, s, m))
  {
    match m
    case Mint(step) =>
      MintMoveGrows(cfg, s, step);
      SagaSafety.StepConsistent(cfg, s.db, step);
      OutboxRelay.ActKeepsOrder(s.relay, OutboxRelay.Append);
    case Ship(a) => OutboxRelay.ActKeepsOrder(s.relay, a);
    case _ =>
  }

  lemma RequestsStep(cfg: Config, s: Sys, m: Move)
    requires Linked(s) && CanMove(cfg, s, m)
    ensures OneRequestPerOrder(Step(cfg, s, m))
  {
    hide PlumbingOk, OrdersOk, LogOk;
    var next := Step(cfg, s, m);
    if m.Mint? {
      MintMoveGrows(cfg, s, m.step);
      forall i | 0 <= i < |next.db.sagas| ensures next.db.sagas[i].req in next.ready {
        if i < |s.db.sagas| {
          assert s.db.sagas[i].req in s.ready;
        }
      }
    }
  }

  lemma SettledByStays(cfg: Config, s: Sys, m: Move, i: nat, id: nat, completed: bool)
    requires CanMove(cfg, s, m) && SettledBy(s, i, id, completed)
    ensures SettledBy(Step(cfg, s, m), i, id, completed)
  {
    if m.Mint? {
      MintMoveGrows(cfg, s, m.step);
    }
  }

  /** Only a write settles an order that was not, and it settles it as its event tells. */
  lemma NewlySettled(cfg: Config, s: Sys, m: Move, id: nat)
    requires Linked(s) && CanMove(cfg, s, m) && id in Step(cfg, s, m).orders
    requires Step(cfg, s, m).orders[id].status.IsTerminal()
    requires id !in s.orders || s.orders[id].status != Step(cfg, s, m).orders[id].status
    ensures m.Write? && id == s.handlers[m.handler].event.order
    ensures Step(cfg, s, m).orders[id].status.OrderCompleted? <==> s.handlers[m.handler].event.MintExecuted?
  {
  }

  lemma SettledHasSaga(cfg: Config, s: Sys, m: Move, id: nat)
    requires Linked(s) && CanMove(cfg, s, m)
    requires id in Step(cfg, s, m).orders && Step(cfg, s, m).orders[id].status.IsTerminal()
    ensures exists i :: SettledBy(Step(cfg, s, m), i, id, Step(cfg, s, m).orders[id].status.OrderCompleted?)
  {
    var completed := Step(cfg, s, m).orders[id].status.OrderCompleted?;
    if id in s.orders && s.orders[id].status == Step(cfg, s, m).orders[id].status {
      var i :| SettledBy(s, i, id, completed);
      SettledByStays(cfg, s, m, i, id, completed);
    } else {
      NewlySettled(cfg, s, m, id);
      var e := s.handlers[m.handler].event;
      EventSettles(s, e);
      SettledByStays(cfg, s, m, e.saga, id, completed);
    }
  }

  lemma HandlersStep(cfg: Config, s: Sys, m: Move, h: nat)
    requires Linked(s) && CanMove(cfg, s, m) && h < |Step(cfg, s, m).handlers|
    ensures var next := Step(cfg, s, m);
            && next.handlers[h].event in next.db.outbox
            && next.handlers[h].event.order in next.orders
            && !next.handlers[h].snapshot.status.IsTerminal()
  {
    hide PlumbingOk, OneRequestPerOrder, LogOk;
    if m.Mint? {
      MintMoveGrows(cfg, s, m.step);
      var e := s.handlers[h].event;
      var k :| 0 <= k < |s.db.outbox| && s.db.outbox[k] == e;
      assert Step(cfg, s, m).db.outbox[k] == e;
    }
  }

  lemma OrdersStep(cfg: Config, s: Sys, m: Move)
    requires Linked(s) && CanMove(cfg, s, m)
    ensures OrdersOk(Step(cfg, s, m))
  {
    var next := Step(cfg, s, m);
    forall id | id in next.orders && next.orders[id].status.IsTerminal()
      ensures exists i :: SettledBy(next, i, id, next.orders[id].status.OrderCompleted?)
    {
      SettledHasSaga(cfg, s, m, id);
    }
    forall h | 0 <= h < |next.handlers|
      ensures next.handlers[h].event in next.db.outbox
      ensures next.handlers[h].event.order in next.orders
      ensures !next.handlers[h].snapshot.status.IsTerminal()
    {
      HandlersStep(cfg, s, m, h);
    }
  }

  lemma RecordStays(cfg: Config, s: Sys, m: Move, tx: string, i: nat)
    requires CanMove(cfg, s, m) && RecordsMint(s, tx, i)
    ensures RecordsMint(Step(cfg, s, m), tx, i)
  {
    if m.Mint? {
      MintMoveGrows(cfg, s, m.step);
    }
  }

  lemma NewRecord(cfg: Config, s: Sys, m: Move, tx: string)
    requires Linked(s) && CanMove(cfg, s, m) && tx in Step(cfg, s, m).walletLog && tx !in s.walletLog
    ensures m.Log? && RecordsMint(Step(cfg, s, m), tx, EventAt(s, m.message).saga)
  {
    EventSettles(s, EventAt(s, m.message));
  }

  lemma LogStep(cfg: Config, s: Sys, m: Move)
    requires Linked(s) && CanMove(cfg, s, m)
    ensures LogOk(Step(cfg, s, m))
  {
    var next := Step(cfg, s, m);
    forall tx | tx in next.walletLog ensures exists i :: RecordsMint(next, tx, i) {
      if tx in s.walletLog {
        var i :| RecordsMint(s, tx, i);
        RecordStays(cfg, s, m, tx, i);
      } else {
        NewRecord(cfg, s, m, tx);
      }
    }
  }

  lemma StepLinked(cfg: Config, s: Sys, m: Move)
    requires Linked(s) && CanMove(cfg, s, m)
    ensures Linked(Step(cfg, s, m))
  {
    PlumbingStep(cfg, s, m);
    RequestsStep(cfg, s, m);
    OrdersStep(cfg, s, m);
    LogStep(cfg, s, m);
  }

  lemma {:induction false} MovesLinked(cfg: Config, s: Sys, moves: seq<Move>)
    requires Linked(s) && ValidMoves(cfg, s, moves)
    ensures Linked(SysAfter(cfg, s, moves))
    decreases |moves|
  {
    if moves != [] {
      StepLinked(cfg, s, moves[0]);
      MovesLinked(cfg, Step(cfg, s, moves[0]), moves[1..]);
    }
  }

  lemma BeginLinked()
    ensures Linked(BEGIN)
  {
    assert OutboxRelay.InOrderFrom(OutboxRelay.IDLE, 0);
  }

  // ------------------------------------------------------------------------- main results

  /** For every delivery schedule: an order is completed only if its one saga completed, failed
      only if its one saga failed, that saga minted the order's amount to the order's address,
      and every wallet row is the mint of one completed saga, whose amount it carries, with
      different rows for different sagas. */
  lemma OrdersFollowTheirSagas(cfg: Config, moves: seq<Move>)
    requires ValidMoves(cfg, BEGIN, moves)
    ensures var s := SysAfter(cfg, BEGIN, moves);
            && (forall id | id in s.orders && s.orders[id].status.IsTerminal() ::
                  exists i: nat ::
                    && SettledBy(s, i, id, s.orders[id].status.OrderCompleted?)
                    && s.db.sagas[i].req.amountWei == s.orders[id].amountWei
                    && s.db.sagas[i].req.to == s.orders[id].to
                    && forall j | 0 <= j < |s.db.sagas| && j != i :: s.db.sagas[j].req.order != id)
            && (forall tx | tx in s.walletLog ::
                  exists i :: RecordsMint(s, tx, i) && forall tx' | tx' in s.walletLog && RecordsMint(s, tx', i) :: tx' == tx)
  {
    BeginLinked();
    MovesLinked(cfg, BEGIN, moves);
    var s := SysAfter(cfg, BEGIN, moves);
    forall id | id in s.orders && s.orders[id].status.IsTerminal()
      ensures exists i: nat ::
                && SettledBy(s, i, id, s.orders[id].status.OrderCompleted?)
                && s.db.sagas[i].req.amountWei == s.orders[id].amountWei
                && s.db.sagas[i].req.to == s.orders[id].to
                && forall j | 0 <= j < |s.db.sagas| && j != i :: s.db.sagas[j].req.order != id
    {
      var i :| SettledBy(s, i, id, s.orders[id].status.OrderCompleted?);
      forall j | 0 <= j < |s.db.sagas| && j != i ensures s.db.sagas[j].req.order != id {
        if s.db.sagas[j].req.order == id {
          SameOrderSameSaga(s, i, j);
        }
      }
    }
  }

  /** No move changes the status of a settled order, although late handlers still write. */
  lemma SettledOrderStays(cfg: Config, s: Sys, m: Move, id: nat)
    requires Linked(s) && CanMove(cfg, s, m)
    requires id in s.orders && s.orders[id].status.IsTerminal()
    ensures id in Step(cfg, s, m).orders && Step(cfg, s, m).orders[id].status == s.orders[id].status
  {
    hide PlumbingOk, OneRequestPerOrder, LogOk;
    if m.Write? && s.handlers[m.handler].event.order == id {
      var e := s.handlers[m.handler].event;
      EventSettles(s, e);
      var i :| SettledBy(s, i, id, s.orders[id].status.OrderCompleted?);
      SameOrderSameSaga(s, i, e.saga);
    }
  }

  lemma {:induction false} SettledOrderStaysForever(cfg: Config, s: Sys, moves: seq<Move>, id: nat)
    requires Linked(s) && ValidMoves(cfg, s, moves)
    requires id in s.orders && s.orders[id].status.IsTerminal()
    ensures id in SysAfter(cfg, s, moves).orders && SysAfter(cfg, s, moves).orders[id].status == s.orders[id].status
    decreases |moves|
  {
    if moves != [] {
      SettledOrderStays(cfg, s, moves[0], id);
      StepLinked(cfg, s, moves[0]);
      SettledOrderStaysForever(cfg, Step(cfg, s, moves[0]), moves[1..], id);
    }
  }

  // ---------------------------------------------------------------------- completion time

  /** A late handler saves another completion time over the one that stands. */
  predicate Restamps(s: Sys, m: Move, id: nat) {
    && m.Write? && m.saved && m.handler < |s.handlers|
    && s.handlers[m.handler].event.order == id
    && id in s.orders && s.orders[id].completedAt != Some(m.now)
  }

  /** A settled order's completion time, unlike its status, changes, and by such a write only. */
  lemma RestampedExactly(cfg: Config, s: Sys, m: Move, id: nat)
    requires Linked(s) && CanMove(cfg, s, m)
    requires id in s.orders && s.orders[id].status.IsTerminal()
    ensures id in Step(cfg, s, m).orders
    ensures Step(cfg, s, m).orders[id].completedAt != s.orders[id].completedAt <==> Restamps(s, m, id)
  {
    hide Linked, Next;
  }

  /** The time stays as it is at every point of the run. */
  ghost predicate TimeStays(cfg: Config, s: Sys, moves: seq<Move>, id: nat)
    requires ValidMoves(cfg, s, moves) && id in s.orders
    decreases |moves|
  {
    moves == []
    || (var next := Step(cfg, s, moves[0]);
        && id in next.orders
        && next.orders[id].completedAt == s.orders[id].completedAt
        && TimeStays(cfg, next, moves[1..], id))
  }

  ghost predicate NeverRestamped(cfg: Config, s: Sys, moves: seq<Move>, id: nat)
    requires ValidMoves(cfg, s, moves)
    decreases |moves|
  {
    moves == [] || (!Restamps(s, moves[0], id) && NeverRestamped(cfg, Step(cfg, s, moves[0]), moves[1..], id))
  }

  lemma {:induction false} TimeStaysExactly(cfg: Config, s: Sys, moves: seq<Move>, id: nat)
    requires Linked(s) && ValidMoves(cfg, s, moves)
    requires id in s.orders && s.orders[id].status.IsTerminal()
    ensures TimeStays(cfg, s, moves, id) <==> NeverRestamped(cfg, s, moves, id)
    decreases |moves|
  {
    if moves != [] {
      hide Linked, Step, CanMove, Restamps;
      RestampedExactly(cfg, s, moves[0], id);
      SettledOrderStays(cfg, s, moves[0], id);
      StepLinked(cfg, s, moves[0]);
      TimeStaysExactly(cfg, Step(cfg, s, moves[0]), moves[1..], id);
    }
  }

  /** A handler has read the order and not yet written. */
  predicate InFlight(s: Sys, id: nat) {
    exists h | 0 <= h < |s.handlers| :: s.handlers[h].event.order == id
  }

  lemma LandedStaysLanded(cfg: Config, s: Sys, m: Move, id: nat)
    requires CanMove(cfg, s, m) && id in s.orders && s.orders[id].status.IsTerminal() && !InFlight(s, id)
    ensures !InFlight(Step(cfg, s, m), id) && !Restamps(s, m, id)
  {
  }

  lemma {:induction false} NoneInFlight(cfg: Config, s: Sys, moves: seq<Move>, id: nat)
    requires Linked(s) && ValidMoves(cfg, s, moves)
    requires id in s.orders && s.orders[id].status.IsTerminal() && !InFlight(s, id)
    ensures NeverRestamped(cfg, s, moves, id)
    decreases |moves|
  {
    if moves != [] {
      hide Linked, Step, CanMove, Restamps, InFlight;
      LandedStaysLanded(cfg, s, moves[0], id);
      SettledOrderStays(cfg, s, moves[0], id);
      StepLinked(cfg, s, moves[0]);
      NoneInFlight(cfg, Step(cfg, s, moves[0]), moves[1..], id);
    }
  }

  /** The completion time of a settled order is final, whatever happens next, exactly if no
      handler that read the order is still to write. */
  lemma TimeFinalExactly(cfg: Config, s: Sys, id: nat)
    requires Linked(s) && id in s.orders && s.orders[id].status.IsTerminal()
    ensures (forall moves | ValidMoves(cfg, s, moves) :: TimeStays(cfg, s, moves, id)) <==> !InFlight(s, id)
  {
    if h :| 0 <= h < |s.handlers| && s.handlers[h].event.order == id {
      var now := if s.orders[id].completedAt == Some(0) then 1 else 0;
      var moves := [Write(h, now, true)];
      assert ValidMoves(cfg, Step(cfg, s, moves[0]), moves[1..]);
      assert ValidMoves(cfg, s, moves) && Restamps(s, moves[0], id);
      TimeStaysExactly(cfg, s, moves, id);
    } else {
      forall moves | ValidMoves(cfg, s, moves) ensures TimeStays(cfg, s, moves, id) {
        NoneInFlight(cfg, s, moves, id);
        TimeStaysExactly(cfg, s, moves, id);
      }
    }
  }

  // ------------------------------------------------------------------------- wallet rows

  /** An executed mint delivered to a known wallet has a row afterwards, the right one exactly if
      the hash was new to the log or stood there with the same amount. */
  lemma DeliveredMintIsLoggedExactly(cfg: Config, s: Sys, k: nat, owner: nat)
    requires Linked(s) && CanMove(cfg, s, Log(k, Some(owner))) && EventAt(s, k).MintExecuted?
    ensures var e, next := EventAt(s, k), Step(cfg, s, Log(k, Some(owner)));
            && e.txHash in next.walletLog
            && (RecordsMint(next, e.txHash, e.saga)
                <==> e.txHash !in s.walletLog || s.walletLog[e.txHash].amountWei == e.amountWei)
  {
    EventSettles(s, EventAt(s, k));
  }

  /** With the in-memory chain it always is: no other mint can have taken its key. */
  lemma DeliveredMintIsLogged(cfg: Config, s: Sys, w: MintPipeline.World, k: nat, owner: nat)
    requires Linked(s) && CanMove(cfg, s, Log(k, Some(owner))) && EventAt(s, k).MintExecuted?
    requires MintPipeline.Agree(w) && w.db == s.db
    ensures var next := Step(cfg, s, Log(k, Some(owner)));
            RecordsMint(next, EventAt(s, k).txHash, EventAt(s, k).saga)
  {
    var e := EventAt(s, k);
    EventSettles(s, e);
    DeliveredMintIsLoggedExactly(cfg, s, k, owner);
    if e.txHash in s.walletLog {
      var i :| RecordsMint(s, e.txHash, i);
      MintPipeline.SameTxSameSaga(w, i, e.saga);
    }
  }

  // ------------------------------------------------------------------ the running handlers

  /** One handler run that nothing overlaps. */
  function Handled(orders: map<nat, Order>, e: Event, now: Time, saved: bool): map<nat, Order> {
    if e.order !in orders || orders[e.order].status.IsTerminal() || !saved then orders
    else orders[e.order := Updated(orders[e.order], Settled(orders[e.order], e, now))]
  }

  /** It is a read followed at once by its own write. */
  lemma UndisturbedHandler(cfg: Config, s: Sys, k: nat, now: Time, saved: bool)
    requires CanMove(cfg, s, Read(k))
    ensures var e := EventAt(s, k);
            var read := Step(cfg, s, Read(k));
            Handled(s.orders, e, now, saved) ==
            if read == s then s.orders else Step(cfg, read, Write(|s.handlers|, now, saved)).orders
  {
  }

  class OrderTable {
    var orders: map<nat, Order>

    /** Saving what was loaded changes nothing. */
    method ByID(id: nat, reachable: bool) returns (o: Option<Order>)
      ensures o.None? <==> !reachable || id !in orders
      ensures o.Some? ==> o.value == orders[id] && orders == orders[id := Updated(orders[id], o.value)]
    {
      o := if reachable && id in orders then Some(orders[id]) else None;
    }

    method Update(id: nat, o: Order, saved: bool) returns (ok: bool)
      modifies this
      ensures ok == saved
      ensures orders == if saved && id in old(orders) then old(orders)[id := Updated(old(orders)[id], o)] else old(orders)
    {
      if saved && id in orders {
        orders := orders[id := Updated(orders[id], o)];
      }
      ok := saved;
    }
  }

  class Consumer {
    const orders: OrderTable

    constructor (orders: OrderTable)
      ensures this.orders == orders
    {
      this.orders := orders;
    }

    method CompleteOrder(e: Event, now: Time, reachable: bool, saved: bool) returns (ok: bool)
      requires e.MintExecuted?
      modifies orders
      ensures orders.orders == Handled(old(orders.orders), e, now, reachable && saved)
      ensures ok <==> reachable && e.order in old(orders.orders)
                      && (old(orders.orders)[e.order].status.IsTerminal() || saved)
    {
      var found := orders.ByID(e.order, reachable);
      if found.None? {
        return false;
      }
      var o := found.value;
      if o.status.IsTerminal() {
        return true;
      }
      o := o.(status := OrderCompleted);
      o := o.(completedAt := Some(now));
      ok := orders.Update(e.order, o, saved);
    }

    method FailOrder(e: Event, now: Time, reachable: bool, saved: bool) returns (ok: bool)
      requires e.MintFailed?
      modifies orders
      ensures orders.orders == Handled(old(orders.orders), e, now, reachable && saved)
      ensures ok <==> reachable && e.order in old(orders.orders)
                      && (old(orders.orders)[e.order].status.IsTerminal() || saved)
    {
      var found := orders.ByID(e.order, reachable);
      if found.None? {
        return false;
      }
      var o := found.value;
      if o.status.IsTerminal() {
        return true;
      }
      o := o.(status := OrderFailed);
      o := o.(failureReason := e.code + ": " + e.message);
      o := o.(completedAt := Some(now));
      ok := orders.Update(e.order, o, saved);
    }
  }

  class TransactionLog {
    var rows: map<string, LogRow>

    method Create(tx: string, row: LogRow)
      modifies this
      ensures rows == Logged(old(rows), tx, row)
    {
      if tx !in rows {
        rows := rows[tx := row];
      }
    }
  }
}
