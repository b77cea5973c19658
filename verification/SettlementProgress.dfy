/** How an order gets settled after all: from anywhere in a run, and within the five deliveries of
    its event. */
module SettlementProgress {
  import opened Wrappers
  import opened MintSaga
  import OutboxRelay
  import SagaSafety
  import Delivery
  import S = Settlement

  const GOOD := Fate(true, true)

  // ------------------------------------------------------------- from anywhere in a run

  lemma FirstMove(cfg: Config, s: S.Sys, m: S.Move, rest: seq<S.Move>)
    requires S.CanMove(cfg, s, m)
    ensures S.ValidMoves(cfg, s, [m] + rest) <==> S.ValidMoves(cfg, S.Step(cfg, s, m), rest)
    ensures S.ValidMoves(cfg, s, [m] + rest) ==>
              S.SysAfter(cfg, s, [m] + rest) == S.SysAfter(cfg, S.Step(cfg, s, m), rest)
  {
    assert ([m] + rest)[1..] == rest;
  }

  lemma {:induction false} Concatenated(cfg: Config, s: S.Sys, a: seq<S.Move>, b: seq<S.Move>)
    requires S.ValidMoves(cfg, s, a) && S.ValidMoves(cfg, S.SysAfter(cfg, s, a), b)
    ensures S.ValidMoves(cfg, s, a + b) && S.SysAfter(cfg, s, a + b) == S.SysAfter(cfg, S.SysAfter(cfg, s, a), b)
    decreases |a|
  {
    if a == [] {
      assert a + b == b;
    } else {
      var m, rest := a[0], a[1..];
      assert S.CanMove(cfg, s, m) && a == [m] + rest && a + b == [m] + (rest + b);
      hide *;
      FirstMove(cfg, s, m, rest);
      Concatenated(cfg, S.Step(cfg, s, m), rest, b);
      FirstMove(cfg, s, m, rest + b);
    }
  }

  lemma OneMove(cfg: Config, s: S.Sys, m: S.Move)
    requires S.CanMove(cfg, s, m)
    ensures S.ValidMoves(cfg, s, [m]) && S.SysAfter(cfg, s, [m]) == S.Step(cfg, s, m)
  {
    assert [m][1..] == [];
  }

  /** An act of the relay changes nothing else. */
  lemma OneAct(cfg: Config, s: S.Sys, a: OutboxRelay.Act)
    requires OutboxRelay.CanAct(s.relay, a) && !a.Append?
    ensures S.ValidMoves(cfg, s, [S.Ship(a)])
    ensures S.SysAfter(cfg, s, [S.Ship(a)]) == s.(relay := OutboxRelay.Do(s.relay, a))
  {
    OneMove(cfg, s, S.Ship(a));
  }

  /** The relay is restarted and sends and marks the oldest unmarked row. */
  lemma ShipOne(cfg: Config, s: S.Sys, p: nat) returns (moves: seq<S.Move>)
    requires OutboxRelay.InOrderFrom(s.relay, p) && p < s.relay.rows
    ensures S.ValidMoves(cfg, s, moves)
    ensures var end := S.SysAfter(cfg, s, moves);
            end == s.(relay := end.relay) && OutboxRelay.InOrderFrom(end.relay, p + 1) && end.relay.rows == s.relay.rows
  {
    var publish, mark := OutboxRelay.Publish(GOOD), OutboxRelay.Mark(GOOD);
    var r1 := OutboxRelay.Do(s.relay, OutboxRelay.Crash);
    var r2 := OutboxRelay.Do(r1, OutboxRelay.Fetch);
    OutboxRelay.OldestRowGoesOut(s.relay, p);
    var r3 := OutboxRelay.Do(r2, publish);
    OutboxRelay.ActKeepsOrderFrom(s.relay, p, OutboxRelay.Crash);
    OutboxRelay.ActKeepsOrderFrom(r1, p, OutboxRelay.Fetch);
    OutboxRelay.ActKeepsOrderFrom(r2, p, publish);
    OutboxRelay.ActKeepsOrderFrom(r3, p, mark);
    hide S.ValidMoves, S.SysAfter, OutboxRelay.InOrderFrom;
    OneAct(cfg, s, OutboxRelay.Crash);
    OneAct(cfg, s.(relay := r1), OutboxRelay.Fetch);
    OneAct(cfg, s.(relay := r2), publish);
    OneAct(cfg, s.(relay := r3), mark);
    Concatenated(cfg, s.(relay := r2), [S.Ship(publish)], [S.Ship(mark)]);
    Concatenated(cfg, s.(relay := r1), [S.Ship(OutboxRelay.Fetch)], [S.Ship(publish)] + [S.Ship(mark)]);
    var rest := [S.Ship(OutboxRelay.Fetch)] + ([S.Ship(publish)] + [S.Ship(mark)]);
    Concatenated(cfg, s, [S.Ship(OutboxRelay.Crash)], rest);
    moves := [S.Ship(OutboxRelay.Crash)] + rest;
  }

  /** Until row k is on the stream. */
  lemma {:induction false} ShipUpTo(cfg: Config, s: S.Sys, p: nat, k: nat) returns (moves: seq<S.Move>)
    requires OutboxRelay.InOrderFrom(s.relay, p) && k < s.relay.rows
    ensures S.ValidMoves(cfg, s, moves)
    ensures var end := S.SysAfter(cfg, s, moves);
            end == s.(relay := end.relay) && k < |end.relay.stream| && end.relay.stream[k] == k
    decreases k + 1 - p
  {
    if k < p {
      moves := [];
    } else {
      var first := ShipOne(cfg, s, p);
      var later := ShipUpTo(cfg, S.SysAfter(cfg, s, first), p + 1, k);
      Concatenated(cfg, s, first, later);
      moves := first + later;
    }
  }

  lemma OutcomeStaged(db: Db, i: nat) returns (k: nat)
    requires SagaSafety.Consistent(db) && i < |db.sagas| && db.sagas[i].state.IsTerminal()
    ensures k < |db.outbox| && db.outbox[k].saga == i
  {
    assert SagaSafety.SagaConsistent(db, i);
    if !exists k :: 0 <= k < |db.outbox| && db.outbox[k].saga == i {
      SagaSafety.EventCountFresh(db.outbox, i);
    }
    k :| 0 <= k < |db.outbox| && db.outbox[k].saga == i;
  }

  /** Its event delivered and handled once, undisturbed. */
  lemma DeliverOnce(cfg: Config, s: S.Sys, k: nat, now: Time) returns (moves: seq<S.Move>)
    requires S.Linked(s) && k < |s.relay.stream| && s.relay.stream[k] == k && k < |s.db.outbox|
    ensures S.ValidMoves(cfg, s, moves)
    ensures var id, end := s.db.outbox[k].order, S.SysAfter(cfg, s, moves);
            end.db == s.db && id in end.orders && end.orders[id].status.IsTerminal()
  {
    var e := s.db.outbox[k];
    assert e in s.db.outbox;
    S.EventSettles(s, e);
    assert e.order in s.orders;
    if s.orders[e.order].status.IsTerminal() {
      moves := [];
    } else {
      var read := S.Step(cfg, s, S.Read(k));
      OneMove(cfg, s, S.Read(k));
      OneMove(cfg, read, S.Write(|s.handlers|, now, true));
      Concatenated(cfg, s, [S.Read(k)], [S.Write(|s.handlers|, now, true)]);
      moves := [S.Read(k)] + [S.Write(|s.handlers|, now, true)];
    }
  }

  /** Whatever happened before, once its saga is settled an order can still be settled, and then as
      its saga was. */
  lemma OrderCanStillSettle(cfg: Config, past: seq<S.Move>, i: nat) returns (moves: seq<S.Move>)
    requires S.ValidMoves(cfg, S.BEGIN, past) && i < |S.SysAfter(cfg, S.BEGIN, past).db.sagas|
    requires S.SysAfter(cfg, S.BEGIN, past).db.sagas[i].state.IsTerminal()
    ensures var s := S.SysAfter(cfg, S.BEGIN, past);
            && S.ValidMoves(cfg, s, moves)
            && var end, id := S.SysAfter(cfg, s, moves), s.db.sagas[i].req.order;
               && id in end.orders && end.orders[id].status.IsTerminal()
               && (end.orders[id].status.OrderCompleted? <==> s.db.sagas[i].state.Completed?)
  {
    var s := S.SysAfter(cfg, S.BEGIN, past);
    S.BeginLinked();
    S.MovesLinked(cfg, S.BEGIN, past);
    var k := OutcomeStaged(s.db, i);
    assert s.db.outbox[k] in s.db.outbox;
    S.EventSettles(s, s.db.outbox[k]);
    var p: nat :| OutboxRelay.InOrderFrom(s.relay, p);
    var ship := ShipUpTo(cfg, s, p, k);
    var shipped := S.SysAfter(cfg, s, ship);
    S.MovesLinked(cfg, s, ship);
    var settle := DeliverOnce(cfg, shipped, k, 0);
    Concatenated(cfg, s, ship, settle);
    moves := ship + settle;
    S.MovesLinked(cfg, shipped, settle);
    SettledAsItsSaga(S.SysAfter(cfg, shipped, settle), i);
  }

  lemma SettledAsItsSaga(s: S.Sys, i: nat)
    requires S.Linked(s) && i < |s.db.sagas| && s.db.sagas[i].req.order in s.orders
    requires s.orders[s.db.sagas[i].req.order].status.IsTerminal()
    ensures s.orders[s.db.sagas[i].req.order].status.OrderCompleted? <==> s.db.sagas[i].state.Completed?
  {
    var id := s.db.sagas[i].req.order;
    var j :| S.SettledBy(s, j, id, s.orders[id].status.OrderCompleted?);
    S.SameOrderSameSaga(s, i, j);
  }

  // ------------------------------------------------------------- within five deliveries

  /** What one delivery of the event meets. */
  datatype Try = Try(now: Time, reachable: bool, saved: bool, metadata: bool, answered: bool)

  /** What the handler returns: none of its errors is marked permanent. */
  function HandlerError(orders: map<nat, S.Order>, e: Event, t: Try): Option<Delivery.Error> {
    if t.reachable && e.order in orders && (orders[e.order].status.IsTerminal() || t.saved) then None
    else Some(Delivery.Wrapped("update order", Delivery.Plain("")))
  }

  /** The order table after the deliveries that the broker makes of them. */
  function Tried(orders: map<nat, S.Order>, e: Event, status: Delivery.Status, tries: seq<Try>): map<nat, S.Order>
    decreases |tries|
  {
    if tries == [] || !status.Waiting? then orders
    else
      var t := tries[0];
      Tried(S.Handled(orders, e, t.now, t.reachable && t.saved), e,
            Delivery.Deliver(status, Delivery.Attempt(HandlerError(orders, e, t), t.metadata, t.answered)), tries[1..])
  }

  lemma {:induction false} SettledThroughTries(orders: map<nat, S.Order>, e: Event, status: Delivery.Status, tries: seq<Try>)
    requires e.order in orders && orders[e.order].status.IsTerminal()
    ensures Tried(orders, e, status, tries) == orders
    decreases |tries|
  {
    if tries != [] && status.Waiting? {
      var t := tries[0];
      SettledThroughTries(orders, e,
                          Delivery.Deliver(status, Delivery.Attempt(HandlerError(orders, e, t), t.metadata, t.answered)), tries[1..]);
    }
  }

  lemma {:induction false} StrandedAfter(orders: map<nat, S.Order>, e: Event, from: nat, tries: seq<Try>)
    requires from < Delivery.MAX_DELIVER && |tries| >= Delivery.MAX_DELIVER - from
    requires e.order in orders && !orders[e.order].status.IsTerminal()
    ensures e.order in Tried(orders, e, Delivery.Waiting(from), tries)
    ensures !Tried(orders, e, Delivery.Waiting(from), tries)[e.order].status.IsTerminal()
            <==> forall j | 0 <= j < Delivery.MAX_DELIVER - from :: !(tries[j].reachable && tries[j].saved)
    decreases |tries|
  {
    var t := tries[0];
    var next := S.Handled(orders, e, t.now, t.reachable && t.saved);
    var status := Delivery.Deliver(Delivery.Waiting(from), Delivery.Attempt(HandlerError(orders, e, t), t.metadata, t.answered));
    if t.reachable && t.saved {
      SettledThroughTries(next, e, status, tries[1..]);
    } else if from + 1 < Delivery.MAX_DELIVER {
      assert next == orders && status == Delivery.Waiting(from + 1);
      StrandedAfter(orders, e, from + 1, tries[1..]);
      assert forall j | 0 < j < Delivery.MAX_DELIVER - from :: tries[j] == tries[1..][j - 1];
    } else {
      assert next == orders && !status.Waiting?;
    }
  }

  /** The event of an unsettled order leaves it unsettled for good exactly if none of the five
      deliveries reaches the database and saves. */
  lemma StrandedExactly(orders: map<nat, S.Order>, e: Event, tries: seq<Try>)
    requires |tries| >= Delivery.MAX_DELIVER
    requires e.order in orders && !orders[e.order].status.IsTerminal()
    ensures e.order in Tried(orders, e, Delivery.Waiting(0), tries)
    ensures !Tried(orders, e, Delivery.Waiting(0), tries)[e.order].status.IsTerminal()
            <==> forall j | 0 <= j < Delivery.MAX_DELIVER :: !(tries[j].reachable && tries[j].saved)
  {
    StrandedAfter(orders, e, 0, tries);
  }
}
