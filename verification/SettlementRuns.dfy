/** A whole run, from nothing to a settled order, in which a second handler stamps the order's
    completion time again. */
module SettlementRuns {
  import opened Wrappers
  import opened MintSaga
  import OutboxRelay
  import S = Settlement

  const TICK: int := POLL_BACKOFF + 1

  const GOOD: Fate := Fate(true, true)

  /** There are no bars. */
  const OUT_OF_STOCK: Replies :=
    Replies(Err("no bars"), {}, Ok("proposal"), Ok(0), Ok("execution"), true)

  /** The order is placed and confirmed, its saga fails for want of bars, the event is shipped
      and delivered twice, both handlers read before either writes. */
  function Moves(to: Address, amountWei: int): seq<S.Move> {
    [S.Place(0, to, amountWei), S.Confirm(0, 0, 0, true, true),
     S.Mint(Accept(Request(to, amountWei), 0, true)),
     S.Mint(Advance(0, TICK, OUT_OF_STOCK, true)), S.Mint(Advance(0, 2 * TICK, OUT_OF_STOCK, true)),
     S.Ship(OutboxRelay.Fetch), S.Ship(OutboxRelay.Publish(GOOD)),
     S.Read(0), S.Read(0), S.Write(0, 3 * TICK, true), S.Write(0, 4 * TICK, true)]
  }

  function Request(to: Address, amountWei: int): MintRequest {
    MintRequest(0, 0, to, amountWei)
  }

  function PlacedOrder(to: Address, amountWei: int): S.Order {
    S.Order(to, amountWei, S.OrderCreated, None, "", None, None)
  }

  function ConfirmedOrder(to: Address, amountWei: int): S.Order {
    PlacedOrder(to, amountWei).(status := S.OrderConfirmed, allocation := Some(0), confirmedAt := Some(0))
  }

  function SettledOrder(to: Address, amountWei: int, at: Time): S.Order {
    ConfirmedOrder(to, amountWei).(status := S.OrderFailed, failureReason := "bars_not_available: no bars", completedAt := Some(at))
  }

  const FAILED: Event := MintFailed(0, 0, "bars_not_available", "no bars")

  /** The database after the saga's first k steps. */
  function Table(to: Address, amountWei: int, k: nat): Db
    requires k <= 2
  {
    var s := NewSaga(Request(to, amountWei), 0);
    if k == 0 then Db([s], [], {})
    else if k == 1 then Db([s.(state := ReservingBars, lastStepAt := TICK, attempts := 1)], [], {})
    else
      var failed := s.(state := FailedNoStock, lastError := "no bars", lastErrorCode := "bars_not_available");
      Db([failed.(lastStepAt := 2 * TICK, attempts := 2, completedAt := Some(2 * TICK))], [FAILED], {})
  }

  /** The system after each move. */
  function Stage(to: Address, amountWei: int, k: nat): S.Sys
    requires k <= 11
  {
    var ready := {Request(to, amountWei)};
    var o := ConfirmedOrder(to, amountWei);
    var h := S.Handler(FAILED, o);
    var relay := if k < 5 then OutboxRelay.IDLE else OutboxRelay.IDLE.(rows := 1);
    var sent := relay.(stream := [0], batch := [0], phase := OutboxRelay.Marking);
    if k == 0 then S.BEGIN
    else if k == 1 then S.BEGIN.(orders := map[0 := PlacedOrder(to, amountWei)])
    else if k == 2 then S.BEGIN.(orders := map[0 := o], ready := ready)
    else if k <= 5 then S.Sys(Table(to, amountWei, k - 3), relay, map[0 := o], ready, [], map[])
    else if k == 6 then S.Sys(Table(to, amountWei, 2), relay.(batch := [0]), map[0 := o], ready, [], map[])
    else if k <= 9 then S.Sys(Table(to, amountWei, 2), sent, map[0 := o], ready, [h, h][..k - 7], map[])
    else
      S.Sys(Table(to, amountWei, 2), sent, map[0 := SettledOrder(to, amountWei, (k - 7) * TICK)], ready,
            [h, h][..11 - k], map[])
  }

  ghost predicate Leads(cfg: Config, to: Address, amountWei: int, k: nat)
    requires k < 11
  {
    && S.CanMove(cfg, Stage(to, amountWei, k), Moves(to, amountWei)[k])
    && S.Step(cfg, Stage(to, amountWei, k), Moves(to, amountWei)[k]) == Stage(to, amountWei, k + 1)
  }

  lemma Ordering(cfg: Config, to: Address, amountWei: int)
    ensures Leads(cfg, to, amountWei, 0) && Leads(cfg, to, amountWei, 1)
  {
  }

  lemma Accepting(cfg: Config, to: Address, amountWei: int)
    ensures Leads(cfg, to, amountWei, 2)
  {
  }

  lemma Starting(cfg: Config, to: Address, amountWei: int)
    ensures Leads(cfg, to, amountWei, 3)
  {
  }

  lemma Failing(cfg: Config, to: Address, amountWei: int)
    ensures Leads(cfg, to, amountWei, 4)
  {
  }

  lemma Shipping(cfg: Config, to: Address, amountWei: int)
    ensures Leads(cfg, to, amountWei, 5) && Leads(cfg, to, amountWei, 6)
  {
  }

  lemma Reading(cfg: Config, to: Address, amountWei: int)
    ensures Leads(cfg, to, amountWei, 7) && Leads(cfg, to, amountWei, 8)
  {
  }

  lemma FirstWrite(cfg: Config, to: Address, amountWei: int)
    ensures Leads(cfg, to, amountWei, 9)
  {
    assert "bars_not_available" + ": " + "no bars" == "bars_not_available: no bars";
    var h := S.Handler(FAILED, ConfirmedOrder(to, amountWei));
    assert [h, h][..0] + [h, h][1..] == [h, h][..1];
  }

  lemma SecondWrite(cfg: Config, to: Address, amountWei: int)
    ensures Leads(cfg, to, amountWei, 10)
  {
    assert "bars_not_available" + ": " + "no bars" == "bars_not_available: no bars";
    var h := S.Handler(FAILED, ConfirmedOrder(to, amountWei));
    assert [h, h][..1] == [h] && [h][..0] + [h][1..] == [];
  }

  lemma StageLeads(cfg: Config, to: Address, amountWei: int, k: nat)
    requires k < 11
    ensures Leads(cfg, to, amountWei, k)
  {
    hide Leads;
    Ordering(cfg, to, amountWei);
    Accepting(cfg, to, amountWei);
    Starting(cfg, to, amountWei);
    Failing(cfg, to, amountWei);
    Shipping(cfg, to, amountWei);
    Reading(cfg, to, amountWei);
    FirstWrite(cfg, to, amountWei);
    SecondWrite(cfg, to, amountWei);
  }

  lemma {:induction false} StagesFollow(cfg: Config, to: Address, amountWei: int, k: nat, n: nat)
    requires k <= n <= 11
    ensures S.ValidMoves(cfg, Stage(to, amountWei, k), Moves(to, amountWei)[k..n])
    ensures S.SysAfter(cfg, Stage(to, amountWei, k), Moves(to, amountWei)[k..n]) == Stage(to, amountWei, n)
    decreases n - k
  {
    if k < n {
      hide Stage, S.Step, S.CanMove;
      StageLeads(cfg, to, amountWei, k);
      StagesFollow(cfg, to, amountWei, k + 1, n);
      assert Moves(to, amountWei)[k..n][1..] == Moves(to, amountWei)[k + 1..n];
    }
  }

  /** After the first write the order has failed, after the second it has failed later. */
  lemma SettledOrderRestamped(cfg: Config, to: Address, amountWei: int)
    ensures var first, both := Moves(to, amountWei)[..10], Moves(to, amountWei);
            && S.ValidMoves(cfg, S.BEGIN, first) && S.ValidMoves(cfg, S.BEGIN, both)
            && S.SysAfter(cfg, S.BEGIN, first).orders == map[0 := SettledOrder(to, amountWei, 3 * TICK)]
            && S.SysAfter(cfg, S.BEGIN, both).orders == map[0 := SettledOrder(to, amountWei, 4 * TICK)]
  {
    StagesFollow(cfg, to, amountWei, 0, 10);
    StagesFollow(cfg, to, amountWei, 0, 11);
    assert Moves(to, amountWei)[0..10] == Moves(to, amountWei)[..10];
    assert Moves(to, amountWei)[0..11] == Moves(to, amountWei);
  }
}
