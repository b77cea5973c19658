/** The whole system with the in-memory chain: saga steps answered by the chain, approvals, and
    everything around the sagas, in any order. */
module StubSettlement {
  import opened Wrappers
  import opened MintSaga
  import StubChain
  import P = MintPipeline
  import S = Settlement

  datatype Whole = Whole(world: P.World, sys: S.Sys)

  const BEGIN: Whole := Whole(P.START, S.BEGIN)

  datatype Move = OnChain(play: P.Move) | Around(other: S.Move)

  predicate CanMove(cfg: Config, b: Whole, m: Move) {
    match m
    case OnChain(pm) =>
      && P.Possible(b.world, pm) && P.NoWrap(b.world, pm)
      && (pm.SagaMove? ==> S.CanMove(cfg, b.sys, S.Mint(P.Answered(b.world, pm.step))))
    case Around(sm) => !sm.Mint? && S.CanMove(cfg, b.sys, sm)
  }

  function Step(cfg: Config, b: Whole, m: Move): Whole
    requires CanMove(cfg, b, m)
  {
    match m
    case OnChain(pm) =>
      Whole(P.NextWorld(cfg, b.world, pm),
            if pm.SagaMove? then S.Step(cfg, b.sys, S.Mint(P.Answered(b.world, pm.step))) else b.sys)
    case Around(sm) => b.(sys := S.Step(cfg, b.sys, sm))
  }

  ghost predicate ValidMoves(cfg: Config, b: Whole, moves: seq<Move>)
    decreases |moves|
  {
    moves == [] || (CanMove(cfg, b, moves[0]) && ValidMoves(cfg, Step(cfg, b, moves[0]), moves[1..]))
  }

  ghost function After(cfg: Config, b: Whole, moves: seq<Move>): Whole
    requires ValidMoves(cfg, b, moves)
    decreases |moves|
  {
    if moves == [] then b else After(cfg, Step(cfg, b, moves[0]), moves[1..])
  }

  /** Both sides are sound and speak of the same sagas. */
  ghost predicate Joined(b: Whole) {
    P.Agree(b.world) && S.Linked(b.sys) && b.world.db == b.sys.db
  }

  lemma StepJoined(cfg: Config, b: Whole, m: Move)
    requires Joined(b) && CanMove(cfg, b, m) && cfg.approvalThreshold >= StubChain.REQUIRED_APPROVALS
    ensures Joined(Step(cfg, b, m))
  {
    hide P.Agree, S.Linked;
    match m
    case OnChain(pm) =>
      assert [pm][1..] == [] && P.ValidPlay(cfg, P.NextWorld(cfg, b.world, pm), []);
      P.PlayAgrees(cfg, b.world, [pm]);
      OneMove(cfg, b.world, pm);
      if pm.SagaMove? {
        S.StepLinked(cfg, b.sys, S.Mint(P.Answered(b.world, pm.step)));
      }
    case Around(sm) => S.StepLinked(cfg, b.sys, sm);
  }

  lemma OneMove(cfg: Config, w: P.World, pm: P.Move)
    requires P.ValidPlay(cfg, w, [pm])
    ensures P.WorldAfter(cfg, w, [pm]) == P.NextWorld(cfg, w, pm)
  {
    assert [pm][1..] == [];
  }

  lemma {:induction false} MovesJoined(cfg: Config, b: Whole, moves: seq<Move>)
    requires Joined(b) && ValidMoves(cfg, b, moves) && cfg.approvalThreshold >= StubChain.REQUIRED_APPROVALS
    ensures Joined(After(cfg, b, moves))
    decreases |moves|
  {
    if moves != [] {
      hide Joined, Step, CanMove;
      StepJoined(cfg, b, moves[0]);
      MovesJoined(cfg, Step(cfg, b, moves[0]), moves[1..]);
    }
  }

  /** After any run, an executed mint that is delivered to a known wallet has its own row. */
  lemma EveryDeliveredMintIsLogged(cfg: Config, moves: seq<Move>, k: nat, owner: nat)
    requires ValidMoves(cfg, BEGIN, moves) && cfg.approvalThreshold >= StubChain.REQUIRED_APPROVALS
    requires S.CanMove(cfg, After(cfg, BEGIN, moves).sys, S.Log(k, Some(owner)))
    requires S.EventAt(After(cfg, BEGIN, moves).sys, k).MintExecuted?
    ensures var s := After(cfg, BEGIN, moves).sys;
            S.RecordsMint(S.Step(cfg, s, S.Log(k, Some(owner))), S.EventAt(s, k).txHash, S.EventAt(s, k).saga)
  {
    S.BeginLinked();
    assert Joined(BEGIN);
    MovesJoined(cfg, BEGIN, moves);
    var b := After(cfg, BEGIN, moves);
    S.DeliveredMintIsLogged(cfg, b.sys, b.world, k, owner);
  }
}
