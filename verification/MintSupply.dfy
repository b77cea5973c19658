/** Amounts and bars behind the executed mints: the supply the chain has executed against the
    saga table, and the reservations that back it. */
module MintSupply {
  import opened Wrappers
  import opened MintSaga
  import opened StubChain
  import opened MintPipeline
  import SagaSafety

  // ------------------------------------------------------------------------------ supply

  function MintedUnder(c: Chain, a: nat): int {
    if OnChain(c, a, ProposalExecuted) then c.proposals[a].req.amountWei else 0
  }

  /** The total over a set of proposals, taken in any order. */
  ghost function Minted(c: Chain, keys: set<nat>): int {
    if keys == {} then 0
    else
      var a :| a in keys;
      MintedUnder(c, a) + Minted(c, keys - {a})
  }

  lemma {:induction false} MintedSplit(c: Chain, keys: set<nat>, a: nat)
    requires a in keys
    ensures Minted(c, keys) == MintedUnder(c, a) + Minted(c, keys - {a})
    decreases keys
  {
    var b :| b in keys && Minted(c, keys) == MintedUnder(c, b) + Minted(c, keys - {b});
    if b != a {
      MintedSplit(c, keys - {b}, a);
      MintedSplit(c, keys - {a}, b);
      assert keys - {b} - {a} == keys - {a} - {b};
    }
  }

  /** What a saga accounts for: its amount once completed, and while it is executing its amount
      if the call has already landed. */
  function Accounted(c: Chain, s: Saga): int {
    if s.state.Completed? then s.req.amountWei
    else if s.state.Executing? && OnChain(c, s.req.allocation, ProposalExecuted) then s.req.amountWei
    else 0
  }

  function AccountedTotal(c: Chain, sagas: seq<Saga>): int {
    if sagas == [] then 0
    else AccountedTotal(c, sagas[..|sagas| - 1]) + Accounted(c, sagas[|sagas| - 1])
  }

  lemma {:induction false} MintedIsAccounted(c: Chain, sagas: seq<Saga>, keys: set<nat>)
    requires SagaSafety.DistinctAllocations(sagas)
    requires forall i | 0 <= i < |sagas| :: SagaOnChain(c, sagas[i])
    requires forall a | a in keys :: exists i :: 0 <= i < |sagas| && sagas[i].req.allocation == a
    requires forall i | 0 <= i < |sagas| && sagas[i].req.allocation in c.proposals :: sagas[i].req.allocation in keys
    ensures Minted(c, keys) == AccountedTotal(c, sagas)
  {
    if sagas == [] {
      assert keys == {};
    } else {
      var rest, last := sagas[..|sagas| - 1], sagas[|sagas| - 1];
      var a := last.req.allocation;
      assert SagaOnChain(c, last);
      assert MintedUnder(c, a) == Accounted(c, last);
      forall b | b in keys - {a} ensures exists i :: 0 <= i < |rest| && rest[i].req.allocation == b {
        var i :| 0 <= i < |sagas| && sagas[i].req.allocation == b;
        assert rest[i].req.allocation == b;
      }
      MintedIsAccounted(c, rest, keys - {a});
      if a in keys {
        MintedSplit(c, keys, a);
      } else {
        assert keys - {a} == keys;
      }
    }
  }

  /** The supply executed on the chain is the completed sagas' amounts plus those of executing
      sagas whose call landed, and nothing else. */
  lemma ExecutedSupplyIsAccounted(cfg: Config, moves: seq<Move>)
    requires ValidPlay(cfg, START, moves) && cfg.approvalThreshold >= REQUIRED_APPROVALS
    ensures var w := WorldAfter(cfg, START, moves);
            Minted(w.chain, w.chain.proposals.Keys) == AccountedTotal(w.chain, w.db.sagas)
  {
    PlayAgrees(cfg, START, moves);
    var w := WorldAfter(cfg, START, moves);
    forall a | a in w.chain.proposals.Keys
      ensures exists i :: 0 <= i < |w.db.sagas| && w.db.sagas[i].req.allocation == a
    {
      assert AllocationTaken(w.db, a);
    }
    MintedIsAccounted(w.chain, w.db.sagas, w.chain.proposals.Keys);
  }

  // -------------------------------------------------------------------------------- bars

  /** A saga that gave its bars back without recording it is waiting past its deadline. */
  ghost predicate BackedOrOverdueAt(cfg: Config, w: World, i: nat)
    requires i < |w.db.sagas|
  {
    SagaSafety.Backed(w.db, i)
    || (w.db.sagas[i].state.AwaitingApprovals? && TimedOut(cfg, w.db.sagas[i], w.clock))
  }

  ghost predicate BackedOrOverdue(cfg: Config, w: World) {
    forall i | 0 <= i < |w.db.sagas| :: BackedOrOverdueAt(cfg, w, i)
  }

  lemma MovedSagaBacking(cfg: Config, w: World, step: Step)
    requires Agree(w) && step.Advance? && Possible(w, SagaMove(step))
    requires BackedOrOverdueAt(cfg, w, step.id)
    ensures BackedOrOverdueAt(cfg, NextWorld(cfg, w, SagaMove(step)), step.id)
  {
    var s, r := w.db.sagas[step.id], Answered(w, step).replies;
    var o := Handle(cfg, step.id, s, step.now, r);
    assert SagaOnChain(w.chain, s);
    if s.state.AwaitingApprovals? && TimedOut(cfg, s, step.now) {
    } else if s.state.ReservingBars? {
    } else {
      assert !Compensates(o);
    }
  }

  lemma OtherSagaBacking(cfg: Config, w: World, step: Step, i: nat)
    requires Agree(w) && step.Advance? && Possible(w, SagaMove(step))
    requires i < |w.db.sagas| && i != step.id && BackedOrOverdueAt(cfg, w, i)
    ensures BackedOrOverdueAt(cfg, NextWorld(cfg, w, SagaMove(step)), i)
  {
    var next := NextWorld(cfg, w, SagaMove(step));
    var a := w.db.sagas[i].req.allocation;
    assert a != w.db.sagas[step.id].req.allocation;
    assert next.db.sagas[i] == w.db.sagas[i];
    assert forall b :: Hold(a, b) in w.db.held ==> Hold(a, b) in next.db.held;
  }

  lemma MoveKeepsBacking(cfg: Config, w: World, m: Move)
    requires Agree(w) && BackedOrOverdue(cfg, w) && Possible(w, m)
    ensures BackedOrOverdue(cfg, NextWorld(cfg, w, m))
  {
    var next := NextWorld(cfg, w, m);
    forall i | 0 <= i < |next.db.sagas| ensures BackedOrOverdueAt(cfg, next, i) {
      if i < |w.db.sagas| {
        assert BackedOrOverdueAt(cfg, w, i);
        if m.SagaMove? && m.step.Advance? {
          if i == m.step.id {
            MovedSagaBacking(cfg, w, m.step);
          } else {
            OtherSagaBacking(cfg, w, m.step, i);
          }
        }
      }
    }
  }

  lemma {:induction false} PlayKeepsBacking(cfg: Config, w: World, moves: seq<Move>)
    requires Agree(w) && BackedOrOverdue(cfg, w)
    requires ValidPlay(cfg, w, moves) && cfg.approvalThreshold >= REQUIRED_APPROVALS
    ensures BackedOrOverdue(cfg, WorldAfter(cfg, w, moves))
    decreases |moves|
  {
    if moves != [] {
      MoveKeepsBacking(cfg, w, moves[0]);
      assert WorldAfter(cfg, w, moves[..1]) == NextWorld(cfg, w, moves[0]) by {
        assert moves[..1][1..] == [];
        assert ValidPlay(cfg, NextWorld(cfg, w, moves[0]), []);
      }
      PlayAgrees(cfg, w, moves[..1]);
      PlayKeepsBacking(cfg, NextWorld(cfg, w, moves[0]), moves[1..]);
    }
  }

  /** Against this chain a completed mint is always backed: the saga still holds every bar it
      reserved, although releases precede the writes that record them. */
  lemma CompletedMintsAreBacked(cfg: Config, moves: seq<Move>, i: nat)
    requires ValidPlay(cfg, START, moves) && cfg.approvalThreshold >= REQUIRED_APPROVALS
    requires i < |WorldAfter(cfg, START, moves).db.sagas|
    ensures var db := WorldAfter(cfg, START, moves).db;
            db.sagas[i].state.Completed? || db.sagas[i].state.Executing? ==>
              forall b | b in db.sagas[i].bars :: Hold(db.sagas[i].req.allocation, b) in db.held
  {
    PlayKeepsBacking(cfg, START, moves);
    var w := WorldAfter(cfg, START, moves);
    assert BackedOrOverdueAt(cfg, w, i);
  }

  // ------------------------------------------------------------------------- the premises

  /** An approval leaves an executing saga executable exactly if it does not wrap the counter. */
  lemma ApprovalKeepsExecutable(w: World, s: Saga)
    requires SagaOnChain(w.chain, s) && s.state.Executing?
    ensures var a := s.req.allocation;
            && Possible(w, Approve(a))
            && (ExecuteReply(Approved(w.chain, a), a).Ok? <==> w.chain.proposals[a].approvals < 255)
  {
  }

  function ApprovedTimes(c: Chain, a: nat, n: nat): (r: Chain)
    requires a in c.proposals
    ensures a in r.proposals
  {
    if n == 0 then c else Approved(ApprovedTimes(c, a, n - 1), a)
  }

  lemma OneMore(x: int)
    ensures (x % 256 + 1) % 256 == (x + 1) % 256
  {
  }

  lemma {:induction false} ApprovalsAdd(c: Chain, a: nat, n: nat)
    requires a in c.proposals
    ensures ApprovedTimes(c, a, n).proposals[a].approvals == (c.proposals[a].approvals + n) % 256
  {
    if n > 0 {
      ApprovalsAdd(c, a, n - 1);
      OneMore(c.proposals[a].approvals + n - 1);
    }
  }

  /** After any number of approvals: a proposal can be executed exactly if their number, modulo 256,
      is at least three. */
  lemma ExecutableExactly(c: Chain, a: nat, n: nat)
    requires a in c.proposals
    ensures ExecuteReply(ApprovedTimes(c, a, n), a).Ok? <==> (c.proposals[a].approvals + n) % 256 >= REQUIRED_APPROVALS
  {
    hide ApprovedTimes, TxHash;
    ApprovalsAdd(c, a, n);
  }

  /** A saga in execution ends as the chain answers. */
  lemma ExecutionDecides(cfg: Config, w: World, i: nat, now: Time, r: Replies)
    requires i < |w.db.sagas| && w.db.sagas[i].state.Executing?
    ensures var retry := Answered(w, Advance(i, now, r, true));
            var end := Stepped(cfg, w.db, i, now, retry.replies, true).sagas[i].state;
            var a := w.db.sagas[i].req.allocation;
            && (ExecuteReply(w.chain, a).Ok? <==> end.Completed?)
            && (ExecuteReply(w.chain, a).Err? <==> end.Failed?)
  {
    hide HeldAfter, TxHash, ExecutedEvent, FailedEvent;
  }

  /** So enough approvals of an executing saga's proposal make its next step fail it. */
  lemma EnoughApprovalsFail(cfg: Config, w: World, i: nat, now: Time, r: Replies) returns (n: nat)
    requires Agree(w) && i < |w.db.sagas| && w.db.sagas[i].state.Executing?
    ensures w.db.sagas[i].req.allocation in w.chain.proposals
    ensures var chain := ApprovedTimes(w.chain, w.db.sagas[i].req.allocation, n);
            var retry := Answered(w.(chain := chain), Advance(i, now, r, true));
            Stepped(cfg, w.db, i, now, retry.replies, true).sagas[i].state.Failed?
  {
    assert SagaOnChain(w.chain, w.db.sagas[i]);
    var a := w.db.sagas[i].req.allocation;
    n := 256 - w.chain.proposals[a].approvals;
    hide ApprovedTimes, ExecuteReply, Stepped, Agree, SagaOnChain;
    ExecutableExactly(w.chain, a, n);
    ExecutionDecides(cfg, w.(chain := ApprovedTimes(w.chain, a, n)), i, now, r);
  }

  lemma SentToExecution(cfg: Config, w: World, id: nat, now: Time, r: Replies)
    requires Agree(w) && Possible(w, SagaMove(Advance(id, now, r, true)))
    requires w.db.sagas[id].state.AwaitingApprovals? && !TimedOut(cfg, w.db.sagas[id], now)
    requires cfg.approvalThreshold <= ApprovalsReply(w.chain, w.db.sagas[id].req.allocation).value
    ensures var sent := NextWorld(cfg, w, SagaMove(Advance(id, now, r, true)));
            && id < |sent.db.sagas| && sent.db.sagas[id].state.Executing?
            && sent.db.sagas[id].req == w.db.sagas[id].req && sent.chain == w.chain
            && w.db.sagas[id].req.allocation in w.chain.proposals
  {
    hide HeldAfter, Compensates;
    assert SagaOnChain(w.chain, w.db.sagas[id]);
  }

  /** A saga that has the approvals its own threshold asks for is sent to execution, and fails there
      exactly if the chain counts fewer than it requires, and completes otherwise. */
  lemma LowThresholdFails(cfg: Config, w: World, id: nat, now: Time, r: Replies, later: Time, r': Replies)
    requires Agree(w) && Possible(w, SagaMove(Advance(id, now, r, true)))
    requires w.db.sagas[id].state.AwaitingApprovals? && !TimedOut(cfg, w.db.sagas[id], now)
    requires cfg.approvalThreshold <= ApprovalsReply(w.chain, w.db.sagas[id].req.allocation).value
    ensures var sent := NextWorld(cfg, w, SagaMove(Advance(id, now, r, true)));
            && id < |sent.db.sagas| && sent.db.sagas[id].state.Executing?
            && (var retry := Answered(sent, Advance(id, later, r', true));
                var end := Stepped(cfg, sent.db, id, later, retry.replies, true).sagas[id].state;
                var count := ApprovalsReply(w.chain, w.db.sagas[id].req.allocation).value;
                && (end.Failed? <==> count < REQUIRED_APPROVALS)
                && (end.Completed? <==> count >= REQUIRED_APPROVALS))
  {
    hide NextWorld, Stepped, Agree, TxHash;
    SentToExecution(cfg, w, id, now, r);
    ExecutionDecides(cfg, NextWorld(cfg, w, SagaMove(Advance(id, now, r, true))), id, later, r');
  }
}
