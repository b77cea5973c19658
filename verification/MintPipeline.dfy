/** Sagas driving the in-memory chain: what the two keep together through lost writes and re-run
    handlers, with approvals arriving at any moment. */
module MintPipeline {
  import opened Wrappers
  import opened MintSaga
  import opened StubChain
  import SagaSafety
  import SagaWorker

  datatype World = World(db: Db, chain: Chain, clock: Time)

  datatype Move = SagaMove(step: Step) | Approve(allocation: nat)

  const START: World := World(EMPTY, Chain(map[], 0), 0)

  /** The step with the answers this chain gives. */
  function Answered(w: World, step: Step): Step
    requires step.Advance? ==> step.id < |w.db.sagas|
  {
    match step
    case Accept(_, _, _) => step
    case Advance(id, now, r, commit) =>
      var a := w.db.sagas[id].req.allocation;
      Advance(id, now,
              r.(propose := ProposeReply(w.chain), approvals := ApprovalsReply(w.chain, a), execute := ExecuteReply(w.chain, a)),
              commit)
  }

  function ChainAfter(w: World, step: Step): Chain
    requires step.Advance? ==> step.id < |w.db.sagas|
  {
    if step.Accept? then w.chain
    else
      var s := w.db.sagas[step.id];
      match s.state
      case Proposing => Proposed(w.chain, s.req)
      case Executing => Executed(w.chain, s.req.allocation)
      case _ => w.chain
  }

  /** The clock advances strictly from step to step. */
  predicate Possible(w: World, m: Move) {
    match m
    case SagaMove(step) => Enabled(w.db, step) && w.clock < step.now
    case Approve(a) => a in w.chain.proposals
  }

  function NextWorld(cfg: Config, w: World, m: Move): World
    requires Possible(w, m)
  {
    match m
    case SagaMove(step) => World(Next(cfg, w.db, Answered(w, step)), ChainAfter(w, step), step.now)
    case Approve(a) => w.(chain := Approved(w.chain, a))
  }

  /** The one-byte approval counter of an executing saga's proposal is not pushed past its largest
      value. */
  predicate NoWrap(w: World, m: Move)
    requires Possible(w, m)
  {
    m.Approve? ==>
      forall i | 0 <= i < |w.db.sagas| && w.db.sagas[i].state.Executing? && w.db.sagas[i].req.allocation == m.allocation ::
        w.chain.proposals[m.allocation].approvals < 255
  }

  ghost predicate ValidPlay(cfg: Config, w: World, moves: seq<Move>)
    decreases |moves|
  {
    moves == []
    || (Possible(w, moves[0]) && NoWrap(w, moves[0]) && ValidPlay(cfg, NextWorld(cfg, w, moves[0]), moves[1..]))
  }

  ghost function WorldAfter(cfg: Config, w: World, moves: seq<Move>): World
    requires ValidPlay(cfg, w, moves)
    decreases |moves|
  {
    if moves == [] then w else WorldAfter(cfg, NextWorld(cfg, w, moves[0]), moves[1..])
  }

  // ---------------------------------------------------------------- the running worker

  /** One tick of the worker against the client: the saga row is loaded, the call its state
      makes is answered by the client, and the handler finishes. */
  method Tick(o: SagaWorker.Orchestrator, mc: StubClient, ghost clock: Time, now: Time, r: Replies, tx: SagaWorker.TxFate)
    returns (stepped: Option<nat>)
    requires o.store as object != mc && clock < now
    modifies o.store, mc
    ensures var w := World(old(o.store.View()), old(mc.View()), clock);
            && (stepped.None? ==> o.store.View() == w.db && mc.View() == w.chain)
            && (stepped.Some? ==> exists commit ::
                  var m := SagaMove(Advance(stepped.value, now, r, commit));
                  && Possible(w, m)
                  && World(o.store.View(), mc.View(), now) == NextWorld(o.cfg, w, m))
  {
    stepped := o.store.NextPending(now);
    if stepped.None? {
      return;
    }
    var id := stepped.value;
    var s := o.store.sagas[id];
    ghost var w := World(o.store.View(), mc.View(), clock);
    var a := s.req.allocation;
    var answers := r.(propose := ProposeReply(Chain(mc.proposals, mc.nextTx)),
                      execute := ExecuteReply(Chain(mc.proposals, mc.nextTx), a));
    var count := mc.ApprovalCount(a);
    answers := answers.(approvals := count);
    if s.state.Proposing? {
      var tx' := mc.ProposeMint(s.req);
      answers := answers.(propose := tx');
    } else if s.state.Executing? {
      var tx' := mc.ExecuteMint(a);
      answers := answers.(execute := tx');
    }
    var ok := o.Step(id, s, now, answers, tx);
    ghost var commit := o.Commits(s, now, answers, tx);
    ghost var m := SagaMove(Advance(id, now, r, commit));
    assert Possible(w, m);
    assert Answered(w, m.step) == Advance(id, now, answers, commit);
  }

  // -------------------------------------------------------------------------- invariants

  ghost predicate Issued(tx: string, nextTx: nat) {
    exists k | 1 <= k <= nextTx :: tx == TxHash("execute", k)
  }

  predicate OnChain(c: Chain, a: nat, status: ProposalStatus) {
    a in c.proposals && c.proposals[a].status == status
  }

  /** What the chain knows of a saga's proposal in each state of the saga. */
  predicate SagaOnChain(c: Chain, s: Saga) {
    var a := s.req.allocation;
    && (a in c.proposals ==> c.proposals[a].req == s.req)
    && match s.state
       case Created => a !in c.proposals
       case ReservingBars => a !in c.proposals
       case FailedNoStock => a !in c.proposals
       case Proposing => a in c.proposals ==> c.proposals[a].status.ProposalProposed?
       case AwaitingApprovals => OnChain(c, a, ProposalProposed)
       case FailedApprovalTimeout => OnChain(c, a, ProposalProposed)
       case Executing => a in c.proposals && c.proposals[a].approvals >= REQUIRED_APPROVALS
       case Completed => OnChain(c, a, ProposalExecuted) && c.proposals[a].executedTx == s.executeTx
       case _ => false
  }

  ghost predicate ProposalsConsistent(c: Chain) {
    && (forall a | a in c.proposals ::
          c.proposals[a].status.ProposalProposed? || c.proposals[a].status.ProposalExecuted?)
    && (forall a | a in c.proposals && c.proposals[a].status.ProposalExecuted? ::
          Issued(c.proposals[a].executedTx, c.nextTx))
    && (forall a, b | a in c.proposals && b in c.proposals && a != b
                      && c.proposals[a].status.ProposalExecuted? && c.proposals[b].status.ProposalExecuted? ::
          c.proposals[a].executedTx != c.proposals[b].executedTx)
  }

  ghost predicate Agree(w: World) {
    && SagaSafety.Consistent(w.db)
    && (forall i | 0 <= i < |w.db.sagas| :: SagaOnChain(w.chain, w.db.sagas[i]))
    && (forall a | a in w.chain.proposals :: AllocationTaken(w.db, a))
    && ProposalsConsistent(w.chain)
  }

  lemma IssuedLater(tx: string, m: nat, n: nat)
    requires Issued(tx, m) && m <= n
    ensures Issued(tx, n)
  {
  }

  lemma JustIssued(n: nat)
    requires n >= 1
    ensures Issued(TxHash("execute", n), n)
  {
  }

  lemma IssuedIsOld(tx: string, n: nat)
    requires Issued(tx, n)
    ensures tx != TxHash("execute", n + 1)
  {
    var k :| 1 <= k <= n && tx == TxHash("execute", k);
    if tx == TxHash("execute", n + 1) {
      TxHashInjective("execute", k, n + 1);
    }
  }

  lemma ProposedConsistent(c: Chain, req: MintRequest)
    requires ProposalsConsistent(c)
    ensures ProposalsConsistent(Proposed(c, req))
  {
  }

  lemma ExecutedConsistent(c: Chain, id: nat)
    requires ProposalsConsistent(c)
    ensures ProposalsConsistent(Executed(c, id))
  {
    hide Issued, TxHash;
    var c' := Executed(c, id);
    if c' != c {
      assert c'.proposals[id].executedTx == TxHash("execute", c'.nextTx);
      JustIssued(c'.nextTx);
      forall a | a in c'.proposals && a != id && c'.proposals[a].status.ProposalExecuted?
        ensures Issued(c'.proposals[a].executedTx, c'.nextTx)
        ensures c'.proposals[a].executedTx != c'.proposals[id].executedTx
      {
        IssuedLater(c.proposals[a].executedTx, c.nextTx, c'.nextTx);
        IssuedIsOld(c.proposals[a].executedTx, c.nextTx);
      }
    }
  }

  lemma AcceptAgrees(cfg: Config, w: World, step: Step)
    requires Agree(w) && Possible(w, SagaMove(step)) && step.Accept?
    ensures Agree(NextWorld(cfg, w, SagaMove(step)))
  {
    var next := NextWorld(cfg, w, SagaMove(step));
    SagaSafety.StepConsistent(cfg, w.db, step);
    forall i | 0 <= i < |next.db.sagas| ensures SagaOnChain(next.chain, next.db.sagas[i]) {
      if i < |w.db.sagas| {
        assert SagaOnChain(w.chain, w.db.sagas[i]);
      }
    }
    forall a | a in next.chain.proposals ensures AllocationTaken(next.db, a) {
      var i :| 0 <= i < |w.db.sagas| && w.db.sagas[i].req.allocation == a;
      assert next.db.sagas[i].req.allocation == a;
    }
  }

  /** The saga that moves, whether or not its write lands. */
  lemma MovedSagaOnChain(cfg: Config, w: World, step: Step)
    requires Agree(w) && Possible(w, SagaMove(step)) && step.Advance?
    requires cfg.approvalThreshold >= REQUIRED_APPROVALS
    ensures |Next(cfg, w.db, Answered(w, step)).sagas| == |w.db.sagas|
    ensures SagaOnChain(ChainAfter(w, step), Next(cfg, w.db, Answered(w, step)).sagas[step.id])
  {
    assert step.id < |w.db.sagas| && SagaOnChain(w.chain, w.db.sagas[step.id]);
    hide SagaSafety.Consistent, ProposalsConsistent, AllocationTaken, HeldAfter;
  }

  lemma OtherSagasOnChain(cfg: Config, w: World, step: Step, i: nat)
    requires Agree(w) && Possible(w, SagaMove(step)) && step.Advance?
    requires i < |w.db.sagas| && i != step.id
    ensures i < |NextWorld(cfg, w, SagaMove(step)).db.sagas|
    ensures SagaOnChain(ChainAfter(w, step), NextWorld(cfg, w, SagaMove(step)).db.sagas[i])
  {
    hide ProposalsConsistent, AllocationTaken, Handle, HeldAfter;
    assert SagaOnChain(w.chain, w.db.sagas[i]);
    assert w.db.sagas[i].req.allocation != w.db.sagas[step.id].req.allocation;
  }

  lemma AllocationStaysTaken(cfg: Config, w: World, step: Step, a: nat)
    requires Agree(w) && Possible(w, SagaMove(step)) && step.Advance? && a in ChainAfter(w, step).proposals
    ensures AllocationTaken(NextWorld(cfg, w, SagaMove(step)).db, a)
  {
    var next := NextWorld(cfg, w, SagaMove(step));
    SagaSafety.StepFollowsTable(cfg, w.db, Answered(w, step));
    hide SagaOnChain, ProposalsConsistent, Next;
    if a == w.db.sagas[step.id].req.allocation {
      assert next.db.sagas[step.id].req.allocation == a;
    } else {
      assert AllocationTaken(w.db, a);
      var i :| 0 <= i < |w.db.sagas| && w.db.sagas[i].req.allocation == a;
      assert next.db.sagas[i].req.allocation == a;
    }
  }

  lemma AdvanceAgrees(cfg: Config, w: World, step: Step)
    requires Agree(w) && Possible(w, SagaMove(step)) && step.Advance?
    requires cfg.approvalThreshold >= REQUIRED_APPROVALS
    ensures Agree(NextWorld(cfg, w, SagaMove(step)))
  {
    hide ProposalsConsistent, SagaOnChain, AllocationTaken, Next, SagaSafety.Consistent, Eligible;
    var next := NextWorld(cfg, w, SagaMove(step));
    SagaSafety.StepConsistent(cfg, w.db, Answered(w, step));
    ProposedConsistent(w.chain, w.db.sagas[step.id].req);
    ExecutedConsistent(w.chain, w.db.sagas[step.id].req.allocation);
    MovedSagaOnChain(cfg, w, step);
    forall i | 0 <= i < |next.db.sagas| ensures SagaOnChain(next.chain, next.db.sagas[i]) {
      if i != step.id {
        OtherSagasOnChain(cfg, w, step, i);
      }
    }
    forall a | a in next.chain.proposals ensures AllocationTaken(next.db, a) {
      AllocationStaysTaken(cfg, w, step, a);
    }
  }

  lemma ApproveAgrees(w: World, a: nat)
    requires Agree(w) && Possible(w, Approve(a)) && NoWrap(w, Approve(a))
    ensures Agree(w.(chain := Approved(w.chain, a)))
  {
    var c := Approved(w.chain, a);
    forall i | 0 <= i < |w.db.sagas| ensures SagaOnChain(c, w.db.sagas[i]) {
      assert SagaOnChain(w.chain, w.db.sagas[i]);
    }
  }

  lemma {:induction false} PlayAgrees(cfg: Config, w: World, moves: seq<Move>)
    requires Agree(w) && ValidPlay(cfg, w, moves) && cfg.approvalThreshold >= REQUIRED_APPROVALS
    ensures Agree(WorldAfter(cfg, w, moves))
    decreases |moves|
  {
    if moves != [] {
      match moves[0] {
        case SagaMove(step) =>
          if step.Accept? {
            AcceptAgrees(cfg, w, step);
          } else {
            AdvanceAgrees(cfg, w, step);
          }
        case Approve(a) => ApproveAgrees(w, a);
      }
      PlayAgrees(cfg, NextWorld(cfg, w, moves[0]), moves[1..]);
    }
  }

  lemma SameTxSameSaga(w: World, i: nat, j: nat)
    requires Agree(w) && i < |w.db.sagas| && j < |w.db.sagas|
    requires w.db.sagas[i].state.Completed? && w.db.sagas[j].state.Completed?
    requires w.db.sagas[i].executeTx == w.db.sagas[j].executeTx
    ensures i == j
  {
  }

  /** However often a write is lost after its call landed, and whenever approvals arrive: a saga
      that reached execution can only complete, a failed saga's proposal was never executed, a
      completed saga names the execution the chain recorded, and no two completed sagas name
      the same one. */
  lemma OutcomesMatchTheChain(cfg: Config, moves: seq<Move>)
    requires ValidPlay(cfg, START, moves) && cfg.approvalThreshold >= REQUIRED_APPROVALS
    ensures var w := WorldAfter(cfg, START, moves);
            && (forall i | 0 <= i < |w.db.sagas| ::
                  var s := w.db.sagas[i];
                  && (s.state.Executing? ==> ExecuteReply(w.chain, s.req.allocation).Ok?)
                  && (s.state.IsFailure() ==> !OnChain(w.chain, s.req.allocation, ProposalExecuted))
                  && (s.state.Completed? ==>
                        OnChain(w.chain, s.req.allocation, ProposalExecuted)
                        && w.chain.proposals[s.req.allocation].executedTx == s.executeTx
                        && w.chain.proposals[s.req.allocation].req == s.req)
                  && !s.state.Failed? && !s.state.FailedReserveInvariant?)
            && (forall i, j | 0 <= i < j < |w.db.sagas| && w.db.sagas[i].state.Completed? && w.db.sagas[j].state.Completed? ::
                  w.db.sagas[i].executeTx != w.db.sagas[j].executeTx)
  {
    PlayAgrees(cfg, START, moves);
    var w := WorldAfter(cfg, START, moves);
    forall i | 0 <= i < |w.db.sagas| ensures SagaOnChain(w.chain, w.db.sagas[i]) && w.db.sagas[i].state.IsMint() {
      assert SagaSafety.SagaConsistent(w.db, i);
    }
    forall i, j | 0 <= i < j < |w.db.sagas| && w.db.sagas[i].state.Completed? && w.db.sagas[j].state.Completed?
      ensures w.db.sagas[i].executeTx != w.db.sagas[j].executeTx
    {
      if w.db.sagas[i].executeTx == w.db.sagas[j].executeTx {
        SameTxSameSaga(w, i, j);
      }
    }
  }
}
