/** Two whole runs from an empty database in which a lost write makes the outcome of a mint and
    what happened to it part ways. They show that the conditions of SagaSafety are needed. */
module LostWrites {
  import opened Wrappers
  import opened MintSaga
  import SagaSafety

  const TICK: int := POLL_BACKOFF + 1

  predicate Usual(cfg: Config) {
    cfg.approvalThreshold <= 3 && cfg.approvalTimeout >= 4 * TICK
  }

  /** Everything succeeds, with three approvals. */
  function Good(bars: seq<string>): Replies {
    Replies(Ok(bars), {}, Ok("proposal"), Ok(3), Ok("execution"), true)
  }

  function Bad(bars: seq<string>): Replies {
    Good(bars).(execute := Err(ErrProposalNotFound))
  }

  /** A mint that is accepted and taken up to its execution, one step a tick. */
  function UpToExecution(req: MintRequest, bars: seq<string>): seq<Step> {
    [Accept(req, 0, true), Advance(0, TICK, Good(bars), true), Advance(0, 2 * TICK, Good(bars), true),
     Advance(0, 3 * TICK, Good(bars), true), Advance(0, 4 * TICK, Good(bars), true)]
  }

  function Executing(req: MintRequest, bars: seq<string>): Saga {
    Saga(SagaState.Executing, req, bars, "proposal", "", "", "", 0, 4 * TICK, None, 4)
  }

  function AtExecution(req: MintRequest, bars: seq<string>): Db {
    Db([Executing(req, bars)], [], Reserved({}, req.allocation, Elements(bars)))
  }

  lemma Prepend(cfg: Config, db: Db, step: Step, rest: seq<Step>)
    requires Enabled(db, step) && ValidRun(cfg, Next(cfg, db, step), rest)
    ensures ValidRun(cfg, db, [step] + rest)
    ensures After(cfg, db, [step] + rest, |rest| + 1) == After(cfg, Next(cfg, db, step), rest, |rest|)
  {
  }

  /** The database after each of those steps. */
  function Stage(req: MintRequest, bars: seq<string>, k: nat): Db
    requires k <= 5
  {
    var s := NewSaga(req, 0);
    var held := Reserved({}, req.allocation, Elements(bars));
    if k == 0 then EMPTY
    else if k == 1 then Db([s], [], {})
    else if k == 2 then Db([s.(state := ReservingBars, lastStepAt := TICK, attempts := 1)], [], {})
    else if k == 3 then Db([s.(state := Proposing, bars := bars, lastStepAt := 2 * TICK, attempts := 2)], [], held)
    else if k == 4 then
      var waiting := s.(state := AwaitingApprovals, bars := bars, proposalTx := "proposal");
      Db([waiting.(lastStepAt := 3 * TICK, attempts := 3)], [], held)
    else AtExecution(req, bars)
  }

  predicate Leads(cfg: Config, req: MintRequest, bars: seq<string>, k: nat)
    requires k < 5
  {
    && Enabled(Stage(req, bars, k), UpToExecution(req, bars)[k])
    && Next(cfg, Stage(req, bars, k), UpToExecution(req, bars)[k]) == Stage(req, bars, k + 1)
  }

  lemma FirstStages(cfg: Config, req: MintRequest, bars: seq<string>)
    ensures Leads(cfg, req, bars, 0) && Leads(cfg, req, bars, 1)
  {
  }

  lemma MiddleStages(cfg: Config, req: MintRequest, bars: seq<string>)
    ensures Leads(cfg, req, bars, 2) && Leads(cfg, req, bars, 3)
  {
  }

  lemma LastStage(cfg: Config, req: MintRequest, bars: seq<string>)
    requires Usual(cfg)
    ensures Leads(cfg, req, bars, 4)
  {
  }

  lemma StageStep(cfg: Config, req: MintRequest, bars: seq<string>, k: nat)
    requires Usual(cfg) && k < 5
    ensures Leads(cfg, req, bars, k)
  {
    hide Leads;
    FirstStages(cfg, req, bars);
    MiddleStages(cfg, req, bars);
    LastStage(cfg, req, bars);
  }

  lemma {:induction false} ReachesExecution(cfg: Config, req: MintRequest, bars: seq<string>, k: nat, rest: seq<Step>)
    requires Usual(cfg) && k <= 5 && ValidRun(cfg, AtExecution(req, bars), rest)
    ensures var steps := UpToExecution(req, bars)[k..] + rest;
            && ValidRun(cfg, Stage(req, bars, k), steps)
            && After(cfg, Stage(req, bars, k), steps, |steps|) == After(cfg, AtExecution(req, bars), rest, |rest|)
    decreases 5 - k
  {
    var all := UpToExecution(req, bars);
    if k == 5 {
      assert all[5..] + rest == rest;
    } else {
      hide Next, Enabled, ValidRun, After, Stage, AtExecution;
      StageStep(cfg, req, bars, k);
      ReachesExecution(cfg, req, bars, k + 1, rest);
      Prepend(cfg, Stage(req, bars, k), all[k], all[k + 1..] + rest);
      assert [all[k]] + (all[k + 1..] + rest) == all[k..] + rest;
    }
  }

  lemma LostThenRefused(cfg: Config, req: MintRequest, bars: seq<string>)
    ensures var db := AtExecution(req, bars);
            var rest := [Advance(0, 5 * TICK, Good(bars), false), Advance(0, 6 * TICK, Bad(bars), true)];
            && ValidRun(cfg, db, rest)
            && After(cfg, db, rest, 2).outbox == [MintFailed(0, req.order, "execute_failed", ErrProposalNotFound.Text())]
            && |After(cfg, db, rest, 2).sagas| == 1 && After(cfg, db, rest, 2).sagas[0].state.Failed?
  {
  }

  /** A chain that executes a proposal once, as the deployed controller does, and a lost write
      after it did: the retry is refused, and a mint that went through is announced as failed. */
  lemma ExecutedMintAnnouncedFailed(cfg: Config, req: MintRequest, bars: seq<string>)
    requires Usual(cfg)
    ensures var rest := [Advance(0, 5 * TICK, Good(bars), false), Advance(0, 6 * TICK, Bad(bars), true)];
            var steps := UpToExecution(req, bars) + rest;
            && ValidRun(cfg, EMPTY, steps)
            && SagaSafety.ExecutedBy(cfg, steps, 7, 0)
            && var db := After(cfg, EMPTY, steps, 7);
               && |db.sagas| == 1 && db.sagas[0].state.Failed?
               && db.outbox == [MintFailed(0, req.order, "execute_failed", ErrProposalNotFound.Text())]
  {
    var rest := [Advance(0, 5 * TICK, Good(bars), false), Advance(0, 6 * TICK, Bad(bars), true)];
    LostThenRefused(cfg, req, bars);
    ReachesExecution(cfg, req, bars, 0, rest);
    ReachesExecution(cfg, req, bars, 0, []);
    var up := UpToExecution(req, bars);
    assert up[0..] == up && up + [] == up;
    Prefix(cfg, EMPTY, up, rest);
    var steps := up + rest;
    hide Next, Enabled, ValidRun;
    assert SagaSafety.ExecutedAt(cfg, steps, 5, 0);
  }

  lemma {:induction false} Prefix(cfg: Config, db: Db, steps: seq<Step>, rest: seq<Step>)
    requires ValidRun(cfg, db, steps + rest)
    ensures ValidRun(cfg, db, steps)
    ensures After(cfg, db, steps + rest, |steps|) == After(cfg, db, steps, |steps|)
    decreases |steps|
  {
    if steps != [] {
      assert (steps + rest)[1..] == steps[1..] + rest;
      Prefix(cfg, Next(cfg, db, steps[0]), steps[1..], rest);
    }
  }

  /** A failed execution gives the bars back before its write, and that write is lost: the retry
      succeeds, and a mint is completed that holds none of its bars. */
  lemma CompletedWithoutBars(cfg: Config, req: MintRequest, bars: seq<string>)
    requires Usual(cfg)
    ensures var rest := [Advance(0, 5 * TICK, Bad(bars), false), Advance(0, 6 * TICK, Good(bars), true)];
            var steps := UpToExecution(req, bars) + rest;
            && ValidRun(cfg, EMPTY, steps)
            && var db := After(cfg, EMPTY, steps, 7);
               && |db.sagas| == 1 && db.sagas[0].state.Completed? && db.sagas[0].bars == bars
               && db.held == {}
               && (SagaSafety.Backed(db, 0) <==> bars == [])
  {
    var lost, retry := Advance(0, 5 * TICK, Bad(bars), false), Advance(0, 6 * TICK, Good(bars), true);
    var db := AtExecution(req, bars);
    var empty := Db(db.sagas, [], {});
    assert Enabled(db, lost) && Next(cfg, db, lost) == empty;
    assert Enabled(empty, retry);
    var end := Next(cfg, empty, retry);
    Prepend(cfg, empty, retry, []);
    Prepend(cfg, db, lost, [retry]);
    assert [lost] + ([retry] + []) == [lost, retry];
    ReachesExecution(cfg, req, bars, 0, [lost, retry]);
    assert UpToExecution(req, bars)[0..] == UpToExecution(req, bars);
    if bars != [] {
      assert bars[0] in end.sagas[0].bars;
    }
  }
}
