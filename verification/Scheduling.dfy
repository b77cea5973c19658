/** Which saga the poller picks: no pending saga is overtaken twice, and every saga ends. */
module Scheduling {
  import opened Wrappers
  import opened MintSaga
  import SagaSafety
  import SagaWorker

  /** One clock, read once a step, that never repeats. */
  predicate Clocked(steps: seq<Step>) {
    forall p, q | 0 <= p < q < |steps| :: steps[p].now < steps[q].now
  }

  predicate Writes(cfg: Config, db: Db, step: Step)
    requires Enabled(db, step)
  {
    step.Advance? && step.commit && !Handle(cfg, step.id, db.sagas[step.id], step.now, step.replies).Aborted?
  }

  // ---------------------------------------------------------------------------- fairness

  lemma {:induction false} StampsBehindClock(cfg: Config, steps: seq<Step>, k: nat, q: nat, i: nat)
    requires ValidRun(cfg, EMPTY, steps) && Clocked(steps) && k <= q < |steps|
    requires i < |After(cfg, EMPTY, steps, k).sagas|
    ensures After(cfg, EMPTY, steps, k).sagas[i].lastStepAt < steps[q].now
  {
    if k > 0 {
      AfterStep(cfg, EMPTY, steps, k - 1);
      var before := After(cfg, EMPTY, steps, k - 1);
      if i < |before.sagas| {
        StampsBehindClock(cfg, steps, k - 1, q, i);
      }
    }
  }

  lemma {:induction false} StampsGrow(cfg: Config, steps: seq<Step>, j: nat, k: nat, i: nat)
    requires ValidRun(cfg, EMPTY, steps) && Clocked(steps) && j <= k <= |steps|
    requires i < |After(cfg, EMPTY, steps, j).sagas|
    ensures i < |After(cfg, EMPTY, steps, k).sagas|
    ensures After(cfg, EMPTY, steps, j).sagas[i].lastStepAt <= After(cfg, EMPTY, steps, k).sagas[i].lastStepAt
    decreases k - j
  {
    if j < k {
      StampsGrow(cfg, steps, j, k - 1, i);
      AfterStep(cfg, EMPTY, steps, k - 1);
      StampsBehindClock(cfg, steps, k - 1, k - 1, i);
    }
  }

  ghost predicate SteppedBetween(steps: seq<Step>, j: nat, k: nat, y: nat)
    requires j <= k <= |steps|
  {
    exists p | j < p < k :: steps[p].Advance? && steps[p].id == y
  }

  lemma {:induction false} UnsteppedStays(cfg: Config, steps: seq<Step>, j: nat, k: nat, y: nat)
    requires ValidRun(cfg, EMPTY, steps) && j < k <= |steps|
    requires y < |After(cfg, EMPTY, steps, j + 1).sagas| && !SteppedBetween(steps, j, k, y)
    ensures y < |After(cfg, EMPTY, steps, k).sagas|
    ensures After(cfg, EMPTY, steps, k).sagas[y] == After(cfg, EMPTY, steps, j + 1).sagas[y]
    decreases k - j
  {
    if j + 1 < k {
      assert !SteppedBetween(steps, j, k - 1, y);
      UnsteppedStays(cfg, steps, j, k - 1, y);
      AfterStep(cfg, EMPTY, steps, k - 1);
    }
  }

  /** No saga is stepped twice, the first time with its write in place, while another saga that
      was already pending is not stepped in between. */
  lemma NoSagaOvertakesTwice(cfg: Config, steps: seq<Step>, j: nat, k: nat, x: nat, y: nat)
    requires ValidRun(cfg, EMPTY, steps) && Clocked(steps) && j < k < |steps| && x != y
    requires steps[j].Advance? && steps[j].id == x && steps[k].Advance? && steps[k].id == x
    requires (AfterStep(cfg, EMPTY, steps, j); Writes(cfg, After(cfg, EMPTY, steps, j), steps[j]))
    requires y < |After(cfg, EMPTY, steps, j).sagas| && !After(cfg, EMPTY, steps, j).sagas[y].state.IsTerminal()
    ensures SteppedBetween(steps, j, k, y)
  {
    var first, second := After(cfg, EMPTY, steps, j), After(cfg, EMPTY, steps, k);
    AfterStep(cfg, EMPTY, steps, j);
    AfterStep(cfg, EMPTY, steps, k);
    StampsBehindClock(cfg, steps, j, j, y);
    StampsGrow(cfg, steps, j + 1, k, x);
    SagaSafety.RunConsistent(cfg, EMPTY, steps, j);
    assert SagaSafety.SagaConsistent(first, y);
    if !SteppedBetween(steps, j, k, y) {
      UnsteppedStays(cfg, steps, j, k, y);
    }
  }

  /** Writing is the condition, exactly: while another saga is waiting, the saga just stepped can be
      picked again ahead of it if and only if its step did not write. */
  lemma PickedAgainExactly(cfg: Config, db: Db, step: Step, y: nat, later: Time)
    requires Enabled(db, step) && step.Advance? && step.now <= later
    requires y < |db.sagas| && y != step.id && Eligible(db.sagas[y], step.now)
    ensures IsNextPending(Next(cfg, db, step), later, step.id) <==> !Writes(cfg, db, step)
  {
    var next := Next(cfg, db, step);
    assert next.sagas[y] == db.sagas[y];
    if !Writes(cfg, db, step) {
      assert next.sagas == db.sagas;
    }
  }

  /** So a saga can hold up all the others. While the approval count of the oldest pending saga cannot be
      read, its tick changes nothing, and the same saga is the only one any later tick can
      pick. */
  lemma UnreadableCountStalls(cfg: Config, db: Db, id: nat, now: Time, r: Replies, commit: bool, later: Time, j: nat)
    requires IsNextPending(db, now, id) && db.sagas[id].state.AwaitingApprovals? && !TimedOut(cfg, db.sagas[id], now)
    requires forall i | 0 <= i < |db.sagas| && i != id && !db.sagas[i].state.IsTerminal() ::
               db.sagas[id].lastStepAt < db.sagas[i].lastStepAt
    requires r.approvals.Err? && now <= later
    ensures Next(cfg, db, Advance(id, now, r, commit)) == db
    ensures IsNextPending(db, later, j) <==> j == id
  {
  }

  // ------------------------------------------------------------------------- termination

  /** Writing steps a saga can still take once its approval deadline has passed. */
  function Rank(s: SagaState): nat {
    match s
    case Created => 4
    case ReservingBars => 3
    case Proposing => 2
    case AwaitingApprovals => 1
    case Executing => 1
    case _ => 0
  }

  function TotalRank(sagas: seq<Saga>): nat {
    if sagas == [] then 0 else TotalRank(sagas[..|sagas| - 1]) + Rank(sagas[|sagas| - 1].state)
  }

  lemma {:induction false} TotalRankBound(sagas: seq<Saga>)
    ensures TotalRank(sagas) <= 4 * |sagas|
    ensures TotalRank(sagas) == 0 ==> forall i | 0 <= i < |sagas| :: Rank(sagas[i].state) == 0
  {
    if sagas != [] {
      TotalRankBound(sagas[..|sagas| - 1]);
    }
  }

  /** Whenever the run steps saga i, its deadline has passed. Nothing is asked of other sagas,
      nor of the steps' writes, and sagas may be accepted on the way. */
  predicate PastDeadline(cfg: Config, db: Db, steps: seq<Step>, i: nat)
    requires i < |db.sagas|
  {
    forall k | 0 <= k < |steps| && steps[k].Advance? && steps[k].id == i :: TimedOut(cfg, db.sagas[i], steps[k].now)
  }

  /** The steps of the run that are writes of saga i. */
  ghost function WritesOn(cfg: Config, db: Db, steps: seq<Step>, i: nat): nat
    requires ValidRun(cfg, db, steps)
    decreases |steps|
  {
    if steps == [] then 0
    else
      (if Writes(cfg, db, steps[0]) && steps[0].id == i then 1 else 0)
      + WritesOn(cfg, Next(cfg, db, steps[0]), steps[1..], i)
  }

  lemma StepLowersRank(cfg: Config, db: Db, step: Step, i: nat)
    requires Enabled(db, step) && i < |db.sagas|
    requires step.Advance? && step.id == i ==> TimedOut(cfg, db.sagas[i], step.now)
    ensures var next := Next(cfg, db, step);
            && i < |next.sagas| && next.sagas[i].startedAt == db.sagas[i].startedAt
            && (if Writes(cfg, db, step) && step.id == i then 1 else 0) + Rank(next.sagas[i].state) <= Rank(db.sagas[i].state)
  {
  }

  /** Past its deadline a saga takes at most four writing steps in any run, however many steps
      fail to write in between, and only a settled saga has taken as many as it had left. */
  lemma {:induction false} EverySagaEnds(cfg: Config, db: Db, steps: seq<Step>, i: nat)
    requires ValidRun(cfg, db, steps) && i < |db.sagas| && PastDeadline(cfg, db, steps, i)
    ensures var end := After(cfg, db, steps, |steps|);
            && i < |end.sagas|
            && WritesOn(cfg, db, steps, i) + Rank(end.sagas[i].state) <= Rank(db.sagas[i].state) <= 4
    decreases |steps|
  {
    if steps != [] {
      var next := Next(cfg, db, steps[0]);
      StepLowersRank(cfg, db, steps[0], i);
      assert PastDeadline(cfg, next, steps[1..], i) by {
        assert forall k | 0 <= k < |steps| - 1 :: steps[1..][k] == steps[k + 1];
      }
      hide Next, Writes, Enabled, PastDeadline;
      EverySagaEnds(cfg, next, steps[1..], i);
    }
  }

  /** The writes of the first n sagas. */
  ghost function WritesOnFirst(cfg: Config, db: Db, steps: seq<Step>, n: nat): nat
    requires ValidRun(cfg, db, steps)
  {
    if n == 0 then 0 else WritesOnFirst(cfg, db, steps, n - 1) + WritesOn(cfg, db, steps, n - 1)
  }

  lemma {:induction false} FirstSagasEnd(cfg: Config, db: Db, steps: seq<Step>, n: nat)
    requires ValidRun(cfg, db, steps) && n <= |db.sagas|
    requires forall i | 0 <= i < n :: PastDeadline(cfg, db, steps, i)
    ensures var end := After(cfg, db, steps, |steps|);
            && n <= |end.sagas|
            && WritesOnFirst(cfg, db, steps, n) + TotalRank(end.sagas[..n]) <= 4 * n
  {
    var end := After(cfg, db, steps, |steps|);
    if n > 0 {
      FirstSagasEnd(cfg, db, steps, n - 1);
      EverySagaEnds(cfg, db, steps, n - 1);
      assert end.sagas[..n][..n - 1] == end.sagas[..n - 1];
    }
  }

  ghost function TotalWrites(cfg: Config, db: Db, steps: seq<Step>): nat
    requires ValidRun(cfg, db, steps)
    decreases |steps|
  {
    if steps == [] then 0
    else (if Writes(cfg, db, steps[0]) then 1 else 0) + TotalWrites(cfg, Next(cfg, db, steps[0]), steps[1..])
  }

  lemma {:induction false} FirstWrite(cfg: Config, db: Db, steps: seq<Step>, n: nat)
    requires ValidRun(cfg, db, steps) && steps != []
    ensures WritesOnFirst(cfg, db, steps, n)
            == (if Writes(cfg, db, steps[0]) && steps[0].id < n then 1 else 0)
               + WritesOnFirst(cfg, Next(cfg, db, steps[0]), steps[1..], n)
  {
    if n > 0 {
      var next := Next(cfg, db, steps[0]);
      assert WritesOn(cfg, db, steps, n - 1)
             == (if Writes(cfg, db, steps[0]) && steps[0].id == n - 1 then 1 else 0) + WritesOn(cfg, next, steps[1..], n - 1);
      hide Next, Enabled, WritesOn;
      FirstWrite(cfg, db, steps, n - 1);
    }
  }

  /** In a run that accepts no saga every write is one of those counted. */
  lemma {:induction false} EveryWriteCounts(cfg: Config, db: Db, steps: seq<Step>)
    requires ValidRun(cfg, db, steps) && |After(cfg, db, steps, |steps|).sagas| == |db.sagas|
    ensures TotalWrites(cfg, db, steps) == WritesOnFirst(cfg, db, steps, |db.sagas|)
    decreases |steps|
  {
    if steps == [] {
      NoSteps(cfg, db, |db.sagas|);
    } else {
      var next := Next(cfg, db, steps[0]);
      assert |db.sagas| <= |next.sagas| by {
        SagaSafety.StepFollowsTable(cfg, db, steps[0]);
      }
      SagasStay(cfg, next, steps[1..]);
      EveryWriteCounts(cfg, next, steps[1..]);
      FirstWrite(cfg, db, steps, |db.sagas|);
    }
  }

  lemma {:induction false} NoSteps(cfg: Config, db: Db, n: nat)
    ensures WritesOnFirst(cfg, db, [], n) == 0
  {
    if n > 0 {
      NoSteps(cfg, db, n - 1);
    }
  }

  lemma {:induction false} SagasStay(cfg: Config, db: Db, steps: seq<Step>)
    requires ValidRun(cfg, db, steps)
    ensures |db.sagas| <= |After(cfg, db, steps, |steps|).sagas|
    decreases |steps|
  {
    if steps != [] {
      SagaSafety.StepFollowsTable(cfg, db, steps[0]);
      SagasStay(cfg, Next(cfg, db, steps[0]), steps[1..]);
    }
  }

  lemma RankZeroIsTerminal(s: SagaState)
    requires s.IsMint()
    ensures Rank(s) == 0 <==> s.IsTerminal()
  {
  }

  /** Of the N sagas present when the last of their deadlines passed, all are settled once 4N of
      the following steps were writes on them, however many steps failed to write and whatever
      sagas came later. While any saga is not settled, a tick that waits out the backoff finds
      one to step. */
  lemma AllSettleWithinFourTicksEach(cfg: Config, setup: seq<Step>, steps: seq<Step>, now: Time)
    requires ValidRun(cfg, EMPTY, setup)
    requires var db := After(cfg, EMPTY, setup, |setup|);
             ValidRun(cfg, db, steps) && forall i | 0 <= i < |db.sagas| :: PastDeadline(cfg, db, steps, i)
    ensures var db := After(cfg, EMPTY, setup, |setup|);
            var end, n := After(cfg, db, steps, |steps|), |db.sagas|;
            var writes := WritesOnFirst(cfg, db, steps, n);
            && n <= |end.sagas| && writes <= 4 * n
            && (n == |end.sagas| ==> writes == TotalWrites(cfg, db, steps))
            && (writes == 4 * n ==> forall i | 0 <= i < n :: end.sagas[i].state.IsTerminal())
            && ((exists i | 0 <= i < |end.sagas| :: !end.sagas[i].state.IsTerminal())
                && (forall i | 0 <= i < |end.sagas| :: end.sagas[i].lastStepAt < now - POLL_BACKOFF)
                ==> exists id :: IsNextPending(end, now, id))
  {
    var db := After(cfg, EMPTY, setup, |setup|);
    var end, n := After(cfg, db, steps, |steps|), |db.sagas|;
    SagaSafety.RunConsistent(cfg, EMPTY, setup, |setup|);
    SagaSafety.RunConsistent(cfg, db, steps, |steps|);
    FirstSagasEnd(cfg, db, steps, n);
    if n == |end.sagas| {
      EveryWriteCounts(cfg, db, steps);
    }
    hide ValidRun, PastDeadline, After;
    TotalRankBound(end.sagas[..n]);
    forall i | 0 <= i < n
      ensures Rank(end.sagas[..n][i].state) == 0 <==> end.sagas[i].state.IsTerminal()
    {
      assert SagaSafety.SagaConsistent(end, i);
      RankZeroIsTerminal(end.sagas[i].state);
    }
    if (exists i | 0 <= i < |end.sagas| :: !end.sagas[i].state.IsTerminal())
       && forall i | 0 <= i < |end.sagas| :: end.sagas[i].lastStepAt < now - POLL_BACKOFF {
      TickFindsOne(end, now);
    }
  }

  lemma TickFindsOne(db: Db, now: Time)
    requires SagaSafety.Consistent(db)
    requires forall i | 0 <= i < |db.sagas| :: db.sagas[i].lastStepAt < now - POLL_BACKOFF
    requires exists i | 0 <= i < |db.sagas| :: !db.sagas[i].state.IsTerminal()
    ensures exists id :: IsNextPending(db, now, id)
  {
    var i :| 0 <= i < |db.sagas| && !db.sagas[i].state.IsTerminal();
    assert SagaSafety.SagaConsistent(db, i);
    assert Eligible(db.sagas[i], now);
    var id := SagaWorker.OldestExists(db, now, i, |db.sagas|);
    assert IsNextPending(db, now, id);
  }
}
